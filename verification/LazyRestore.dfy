/**
 * Sending a method to a session whose stored record may point at an older
 * connection: the session is recreated on the live one and the text of its
 * history waits for the next prompt. One send is followed through its awaits.
 * Meanwhile other operations read the session's record and, some awaits later,
 * write back what they read; nobody else resumes the session.
 */
module LazyRestore {
  import opened Prelude
  import opened ReplayQueue

  /** The two fields of a stored session that say where it lives. */
  datatype Record = Record(agentSessionId: string, lastConnectionId: string)

  /** hasBoundSession: empty strings are falsy on both sides. */
  predicate HasBound(bound: Option<string>, agentSessionId: string) {
    bound.Some? && bound.value != "" && (agentSessionId == "" || bound.value == agentSessionId)
  }

  datatype Phase =
    | ReadRecord(depth: nat)
    | AwaitLive(depth: nat, record: Record)
    | ResumeRead(depth: nat)
    | ResumeAwaitLive(depth: nat, existing: Record)
    | Collecting(depth: nat)
    | Creating(depth: nat, replay: Option<string>)
    | Storing(depth: nat, updated: Record, replay: Option<string>, written: bool)
    | Sent(depth: nat, agentSessionId: string, record: Record)
    | Failed

  /**
   * The stored record, what the live connection has bound the session to, its
   * queued replay, the history last collected, and the records other operations
   * have read.
   */
  datatype World = World(
    record: Option<Record>,
    connectionId: string,
    bound: Option<string>,
    replay: Option<string>,
    phase: Phase,
    restores: nat,
    collected: Option<string>,
    snapshots: seq<Record>)

  datatype Action =
    | Continue                         // the pending await succeeds, with nothing to report
    | Collected(replay: Option<string>)
    | NewSession(agent: string)
    | Fail                             // the pending await throws
    | OthersRead                       // another operation reads the record
    | OthersWrite(k: nat)              // and writes back the ids it read
    | OthersDelete                     // the record disappears
    | OthersPrompt                     // another prompt takes the queued replay

  /** The live connection is there: use it if it knows the session, otherwise restore first. */
  function CheckBinding(w: World, depth: nat, record: Record): World {
    if HasBound(w.bound, record.agentSessionId) then w.(phase := Sent(depth, w.bound.value, record))
    else w.(phase := ResumeRead(depth))
  }

  function DoContinue(w: World): World {
    match w.phase
    case ReadRecord(depth) => w.(phase := if w.record.Some? then AwaitLive(depth, w.record.value) else Failed)
    case AwaitLive(depth, record) => CheckBinding(w, depth, record)
    case ResumeRead(depth) => w.(phase := if w.record.Some? then ResumeAwaitLive(depth, w.record.value) else Failed)
    case ResumeAwaitLive(depth, existing) =>
      if existing.lastConnectionId == w.connectionId && HasBound(w.bound, existing.agentSessionId)
      then w.(phase := ReadRecord(depth + 1))
      else w.(phase := Collecting(depth))
    case Storing(depth, updated, replay, written) =>
      if !written then w.(record := Some(updated), phase := Storing(depth, updated, replay, true))
      else w.(bound := Some(updated.agentSessionId), replay := QueuedText(replay), phase := ReadRecord(depth + 1))
    case _ => w
  }

  function Land(w: World, written: Record): World {
    w.(record := Some(written))
  }

  function Step(w: World, a: Action): World {
    match a
    case Continue => DoContinue(w)
    case Collected(replay) =>
      if w.phase.Collecting? then w.(phase := Creating(w.phase.depth, replay), collected := replay) else w
    case NewSession(agent) =>
      if w.phase.Creating? then
        w.(bound := Some(agent), restores := w.restores + 1,
           phase := Storing(w.phase.depth, Record(agent, w.connectionId), w.phase.replay, false))
      else w
    case Fail => if w.phase.Sent? then w else w.(phase := Failed)
    case OthersRead => if w.record.Some? then w.(snapshots := w.snapshots + [w.record.value]) else w
    case OthersWrite(k) => if k < |w.snapshots| then Land(w, w.snapshots[k]) else w
    case OthersDelete => w.(record := None)
    case OthersPrompt => w.(replay := None)
  }

  function Run(w: World, actions: seq<Action>): World {
    if actions == [] then w else Step(Run(w, DropLast(actions)), Last(actions))
  }

  lemma {:induction false} RunConcat(w: World, a: seq<Action>, b: seq<Action>)
    ensures Run(w, a + b) == Run(Run(w, a), b)
  {
    if b == [] {
      assert a + b == a;
    } else {
      assert DropLast(a + b) == a + DropLast(b);
      RunConcat(w, a, DropLast(b));
    }
  }

  lemma RunCons(w: World, a: Action, rest: seq<Action>)
    ensures Run(w, [a] + rest) == Run(Step(w, a), rest)
  {
    RunConcat(w, [a], rest);
    assert DropLast([a]) == [];
  }

  /** A send is about to begin; record, connection and earlier reads may disagree in any way. */
  ghost predicate Begins(w: World) {
    w.phase == ReadRecord(0) && w.restores == 0 && RealIds(w)
  }

  ghost predicate RealIds(w: World) {
    && (w.record.Some? ==> w.record.value.agentSessionId != "")
    && (forall r :: r in w.snapshots ==> r.agentSessionId != "")
  }

  /** From here on the send relies on what the connection has bound. */
  predicate Committed(w: World) {
    match w.phase
    case ReadRecord(depth) => depth > 0
    case AwaitLive(depth, record) => depth > 0 || HasBound(w.bound, record.agentSessionId)
    case ResumeAwaitLive(_, existing) =>
      existing.lastConnectionId == w.connectionId && HasBound(w.bound, existing.agentSessionId)
    case Storing(_, _, _, written) => written
    case Sent(_, _, _) => true
    case _ => false
  }

  /** A write-back that may land now: the send is not committed yet, or it brings the agent id that is bound. */
  predicate Harmless(w: World, written: Record) {
    Committed(w) ==> w.bound == Some(written.agentSessionId)
  }

  /** Every write-back of a run was harmless when it landed. */
  predicate AllHarmless(w: World, actions: seq<Action>) {
    actions == [] ||
    var before := Run(w, DropLast(actions));
    && AllHarmless(w, DropLast(actions))
    && (Last(actions).OthersWrite? && Last(actions).k < |before.snapshots| ==>
        Harmless(before, before.snapshots[Last(actions).k]))
  }

  /** One restore and one recursion at most; what is sent on is bound, and it is what the store names. */
  predicate Good(w: World) {
    && w.restores <= 1
    && (!w.phase.Failed? ==> w.phase.depth <= 1)
    && (w.phase.Sent? ==>
          && w.phase.agentSessionId == w.phase.record.agentSessionId && w.bound == Some(w.phase.agentSessionId)
          && (w.record.Some? ==> w.record.value.agentSessionId == w.phase.agentSessionId))
  }

  ghost predicate Inv(w: World) {
    && RealIds(w) && w.restores <= 1
    && (Committed(w) && w.record.Some? ==> w.bound == Some(w.record.value.agentSessionId))
    && match w.phase
       case ReadRecord(depth) => depth <= 1 && (depth == 0 ==> w.restores == 0)
       case AwaitLive(depth, record) =>
         depth <= 1 && (depth == 0 ==> w.restores == 0) && record.agentSessionId != "" &&
             (depth == 1 ==> w.bound == Some(record.agentSessionId))
       case ResumeRead(depth) => depth == 0 && w.restores == 0
       case ResumeAwaitLive(depth, existing) => depth == 0 && w.restores == 0 && existing.agentSessionId != ""
       case Collecting(depth) => depth == 0 && w.restores == 0
       case Creating(depth, _) => depth == 0 && w.restores == 0
       case Storing(depth, updated, _, _) =>
         depth == 0 && updated.agentSessionId != "" && w.bound == Some(updated.agentSessionId)
       case Sent(depth, agent, record) => depth <= 1 && agent == record.agentSessionId && w.bound == Some(agent)
       case Failed => true
  }

  lemma StepKeepsInv(w: World, a: Action)
    requires Inv(w) && !(w.phase.Creating? && a == NewSession(""))
    requires a.OthersWrite? && a.k < |w.snapshots| ==> Harmless(w, w.snapshots[a.k])
    ensures Inv(Step(w, a)) && Step(w, a).restores >= w.restores
  {
  }

  lemma {:induction false} InvContinues(w: World, actions: seq<Action>)
    requires Inv(w) && AllHarmless(w, actions) && (w.restores == 0 ==> NewSession("") !in actions)
    ensures Inv(Run(w, actions)) && Run(w, actions).restores >= w.restores
  {
    if actions != [] {
      InvContinues(w, DropLast(actions));
      StepKeepsInv(Run(w, DropLast(actions)), Last(actions));
    }
  }

  /**
   * In every run in which the agent gives out non-empty session ids and every
   * write-back is harmless, a send restores the session at most once, recurses
   * at most once, and is finally made with an agent session id on which record
   * and connection agree.
   */
  lemma SendRestoresAtMostOnce(w: World, actions: seq<Action>)
    requires Begins(w) && NewSession("") !in actions && AllHarmless(w, actions)
    ensures Good(Run(w, actions))
  {
    InvContinues(w, actions);
  }

  /** A write-back of the agent id that the store holds anyway is always harmless. */
  lemma CurrentWriteBacksAreHarmless(w: World, written: Record)
    requires Inv(w) && w.record.Some? && w.record.value.agentSessionId == written.agentSessionId
    ensures Harmless(w, written)
  {
  }

  // ------------------------------------------------------- a send left to itself

  /** The send's own awaits, all succeeding. */
  predicate Own(a: Action) {
    a.Continue? || a.Collected? || a.NewSession?
  }

  lemma RunThree(w: World, a: Action, b: Action, c: Action)
    ensures Run(w, [a, b, c]) == Step(Step(Step(w, a), b), c)
  {
    RunCons(w, a, [b, c]);
    RunCons(Step(w, a), b, [c]);
    RunCons(Step(Step(w, a), b), c, []);
    assert [a] + [b, c] == [a, b, c] && [b] + [c] == [b, c] && [c] + [] == [c];
  }

  lemma RunFive(w: World, a: Action, b: Action, c: Action, d: Action, e: Action)
    ensures Run(w, [a, b, c, d, e]) == Step(Step(Step(Step(Step(w, a), b), c), d), e)
  {
    RunConcat(w, [a, b, c], [d, e]);
    RunThree(w, a, b, c);
    var t := Run(w, [a, b, c]);
    RunCons(t, d, [e]);
    RunCons(Step(t, d), e, []);
    assert [a, b, c] + [d, e] == [a, b, c, d, e] && [d] + [e] == [d, e] && [e] + [] == [e];
  }

  /** One restore from its beginning to the next try: the agent answers `agent`, and the history reads `replay`. */
  lemma RestoreAgain(w: World, agent: string, replay: Option<string>) returns (actions: seq<Action>)
    requires w.phase.ReadRecord? && w.record.Some? && !HasBound(w.bound, w.record.value.agentSessionId)
    ensures forall a :: a in actions ==> Own(a) && (a.NewSession? ==> a.agent == agent)
    ensures Run(w, actions) ==
            World(Some(Record(agent, w.connectionId)), w.connectionId, Some(agent), QueuedText(replay),
                  ReadRecord(w.phase.depth + 1), w.restores + 1, replay, w.snapshots)
  {
    var toCreating := [Continue, Continue, Continue, Continue, Collected(replay)];
    var rest := [NewSession(agent), Continue, Continue];
    var d := w.phase.depth;
    RunFive(w, Continue, Continue, Continue, Continue, Collected(replay));
    var creating := w.(phase := Creating(d, replay), collected := replay);
    assert Run(w, toCreating) == creating;
    RunThree(creating, NewSession(agent), Continue, Continue);
    RunConcat(w, toCreating, rest);
    actions := toCreating + rest;
  }

  lemma RunTwo(w: World, a: Action, b: Action)
    ensures Run(w, [a, b]) == Step(Step(w, a), b)
  {
    RunCons(w, a, [b]);
    RunCons(Step(w, a), b, []);
    assert [a] + [b] == [a, b] && [b] + [] == [b];
  }

  /**
   * A send left to itself: to a session that the connection has bound it goes
   * out at once, without a restore; to any other it goes out after one restore,
   * on the agent's new id, with the record brought up to date and the history
   * queued; and to a session that is not stored it fails.
   */
  lemma SendGoesOut(w: World, agent: string, replay: Option<string>) returns (actions: seq<Action>)
    requires Begins(w) && agent != ""
    ensures forall a :: a in actions ==> Own(a)
    ensures w.record.None? ==> Run(w, actions) == w.(phase := Failed)
    ensures w.record.Some? && HasBound(w.bound, w.record.value.agentSessionId) ==>
              Run(w, actions) == w.(phase := Sent(0, w.record.value.agentSessionId, w.record.value))
    ensures w.record.Some? && !HasBound(w.bound, w.record.value.agentSessionId) ==>
              var restored := Record(agent, w.connectionId);
              Run(w, actions) ==
              World(Some(restored), w.connectionId, Some(agent), QueuedText(replay), Sent(1, agent, restored), 1,
                    replay, w.snapshots)
  {
    if w.record.None? {
      actions := [Continue];
      RunCons(w, Continue, []);
      assert [Continue] + [] == [Continue];
    } else if HasBound(w.bound, w.record.value.agentSessionId) {
      actions := [Continue, Continue];
      RunTwo(w, Continue, Continue);
    } else {
      var restore := RestoreAgain(w, agent, replay);
      actions := restore + [Continue, Continue];
      RunConcat(w, restore, [Continue, Continue]);
      RunTwo(Run(w, restore), Continue, Continue);
    }
  }

  /**
   * A restore that finds the session bound on this connection after all, the
   * record having changed in the meantime, creates nothing and tries again.
   */
  lemma NoNeedlessRestore(w: World)
    requires w.phase.ResumeRead? && w.record.Some?
    ensures var r := w.record.value;
      Run(w, [Continue, Continue]).phase ==
      if r.lastConnectionId == w.connectionId && HasBound(w.bound, r.agentSessionId) then ReadRecord(w.phase.depth + 1)
      else Collecting(w.phase.depth)
  {
    RunTwo(w, Continue, Continue);
  }

  /**
   * A send whose pending await throws before it has gone out is over: it
   * restores nothing and binds nothing from then on, and never goes out.
   */
  lemma {:induction false} FailedSendIsOver(w: World, more: seq<Action>)
    requires !w.phase.Sent?
    ensures var t := Run(w, [Fail] + more);
      t.phase == Failed && t.restores == w.restores && t.bound == w.bound
  {
    RunCons(w, Fail, more);
    FailedStays(Step(w, Fail), more);
  }

  lemma {:induction false} FailedStays(w: World, more: seq<Action>)
    requires w.phase == Failed
    ensures Run(w, more).phase == Failed && Run(w, more).restores == w.restores && Run(w, more).bound == w.bound
  {
    if more != [] {
      FailedStays(w, DropLast(more));
    }
  }

  // ------------------------------------------------------- harmful write-backs

  predicate Undisturbed(actions: seq<Action>) {
    forall a :: a in actions ==> !a.OthersWrite? && a != NewSession("")
  }

  /** Left to itself, the send ends well. */
  ghost predicate GoodFrom(w: World) {
    forall actions :: Undisturbed(actions) ==> Good(Run(w, actions))
  }

  lemma {:induction false} NoWriteBacksIsHarmless(w: World, actions: seq<Action>)
    requires forall a :: a in actions ==> !a.OthersWrite?
    ensures AllHarmless(w, actions)
  {
    if actions != [] {
      NoWriteBacksIsHarmless(w, DropLast(actions));
    }
  }

  lemma InvIsGoodFrom(w: World)
    requires Inv(w)
    ensures GoodFrom(w)
  {
    forall actions | Undisturbed(actions) ensures Good(Run(w, actions)) {
      NoWriteBacksIsHarmless(w, actions);
      InvContinues(w, actions);
    }
  }

  /** A second try that finds the wrong record restores again, and tries a third time. */
  lemma SecondTryFails(w: World)
    requires w.phase == ReadRecord(1) && w.record.Some? && w.record.value.agentSessionId != "" &&
        w.bound != Some(w.record.value.agentSessionId)
    ensures !GoodFrom(w)
  {
    var actions := RestoreAgain(w, "again", None);
    assert Undisturbed(actions) && !Good(Run(w, actions));
  }

  lemma StepForward(w: World, a: Action)
    requires !a.OthersWrite? && a != NewSession("") && !GoodFrom(Step(w, a))
    ensures !GoodFrom(w)
  {
    var more :| Undisturbed(more) && !Good(Run(Step(w, a), more));
    RunCons(w, a, more);
    assert Undisturbed([a] + more);
  }

  lemma NotGoodNow(w: World)
    requires !Good(w)
    ensures !GoodFrom(w)
  {
    assert Undisturbed([]) && Run(w, []) == w;
  }

  /**
   * A write-back that is not harmless can make the send restore or recurse once
   * more, or send on an id the store does not name.
   */
  lemma HarmfulWriteBack(w: World, written: Record)
    requires Inv(w) && written.agentSessionId != "" && !Harmless(w, written)
    ensures !GoodFrom(Land(w, written))
  {
    var t := Land(w, written);
    match w.phase {
      case ReadRecord(_) => SecondTryFails(t);
      case AwaitLive(_, _) =>
        NotGoodNow(Step(t, Continue));
        StepForward(t, Continue);
      case ResumeAwaitLive(_, _) =>
        SecondTryFails(Step(t, Continue));
        StepForward(t, Continue);
      case Storing(_, _, _, _) =>
        SecondTryFails(Step(t, Continue));
        StepForward(t, Continue);
      case Sent(_, _, _) => NotGoodNow(t);
      case _ =>
    }
  }

  /** At every point of the run, the send would have ended well if left to itself from there. */
  ghost predicate AlwaysGood(w: World, actions: seq<Action>) {
    GoodFrom(Run(w, actions)) && (actions == [] || AlwaysGood(w, DropLast(actions)))
  }

  /**
   * Exactly which write-backs a send survives. With non-empty agent ids, a
   * run's send is at every moment on its way to at most one restore and an
   * agreed id if and only if each write-back either lands before the send
   * relies on the connection's binding or carries the agent id that is bound.
   */
  lemma {:induction false} SendSurvivesExactlyHarmlessWriteBacks(w: World, actions: seq<Action>)
    requires Begins(w) && NewSession("") !in actions
    ensures AlwaysGood(w, actions) <==> AllHarmless(w, actions)
  {
    if actions != [] {
      SendSurvivesExactlyHarmlessWriteBacks(w, DropLast(actions));
    }
    if AllHarmless(w, actions) {
      InvContinues(w, actions);
      InvIsGoodFrom(Run(w, actions));
    } else if AllHarmless(w, DropLast(actions)) {
      InvContinues(w, DropLast(actions));
      var before := Run(w, DropLast(actions));
      HarmfulWriteBack(before, before.snapshots[Last(actions).k]);
    }
  }

  /** A session that was last used on another connection. */
  const STALE: World := World(Some(Record("A0", "c0")), "c1", None, None, ReadRecord(0), 0, None, [])

  /**
   * The failing run: an update that reads the record just before the restored
   * one is stored and writes it back just after makes the send restore again.
   */
  lemma StaleWriteBackRestoresTwice()
    ensures Begins(STALE)
    ensures exists actions ::
              && NewSession("") !in actions
              && Run(STALE, actions).restores == 2 && Run(STALE, actions).phase == ReadRecord(2)
  {
    var creating := STALE.(phase := Creating(0, None));
    var first := [Continue, Continue, Continue, Continue, Collected(None)];
    RunFive(STALE, Continue, Continue, Continue, Continue, Collected(None));
    assert Run(STALE, first) == creating;
    var rest := RestoresTwice(creating, Record("A0", "c0"));
    RunConcat(STALE, first, rest);
    assert NewSession("") !in first + rest;
  }

  lemma RestoresTwice(w: World, stale: Record) returns (actions: seq<Action>)
    requires w.phase == Creating(0, None) && w.record == Some(stale) && w.snapshots == [] && w.restores == 0
    requires stale.agentSessionId !in {"", "A1"}
    ensures NewSession("") !in actions && Run(w, actions).restores == 2 && Run(w, actions).phase == ReadRecord(2)
  {
    var first := StaleWriteBack(w, stale, "A1");
    var second := RestoreAgain(Run(w, first), "A2", None);
    RunConcat(w, first, second);
    actions := first + second;
  }

  /** Reading the old record while the new one is on its way, and writing it back when that has arrived. */
  lemma StaleWriteBack(w: World, stale: Record, agent: string) returns (actions: seq<Action>)
    requires w.phase == Creating(0, None) && w.record == Some(stale) && w.snapshots == []
    ensures Run(w, actions) ==
        w.(phase := ReadRecord(1), bound := Some(agent), replay := None, restores := w.restores + 1,
           snapshots := [stale])
    ensures forall a :: a in actions && a.NewSession? ==> a.agent == agent
  {
    RunFive(w, NewSession(agent), OthersRead, Continue, OthersWrite(0), Continue);
    actions := [NewSession(agent), OthersRead, Continue, OthersWrite(0), Continue];
    var updated := Record(agent, w.connectionId);
    var s1 := Step(w, NewSession(agent));
    var s2 := Step(s1, OthersRead);
    assert s2.snapshots == [stale];
    var s3 := Step(s2, Continue);
    assert s3.phase == Storing(0, updated, None, true);
    var s4 := Step(s3, OthersWrite(0));
    assert s4.record == Some(stale);
  }

  // ------------------------------------------------------------ empty agent ids

  /**
   * With an agent that answers with empty ids, a send to a session whose record
   * is stale restores as often as one likes.
   */
  lemma {:induction false} EmptyIdsRestoreForever(w: World, n: nat) returns (actions: seq<Action>)
    requires Begins(w) && w.record.Some? && !HasBound(w.bound, w.record.value.agentSessionId)
    ensures forall a :: a in actions ==> !a.OthersWrite? && (a.NewSession? ==> a.agent == "")
    ensures Run(w, actions).phase == ReadRecord(n) && Run(w, actions).restores == n
    ensures Run(w, actions).record.Some? &&
        !HasBound(Run(w, actions).bound, Run(w, actions).record.value.agentSessionId)
  {
    actions := [];
    if n > 0 {
      var before := EmptyIdsRestoreForever(w, n - 1);
      var again := RestoreAgain(Run(w, before), "", None);
      RunConcat(w, before, again);
      actions := before + again;
    }
  }

  /**
   * Whenever a restore gets its new agent id, it is the last one in every
   * continuation if and only if that id is not empty.
   */
  lemma RestoreIsTheLastIffIdIsReal(w: World, actions: seq<Action>, agent: string)
    requires Begins(w) && NewSession("") !in actions && AllHarmless(w, actions)
    requires Run(w, actions).phase.Creating?
    ensures (forall more :: AllHarmless(Step(Run(w, actions), NewSession(agent)), more) ==>
              Run(Step(Run(w, actions), NewSession(agent)), more).restores <= 1)
            <==> agent != ""
  {
    InvContinues(w, actions);
    var s := Run(w, actions);
    var t := Step(s, NewSession(agent));
    if agent != "" {
      StepKeepsInv(s, NewSession(agent));
      forall more | AllHarmless(t, more) ensures Run(t, more).restores <= 1 {
        InvContinues(t, more);
      }
    } else {
      var u := Step(Step(t, Continue), Continue);
      var again := RestoreAgain(u, "", None);
      RunCons(Step(t, Continue), Continue, again);
      RunCons(t, Continue, [Continue] + again);
      var more := [Continue] + ([Continue] + again);
      NoWriteBacksIsHarmless(t, more);
      assert Run(t, more).restores == 2;
    }
  }

  // -------------------------------------------------------------- its own replay

  ghost predicate ReplayInv(w: World, before: Option<string>) {
    match w.phase
    case Creating(_, replay) => replay == w.collected
    case Storing(_, _, replay, _) => w.restores > 0 && replay == w.collected
    case Failed => true
    case _ => w.replay == if w.restores == 0 then before else QueuedText(w.collected)
  }

  lemma StepKeepsReplay(w: World, a: Action, before: Option<string>)
    requires ReplayInv(w, before) && a != OthersPrompt
    ensures ReplayInv(Step(w, a), before)
  {
  }

  /**
   * Unless another prompt comes in between, a send that had to restore the
   * session finds the history it collected last queued for it, and any other
   * send finds the queue as it was; write-backs and empty ids do not matter.
   */
  lemma {:induction false} RestoredSendFindsItsReplay(w: World, actions: seq<Action>)
    requires w.phase == ReadRecord(0) && w.restores == 0 && OthersPrompt !in actions
    ensures ReplayInv(Run(w, actions), w.replay)
    ensures var t := Run(w, actions);
      t.phase.Sent? ==> t.replay == if t.restores == 0 then w.replay else QueuedText(t.collected)
  {
    if actions != [] {
      RestoredSendFindsItsReplay(w, DropLast(actions));
      StepKeepsReplay(Run(w, DropLast(actions)), Last(actions), w.replay);
    }
  }
}
