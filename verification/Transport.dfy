/**
 * The life of one ACP HTTP transport: opening with the first write, one
 * event-stream loop, inbound delivery, and closing or failing. Every stretch
 * of code between two awaits is one step; `Step` is total, so a run is any
 * list of actions in any order.
 */
module Transport {
  import opened Prelude
  import opened DuplicateWindow

  /** The consumer's side of the stream. */
  datatype Readable = Open | Closed | Errored | Cancelled

  /** Where a stream loop is suspended; Ended means returned, with its `finally` still to run. */
  datatype Phase = Fetching | Reading | Delaying | Ended

  /** What the outside world can see the transport do. */
  datatype Observation =
    | Accepted
    | Posted(bootstrap: bool)
    | Got(lastEventId: Option<string>)
    | Deleted
    | Arrived(m: Envelope)     // came in while the transport was open
    | Delivered(m: Envelope)
    | Swallowed(m: Envelope)   // let through by the filter, but the observer or the stream threw
    | Shut
    | Settled(errored: bool)
    | SawId(id: string)

  /** Everything observed so far, latest last. */
  datatype History = Start | Then(before: History, last: Observation)

  datatype State = State(
    bootstrap: bool,
    closed: bool,
    closing: bool,
    deleting: bool,
    postedOnce: bool,
    controller: bool,
    readable: Readable,
    loops: map<nat, Phase>,
    sseLoop: Option<nat>,
    started: nat,
    lastEventId: Option<string>,
    accepted: seq<string>,
    posts: nat,
    trace: History)

  /** An envelope coming in, with what the observer and the stream controller do when they see it. */
  datatype Arrival = Arrival(m: Envelope, observerThrows: bool, enqueueFails: bool)

  datatype Body = NoBody | Malformed | Parsed(arrival: Arrival)

  /** One event of a read: its id, if it has one, and its payload. */
  datatype Item = Item(id: Option<string>, body: Body)

  datatype PostOutcome = PostFailed | PostEmpty | PostReply(arrival: Arrival)

  datatype Action =
    | Write(observerThrows: bool)
    | PostDone(outcome: PostOutcome)
    | GetDone(k: nat, ok: bool)
    | ReadDone(k: nat, items: seq<Item>)
    | ReadEnd(k: nat)
    | ReadFailed(k: nat)
    | DelayDone(k: nat)
    | LoopFinally(k: nat)
    | Close
    | DeleteDone
    | Cancel

  function Init(bootstrap: bool): State {
    State(bootstrap, false, false, false, false, true, Open, map[], None, 0, None, [], 0, Start)
  }

  function Emit(s: State, o: Observation): State {
    s.(trace := Then(s.trace, o))
  }

  /** `readableController?.close()` or `.error()`, which only an open stream feels. */
  function Settle(s: State, errored: bool): State {
    if s.controller && s.readable.Open?
    then Emit(s.(readable := if errored then Errored else Closed), Settled(errored))
    else s
  }

  function FailReadable(s: State): State {
    if s.closed then s
    else Settle(Emit(s.(closed := true), Shut), true).(controller := false)
  }

  /** The new state, and whether the call threw. */
  function PushInbound(s: State, a: Arrival): (State, bool) {
    if s.closed then (s, false)
    else if !Accepts(s.accepted, a.m) then (Emit(s, Arrived(a.m)), false)
    else
      var t := Emit(s, Arrived(a.m)).(accepted := Remember(s.accepted, a.m));
      if a.observerThrows then (Emit(t, Swallowed(a.m)), true)
      else if !t.controller then (t, false)
      else if a.enqueueFails || !t.readable.Open? then (FailReadable(Emit(t, Swallowed(a.m))), false)
      else (Emit(t, Delivered(a.m)), false)
  }

  function SeeId(s: State, id: Option<string>): State {
    if id.Some? then Emit(s.(lastEventId := id), SawId(id.value)) else s
  }

  function ProcessItem(s: State, item: Item): (State, bool) {
    var t := SeeId(s, item.id);
    match item.body
    case NoBody => (t, false)
    case Malformed => (t, true)
    case Parsed(arrival) => PushInbound(t, arrival)
  }

  function ProcessItems(s: State, items: seq<Item>): (State, bool)
    decreases |items|
  {
    if items == [] then (s, false)
    else
      var (t, threw) := ProcessItem(s, items[0]);
      if threw then (t, true) else ProcessItems(t, items[1..])
  }

  function EndLoop(s: State, k: nat): State {
    s.(loops := s.loops[k := Ended])
  }

  /** The head of the stream loop: stop when closed, otherwise ask for the stream. */
  function LoopTop(s: State, k: nat): State {
    if s.closed then EndLoop(s, k)
    else Emit(s.(loops := s.loops[k := Fetching]), Got(s.lastEventId))
  }

  function EnsureSseLoop(s: State): State {
    if s.sseLoop.Some? || s.closed || !s.postedOnce then s
    else LoopTop(s.(sseLoop := Some(s.started), started := s.started + 1), s.started)
  }

  function DoWrite(s: State, observerThrows: bool): State {
    if s.closed || observerThrows then s
    else
      var withBootstrap := !s.postedOnce && s.bootstrap;
      var t := EnsureSseLoop(Emit(s, Accepted).(postedOnce := true));
      Emit(t.(posts := t.posts + 1), Posted(withBootstrap))
  }

  function CloseImpl(s: State): State {
    if s.closed then s
    else
      var t := Emit(s.(closed := true), Shut);
      if s.postedOnce then Emit(t.(deleting := true), Deleted)
      else Settle(t, false).(controller := false)
  }

  function DoClose(s: State): State {
    if s.closing then s else CloseImpl(s.(closing := true))
  }

  function DoPostDone(s: State, outcome: PostOutcome): State {
    match outcome
    case PostFailed => FailReadable(s)
    case PostEmpty => s
    case PostReply(arrival) =>
      var (t, threw) := PushInbound(s, arrival);
      if threw then FailReadable(t) else t
  }

  predicate At(s: State, k: nat, phase: Phase) {
    k in s.loops && s.loops[k] == phase
  }

  function Step(s: State, a: Action): State {
    match a
    case Write(observerThrows) => DoWrite(s, observerThrows)
    case PostDone(outcome) => if s.posts == 0 then s else DoPostDone(s.(posts := s.posts - 1), outcome)
    case GetDone(k, ok) =>
      if !At(s, k, Fetching) then s
      else if !ok || s.closed then EndLoop(s, k)
      else s.(loops := s.loops[k := Reading])
    case ReadDone(k, items) =>
      if !At(s, k, Reading) then s
      else
        var (t, threw) := ProcessItems(s, items);
        if threw || t.closed then EndLoop(t, k) else t
    case ReadEnd(k) =>
      if !At(s, k, Reading) then s
      else if s.closed then EndLoop(s, k)
      else s.(loops := s.loops[k := Delaying])
    case ReadFailed(k) => if At(s, k, Reading) then EndLoop(s, k) else s
    case DelayDone(k) => if At(s, k, Delaying) then LoopTop(s, k) else s
    case LoopFinally(k) => if At(s, k, Ended) then s.(loops := s.loops - {k}, sseLoop := None) else s
    case Close => DoClose(s)
    case DeleteDone => if s.deleting then Settle(s, false).(controller := false, deleting := false) else s
    case Cancel => if s.readable.Open? then DoClose(s.(readable := Cancelled)) else s
  }

  function Run(s: State, actions: seq<Action>): State {
    if actions == [] then s else Step(Run(s, DropLast(actions)), Last(actions))
  }

  // ------------------------------------------------------------ the protocol

  /** What a history of observations says: which kinds occurred, and the last event id seen. */
  datatype Facts = Facts(shut: bool, accepted: bool, posted: bool, deleted: bool, settled: bool, lastId: Option<string>)

  function Note(f: Facts, o: Observation): Facts {
    match o
    case Accepted => f.(accepted := true)
    case Posted(_) => f.(posted := true)
    case Got(_) => f
    case Deleted => f.(deleted := true)
    case Arrived(_) => f
    case Delivered(_) => f
    case Swallowed(_) => f
    case Shut => f.(shut := true)
    case Settled(_) => f.(settled := true)
    case SawId(id) => f.(lastId := Some(id))
  }

  function FactsOf(h: History): Facts {
    if h.Start? then Facts(false, false, false, false, false, None) else Note(FactsOf(h.before), h.last)
  }

  /** May `o` come next after a history with these facts? Nothing here mentions the transport's own fields. */
  predicate Allowed(before: Facts, o: Observation, bootstrap: bool) {
    match o
    case Accepted => !before.shut
    case Posted(b) => !before.shut && before.accepted && b == (bootstrap && !before.posted)
    case Got(id) => !before.shut && before.accepted && id == before.lastId
    case Deleted => before.shut && before.accepted && !before.deleted
    case Arrived(_) => !before.shut
    case Delivered(_) => !before.shut
    case Swallowed(_) => !before.shut
    case Shut => !before.shut
    case Settled(_) => before.shut && !before.settled
    case SawId(_) => true
  }

  predicate Protocol(h: History, bootstrap: bool) {
    h.Start? || (Protocol(h.before, bootstrap) && Allowed(FactsOf(h.before), h.last, bootstrap))
  }

  ghost predicate OneLoop(s: State) {
    && (s.sseLoop.None? ==> s.loops == map[])
    && (s.sseLoop.Some? ==> s.loops.Keys == {s.sseLoop.value})
    && (s.sseLoop.Some? ==> s.postedOnce)
  }

  ghost predicate Core(s: State) {
    var f := FactsOf(s.trace);
    && Protocol(s.trace, s.bootstrap)
    && OneLoop(s)
    && s.closed == f.shut
    && (s.postedOnce ==> f.accepted)
    && (!s.closed ==> s.controller && s.readable.Open? && !s.closing)
    && (f.settled ==> !s.readable.Open?)
    && (f.deleted || f.settled || s.deleting ==> s.closed)
    && s.lastEventId == f.lastId
  }

  ghost predicate Inv(s: State) {
    Core(s) && s.postedOnce == FactsOf(s.trace).posted
  }

  lemma Extend(h: History, o: Observation, bootstrap: bool)
    ensures FactsOf(Then(h, o)) == Note(FactsOf(h), o)
    ensures Protocol(Then(h, o), bootstrap) == (Protocol(h, bootstrap) && Allowed(FactsOf(h), o, bootstrap))
  {
  }

  /** The part of a step that leaves writes, loops and the DELETE alone. */
  ghost predicate Inert(s: State, t: State) {
    && t == s.(closed := t.closed, controller := t.controller, readable := t.readable, lastEventId := t.lastEventId,
               accepted := t.accepted, trace := t.trace)
    && FactsOf(t.trace).posted == FactsOf(s.trace).posted
    && (s.closed ==> t.closed)
  }

  lemma FailKeeps(s: State)
    requires Core(s)
    ensures Core(FailReadable(s)) && Inert(s, FailReadable(s)) && FailReadable(s).closed
  {
    Extend(s.trace, Shut, s.bootstrap);
    Extend(Then(s.trace, Shut), Settled(true), s.bootstrap);
  }

  lemma PushKeeps(s: State, a: Arrival)
    requires Core(s)
    ensures Core(PushInbound(s, a).0) && Inert(s, PushInbound(s, a).0)
  {
    if !s.closed {
      Extend(s.trace, Arrived(a.m), s.bootstrap);
      var t := Emit(s, Arrived(a.m)).(accepted := Remember(s.accepted, a.m));
      Extend(t.trace, Delivered(a.m), t.bootstrap);
      Extend(t.trace, Swallowed(a.m), t.bootstrap);
      assert Core(Emit(t, Swallowed(a.m)));
      FailKeeps(Emit(t, Swallowed(a.m)));
    }
  }

  lemma SeeIdKeeps(s: State, id: Option<string>)
    requires Core(s)
    ensures Core(SeeId(s, id)) && Inert(s, SeeId(s, id))
  {
    if id.Some? {
      Extend(s.trace, SawId(id.value), s.bootstrap);
    }
  }

  lemma ItemKeeps(s: State, item: Item)
    requires Core(s)
    ensures Core(ProcessItem(s, item).0) && Inert(s, ProcessItem(s, item).0)
  {
    SeeIdKeeps(s, item.id);
    if item.body.Parsed? {
      PushKeeps(SeeId(s, item.id), item.body.arrival);
    }
  }

  lemma {:induction false} ItemsKeep(s: State, items: seq<Item>)
    requires Core(s)
    ensures Core(ProcessItems(s, items).0) && Inert(s, ProcessItems(s, items).0)
    decreases |items|
  {
    if items != [] {
      ItemKeeps(s, items[0]);
      var (t, threw) := ProcessItem(s, items[0]);
      if !threw {
        ItemsKeep(t, items[1..]);
      }
    }
  }

  lemma LoopTopKeeps(s: State, k: nat)
    requires Core(s.(loops := s.loops[k := Fetching])) && s.postedOnce
    ensures Core(LoopTop(s, k)) && FactsOf(LoopTop(s, k).trace).posted == FactsOf(s.trace).posted
  {
    if !s.closed {
      Extend(s.trace, Got(s.lastEventId), s.bootstrap);
    } else {
      assert s.loops[k := Ended].Keys == s.loops[k := Fetching].Keys;
    }
  }

  lemma WriteKeeps(s: State, observerThrows: bool)
    requires Inv(s)
    ensures Inv(DoWrite(s, observerThrows)) && DoWrite(s, observerThrows).bootstrap == s.bootstrap
  {
    if !s.closed && !observerThrows {
      Extend(s.trace, Accepted, s.bootstrap);
      var t := Emit(s, Accepted).(postedOnce := true);
      assert Core(t);
      if t.sseLoop.None? {
        var u := t.(sseLoop := Some(t.started), started := t.started + 1);
        assert u.loops[t.started := Fetching].Keys == {t.started};
        LoopTopKeeps(u, t.started);
      }
      Extend(EnsureSseLoop(t).trace, Posted(!s.postedOnce && s.bootstrap), s.bootstrap);
    }
  }

  /** Closing, with the readable either untouched or just cancelled by its consumer. */
  lemma CloseKeeps(s: State, cancelled: bool)
    requires Inv(s) && (cancelled ==> s.readable.Open?)
    ensures var t := if cancelled then s.(readable := Cancelled) else s;
      Inv(DoClose(t)) && (s.closed ==> DoClose(t).closed) && DoClose(t).bootstrap == s.bootstrap
  {
    if !s.closing && !s.closed {
      Extend(s.trace, Shut, s.bootstrap);
      Extend(Then(s.trace, Shut), if s.postedOnce then Deleted else Settled(false), s.bootstrap);
    }
  }

  lemma PostDoneKeeps(s: State, outcome: PostOutcome)
    requires Inv(s)
    ensures Inv(DoPostDone(s, outcome)) && (s.closed ==> DoPostDone(s, outcome).closed)
    ensures DoPostDone(s, outcome).bootstrap == s.bootstrap
  {
    FailKeeps(s);
    if outcome.PostReply? {
      PushKeeps(s, outcome.arrival);
      FailKeeps(PushInbound(s, outcome.arrival).0);
    }
  }

  /** Moving a live loop to another phase. */
  lemma PhaseKeeps(s: State, k: nat, phase: Phase)
    requires Inv(s) && k in s.loops
    ensures Inv(s.(loops := s.loops[k := phase]))
  {
    assert s.loops[k := phase].Keys == s.loops.Keys;
  }

  lemma LoopStepKeeps(s: State, a: Action)
    requires Inv(s)
    requires a.GetDone? || a.ReadDone? || a.ReadEnd? || a.ReadFailed? || a.DelayDone? || a.LoopFinally?
    ensures Inv(Step(s, a)) && (s.closed ==> Step(s, a).closed) && Step(s, a).bootstrap == s.bootstrap
  {
    if a.k !in s.loops {
    } else if a.ReadDone? {
      ItemsKeep(s, a.items);
      PhaseKeeps(ProcessItems(s, a.items).0, a.k, Ended);
    } else if a.DelayDone? {
      PhaseKeeps(s, a.k, Fetching);
      LoopTopKeeps(s, a.k);
    } else if a.LoopFinally? {
      assert s.loops - {a.k} == map[];
    } else {
      PhaseKeeps(s, a.k, Ended);
      PhaseKeeps(s, a.k, if a.GetDone? then Reading else Delaying);
    }
  }

  lemma StepKeeps(s: State, a: Action)
    requires Inv(s)
    ensures Inv(Step(s, a))
    ensures s.closed ==> Step(s, a).closed
    ensures Step(s, a).bootstrap == s.bootstrap
  {
    match a
    case Write(observerThrows) => WriteKeeps(s, observerThrows);
    case PostDone(outcome) =>
      if s.posts != 0 {
        PostDoneKeeps(s.(posts := s.posts - 1), outcome);
      }
    case DeleteDone => Extend(s.trace, Settled(false), s.bootstrap);
    case Close => CloseKeeps(s, false);
    case Cancel =>
      if s.readable.Open? {
        CloseKeeps(s, true);
      }
    case _ => LoopStepKeeps(s, a);
  }

  lemma {:induction false} RunKeepsInv(bootstrap: bool, actions: seq<Action>)
    ensures Inv(Run(Init(bootstrap), actions)) && Run(Init(bootstrap), actions).bootstrap == bootstrap
  {
    if actions != [] {
      RunKeepsInv(bootstrap, DropLast(actions));
      StepKeeps(Run(Init(bootstrap), DropLast(actions)), Last(actions));
    }
  }

  predicate Seen(h: History, o: Observation) {
    h.Then? && (h.last == o || Seen(h.before, o))
  }

  predicate SomePost(h: History) {
    h.Then? && (h.last.Posted? || SomePost(h.before))
  }

  predicate SomeSettle(h: History) {
    h.Then? && (h.last.Settled? || SomeSettle(h.before))
  }

  function LatestId(h: History): Option<string> {
    if h.Start? then None else if h.last.SawId? then Some(h.last.id) else LatestId(h.before)
  }

  lemma {:induction false} FactsMeaning(h: History)
    ensures FactsOf(h) == Facts(Seen(h, Shut), Seen(h, Accepted), SomePost(h), Seen(h, Deleted), SomeSettle(h),
        LatestId(h))
  {
    if h.Then? {
      FactsMeaning(h.before);
    }
  }

  /** What may follow `before`, said of the observations themselves. */
  predicate OrderlyNext(before: History, o: Observation, bootstrap: bool) {
    // nothing is sent, asked for or delivered once the transport has shut, and it shuts once
    && (o.Arrived? || o.Delivered? || o.Swallowed? || o.Accepted? || o.Posted? || o.Got? || o.Shut? ==>
        !Seen(before, Shut))
    // the stream ends at most once, and only by shutting
    && (o.Settled? ==> Seen(before, Shut) && !SomeSettle(before))
    // no request of any kind without an accepted write, and one DELETE at most
    && (o.Posted? || o.Got? || o.Deleted? ==> Seen(before, Accepted))
    && (o.Deleted? ==> Seen(before, Shut) && !Seen(before, Deleted))
    // the bootstrap query goes out with the first POST and no other
    && (o.Posted? ==> o.bootstrap == (bootstrap && !SomePost(before)))
    // a reconnect presents the last event id received
    && (o.Got? ==> o.lastEventId == LatestId(before))
  }

  predicate Orderly(h: History, bootstrap: bool) {
    h.Start? || (Orderly(h.before, bootstrap) && OrderlyNext(h.before, h.last, bootstrap))
  }

  lemma {:induction false} ProtocolIsOrderly(h: History, bootstrap: bool)
    requires Protocol(h, bootstrap)
    ensures Orderly(h, bootstrap)
  {
    if h.Then? {
      ProtocolIsOrderly(h.before, bootstrap);
      FactsMeaning(h.before);
    }
  }

  /** In every run the transport behaves in an orderly way and has at most one stream loop. */
  lemma EveryRunIsOrderly(bootstrap: bool, actions: seq<Action>)
    ensures var s := Run(Init(bootstrap), actions);
      Orderly(s.trace, bootstrap) && (s.closed <==> Seen(s.trace, Shut)) && |s.loops| <= 1
  {
    RunKeepsInv(bootstrap, actions);
    var s := Run(Init(bootstrap), actions);
    ProtocolIsOrderly(s.trace, bootstrap);
    FactsMeaning(s.trace);
    assert s.loops.Keys == {} || s.loops.Keys == {s.sseLoop.value};
    assert |s.loops| == |s.loops.Keys|;
  }

  /** `closed` never reverts. */
  lemma {:induction false} ClosedIsFinal(bootstrap: bool, actions: seq<Action>, more: seq<Action>)
    requires Run(Init(bootstrap), actions).closed
    ensures Run(Init(bootstrap), actions + more).closed
  {
    if more == [] {
      assert actions + more == actions;
    } else {
      assert DropLast(actions + more) == actions + DropLast(more);
      ClosedIsFinal(bootstrap, actions, DropLast(more));
      RunKeepsInv(bootstrap, actions + DropLast(more));
      StepKeeps(Run(Init(bootstrap), actions + DropLast(more)), Last(more));
    }
  }

  // ------------------------------------------------- the window inside a run

  function Deliveries(h: History): seq<Envelope> {
    if h.Start? then [] else Deliveries(h.before) + (if h.last.Delivered? then [h.last.m] else [])
  }

  /** All that the filter let through, whether it reached the consumer or not. */
  function Admitted(h: History): seq<Envelope> {
    if h.Start? then []
    else if h.last.Delivered? || h.last.Swallowed? then Admitted(h.before) + [h.last.m]
    else Admitted(h.before)
  }

  /** All that came in while the transport was open, from either source. */
  function Arrivals(h: History): seq<Envelope> {
    if h.Start? then [] else if h.last.Arrived? then Arrivals(h.before) + [h.last.m] else Arrivals(h.before)
  }

  predicate SomeSwallowed(h: History) {
    h.Then? && (h.last.Swallowed? || SomeSwallowed(h.before))
  }

  ghost predicate Window(s: State) {
    && Admitted(s.trace) == DuplicateWindow.Delivered(Arrivals(s.trace))
    && (!s.closed ==> s.accepted == Ids(Admitted(s.trace)))
  }

  /** All that a history says of inbound envelopes. */
  datatype Intake = Intake(arrivals: seq<Envelope>, admitted: seq<Envelope>, deliveries: seq<Envelope>, swallowed: bool)

  function IntakeOf(h: History): Intake {
    Intake(Arrivals(h), Admitted(h), Deliveries(h), SomeSwallowed(h))
  }

  /** Nothing comes in, nothing is remembered. */
  ghost predicate Silent(s: State, t: State) {
    IntakeOf(t.trace) == IntakeOf(s.trace) && t.accepted == s.accepted && (s.closed ==> t.closed)
  }

  lemma FailIsSilent(s: State)
    ensures Silent(s, FailReadable(s))
  {
    assert IntakeOf(Then(s.trace, Shut)) == IntakeOf(s.trace);
  }

  lemma ArrivedKeepsWindow(s: State, m: Envelope)
    requires Window(s) && !s.closed && !Accepts(s.accepted, m)
    ensures Window(Emit(s, Arrived(m)))
  {
    HistoryIsDeliveredIds(Arrivals(s.trace), m);
  }

  lemma AdmitOne(s: State, o: Observation)
    requires Window(s) && !s.closed && (o.Delivered? || o.Swallowed?) && Accepts(s.accepted, o.m)
    ensures Window(Emit(Emit(s, Arrived(o.m)).(accepted := Remember(s.accepted, o.m)), o))
  {
    HistoryIsDeliveredIds(Arrivals(s.trace), o.m);
  }

  lemma PushKeepsWindow(s: State, a: Arrival)
    requires Window(s)
    requires !s.closed ==> s.controller && s.readable.Open?
    ensures Window(PushInbound(s, a).0)
  {
    if s.closed {
    } else if !Accepts(s.accepted, a.m) {
      ArrivedKeepsWindow(s, a.m);
    } else if a.observerThrows {
      AdmitOne(s, Swallowed(a.m));
    } else if a.enqueueFails {
      var t := Emit(Emit(s, Arrived(a.m)).(accepted := Remember(s.accepted, a.m)), Swallowed(a.m));
      AdmitOne(s, Swallowed(a.m));
      FailIsSilent(t);
      SilentKeepsWindow(t, FailReadable(t));
    } else {
      AdmitOne(s, Delivered(a.m));
    }
  }

  lemma ItemKeepsWindow(s: State, item: Item)
    requires Core(s) && Window(s)
    ensures Window(ProcessItem(s, item).0)
  {
    var t := SeeId(s, item.id);
    assert Silent(s, t);
    if item.body.Parsed? {
      PushKeepsWindow(t, item.body.arrival);
    }
  }

  lemma {:induction false} ItemsKeepWindow(s: State, items: seq<Item>)
    requires Core(s) && Window(s)
    ensures Window(ProcessItems(s, items).0)
    decreases |items|
  {
    if items != [] {
      var item := items[0];
      ItemKeepsWindow(s, item);
      ItemKeeps(s, item);
      var (u, threw) := ProcessItem(s, item);
      if !threw {
        ItemsKeepWindow(u, items[1..]);
      }
    }
  }

  lemma LoopTopIsSilent(s: State, k: nat)
    ensures Silent(s, LoopTop(s, k))
  {
  }

  lemma WriteIsSilent(s: State, observerThrows: bool)
    ensures Silent(s, DoWrite(s, observerThrows))
  {
    var t := Emit(s, Accepted).(postedOnce := true);
    LoopTopIsSilent(t.(sseLoop := Some(t.started), started := t.started + 1), t.started);
  }

  lemma CloseIsSilent(s: State)
    ensures Silent(s, DoClose(s))
  {
    assert IntakeOf(Then(s.trace, Shut)) == IntakeOf(s.trace);
  }

  lemma PostDoneKeepsWindow(s: State, outcome: PostOutcome)
    requires Window(s) && (!s.closed ==> s.controller && s.readable.Open?)
    ensures Window(DoPostDone(s, outcome))
  {
    match outcome
    case PostFailed => FailIsSilent(s);
    case PostEmpty =>
    case PostReply(arrival) =>
      PushKeepsWindow(s, arrival);
      FailIsSilent(PushInbound(s, arrival).0);
  }

  lemma SilentKeepsWindow(s: State, t: State)
    requires Window(s) && Silent(s, t)
    ensures Window(t)
  {
  }

  lemma ReadKeepsWindow(s: State, k: nat, items: seq<Item>)
    requires Core(s) && Window(s)
    ensures Window(Step(s, ReadDone(k, items)))
  {
    if At(s, k, Reading) {
      ItemsKeepWindow(s, items);
      SilentKeepsWindow(ProcessItems(s, items).0, Step(s, ReadDone(k, items)));
    }
  }

  lemma StepKeepsWindow(s: State, a: Action)
    requires Inv(s) && Window(s)
    ensures Window(Step(s, a))
  {
    if a.PostDone? {
      if s.posts != 0 {
        PostDoneKeepsWindow(s.(posts := s.posts - 1), a.outcome);
      }
    } else if a.ReadDone? {
      ReadKeepsWindow(s, a.k, a.items);
    } else {
      OtherStepIsSilent(s, a);
      SilentKeepsWindow(s, Step(s, a));
    }
  }

  lemma LoopStepIsSilent(s: State, a: Action)
    requires a.GetDone? || a.ReadEnd? || a.ReadFailed? || a.DelayDone? || a.LoopFinally?
    ensures Silent(s, Step(s, a))
  {
    if a.DelayDone? {
      LoopTopIsSilent(s, a.k);
    } else {
      assert Step(s, a).trace == s.trace;
    }
  }

  lemma OtherStepIsSilent(s: State, a: Action)
    requires !a.PostDone? && !a.ReadDone?
    ensures Silent(s, Step(s, a))
  {
    if a.Write? {
      WriteIsSilent(s, a.observerThrows);
    } else if a.Close? {
      CloseIsSilent(s);
    } else if a.Cancel? {
      CloseIsSilent(s.(readable := Cancelled));
    } else if a.DeleteDone? {
      assert IntakeOf(Then(s.trace, Settled(false))) == IntakeOf(s.trace);
    } else {
      LoopStepIsSilent(s, a);
    }
  }

  lemma {:induction false} RunKeepsWindow(bootstrap: bool, actions: seq<Action>)
    ensures Window(Run(Init(bootstrap), actions))
  {
    if actions != [] {
      var before := DropLast(actions);
      RunKeepsWindow(bootstrap, before);
      RunKeepsInv(bootstrap, before);
      StepKeepsWindow(Run(Init(bootstrap), before), Last(actions));
    }
  }

  /**
   * POST replies and stream events go through one filter: in every run, what
   * is let through is what the plain scan lets through of all that came in, in
   * the order in which it came, and whatever is no answer is let through.
   */
  lemma LetThroughIsFiltered(bootstrap: bool, actions: seq<Action>)
    ensures var h := Run(Init(bootstrap), actions).trace;
      && Admitted(h) == DuplicateWindow.Delivered(Arrivals(h))
      && Subsequence(Admitted(h), Arrivals(h))
      && NoAnswers(Admitted(h)) == NoAnswers(Arrivals(h))
  {
    RunKeepsWindow(bootstrap, actions);
    DeliveryOrder(Arrivals(Run(Init(bootstrap), actions).trace));
  }

  /**
   * Across POST replies and stream events, in any interleaving and whatever the
   * observer does: between two responses to one request that are let through,
   * responses to at least 2048 other requests are let through.
   */
  lemma RunRedeliverySpacing(bootstrap: bool, actions: seq<Action>, i: nat, j: nat, id: string)
    requires i < j < |Admitted(Run(Init(bootstrap), actions).trace)| && id != ""
    requires Answers(Admitted(Run(Init(bootstrap), actions).trace)[i], id)
    requires Answers(Admitted(Run(Init(bootstrap), actions).trace)[j], id)
    ensures |OtherIds(Admitted(Run(Init(bootstrap), actions).trace)[i + 1..j], id)| >= 2048
  {
    RunKeepsWindow(bootstrap, actions);
    DeliveredIsLegal(Arrivals(Run(Init(bootstrap), actions).trace));
    LegalSpacing(Admitted(Run(Init(bootstrap), actions).trace), i, j, id);
  }

  lemma {:induction false} WithoutSwallowing(h: History)
    ensures Admitted(h) == Deliveries(h) <==> !SomeSwallowed(h)
    ensures |Admitted(h)| >= |Deliveries(h)|
    ensures |Admitted(h)| == |Deliveries(h)| ==> Admitted(h) == Deliveries(h)
  {
    if h.Then? {
      WithoutSwallowing(h.before);
    }
  }

  // ------------------------------------- when what is let through is not delivered

  /**
   * An arrival that reaches the open transport and passes the window, and then
   * meets an observer or a stream that throws.
   */
  predicate Spoils(s: State, a: Arrival) {
    !s.closed && Accepts(s.accepted, a.m) && (a.observerThrows || a.enqueueFails)
  }

  predicate ItemSpoils(s: State, item: Item) {
    item.body.Parsed? && Spoils(SeeId(s, item.id), item.body.arrival)
  }

  predicate ItemsSpoil(s: State, items: seq<Item>)
    decreases |items|
  {
    items != [] &&
    (ItemSpoils(s, items[0]) || (!ProcessItem(s, items[0]).1 && ItemsSpoil(ProcessItem(s, items[0]).0, items[1..])))
  }

  predicate StepSpoils(s: State, a: Action) {
    match a
    case PostDone(PostReply(arrival)) => s.posts > 0 && Spoils(s, arrival)
    case ReadDone(k, items) => At(s, k, Reading) && ItemsSpoil(s, items)
    case _ => false
  }

  predicate RunSpoils(s: State, actions: seq<Action>) {
    actions != [] && (RunSpoils(s, DropLast(actions)) || StepSpoils(Run(s, DropLast(actions)), Last(actions)))
  }

  ghost predicate SwallowsIff(s: State, t: State, spoils: bool) {
    SomeSwallowed(t.trace) == (SomeSwallowed(s.trace) || spoils)
  }

  lemma PushSwallowsIff(s: State, a: Arrival)
    requires !s.closed ==> s.controller && s.readable.Open?
    ensures SwallowsIff(s, PushInbound(s, a).0, Spoils(s, a))
  {
    if !s.closed && Accepts(s.accepted, a.m) {
      FailIsSilent(Emit(Emit(s, Arrived(a.m)).(accepted := Remember(s.accepted, a.m)), Swallowed(a.m)));
    }
  }

  lemma ItemSwallowsIff(s: State, item: Item)
    requires !s.closed ==> s.controller && s.readable.Open?
    ensures SwallowsIff(s, ProcessItem(s, item).0, ItemSpoils(s, item))
  {
    var t := SeeId(s, item.id);
    assert SomeSwallowed(t.trace) == SomeSwallowed(s.trace);
    if item.body.Parsed? {
      PushSwallowsIff(t, item.body.arrival);
    }
  }

  lemma {:induction false} ItemsSwallowIff(s: State, items: seq<Item>)
    requires Core(s)
    ensures SwallowsIff(s, ProcessItems(s, items).0, ItemsSpoil(s, items))
    decreases |items|
  {
    if items != [] {
      ItemSwallowsIff(s, items[0]);
      ItemKeeps(s, items[0]);
      var (t, threw) := ProcessItem(s, items[0]);
      if !threw {
        ItemsSwallowIff(t, items[1..]);
      }
    }
  }

  lemma PostDoneSwallowsIff(s: State, outcome: PostOutcome)
    requires Inv(s)
    ensures SwallowsIff(s, Step(s, PostDone(outcome)), StepSpoils(s, PostDone(outcome)))
  {
    if s.posts > 0 {
      var t := s.(posts := s.posts - 1);
      match outcome {
        case PostFailed => FailIsSilent(t);
        case PostEmpty =>
        case PostReply(arrival) =>
          PushSwallowsIff(t, arrival);
          FailIsSilent(PushInbound(t, arrival).0);
      }
    }
  }

  lemma StepSwallowsIff(s: State, a: Action)
    requires Inv(s)
    ensures SwallowsIff(s, Step(s, a), StepSpoils(s, a))
  {
    if a.PostDone? {
      PostDoneSwallowsIff(s, a.outcome);
    } else if a.ReadDone? {
      ItemsSwallowIff(s, a.items);
    } else {
      OtherStepIsSilent(s, a);
    }
  }

  lemma {:induction false} RunSwallowsIff(bootstrap: bool, actions: seq<Action>)
    ensures SomeSwallowed(Run(Init(bootstrap), actions).trace) == RunSpoils(Init(bootstrap), actions)
  {
    if actions != [] {
      RunSwallowsIff(bootstrap, DropLast(actions));
      RunKeepsInv(bootstrap, DropLast(actions));
      StepSwallowsIff(Run(Init(bootstrap), DropLast(actions)), Last(actions));
    }
  }

  /**
   * In a run, everything the filter let through was delivered if and only if
   * no arrival that reached the open transport and passed the window met an
   * observer or a stream that throws.
   */
  lemma {:induction false} AdmittedIsDelivered(bootstrap: bool, actions: seq<Action>)
    ensures Admitted(Run(Init(bootstrap), actions).trace) == Deliveries(Run(Init(bootstrap), actions).trace)
            <==> !RunSpoils(Init(bootstrap), actions)
  {
    WithoutSwallowing(Run(Init(bootstrap), actions).trace);
    RunSwallowsIff(bootstrap, actions);
  }

  lemma RunSnoc(s: State, actions: seq<Action>, a: Action)
    ensures Run(s, actions + [a]) == Step(Run(s, actions), a)
  {
    assert DropLast(actions + [a]) == actions;
  }

  /**
   * What the observer that throws on a stream event leaves behind: a loop that
   * has returned, and an id that counts as seen.
   */
  lemma ThrowingObserver(s: State, k: nat, m: Envelope, id: string)
    requires Inv(s) && !s.closed && At(s, k, Reading) && Accepts(s.accepted, m)
    ensures var t := Step(s, ReadDone(k, [Item(Some(id), Parsed(Arrival(m, true, false)))]));
      && OneLoop(t) && !t.closed && At(t, k, Ended) && t.started == s.started && t.lastEventId == Some(id)
      && t.accepted == Remember(s.accepted, m)
      && Deliveries(t.trace) == Deliveries(s.trace) && Arrivals(t.trace) == Arrivals(s.trace) + [m]
  {
    var item := Item(Some(id), Parsed(Arrival(m, true, false)));
    StepKeeps(s, ReadDone(k, [item]));
    var u := SeeId(s, Some(id));
    assert ProcessItem(s, item) == PushInbound(u, item.body.arrival);
    assert ProcessItems(s, [item]) == PushInbound(u, item.body.arrival);
    assert Deliveries(u.trace) == Deliveries(s.trace) && Arrivals(u.trace) == Arrivals(s.trace);
  }

  lemma RunThree(s: State, a: Action, b: Action, c: Action)
    ensures Run(s, [a, b, c]) == Step(Step(Step(s, a), b), c)
  {
    RunSnoc(s, [], a);
    assert [] + [a] == [a] && Run(s, [a]) == Step(s, a);
    RunSnoc(s, [a], b);
    assert [a] + [b] == [a, b] && Run(s, [a, b]) == Step(Step(s, a), b);
    RunSnoc(s, [a, b], c);
    assert [a, b] + [c] == [a, b, c];
  }

  lemma ClearedLoop(s: State, k: nat)
    requires OneLoop(s) && At(s, k, Ended)
    ensures Step(s, LoopFinally(k)) == s.(loops := map[], sseLoop := None)
  {
    assert s.loops - {k} == map[];
  }

  lemma WriteAsksAgain(s: State)
    requires !s.closed && s.sseLoop.None? && s.loops == map[]
    ensures var t := Step(s, Write(false));
      !t.closed && t.loops == map[s.started := Fetching] && t.lastEventId == s.lastEventId
  {
  }

  /** The stream is asked for again by the next write, and answers. */
  lemma StreamComesBack(s: State, k: nat)
    requires OneLoop(s) && !s.closed && At(s, k, Ended)
    ensures var t := Run(s, [LoopFinally(k), Write(false), GetDone(s.started, true)]);
      && !t.closed && At(t, s.started, Reading) && t.lastEventId == s.lastEventId && Silent(s, t)
  {
    var a, b, c := LoopFinally(k), Write(false), GetDone(s.started, true);
    RunThree(s, a, b, c);
    var s1 := Step(s, a);
    ClearedLoop(s, k);
    WriteAsksAgain(s1);
    OtherStepIsSilent(s1, b);
  }

  /** The server sends the response once more, and the filter drops it. */
  lemma DroppedOnRedelivery(s: State, k: nat, m: Envelope)
    requires !s.closed && At(s, k, Reading) && !Accepts(s.accepted, m)
    ensures var t := Step(s, ReadDone(k, [Item(None, Parsed(Arrival(m, false, false)))]));
      && !t.closed && t.lastEventId == s.lastEventId
      && Deliveries(t.trace) == Deliveries(s.trace) && Arrivals(t.trace) == Arrivals(s.trace) + [m]
  {
    var item := Item(None, Parsed(Arrival(m, false, false)));
    assert ProcessItem(s, item) == (Emit(s, Arrived(m)), false);
    assert ProcessItems(Emit(s, Arrived(m)), []) == (Emit(s, Arrived(m)), false);
    assert ProcessItems(s, [item]) == (Emit(s, Arrived(m)), false);
  }

  /**
   * The failing run, from any open state with a loop that is reading: the
   * observer throws on a response, the next write brings the stream back, and
   * when the server sends the response again it is dropped. The transport is
   * still open, the response has not been delivered, and a reconnect would not
   * ask for it either, since its event id is the last one seen.
   */
  lemma SwallowedResponseIsLost(s: State, k: nat, m: Envelope, id: string)
    requires Inv(s) && !s.closed && At(s, k, Reading) && FilterId(m).Some? && Accepts(s.accepted, m)
    ensures var first := ReadDone(k, [Item(Some(id), Parsed(Arrival(m, true, false)))]);
      var again := ReadDone(s.started, [Item(None, Parsed(Arrival(m, false, false)))]);
      var t := Step(Run(Step(s, first), [LoopFinally(k), Write(false), GetDone(s.started, true)]), again);
      && !t.closed && t.lastEventId == Some(id)
      && Arrivals(t.trace) == Arrivals(s.trace) + [m, m] && Deliveries(t.trace) == Deliveries(s.trace)
  {
    ThrowingObserver(s, k, m, id);
    var s1 := Step(s, ReadDone(k, [Item(Some(id), Parsed(Arrival(m, true, false)))]));
    StreamComesBack(s1, k);
    var s2 := Run(s1, [LoopFinally(k), Write(false), GetDone(s.started, true)]);
    assert Last(s2.accepted) == FilterId(m).value && !Accepts(s2.accepted, m) by {
      var window := LastN(s2.accepted, WINDOW);
      assert window[|window| - 1] == FilterId(m).value;
    }
    DroppedOnRedelivery(s2, s.started, m);
    assert Arrivals(s.trace) + [m] + [m] == Arrivals(s.trace) + [m, m];
  }

  // ------------------------------------------------ what must happen, and does

  function Count(h: History, accepted: bool): nat {
    if h.Start? then 0
    else Count(h.before, accepted) + if (if accepted then h.last.Accepted? else h.last.Posted?) then 1 else 0
  }

  /** Every accepted write is posted, and once closed and through with its DELETE the stream has ended. */
  ghost predicate Complete(s: State) {
    && Count(s.trace, true) == Count(s.trace, false)
    && (s.readable.Open? ==> s.controller)
    && (s.closed && s.readable.Open? ==> s.deleting)
    && (s.deleting ==> Seen(s.trace, Deleted))
  }

  /** No writes and no posts, and the stream keeps its side of `Complete`. */
  ghost predicate NoWrite(s: State, t: State) {
    && Count(t.trace, true) == Count(s.trace, true) && Count(t.trace, false) == Count(s.trace, false)
  }

  ghost predicate Steady(s: State, t: State) {
    && NoWrite(s, t)
    && ((t.readable == s.readable && t.controller == s.controller && t.closed == s.closed && t.deleting == s.deleting)
        || (t.closed && t.deleting == s.deleting && !s.closed && !t.readable.Open?))
  }

  lemma FailIsSteady(s: State)
    requires Complete(s)
    ensures Steady(s, FailReadable(s)) && Complete(FailReadable(s))
  {
  }

  lemma PushIsSteady(s: State, a: Arrival)
    requires Complete(s)
    ensures Steady(s, PushInbound(s, a).0) && Complete(PushInbound(s, a).0)
  {
    if !s.closed && Accepts(s.accepted, a.m) {
      FailIsSteady(Emit(Emit(s, Arrived(a.m)).(accepted := Remember(s.accepted, a.m)), Swallowed(a.m)));
    }
  }

  lemma {:induction false} ItemsAreComplete(s: State, items: seq<Item>)
    requires Complete(s)
    ensures Complete(ProcessItems(s, items).0) && NoWrite(s, ProcessItems(s, items).0)
    decreases |items|
  {
    if items != [] {
      var t := SeeId(s, items[0].id);
      assert Complete(t);
      if items[0].body.Parsed? {
        PushIsSteady(t, items[0].body.arrival);
      }
      var (u, threw) := ProcessItem(s, items[0]);
      if !threw {
        ItemsAreComplete(u, items[1..]);
      }
    }
  }

  lemma LoopTopIsComplete(s: State, k: nat)
    requires Complete(s)
    ensures Complete(LoopTop(s, k))
  {
  }

  lemma WriteIsComplete(s: State, observerThrows: bool)
    requires Complete(s)
    ensures Complete(DoWrite(s, observerThrows))
  {
    if !s.closed && !observerThrows {
      var t := Emit(s, Accepted).(postedOnce := true);
      var u := EnsureSseLoop(t);
      assert NoWrite(t, u) && u.readable == s.readable && u.controller == s.controller && !u.closed;
    }
  }

  lemma CloseIsComplete(s: State)
    requires s.readable.Open? ==> s.controller
    requires s.closed && s.readable.Open? ==> s.deleting
    requires s.deleting ==> Seen(s.trace, Deleted)
    requires Count(s.trace, true) == Count(s.trace, false)
    ensures Complete(DoClose(s))
  {
  }

  lemma StepIsComplete(s: State, a: Action)
    requires Complete(s)
    ensures Complete(Step(s, a))
  {
    if a.Write? {
      WriteIsComplete(s, a.observerThrows);
    } else if a.PostDone? {
      PostDoneIsComplete(s, a.outcome);
    } else if a.ReadDone? {
      ItemsAreComplete(s, a.items);
    } else if a.DelayDone? {
      LoopTopIsComplete(s, a.k);
    } else if a.Close? {
      CloseIsComplete(s);
    } else if a.Cancel? {
      CloseIsComplete(s.(readable := Cancelled));
    }
  }

  lemma PostDoneIsComplete(s: State, outcome: PostOutcome)
    requires Complete(s)
    ensures Complete(Step(s, PostDone(outcome)))
  {
    if s.posts != 0 {
      var t := s.(posts := s.posts - 1);
      FailIsSteady(t);
      if outcome.PostReply? {
        PushIsSteady(t, outcome.arrival);
        FailIsSteady(PushInbound(t, outcome.arrival).0);
      }
    }
  }

  lemma {:induction false} RunIsComplete(bootstrap: bool, actions: seq<Action>)
    ensures Complete(Run(Init(bootstrap), actions))
  {
    if actions != [] {
      RunIsComplete(bootstrap, DropLast(actions));
      StepIsComplete(Run(Init(bootstrap), DropLast(actions)), Last(actions));
    }
  }

  /**
   * In every run each accepted write has been posted; and the stream of a
   * closed transport has ended, unless a DELETE is still under way.
   */
  lemma WritesArePostedAndStreamsEnd(bootstrap: bool, actions: seq<Action>)
    ensures var s := Run(Init(bootstrap), actions);
      && Count(s.trace, true) == Count(s.trace, false)
      && (Seen(s.trace, Shut) && !s.deleting ==> !s.readable.Open?)
  {
    RunIsComplete(bootstrap, actions);
    EveryRunIsOrderly(bootstrap, actions);
  }

  predicate Running(s: State) {
    exists k :: k in s.loops && s.loops[k] != Ended
  }

  /**
   * An open transport accepts a write and posts it, and closing it after that
   * sends a DELETE. After the write a stream loop is running if and only if
   * the write did not meet a loop that had returned but not yet been cleared.
   */
  lemma WritesStartTheLoopIff(bootstrap: bool, actions: seq<Action>)
    requires !Run(Init(bootstrap), actions).closed
    ensures var s := Run(Init(bootstrap), actions);
      var t := Run(Init(bootstrap), actions + [Write(false)]);
      && !t.closed && t.sseLoop.Some? && t.trace.Then? && t.trace.last.Posted?
      && Seen(Step(t, Close).trace, Deleted)
      && (Running(t) <==> forall k :: k in s.loops ==> s.loops[k] != Ended)
  {
    var s := Run(Init(bootstrap), actions);
    RunSnoc(Init(bootstrap), actions, Write(false));
    RunKeepsInv(bootstrap, actions);
    var t := DoWrite(s, false);
    if s.sseLoop.Some? {
      assert t.loops == s.loops && s.sseLoop.value in s.loops.Keys;
    } else {
      assert t.loops[s.started] == Fetching;
    }
  }

  /**
   * The failing run: the second write comes when the loop has returned, before
   * its clean-up; then the transport is open with no loop, and the stream has
   * been asked for only once.
   */
  lemma WriteMeetsAReturnedLoop(bootstrap: bool)
    ensures var t := Run(Step(Init(bootstrap), Write(false)), [GetDone(0, false), Write(false), LoopFinally(0)]);
      && !t.closed && t.sseLoop.None? && t.loops == map[]
      && t.trace == Then(Then(Then(Then(Then(Start, Accepted), Got(None)), Posted(bootstrap)), Accepted), Posted(false))
  {
    var s := Step(Init(bootstrap), Write(false));
    FirstWrite(bootstrap);
    RunThree(s, GetDone(0, false), Write(false), LoopFinally(0));
    var ended := Step(s, GetDone(0, false));
    assert ended == s.(loops := map[0 := Ended]);
    SecondWrite(ended);
    ClearedLoop(Step(ended, Write(false)), 0);
  }

  lemma FirstWrite(bootstrap: bool)
    ensures Step(Init(bootstrap), Write(false))
            == State(bootstrap, false, false, false, true, true, Open, map[0 := Fetching], Some(0), 1, None, [], 1,
                     Then(Then(Then(Start, Accepted), Got(None)), Posted(bootstrap)))
  {
  }

  lemma SecondWrite(s: State)
    requires !s.closed && s.postedOnce && s.sseLoop.Some?
    ensures Step(s, Write(false)) == s.(posts := s.posts + 1, trace := Then(Then(s.trace, Accepted), Posted(false)))
  {
  }

  // --------------------------------------------------- what comes in, by the actions

  /** The replies that outstanding POSTs have had. */
  function Replies(s: State, actions: seq<Action>): nat
    decreases |actions|, 0
  {
    if actions == [] then 0
    else
      var before := DropLast(actions);
      Replies(s, before) + if Last(actions).PostDone? && Outstanding(s, before) then 1 else 0
  }

  /** More POSTs have been sent than have been replied to. */
  predicate Outstanding(s: State, actions: seq<Action>)
    decreases |actions|, 1
  {
    Count(Run(s, actions).trace, false) > Replies(s, actions)
  }

  function Envelopes(arrivals: seq<Arrival>): seq<Envelope> {
    if arrivals == [] then [] else Envelopes(DropLast(arrivals)) + [Last(arrivals).m]
  }

  /** The plain scan lets `a` through after `came`. */
  predicate Passes(came: seq<Arrival>, a: Arrival) {
    Accepts(Ids(DuplicateWindow.Delivered(Envelopes(came))), a.m)
  }

  /** What the consumer is to get of all that comes in: what passes the scan, unless observer or stream throw on it. */
  function Deliverable(came: seq<Arrival>): seq<Envelope> {
    if came == [] then []
    else
      var before, a := DropLast(came), Last(came);
      Deliverable(before) + (if Passes(before, a) && !a.observerThrows && !a.enqueueFails then [a.m] else [])
  }

  /** The payloads of a read, as far as they are reached: up to one that is no JSON or on which somebody throws. */
  function Reached(came: seq<Arrival>, items: seq<Item>): seq<Arrival>
    decreases |items|
  {
    if items == [] then []
    else
      match items[0].body
      case NoBody => Reached(came, items[1..])
      case Malformed => []
      case Parsed(a) =>
        if Passes(came, a) && (a.observerThrows || a.enqueueFails) then [a]
        else [a] + Reached(came + [a], items[1..])
  }

  /**
   * All that comes in during a run, told from its actions: the replies to
   * outstanding POSTs and the payloads of reads of loops that are reading, in
   * order; nothing after the transport has shut.
   */
  function Incoming(s: State, actions: seq<Action>): seq<Arrival> {
    if actions == [] then []
    else
      var before := DropLast(actions);
      Incoming(s, before) + ComingIn(Run(s, before), Incoming(s, before), Outstanding(s, before), Last(actions))
  }

  function ComingIn(s: State, came: seq<Arrival>, outstanding: bool, a: Action): seq<Arrival> {
    if Seen(s.trace, Shut) then []
    else
      match a
      case PostDone(PostReply(arrival)) => if outstanding then [arrival] else []
      case ReadDone(k, items) => if At(s, k, Reading) then Reached(came, items) else []
      case _ => []
  }

  /** The history tells of exactly these arrivals, and their deliveries. */
  ghost predicate Tells(s: State, came: seq<Arrival>) {
    Arrivals(s.trace) == Envelopes(came) && Deliveries(s.trace) == Deliverable(came)
  }

  lemma SilentTells(s: State, t: State, came: seq<Arrival>)
    requires Tells(s, came) && Silent(s, t)
    ensures Tells(t, came)
  {
    assert IntakeOf(s.trace) == IntakeOf(t.trace);
  }

  lemma OneMore(came: seq<Arrival>, a: Arrival)
    ensures Envelopes(came + [a]) == Envelopes(came) + [a.m]
    ensures Deliverable(came + [a]) ==
            Deliverable(came) + (if Passes(came, a) && !a.observerThrows && !a.enqueueFails then [a.m] else [])
  {
    assert DropLast(came + [a]) == came;
  }

  lemma PushTells(s: State, a: Arrival, came: seq<Arrival>)
    requires Tells(s, came) && Window(s) && (!s.closed ==> s.controller && s.readable.Open?)
    ensures Tells(PushInbound(s, a).0, if s.closed then came else came + [a])
    ensures !s.closed ==> (PushInbound(s, a).1 <==> Passes(came, a) && a.observerThrows)
    ensures !s.closed ==> (PushInbound(s, a).0.closed <==> Passes(came, a) && !a.observerThrows && a.enqueueFails)
  {
    OneMore(came, a);
    if !s.closed {
      assert Passes(came, a) == Accepts(s.accepted, a.m);
      var t := Emit(s, Arrived(a.m)).(accepted := Remember(s.accepted, a.m));
      FailIsSilent(Emit(t, Swallowed(a.m)));
      assert Arrivals(t.trace) == Arrivals(s.trace) + [a.m] && Deliveries(t.trace) == Deliveries(s.trace);
      assert Arrivals(Then(t.trace, Swallowed(a.m))) == Arrivals(t.trace);
      assert Arrivals(Then(t.trace, Delivered(a.m))) == Arrivals(t.trace);
      assert Deliveries(Then(t.trace, Swallowed(a.m))) == Deliveries(t.trace);
      assert Deliverable(came) + [] == Deliverable(came);
    }
  }

  /** A read that finds the transport closed, or that goes on after it has closed, brings nothing. */
  lemma {:induction false} ClosedTells(s: State, items: seq<Item>, came: seq<Arrival>)
    requires Tells(s, came) && s.closed
    ensures Tells(ProcessItems(s, items).0, came)
    decreases |items|
  {
    if items != [] {
      assert Silent(s, SeeId(s, items[0].id));
      if !ProcessItem(s, items[0]).1 {
        ClosedTells(ProcessItem(s, items[0]).0, items[1..], came);
      }
    }
  }

  /** What has come in once an item has been handed on. */
  function With(came: seq<Arrival>, item: Item): seq<Arrival> {
    if item.body.Parsed? then came + [item.body.arrival] else came
  }

  lemma ItemTells(s: State, item: Item, came: seq<Arrival>)
    requires Tells(s, came) && Core(s) && Window(s) && !s.closed
    ensures var (t, threw) := ProcessItem(s, item);
      && Tells(t, With(came, item)) && Core(t) && Window(t)
      && (threw <==>
          item.body.Malformed? ||
          (item.body.Parsed? && Passes(came, item.body.arrival) && item.body.arrival.observerThrows))
      && (t.closed <==>
          item.body.Parsed? && Passes(came, item.body.arrival) && !item.body.arrival.observerThrows &&
          item.body.arrival.enqueueFails)
  {
    var u := SeeId(s, item.id);
    SeeIdKeeps(s, item.id);
    assert Silent(s, u);
    SilentTells(s, u, came);
    SilentKeepsWindow(s, u);
    ItemKeeps(s, item);
    ItemKeepsWindow(s, item);
    if item.body.Parsed? {
      PushTells(u, item.body.arrival, came);
    }
  }

  lemma {:induction false} ItemsTell(s: State, items: seq<Item>, came: seq<Arrival>)
    requires Tells(s, came) && Core(s) && Window(s) && !s.closed
    ensures Tells(ProcessItems(s, items).0, came + Reached(came, items))
    decreases |items|
  {
    assert came + [] == came;
    if items != [] {
      var item := items[0];
      var (t, threw) := ProcessItem(s, item);
      ItemTells(s, item, came);
      if !threw {
        if t.closed {
          ClosedTells(t, items[1..], With(came, item));
        } else {
          ItemsTell(t, items[1..], With(came, item));
        }
        if item.body.Parsed? {
          Associate(came, [item.body.arrival], Reached(came + [item.body.arrival], items[1..]));
        }
      }
    }
  }

  lemma ReadTells(s: State, k: nat, items: seq<Item>, came: seq<Arrival>)
    requires Inv(s) && Window(s) && Tells(s, came)
    ensures Tells(Step(s, ReadDone(k, items)), came + ComingIn(s, came, false, ReadDone(k, items)))
  {
    FactsMeaning(s.trace);
    assert came + [] == came;
    if At(s, k, Reading) {
      if s.closed {
        ClosedTells(s, items, came);
      } else {
        ItemsTell(s, items, came);
      }
    }
  }

  lemma PostTells(s: State, outcome: PostOutcome, came: seq<Arrival>)
    requires Inv(s) && Window(s) && Tells(s, came)
    ensures Tells(Step(s, PostDone(outcome)), came + ComingIn(s, came, s.posts > 0, PostDone(outcome)))
  {
    FactsMeaning(s.trace);
    assert came + [] == came;
    if s.posts > 0 {
      var t := s.(posts := s.posts - 1);
      assert Tells(t, came);
      match outcome {
        case PostFailed =>
          FailIsSilent(t);
          SilentTells(t, FailReadable(t), came);
        case PostEmpty =>
        case PostReply(arrival) =>
          PushTells(t, arrival, came);
          FailIsSilent(PushInbound(t, arrival).0);
          SilentTells(PushInbound(t, arrival).0, FailReadable(PushInbound(t, arrival).0),
            if s.closed then came else came + [arrival]);
      }
    }
  }

  /** Sending, answering and counting POSTs keep in step. */
  lemma StepCountsPosts(s: State, a: Action)
    requires Inv(s) && Complete(s)
    ensures var t := Step(s, a);
      Count(t.trace, false) - t.posts ==
      Count(s.trace, false) - s.posts + if a.PostDone? && s.posts > 0 then 1 else 0
  {
    if a.Write? {
      WriteCountsPosts(s, a.observerThrows);
    } else if a.PostDone? {
      PostCountsPosts(s, a.outcome);
    } else if a.ReadDone? {
      ItemsKeep(s, a.items);
      ItemsAreComplete(s, a.items);
    }
  }

  lemma WriteCountsPosts(s: State, observerThrows: bool)
    requires Complete(s)
    ensures var t := DoWrite(s, observerThrows); Count(t.trace, false) - t.posts == Count(s.trace, false) - s.posts
  {
    if !s.closed && !observerThrows {
      var t := Emit(s, Accepted).(postedOnce := true);
      assert Count(EnsureSseLoop(t).trace, false) == Count(s.trace, false) && EnsureSseLoop(t).posts == s.posts;
    }
  }

  lemma PostCountsPosts(s: State, outcome: PostOutcome)
    requires Inv(s) && Complete(s)
    ensures var t := Step(s, PostDone(outcome));
      Count(t.trace, false) == Count(s.trace, false) && t.posts == if s.posts > 0 then s.posts - 1 else 0
  {
    if s.posts > 0 {
      var t := s.(posts := s.posts - 1);
      FailIsSteady(t);
      FailKeeps(t);
      if outcome.PostReply? {
        PushIsSteady(t, outcome.arrival);
        PushKeeps(t, outcome.arrival);
        FailIsSteady(PushInbound(t, outcome.arrival).0);
        FailKeeps(PushInbound(t, outcome.arrival).0);
      }
    }
  }

  lemma {:induction false} RunCountsPosts(bootstrap: bool, actions: seq<Action>)
    ensures Run(Init(bootstrap), actions).posts ==
            Count(Run(Init(bootstrap), actions).trace, false) - Replies(Init(bootstrap), actions)
  {
    if actions != [] {
      RunCountsPosts(bootstrap, DropLast(actions));
      RunKeepsInv(bootstrap, DropLast(actions));
      RunIsComplete(bootstrap, DropLast(actions));
      StepCountsPosts(Run(Init(bootstrap), DropLast(actions)), Last(actions));
    }
  }

  /**
   * In every run, what came in is what the actions brought: the replies to
   * outstanding POSTs and the payloads of reads, in order, as long as the
   * transport had not shut; and the consumer has got, in order, exactly those
   * that pass the scan of the last 2048 ids and on which nobody throws.
   */
  lemma {:induction false} ArrivalsAreIncoming(bootstrap: bool, actions: seq<Action>)
    ensures var came := Incoming(Init(bootstrap), actions);
      var h := Run(Init(bootstrap), actions).trace;
      Arrivals(h) == Envelopes(came) && Deliveries(h) == Deliverable(came)
  {
    if actions != [] {
      var before, a := DropLast(actions), Last(actions);
      var s, came := Run(Init(bootstrap), before), Incoming(Init(bootstrap), before);
      ArrivalsAreIncoming(bootstrap, before);
      RunKeepsInv(bootstrap, before);
      RunKeepsWindow(bootstrap, before);
      RunCountsPosts(bootstrap, before);
      if a.PostDone? {
        PostTells(s, a.outcome, came);
      } else if a.ReadDone? {
        ReadTells(s, a.k, a.items, came);
      } else {
        OtherStepIsSilent(s, a);
        SilentTells(s, Step(s, a), came);
        assert came + [] == came;
      }
    }
  }

  // ------------------------------------------------ what each event does, in any run

  /** The writes of a run that find the transport open and the observer content. */
  function Writes(s: State, actions: seq<Action>): nat {
    if actions == [] then 0
    else
      var before := DropLast(actions);
      Writes(s, before) + if Last(actions) == Write(false) && !Seen(Run(s, before).trace, Shut) then 1 else 0
  }

  /** Each write that finds the transport open is one POST, and nothing else is. */
  lemma {:induction false} PostsAreTheWrites(bootstrap: bool, actions: seq<Action>)
    ensures Count(Run(Init(bootstrap), actions).trace, false) == Writes(Init(bootstrap), actions)
  {
    if actions != [] {
      var before, a := DropLast(actions), Last(actions);
      var s := Run(Init(bootstrap), before);
      PostsAreTheWrites(bootstrap, before);
      RunKeepsInv(bootstrap, before);
      RunIsComplete(bootstrap, before);
      FactsMeaning(s.trace);
      if a.Write? {
        WriteCountsPosts(s, a.observerThrows);
      } else if a.PostDone? {
        PostCountsPosts(s, a.outcome);
      } else {
        StepCountsPosts(s, a);
        OtherStepsSendNoPost(s, a);
      }
    }
  }

  lemma OtherStepsSendNoPost(s: State, a: Action)
    requires Inv(s) && !a.Write? && !a.PostDone?
    ensures Step(s, a).posts == s.posts
  {
    if a.ReadDone? {
      ItemsKeep(s, a.items);
    }
  }

  /** A POST that failed, or whose reply passes the scan and makes somebody throw. */
  predicate Fails(came: seq<Arrival>, outcome: PostOutcome) {
    || outcome.PostFailed?
    || (outcome.PostReply? && Passes(came, outcome.arrival) &&
        (outcome.arrival.observerThrows || outcome.arrival.enqueueFails))
  }

  lemma PostShuts(s: State, outcome: PostOutcome, came: seq<Arrival>)
    requires Inv(s) && Window(s) && Tells(s, came) && !s.closed && s.posts > 0
    ensures var t := Step(s, PostDone(outcome));
      && (t.closed <==> Fails(came, outcome))
      && (t.closed ==> t.trace.Then? && t.trace.last == Settled(true) && t.readable.Errored?)
  {
    if outcome.PostReply? {
      PushTells(s.(posts := s.posts - 1), outcome.arrival, came);
    }
  }

  /** The end of a POST shuts an open transport if and only if it failed; then the consumer sees an error. */
  lemma PostShutsIffItFails(bootstrap: bool, actions: seq<Action>, outcome: PostOutcome)
    requires !Seen(Run(Init(bootstrap), actions).trace, Shut) && Outstanding(Init(bootstrap), actions)
    ensures var t := Run(Init(bootstrap), actions + [PostDone(outcome)]);
      && (Seen(t.trace, Shut) <==> Fails(Incoming(Init(bootstrap), actions), outcome))
      && (Seen(t.trace, Shut) ==> t.trace.last == Settled(true) && t.readable.Errored?)
  {
    RunSnoc(Init(bootstrap), actions, PostDone(outcome));
    RunKeepsInv(bootstrap, actions);
    RunKeepsWindow(bootstrap, actions);
    RunCountsPosts(bootstrap, actions);
    ArrivalsAreIncoming(bootstrap, actions);
    EveryRunIsOrderly(bootstrap, actions);
    EveryRunIsOrderly(bootstrap, actions + [PostDone(outcome)]);
    PostShuts(Run(Init(bootstrap), actions), outcome, Incoming(Init(bootstrap), actions));
  }

  /** A read with a payload that passes the scan and the observer, but that the stream refuses. */
  predicate Breaks(came: seq<Arrival>, items: seq<Item>)
    decreases |items|
  {
    items != [] &&
    match items[0].body
    case NoBody => Breaks(came, items[1..])
    case Malformed => false
    case Parsed(a) =>
      if Passes(came, a) && (a.observerThrows || a.enqueueFails) then !a.observerThrows
      else Breaks(came + [a], items[1..])
  }

  /** What shuts an open transport. */
  predicate Shuts(s: State, came: seq<Arrival>, outstanding: bool, a: Action) {
    match a
    case Close => true
    case Cancel => true
    case PostDone(outcome) => outstanding && Fails(came, outcome)
    case ReadDone(k, items) => At(s, k, Reading) && Breaks(came, items)
    case _ => false
  }

  predicate RunShuts(s: State, actions: seq<Action>) {
    actions != [] &&
    var before := DropLast(actions);
    RunShuts(s, before) || Shuts(Run(s, before), Incoming(s, before), Outstanding(s, before), Last(actions))
  }

  lemma {:induction false} ItemsShutIff(s: State, items: seq<Item>, came: seq<Arrival>)
    requires Tells(s, came) && Core(s) && Window(s) && !s.closed
    ensures ProcessItems(s, items).0.closed <==> Breaks(came, items)
    decreases |items|
  {
    if items != [] {
      var (t, threw) := ProcessItem(s, items[0]);
      ItemTells(s, items[0], came);
      if !threw {
        if t.closed {
          ItemsKeep(t, items[1..]);
        } else {
          ItemsShutIff(t, items[1..], With(came, items[0]));
        }
      }
    }
  }

  lemma StepShutsIff(s: State, a: Action, came: seq<Arrival>)
    requires Inv(s) && Window(s) && Tells(s, came) && !s.closed
    ensures Step(s, a).closed <==> Shuts(s, came, s.posts > 0, a)
  {
    if a.PostDone? {
      if s.posts > 0 {
        PostShuts(s, a.outcome, came);
      }
    } else if a.ReadDone? {
      ItemsShutIff(s, a.items, came);
    }
  }

  /**
   * A transport has shut if and only if, in the course of the run, it was
   * closed or its stream cancelled, a POST failed or its reply made somebody
   * throw, or the stream refused a payload of a read.
   */
  lemma {:induction false} ShutsIff(bootstrap: bool, actions: seq<Action>)
    ensures Seen(Run(Init(bootstrap), actions).trace, Shut) <==> RunShuts(Init(bootstrap), actions)
  {
    EveryRunIsOrderly(bootstrap, actions);
    if actions != [] {
      var before, a := DropLast(actions), Last(actions);
      ShutsIff(bootstrap, before);
      EveryRunIsOrderly(bootstrap, before);
      RunKeepsInv(bootstrap, before);
      RunKeepsWindow(bootstrap, before);
      RunCountsPosts(bootstrap, before);
      ArrivalsAreIncoming(bootstrap, before);
      StepKeeps(Run(Init(bootstrap), before), a);
      if !Run(Init(bootstrap), before).closed {
        StepShutsIff(Run(Init(bootstrap), before), a, Incoming(Init(bootstrap), before));
      }
    }
  }

  /** Does the action concern loop `k`? */
  predicate Concerns(a: Action, k: nat) {
    (a.GetDone? || a.ReadDone? || a.ReadEnd? || a.ReadFailed? || a.DelayDone? || a.LoopFinally?) && a.k == k
  }

  lemma OthersLeaveTheLoop(s: State, a: Action, k: nat, phase: Phase)
    requires Inv(s) && At(s, k, phase) && !Concerns(a, k)
    ensures At(Step(s, a), k, phase)
  {
    assert s.loops.Keys == {k};
    if a.ReadDone? {
      ItemsKeep(s, a.items);
    }
  }

  lemma {:induction false} MiddleLeavesTheLoop(
    bootstrap: bool, actions: seq<Action>, middle: seq<Action>, k: nat, phase: Phase)
    requires At(Run(Init(bootstrap), actions), k, phase)
    requires forall a :: a in middle ==> !Concerns(a, k)
    ensures At(Run(Init(bootstrap), actions + middle), k, phase)
  {
    if middle == [] {
      assert actions + middle == actions;
    } else {
      assert DropLast(actions + middle) == actions + DropLast(middle);
      MiddleLeavesTheLoop(bootstrap, actions, DropLast(middle), k, phase);
      RunKeepsInv(bootstrap, actions + DropLast(middle));
      OthersLeaveTheLoop(Run(Init(bootstrap), actions + DropLast(middle)), Last(middle), k, phase);
    }
  }

  lemma LatestIdIsKept(bootstrap: bool, actions: seq<Action>)
    ensures var s := Run(Init(bootstrap), actions);
      && s.closed == Seen(s.trace, Shut)
      && s.lastEventId == LatestId(s.trace)
  {
    RunKeepsInv(bootstrap, actions);
    FactsMeaning(Run(Init(bootstrap), actions).trace);
  }

  lemma DelayedLoopAsks(s: State, k: nat)
    requires At(s, k, Delaying) && !s.closed
    ensures var t := Step(s, DelayDone(k));
      t.trace == Then(s.trace, Got(s.lastEventId)) && At(Step(t, GetDone(k, true)), k, Reading)
  {
  }

  /**
   * A stream that ends while the transport is open is asked for again after
   * the delay, whatever else happens meanwhile short of shutting, and with the
   * id seen last; and when the server answers it is read again.
   */
  lemma EndedStreamIsAskedForAgain(bootstrap: bool, actions: seq<Action>, k: nat, middle: seq<Action>)
    requires var s := Run(Init(bootstrap), actions); At(s, k, Reading) && !Seen(s.trace, Shut)
    requires forall a :: a in middle ==> !Concerns(a, k)
    requires !Seen(Run(Init(bootstrap), actions + [ReadEnd(k)] + middle).trace, Shut)
    ensures var delayed := actions + [ReadEnd(k)] + middle;
      var h := Run(Init(bootstrap), delayed).trace;
      && Run(Init(bootstrap), delayed + [DelayDone(k)]).trace == Then(h, Got(LatestId(h)))
      && At(Run(Init(bootstrap), delayed + [DelayDone(k)] + [GetDone(k, true)]), k, Reading)
  {
    var first := actions + [ReadEnd(k)];
    var delayed := first + middle;
    EveryRunIsOrderly(bootstrap, actions);
    RunSnoc(Init(bootstrap), actions, ReadEnd(k));
    MiddleLeavesTheLoop(bootstrap, first, middle, k, Delaying);
    LatestIdIsKept(bootstrap, delayed);
    DelayedLoopAsks(Run(Init(bootstrap), delayed), k);
    RunSnoc(Init(bootstrap), delayed, DelayDone(k));
    RunSnoc(Init(bootstrap), delayed + [DelayDone(k)], GetDone(k, true));
  }

  /**
   * A stream that cannot be had, or that breaks off, is left at that: nothing
   * is observed, the transport stays open, and the next write asks for it
   * again, with the id seen last.
   */
  lemma BrokenStreamWaitsForAWrite(bootstrap: bool, actions: seq<Action>, k: nat)
    requires var s := Run(Init(bootstrap), actions);
      (At(s, k, Fetching) || At(s, k, Reading)) && !Seen(s.trace, Shut)
    ensures var s := Run(Init(bootstrap), actions);
      var broken := if At(s, k, Reading) then ReadFailed(k) else GetDone(k, false);
      var t := Run(s, [broken, LoopFinally(k), Write(false)]);
      && Run(s, [broken]).trace == s.trace
      && t.trace == Then(Then(Then(s.trace, Accepted), Got(LatestId(s.trace))), Posted(false))
      && Running(t)
  {
    var s := Run(Init(bootstrap), actions);
    var broken := if At(s, k, Reading) then ReadFailed(k) else GetDone(k, false);
    LatestIdIsKept(bootstrap, actions);
    RunKeepsInv(bootstrap, actions);
    RunThree(s, broken, LoopFinally(k), Write(false));
    RunSnoc(s, [], broken);
    assert [] + [broken] == [broken];
    var s1 := Step(s, broken);
    PhaseKeeps(s, k, Ended);
    ClearedLoop(s1, k);
    WriteAsks(Step(s1, LoopFinally(k)));
  }

  lemma WriteAsks(s: State)
    requires !s.closed && s.sseLoop.None? && s.loops == map[] && s.postedOnce
    ensures var t := Step(s, Write(false));
      t.trace == Then(Then(Then(s.trace, Accepted), Got(s.lastEventId)), Posted(false)) && At(t, s.started, Fetching)
  {
  }

  /** The action is what loop `k` is waiting for. */
  predicate Resumes(s: State, a: Action, k: nat) {
    || (a.GetDone? && a.k == k && At(s, k, Fetching))
    || ((a.ReadDone? || a.ReadEnd? || a.ReadFailed?) && a.k == k && At(s, k, Reading))
    || (a.DelayDone? && a.k == k && At(s, k, Delaying))
  }

  /** A loop that resumes in a transport that has shut, or that shuts in the process, ends. */
  lemma ShutLoopsEnd(bootstrap: bool, actions: seq<Action>, a: Action, k: nat)
    requires Resumes(Run(Init(bootstrap), actions), a, k)
    requires Seen(Run(Init(bootstrap), actions + [a]).trace, Shut)
    ensures At(Run(Init(bootstrap), actions + [a]), k, Ended)
  {
    RunSnoc(Init(bootstrap), actions, a);
    LatestIdIsKept(bootstrap, actions + [a]);
  }

  /**
   * Closing an open transport, or cancelling its stream: it shuts; the server
   * is told if anything was ever posted; and the stream ends at once if not.
   */
  lemma ClosingTellsTheServer(bootstrap: bool, actions: seq<Action>, cancelled: bool)
    requires !Seen(Run(Init(bootstrap), actions).trace, Shut)
    ensures var h := Run(Init(bootstrap), actions).trace;
      var t := Run(Init(bootstrap), actions + [if cancelled then Cancel else Close]);
      && t.trace == (if SomePost(h) then Then(Then(h, Shut), Deleted)
                     else if cancelled then Then(h, Shut)
                     else Then(Then(h, Shut), Settled(false)))
      && t.readable == (if cancelled then Cancelled else if SomePost(h) then Open else Closed)
  {
    RunSnoc(Init(bootstrap), actions, if cancelled then Cancel else Close);
    RunKeepsInv(bootstrap, actions);
    FactsMeaning(Run(Init(bootstrap), actions).trace);
  }

  /** However a DELETE comes to its end, the stream of its transport has ended after it, without an error. */
  lemma StreamEndsWithTheDelete(bootstrap: bool, actions: seq<Action>)
    requires Seen(Run(Init(bootstrap), actions).trace, Shut)
    ensures var s := Run(Init(bootstrap), actions);
      var t := Run(Init(bootstrap), actions + [DeleteDone]);
      && !t.readable.Open?
      && (s.readable.Open? ==> t.readable.Closed? && t.trace == Then(s.trace, Settled(false)) && Seen(s.trace, Deleted))
  {
    RunSnoc(Init(bootstrap), actions, DeleteDone);
    EveryRunIsOrderly(bootstrap, actions);
    RunIsComplete(bootstrap, actions);
  }
}
