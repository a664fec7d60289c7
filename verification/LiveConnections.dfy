/**
 * Single-flight creation of live connections, one per agent, shared by all
 * callers, and the disposal that closes them. A connection is named after the
 * creation that opened it. Actions that are not enabled change nothing.
 */
module LiveConnections {
  import opened Prelude

  /**
   * The promise of one creation. ClosingRaced is the branch that found another
   * connection in place; Abandoned is a creation that was rejected when its
   * transport was already open, because the handshake failed.
   */
  datatype Phase = Connecting | ClosingRaced(winner: nat) | Fulfilled(conn: nat) | Rejected | Abandoned

  datatype Creation = Creation(agent: string, phase: Phase)

  datatype Caller =
    | AwaitingHealth(agent: string)
    | Waiting(agent: string, creation: nat, owner: bool)
    | Got(agent: string, conn: nat)
    | Failed

  /** One call of dispose: what it took from the two maps, and all that existed when it began. */
  datatype Disposal = Disposal(toClose: set<nat>, waiting: set<nat>, existing: set<nat>, finished: bool)

  datatype State = State(
    live: map<string, nat>,
    pending: map<string, nat>,
    creations: seq<Creation>,
    callers: seq<Caller>,
    openedConns: set<nat>,
    closedConns: set<nat>,
    disposals: seq<Disposal>)

  const START: State := State(map[], map[], [], [], {}, {}, [])

  datatype Action =
    | Call(agent: string)
    | Proceed(t: nat, healthy: bool)
    | Created(c: nat)
    | CreateFails(c: nat)
    | HandshakeFails(c: nat)
    | RacedClosed(c: nat, ok: bool)
    | Wake(t: nat)
    | DisposeStart
    | DisposeSettled(d: nat)

  function ValuesOf(m: map<string, nat>): set<nat> {
    set a | a in m :: m[a]
  }

  predicate Settled(c: Creation) {
    c.phase.Fulfilled? || c.phase.Rejected? || c.phase.Abandoned?
  }

  function UnsettledOf(creations: seq<Creation>): set<nat> {
    set c: nat | c < |creations| && !Settled(creations[c])
  }

  function SetCreation(s: State, c: nat, phase: Phase): State
    requires c < |s.creations|
  {
    s.(creations := s.creations[c := s.creations[c].(phase := phase)])
  }

  function DoProceed(s: State, t: nat): State
    requires t < |s.callers| && s.callers[t].AwaitingHealth?
  {
    var agent := s.callers[t].agent;
    if agent in s.live then s.(callers := s.callers[t := Got(agent, s.live[agent])])
    else if agent in s.pending then s.(callers := s.callers[t := Waiting(agent, s.pending[agent], false)])
    else
      var c := |s.creations|;
      s.(creations := s.creations + [Creation(agent, Connecting)], pending := s.pending[agent := c],
         callers := s.callers[t := Waiting(agent, c, true)])
  }

  function DoCreated(s: State, c: nat): State
    requires c < |s.creations|
  {
    var agent := s.creations[c].agent;
    var t := s.(openedConns := s.openedConns + {c});
    if agent in s.live then SetCreation(t.(closedConns := t.closedConns + {c}), c, ClosingRaced(s.live[agent]))
    else SetCreation(t.(live := t.live[agent := c]), c, Fulfilled(c))
  }

  function DoWake(s: State, t: nat): State
    requires t < |s.callers| && s.callers[t].Waiting? && s.callers[t].creation < |s.creations|
  {
    var Waiting(agent, c, owner) := s.callers[t];
    var cleaned := if owner && Lookup(s.pending, agent) == Some(c) then s.(pending := s.pending - {agent}) else s;
    match s.creations[c].phase
    case Fulfilled(conn) => cleaned.(callers := s.callers[t := Got(agent, conn)])
    case Rejected => cleaned.(callers := s.callers[t := Failed])
    case Abandoned => cleaned.(callers := s.callers[t := Failed])
    case _ => s
  }

  function DoDispose(s: State): State {
    s.(live := map[], pending := map[],
       disposals := s.disposals +
           [Disposal(ValuesOf(s.live), ValuesOf(s.pending), ValuesOf(s.live) + UnsettledOf(s.creations), false)])
  }

  /** The connections that the awaited creations turned out to have produced. */
  function Produced(creations: seq<Creation>, waiting: set<nat>): set<nat> {
    set c | c in waiting && c < |creations| && creations[c].phase.Fulfilled? :: creations[c].phase.conn
  }

  predicate AllSettled(creations: seq<Creation>, waiting: set<nat>) {
    forall c :: c in waiting ==> c < |creations| && Settled(creations[c])
  }

  function Step(s: State, a: Action): State {
    match a
    case Call(agent) => s.(callers := s.callers + [AwaitingHealth(agent)])
    case Proceed(t, healthy) =>
      if t >= |s.callers| || !s.callers[t].AwaitingHealth? then s
      else if healthy then DoProceed(s, t)
      else s.(callers := s.callers[t := Failed])
    case Created(c) => if c < |s.creations| && s.creations[c].phase.Connecting? then DoCreated(s, c) else s
    case CreateFails(c) =>
      if c < |s.creations| && s.creations[c].phase.Connecting? then SetCreation(s, c, Rejected) else s
    case HandshakeFails(c) =>
      if c < |s.creations| && s.creations[c].phase.Connecting?
      then SetCreation(s.(openedConns := s.openedConns + {c}), c, Abandoned)
      else s
    case RacedClosed(c, ok) =>
      if c < |s.creations| && s.creations[c].phase.ClosingRaced?
      then SetCreation(s, c, if ok then Fulfilled(s.creations[c].phase.winner) else Rejected)
      else s
    case Wake(t) =>
      if t < |s.callers| && s.callers[t].Waiting? && s.callers[t].creation < |s.creations| then DoWake(s, t) else s
    case DisposeStart => DoDispose(s)
    case DisposeSettled(d) =>
      if d < |s.disposals| && !s.disposals[d].finished && AllSettled(s.creations, s.disposals[d].waiting) then
        s.(closedConns := s.closedConns + s.disposals[d].toClose + Produced(s.creations, s.disposals[d].waiting),
           disposals := s.disposals[d := s.disposals[d].(finished := true)])
      else s
  }

  function Run(actions: seq<Action>): State {
    if actions == [] then START else Step(Run(DropLast(actions)), Last(actions))
  }

  // ------------------------------------------------------ runs without dispose

  ghost predicate SingleFlight(s: State) {
    && s.disposals == [] && s.closedConns == {}
    && (forall c :: 0 <= c < |s.creations| ==> !s.creations[c].phase.ClosingRaced?)
    && (forall c :: 0 <= c < |s.creations| && s.creations[c].phase.Connecting? ==>
          Lookup(s.pending, s.creations[c].agent) == Some(c) && s.creations[c].agent !in s.live)
    && (forall c :: 0 <= c < |s.creations| && s.creations[c].phase.Fulfilled? ==>
          s.creations[c].phase.conn == c && Lookup(s.live, s.creations[c].agent) == Some(c))
    && (forall t :: 0 <= t < |s.callers| && s.callers[t].Waiting? ==>
          s.callers[t].creation < |s.creations| && s.creations[s.callers[t].creation].agent == s.callers[t].agent)
    && (forall a :: a in s.pending ==> s.pending[a] < |s.creations| && s.creations[s.pending[a]].agent == a)
    && (forall t :: 0 <= t < |s.callers| && s.callers[t].Got? ==>
        Lookup(s.live, s.callers[t].agent) == Some(s.callers[t].conn))
  }

  /** A creation that came to nothing. */
  predicate Gone(c: Creation) {
    c.phase.Rejected? || c.phase.Abandoned?
  }

  lemma ProceedKeepsSingleFlight(s: State, t: nat)
    requires SingleFlight(s) && t < |s.callers| && s.callers[t].AwaitingHealth?
    ensures SingleFlight(DoProceed(s, t))
  {
    var agent := s.callers[t].agent;
    if agent !in s.live && agent !in s.pending {
      assert forall c :: 0 <= c < |s.creations| && s.creations[c].phase.Connecting? ==> s.creations[c].agent != agent;
    }
  }

  lemma CreatedKeepsSingleFlight(s: State, c: nat)
    requires SingleFlight(s) && c < |s.creations| && s.creations[c].phase.Connecting?
    ensures SingleFlight(DoCreated(s, c))
  {
    var agent := s.creations[c].agent;
    assert agent !in s.live;
    assert forall d :: 0 <= d < |s.creations| && d != c && s.creations[d].agent == agent ==> Gone(s.creations[d]);
  }

  lemma WakeKeepsSingleFlight(s: State, t: nat)
    requires SingleFlight(s) && t < |s.callers| && s.callers[t].Waiting?
    ensures SingleFlight(DoWake(s, t))
  {
  }

  lemma FailureKeepsSingleFlight(s: State, a: Action)
    requires SingleFlight(s) && (a.CreateFails? || a.HandshakeFails? || a.RacedClosed?)
    ensures SingleFlight(Step(s, a))
  {
  }

  lemma StepKeepsSingleFlight(s: State, a: Action)
    requires SingleFlight(s) && !a.DisposeStart?
    ensures SingleFlight(Step(s, a))
  {
    if a.Proceed? {
      if a.t < |s.callers| && s.callers[a.t].AwaitingHealth? && a.healthy {
        ProceedKeepsSingleFlight(s, a.t);
      }
    } else if a.Created? {
      if a.c < |s.creations| && s.creations[a.c].phase.Connecting? {
        CreatedKeepsSingleFlight(s, a.c);
      }
    } else if a.Wake? {
      if a.t < |s.callers| && s.callers[a.t].Waiting? {
        WakeKeepsSingleFlight(s, a.t);
      }
    } else if CreationAction(a) {
      FailureKeepsSingleFlight(s, a);
    }
  }

  lemma {:induction false} RunIsSingleFlight(actions: seq<Action>)
    requires DisposeStart !in actions
    ensures SingleFlight(Run(actions))
  {
    if actions != [] {
      RunIsSingleFlight(DropLast(actions));
      StepKeepsSingleFlight(Run(DropLast(actions)), Last(actions));
    }
  }

  /** Two connections of one agent, each under way or alive. */
  predicate Rivals(c: Creation, d: Creation) {
    c.agent == d.agent && !Gone(c) && !Gone(d)
  }

  /** Two callers that were given a connection for one agent. */
  predicate Peers(t: Caller, u: Caller) {
    t.Got? && u.Got? && t.agent == u.agent
  }

  /**
   * In every run without dispose: at most one connection per agent is being
   * created or alive, the branch for a lost race is never taken, nothing is
   * closed, and all successful callers for an agent hold the same connection.
   */
  lemma OneConnectionPerAgent(actions: seq<Action>)
    requires DisposeStart !in actions
    ensures var s := Run(actions);
      && (forall c, d ::
            (0 <= c < |s.creations| && 0 <= d < |s.creations| && Rivals(s.creations[c], s.creations[d])) ==>
            c == d)
      && (forall c :: 0 <= c < |s.creations| ==> !s.creations[c].phase.ClosingRaced?)
      && s.closedConns == {}
      && (forall t, u :: 0 <= t < |s.callers| && 0 <= u < |s.callers| && Peers(s.callers[t], s.callers[u]) ==>
            s.callers[t].conn == s.callers[u].conn)
  {
    RunIsSingleFlight(actions);
  }

  // -------------------------------------------------------- runs with disposals

  /** Each creation's own connection is accounted for by the phase the creation is in. */
  ghost predicate Accounted(s: State) {
    && (forall c :: c in s.openedConns ==> c < |s.creations|)
    && (forall c :: 0 <= c < |s.creations| && s.creations[c].phase.Connecting? ==> c !in s.openedConns)
    && (forall c :: 0 <= c < |s.creations| && s.creations[c].phase.ClosingRaced? ==> c in s.closedConns)
    && (forall c :: 0 <= c < |s.creations| && s.creations[c].phase.Fulfilled? ==>
        s.creations[c].phase.conn == c || c in s.closedConns)
    && (forall c :: 0 <= c < |s.creations| && s.creations[c].phase.Rejected? && c in s.openedConns ==>
        c in s.closedConns)
    && (forall c :: 0 <= c < |s.creations| && s.creations[c].phase.Abandoned? ==> c in s.openedConns)
    && (forall c :: 0 <= c < |s.creations| && !Settled(s.creations[c]) ==> Entrusted(s, c))
  }

  /** An unfinished creation is in the pending map or some unfinished disposal is waiting for it. */
  ghost predicate Entrusted(s: State, c: nat)
    requires c < |s.creations|
  {
    || Lookup(s.pending, s.creations[c].agent) == Some(c)
    || exists d :: 0 <= d < |s.disposals| && !s.disposals[d].finished && c in s.disposals[d].waiting
  }

  /** Nothing is left to close for `c`, or a disposal up to `d` still holds it. */
  ghost predicate TakenCareOf(s: State, d: nat, c: nat)
    requires d < |s.disposals|
  {
    || c in s.closedConns
    || (c < |s.creations| && c !in s.openedConns && s.creations[c].phase.Rejected?)
    || (c < |s.creations| && s.creations[c].phase.Abandoned?)
    || Held(s, d, c)
  }

  ghost predicate Held(s: State, d: nat, c: nat)
    requires d < |s.disposals|
  {
    exists e :: 0 <= e <= d && !s.disposals[e].finished && (c in s.disposals[e].toClose || c in s.disposals[e].waiting)
  }

  ghost predicate DisposalsKept(s: State) {
    forall d, c :: 0 <= d < |s.disposals| && c in s.disposals[d].existing ==> TakenCareOf(s, d, c)
  }

  ghost predicate Inv(s: State) {
    Accounted(s) && DisposalsKept(s)
  }

  lemma DisposeStartKeeps(s: State)
    requires Inv(s)
    ensures Inv(DoDispose(s))
  {
    var t := DoDispose(s);
    var n := |s.disposals|;
    forall c | 0 <= c < |s.creations| && !Settled(s.creations[c]) ensures Entrusted(t, c) && Held(t, n, c) {
      if Lookup(s.pending, s.creations[c].agent) == Some(c) {
        assert c in ValuesOf(s.pending);
        assert c in t.disposals[n].waiting;
      } else {
        var d :| 0 <= d < n && !s.disposals[d].finished && c in s.disposals[d].waiting;
        assert t.disposals[d] == s.disposals[d];
      }
    }
    forall d, c | 0 <= d < |t.disposals| && c in t.disposals[d].existing ensures TakenCareOf(t, d, c) {
      if d < n {
        assert TakenCareOf(s, d, c);
        if Held(s, d, c) {
          var e :| 0 <= e <= d && !s.disposals[e].finished &&
              (c in s.disposals[e].toClose || c in s.disposals[e].waiting);
          assert t.disposals[e] == s.disposals[e];
        }
      } else if c in t.disposals[n].toClose {
        assert Held(t, n, c);
      }
    }
  }

  lemma DisposeSettledKeeps(s: State, d: nat)
    requires Inv(s) && d < |s.disposals| && !s.disposals[d].finished && AllSettled(s.creations, s.disposals[d].waiting)
    ensures Inv(Step(s, DisposeSettled(d)))
  {
    var t := Step(s, DisposeSettled(d));
    assert forall c :: c in s.disposals[d].waiting && s.creations[c].phase.Fulfilled? ==>
        s.creations[c].phase.conn in Produced(s.creations, s.disposals[d].waiting);
    forall c | 0 <= c < |s.creations| && !Settled(s.creations[c]) ensures Entrusted(t, c) {
      if Lookup(s.pending, s.creations[c].agent) != Some(c) {
        var e :| 0 <= e < |s.disposals| && !s.disposals[e].finished && c in s.disposals[e].waiting;
        assert e != d;
        assert t.disposals[e] == s.disposals[e];
      }
    }
    forall k, c | 0 <= k < |t.disposals| && c in t.disposals[k].existing ensures TakenCareOf(t, k, c) {
      assert TakenCareOf(s, k, c);
      if c !in t.closedConns && Held(s, k, c) {
        var e :| 0 <= e <= k && !s.disposals[e].finished &&
            (c in s.disposals[e].toClose || c in s.disposals[e].waiting);
        if e == d {
          assert c in s.disposals[d].waiting;
        } else {
          assert t.disposals[e] == s.disposals[e];
        }
      }
    }
  }

  /** Between disposals, what is closed stays closed and what failed stays failed. */
  ghost predicate Forward(s: State, t: State) {
    && t.disposals == s.disposals && s.closedConns <= t.closedConns && |s.creations| <= |t.creations|
    && (forall c :: 0 <= c < |s.creations| && s.creations[c].phase.Rejected? ==>
          t.creations[c].phase.Rejected? && (c in t.openedConns ==> c in s.openedConns))
    && (forall c :: 0 <= c < |s.creations| && s.creations[c].phase.Abandoned? ==> t.creations[c].phase.Abandoned?)
  }

  lemma ForwardKeepsDisposals(s: State, t: State)
    requires DisposalsKept(s) && Forward(s, t)
    ensures DisposalsKept(t)
  {
    forall d, c | 0 <= d < |t.disposals| && c in t.disposals[d].existing ensures TakenCareOf(t, d, c) {
      assert TakenCareOf(s, d, c);
      assert Held(s, d, c) ==> Held(t, d, c);
    }
  }

  lemma ProceedKeepsAccounts(s: State, t: nat)
    requires Accounted(s) && t < |s.callers| && s.callers[t].AwaitingHealth?
    ensures Accounted(DoProceed(s, t)) && Forward(s, DoProceed(s, t))
  {
    var u := DoProceed(s, t);
    forall c | 0 <= c < |u.creations| && !Settled(u.creations[c]) ensures Entrusted(u, c) {
      if c < |s.creations| {
        assert Entrusted(s, c);
      }
    }
  }

  lemma PhaseKeepsAccounts(s: State, u: State, c: nat)
    requires Accounted(s) && c < |s.creations| && |u.creations| == |s.creations|
    requires u.creations == s.creations[c := s.creations[c].(phase := u.creations[c].phase)]
    requires u.pending == s.pending && u.disposals == s.disposals
    requires u.creations[c].phase.ClosingRaced? ==> !Settled(s.creations[c])
    ensures forall k :: 0 <= k < |u.creations| && k != c && !Settled(u.creations[k]) ==> Entrusted(u, k)
    ensures !Settled(s.creations[c]) ==> Entrusted(u, c)
  {
    forall k | 0 <= k < |u.creations| && !Settled(s.creations[k]) ensures Entrusted(u, k) {
      assert Entrusted(s, k);
    }
  }

  lemma CreatedKeepsAccounts(s: State, c: nat)
    requires Accounted(s) && c < |s.creations| && s.creations[c].phase.Connecting?
    ensures Accounted(DoCreated(s, c)) && Forward(s, DoCreated(s, c))
  {
    PhaseKeepsAccounts(s, DoCreated(s, c), c);
  }

  lemma FailureKeepsAccounts(s: State, c: nat, wasOpen: bool)
    requires Accounted(s) && c < |s.creations| && s.creations[c].phase.Connecting?
    ensures var t := Step(s, if wasOpen then HandshakeFails(c) else CreateFails(c)); Accounted(t) && Forward(s, t)
  {
    PhaseKeepsAccounts(s, Step(s, if wasOpen then HandshakeFails(c) else CreateFails(c)), c);
  }

  lemma RacedClosedKeepsAccounts(s: State, c: nat, ok: bool)
    requires Accounted(s) && c < |s.creations| && s.creations[c].phase.ClosingRaced?
    ensures Accounted(Step(s, RacedClosed(c, ok))) && Forward(s, Step(s, RacedClosed(c, ok)))
  {
    PhaseKeepsAccounts(s, Step(s, RacedClosed(c, ok)), c);
  }

  predicate CreationAction(a: Action) {
    a.Created? || a.CreateFails? || a.HandshakeFails? || a.RacedClosed?
  }

  lemma CreationStepKeepsAccounts(s: State, a: Action)
    requires Accounted(s) && CreationAction(a)
    ensures Accounted(Step(s, a)) && Forward(s, Step(s, a))
  {
    if a.c >= |s.creations| {
    } else if a.RacedClosed? {
      if s.creations[a.c].phase.ClosingRaced? {
        RacedClosedKeepsAccounts(s, a.c, a.ok);
      }
    } else if s.creations[a.c].phase.Connecting? {
      if a.Created? {
        CreatedKeepsAccounts(s, a.c);
      } else {
        FailureKeepsAccounts(s, a.c, a.HandshakeFails?);
      }
    }
  }

  lemma WakeKeepsAccounts(s: State, t: nat)
    requires Accounted(s) && t < |s.callers| && s.callers[t].Waiting? && s.callers[t].creation < |s.creations|
    ensures Accounted(DoWake(s, t)) && Forward(s, DoWake(s, t))
  {
    var u := DoWake(s, t);
    forall c | 0 <= c < |u.creations| && !Settled(u.creations[c]) ensures Entrusted(u, c) {
      assert Entrusted(s, c);
    }
  }

  lemma OtherStepKeeps(s: State, a: Action)
    requires Inv(s) && !a.DisposeStart? && !a.DisposeSettled?
    ensures Inv(Step(s, a))
  {
    var t := Step(s, a);
    if a.Proceed? && a.t < |s.callers| && s.callers[a.t].AwaitingHealth? && a.healthy {
      ProceedKeepsAccounts(s, a.t);
    } else if a.Wake? && a.t < |s.callers| && s.callers[a.t].Waiting? && s.callers[a.t].creation < |s.creations| {
      WakeKeepsAccounts(s, a.t);
    } else if CreationAction(a) {
      CreationStepKeepsAccounts(s, a);
    } else {
      forall c | 0 <= c < |t.creations| && !Settled(t.creations[c]) ensures Entrusted(t, c) {
        assert Entrusted(s, c);
      }
    }
    ForwardKeepsDisposals(s, t);
  }

  lemma {:induction false} RunKeepsInv(actions: seq<Action>)
    ensures Inv(Run(actions))
  {
    if actions != [] {
      RunKeepsInv(DropLast(actions));
      var s, a := Run(DropLast(actions)), Last(actions);
      match a
      case DisposeStart => DisposeStartKeeps(s);
      case DisposeSettled(d) =>
        if d < |s.disposals| && !s.disposals[d].finished && AllSettled(s.creations, s.disposals[d].waiting) {
          DisposeSettledKeeps(s, d);
        }
      case _ => OtherStepKeeps(s, a);
    }
  }

  // ------------------------------------------------------- what is never closed

  /** The creation of `c` got past its handshake, or never opened anything. */
  predicate Firm(s: State, c: nat) {
    c < |s.creations| && !s.creations[c].phase.Connecting? && !s.creations[c].phase.Abandoned?
  }

  /** Whatever is closed, or may be handed to something that closes it, is firm. */
  ghost predicate OnlyFirm(s: State) {
    && (forall a :: a in s.live ==> Firm(s, s.live[a]))
    && (forall c :: c in s.closedConns ==> Firm(s, c))
    && (forall c :: 0 <= c < |s.creations| && s.creations[c].phase.Fulfilled? ==> Firm(s, s.creations[c].phase.conn))
    && (forall c :: 0 <= c < |s.creations| && s.creations[c].phase.ClosingRaced? ==>
        Firm(s, s.creations[c].phase.winner))
    && (forall d, c :: 0 <= d < |s.disposals| && c in s.disposals[d].toClose ==> Firm(s, c))
  }

  lemma FirmStays(s: State, a: Action, c: nat)
    requires Firm(s, c)
    ensures Firm(Step(s, a), c)
  {
  }

  lemma CreationKeepsOnlyFirm(s: State, a: Action)
    requires OnlyFirm(s) && CreationAction(a)
    ensures OnlyFirm(Step(s, a))
  {
    forall c | Firm(s, c) ensures Firm(Step(s, a), c) {
      FirmStays(s, a, c);
    }
  }

  lemma StepKeepsOnlyFirm(s: State, a: Action)
    requires OnlyFirm(s)
    ensures OnlyFirm(Step(s, a))
  {
    if CreationAction(a) {
      CreationKeepsOnlyFirm(s, a);
    } else {
      forall c | Firm(s, c) ensures Firm(Step(s, a), c) {
        FirmStays(s, a, c);
      }
    }
  }

  lemma {:induction false} RunKeepsOnlyFirm(actions: seq<Action>)
    ensures OnlyFirm(Run(actions))
  {
    if actions != [] {
      RunKeepsOnlyFirm(DropLast(actions));
      StepKeepsOnlyFirm(Run(DropLast(actions)), Last(actions));
    }
  }

  /**
   * In every run, however many disposals overlap: once a disposal and those
   * begun before it are over, a connection that was alive or being created
   * when it began, and that ever opened, has been closed if and only if its
   * handshake did not fail.
   */
  lemma DisposeClosesWhatExisted(actions: seq<Action>, d: nat, c: nat)
    requires d < |Run(actions).disposals| && c in Run(actions).disposals[d].existing * Run(actions).openedConns
    requires forall e :: 0 <= e <= d ==> Run(actions).disposals[e].finished
    ensures c < |Run(actions).creations|
    ensures c in Run(actions).closedConns <==> !Run(actions).creations[c].phase.Abandoned?
  {
    RunKeepsInv(actions);
    RunKeepsOnlyFirm(actions);
    assert TakenCareOf(Run(actions), d, c);
  }

  lemma StepKeepsAbandoned(s: State, a: Action, c: nat)
    requires c < |s.creations| && s.creations[c].phase.Abandoned?
    ensures c < |Step(s, a).creations| && Step(s, a).creations[c].phase.Abandoned?
  {
  }

  lemma {:induction false} AbandonedStays(actions: seq<Action>, more: seq<Action>, c: nat)
    requires c < |Run(actions).creations| && Run(actions).creations[c].phase.Abandoned?
    ensures c < |Run(actions + more).creations| && Run(actions + more).creations[c].phase.Abandoned?
  {
    if more == [] {
      assert actions + more == actions;
    } else {
      assert DropLast(actions + more) == actions + DropLast(more);
      AbandonedStays(actions, DropLast(more), c);
      StepKeepsAbandoned(Run(actions + DropLast(more)), Last(more), c);
    }
  }

  /** A connection whose handshake failed is open from then on, and nothing ever closes it. */
  lemma {:induction false} AbandonedStaysOpen(actions: seq<Action>, more: seq<Action>, c: nat)
    requires c < |Run(actions).creations| && Run(actions).creations[c].phase.Abandoned?
    ensures c in Run(actions + more).openedConns && c !in Run(actions + more).closedConns
  {
    AbandonedStays(actions, more, c);
    RunKeepsInv(actions + more);
    RunKeepsOnlyFirm(actions + more);
  }

  lemma RunSnoc(actions: seq<Action>, a: Action)
    ensures Run(actions + [a]) == Step(Run(actions), a)
  {
    assert DropLast(actions + [a]) == actions;
  }

  lemma DisposeWhileConnecting()
    ensures Run([Call("agent"), Proceed(0, true), DisposeStart])
            == State(map[], map[], [Creation("agent", Connecting)], [Waiting("agent", 0, true)], {}, {},
                [Disposal({}, {0}, {0}, false)])
  {
    RunSnoc([], Call("agent"));
    var s1 := Run([] + [Call("agent")]);
    assert s1 == START.(callers := [AwaitingHealth("agent")]);
    RunSnoc([] + [Call("agent")], Proceed(0, true));
    var s2 := DoProceed(s1, 0);
    assert s2.creations == [Creation("agent", Connecting)] && s2.pending == map["agent" := 0];
    var pair := [] + [Call("agent")] + [Proceed(0, true)];
    RunSnoc(pair, DisposeStart);
    assert Run(pair) == s2;
    assert s2.callers == [Waiting("agent", 0, true)] && s2.disposals == [];
    assert s2.pending["agent"] in ValuesOf(s2.pending) && ValuesOf(s2.pending) == {0} && ValuesOf(s2.live) == {};
    assert UnsettledOf(s2.creations) == {0};
    var s3 := DoDispose(s2);
    assert ValuesOf(s2.live) + UnsettledOf(s2.creations) == {0};
    assert s3.disposals == [Disposal({}, {0}, {0}, false)];
    assert pair + [DisposeStart] == [Call("agent"), Proceed(0, true), DisposeStart];
  }

  /**
   * The failing run: a handshake fails while a dispose is waiting for the
   * connection, and the dispose ends with it open.
   */
  lemma FailedHandshakeSurvivesDispose()
    ensures var s := Run([Call("agent"), Proceed(0, true), DisposeStart, HandshakeFails(0), DisposeSettled(0)]);
      && |s.disposals| == 1 && s.disposals[0].finished && 0 in s.disposals[0].existing
      && 0 in s.openedConns && 0 !in s.closedConns
  {
    DisposeWhileConnecting();
    var before := [Call("agent"), Proceed(0, true), DisposeStart];
    RunSnoc(before, HandshakeFails(0));
    var s := Run(before + [HandshakeFails(0)]);
    assert s.creations == [Creation("agent", Abandoned)];
    assert Produced(s.creations, {0}) == {};
    RunSnoc(before + [HandshakeFails(0)], DisposeSettled(0));
    assert before + [HandshakeFails(0)] + [DisposeSettled(0)]
      == [Call("agent"), Proceed(0, true), DisposeStart, HandshakeFails(0), DisposeSettled(0)];
  }

  // ------------------------------------------------------------- nobody gets stuck

  /** The caller that began creation `c` for `agent` is still waiting for it. */
  ghost predicate HasOwner(s: State, agent: string, c: nat) {
    exists t :: 0 <= t < |s.callers| && s.callers[t] == Waiting(agent, c, true)
  }

  ghost predicate Owned(s: State) {
    forall agent :: agent in s.pending ==> HasOwner(s, agent, s.pending[agent])
  }

  lemma WakeKeepsOwners(s: State, t: nat)
    requires Owned(s) && t < |s.callers| && s.callers[t].Waiting? && s.callers[t].creation < |s.creations|
    ensures Owned(DoWake(s, t))
  {
    var u := DoWake(s, t);
    forall agent | agent in u.pending ensures HasOwner(u, agent, u.pending[agent]) {
      assert HasOwner(s, agent, s.pending[agent]);
      var k :| 0 <= k < |s.callers| && s.callers[k] == Waiting(agent, s.pending[agent], true);
      assert u.callers[k] == s.callers[k];
    }
  }

  lemma StepKeepsOwners(s: State, a: Action)
    requires Owned(s)
    ensures Owned(Step(s, a))
  {
    if a.Wake? {
      if a.t < |s.callers| && s.callers[a.t].Waiting? && s.callers[a.t].creation < |s.creations| {
        WakeKeepsOwners(s, a.t);
      }
    } else {
      var u := Step(s, a);
      forall agent | agent in u.pending ensures HasOwner(u, agent, u.pending[agent]) {
        if agent in s.pending && u.pending[agent] == s.pending[agent] {
          assert HasOwner(s, agent, s.pending[agent]);
          var k :| 0 <= k < |s.callers| && s.callers[k] == Waiting(agent, s.pending[agent], true);
          assert u.callers[k] == s.callers[k];
        } else {
          assert a.Proceed? && u.callers[a.t] == Waiting(agent, u.pending[agent], true);
        }
      }
    }
  }

  lemma {:induction false} RunKeepsOwners(actions: seq<Action>)
    ensures Owned(Run(actions))
  {
    if actions != [] {
      RunKeepsOwners(DropLast(actions));
      StepKeepsOwners(Run(DropLast(actions)), Last(actions));
    }
  }

  ghost predicate CreationsExist(s: State) {
    forall t :: 0 <= t < |s.callers| && s.callers[t].Waiting? ==> s.callers[t].creation < |s.creations|
  }

  lemma {:induction false} RunKeepsCreations(actions: seq<Action>)
    ensures CreationsExist(Run(actions)) && forall a :: a in Run(actions).pending ==>
        Run(actions).pending[a] < |Run(actions).creations|
  {
    if actions != [] {
      RunKeepsCreations(DropLast(actions));
    }
  }

  /**
   * In every run an entry of the pending map belongs to a caller that is still
   * waiting; and when such a caller wakes up, its creation having settled, no
   * entry is left for it. So a creation that failed never stands in the way of
   * a later attempt.
   */
  lemma {:induction false} PendingHasAnOwner(actions: seq<Action>)
    ensures var s := Run(actions);
      && (forall agent :: agent in s.pending ==> HasOwner(s, agent, s.pending[agent]))
      && (forall t: nat, agent, c: nat :: t < |s.callers| && s.callers[t] == Waiting(agent, c, true) ==>
          c < |s.creations|)
      && (forall t: nat, agent, c: nat ::
            (t < |s.callers| && s.callers[t] == Waiting(agent, c, true) && Settled(s.creations[c])) ==>
            Lookup(Step(s, Wake(t)).pending, agent) != Some(c) && !Step(s, Wake(t)).callers[t].Waiting?)
  {
    RunKeepsOwners(actions);
    RunKeepsCreations(actions);
  }

  // ------------------------------------------------------- what the callers end with

  /**
   * In every run, dispose or not: a caller waits until its creation has
   * settled and it wakes up; then it has the connection the creation came to,
   * and it fails if and only if the creation came to nothing.
   */
  lemma {:induction false} CallersGetWhatTheyWaitedFor(actions: seq<Action>, t: nat, a: Action)
    requires t < |Run(actions).callers| && Run(actions).callers[t].Waiting?
    ensures var s := Run(actions);
      var Waiting(agent, c, _) := s.callers[t];
      && c < |s.creations|
      && Run(actions + [a]).callers[t] ==
         (if a != Wake(t) || !Settled(s.creations[c]) then s.callers[t]
          else if Gone(s.creations[c]) then Failed
          else Got(agent, s.creations[c].phase.conn))
  {
    RunKeepsCreations(actions);
    RunSnoc(actions, a);
  }

  /** A caller that has its connection keeps it, and one that failed has failed. */
  lemma StepKeepsServed(s: State, a: Action, t: nat)
    requires t < |s.callers| && (s.callers[t].Got? || s.callers[t].Failed?)
    ensures t < |Step(s, a).callers| && Step(s, a).callers[t] == s.callers[t]
  {
  }

  /** What an action reports on creation `c`. */
  function Report(a: Action, c: nat): Phase {
    if a == Created(c) then Fulfilled(c)
    else if a == CreateFails(c) then Rejected
    else if a == HandshakeFails(c) then Abandoned
    else Connecting
  }

  /** What becomes of creation `c` when nothing is disposed of: the first report on it after it began decides. */
  function Fate(actions: seq<Action>, c: nat): (fate: Phase)
    ensures fate in {Connecting, Fulfilled(c), Rejected, Abandoned}
  {
    if actions == [] then Connecting
    else
      var before := DropLast(actions);
      if Fate(before, c) == Connecting && c < |Run(before).creations| then Report(Last(actions), c)
      else Fate(before, c)
  }

  lemma FateIsKept(actions: seq<Action>, a: Action, c: nat)
    requires Fate(actions, c) != Connecting
    ensures Fate(actions + [a], c) == Fate(actions, c)
  {
    assert DropLast(actions + [a]) == actions;
  }

  lemma StepReports(s: State, a: Action, c: nat)
    requires c < |s.creations| && !s.creations[c].phase.ClosingRaced?
    requires s.creations[c].phase.Connecting? ==> s.creations[c].agent !in s.live
    ensures c < |Step(s, a).creations|
    ensures Step(s, a).creations[c].phase ==
            if s.creations[c].phase == Connecting then Report(a, c) else s.creations[c].phase
  {
  }

  lemma StepBegins(s: State, a: Action, c: nat)
    requires |s.creations| <= c < |Step(s, a).creations|
    ensures Step(s, a).creations[c].phase == Connecting
  {
  }

  lemma {:induction false} CreationsMeetTheirFate(actions: seq<Action>, c: nat)
    requires DisposeStart !in actions
    ensures c < |Run(actions).creations| ==> Run(actions).creations[c].phase == Fate(actions, c)
    ensures c >= |Run(actions).creations| ==> Fate(actions, c) == Connecting
  {
    if actions != [] {
      var s := Run(DropLast(actions));
      CreationsMeetTheirFate(DropLast(actions), c);
      if c < |s.creations| {
        RunIsSingleFlight(DropLast(actions));
        StepReports(s, Last(actions), c);
      } else if c < |Run(actions).creations| {
        StepBegins(s, Last(actions), c);
      }
    }
  }

  /** After `before`, caller `t` has woken up with creation `c` decided. */
  predicate Woken(before: seq<Action>, more: seq<Action>, t: nat, c: nat) {
    more != [] &&
    (Woken(before, DropLast(more), t, c) || (Last(more) == Wake(t) && Fate(before + DropLast(more), c) != Connecting))
  }

  /** How a wait ends, once the caller has woken up. */
  function Outcome(waiting: Caller, woken: bool, fate: Phase): Caller
    requires waiting.Waiting?
  {
    if !woken then waiting
    else if fate.Fulfilled? then Got(waiting.agent, waiting.creation)
    else Failed
  }

  lemma WaiterSteps(s: State, a: Action, t: nat, waiting: Caller, woken: bool)
    requires waiting.Waiting? && waiting.creation < |s.creations|
    requires s.creations[waiting.creation].phase in {Connecting, Fulfilled(waiting.creation), Rejected, Abandoned}
    requires var fate := s.creations[waiting.creation].phase;
      t < |s.callers| && s.callers[t] == Outcome(waiting, woken, fate) && (woken ==> fate != Connecting)
    ensures var fate := s.creations[waiting.creation].phase;
      && t < |Step(s, a).callers|
      && Step(s, a).callers[t] == Outcome(waiting, woken || (a == Wake(t) && fate != Connecting), fate)
  {
  }

  /**
   * Without dispose: whoever waits for a creation, having begun it or joined
   * it, ends with its connection if it opened and fails if it did not, once
   * it wakes up after that; until then it waits.
   */
  lemma {:induction false} WaitersShareTheOutcome(before: seq<Action>, more: seq<Action>, t: nat)
    requires DisposeStart !in before + more
    requires t < |Run(before).callers| && Run(before).callers[t].Waiting?
    ensures var waiting, actions := Run(before).callers[t], before + more;
      var c := waiting.creation;
      && t < |Run(actions).callers|
      && Run(actions).callers[t] ==
         (if !Woken(before, more, t, c) then waiting
          else if Fate(actions, c).Fulfilled? then Got(waiting.agent, c)
          else Failed)
      && (Woken(before, more, t, c) ==> Fate(actions, c) != Connecting)
  {
    var waiting := Run(before).callers[t];
    if more == [] {
      assert before + more == before;
    } else {
      var actions := before + DropLast(more);
      assert before + more == actions + [Last(more)];
      WaitersShareTheOutcome(before, DropLast(more), t);
      CreationsMeetTheirFate(actions, waiting.creation);
      WaitingIsForSomething(actions, t);
      WaiterSteps(Run(actions), Last(more), t, waiting, Woken(before, DropLast(more), t, waiting.creation));
      RunSnoc(actions, Last(more));
      if Fate(actions, waiting.creation) != Connecting {
        FateIsKept(actions, Last(more), waiting.creation);
      }
    }
  }

  lemma WaitingIsForSomething(actions: seq<Action>, t: nat)
    requires t < |Run(actions).callers|
    ensures var s := Run(actions); s.callers[t].Waiting? ==> s.callers[t].creation < |s.creations|
  {
    RunKeepsCreations(actions);
  }

  predicate OwnerHolds(s: State, caller: Caller) {
    caller.Waiting? && caller.owner ==> Lookup(s.pending, caller.agent) == Some(caller.creation)
  }

  /**
   * Without dispose, whoever began a creation and waits for it has its entry
   * in the pending map, alone; and the two maps agree where both speak.
   */
  ghost predicate OwnersHold(s: State) {
    && (forall t :: 0 <= t < |s.callers| ==> OwnerHolds(s, s.callers[t]))
    && (forall t, u :: 0 <= t < u < |s.callers| ==> !SameOwner(s.callers[t], s.callers[u]))
    && (forall agent :: agent in s.pending && agent in s.live ==> s.live[agent] == s.pending[agent])
  }

  predicate SameOwner(t: Caller, u: Caller) {
    t.Waiting? && u.Waiting? && t.owner && u.owner && t.creation == u.creation
  }

  lemma ProceedKeepsOwnersHold(s: State, t: nat)
    requires OwnersHold(s) && CreationsExist(s) && t < |s.callers| && s.callers[t].AwaitingHealth?
    ensures OwnersHold(DoProceed(s, t))
  {
  }

  lemma WakeKeepsOwnersHold(s: State, t: nat)
    requires OwnersHold(s) && CreationsExist(s) && t < |s.callers| && s.callers[t].Waiting?
    requires forall u :: 0 <= u < |s.callers| && s.callers[u].Waiting? ==>
        s.creations[s.callers[u].creation].agent == s.callers[u].agent
    ensures OwnersHold(DoWake(s, t))
  {
    var v := DoWake(s, t);
    forall u | 0 <= u < |v.callers| ensures OwnerHolds(v, v.callers[u]) {
      assert OwnerHolds(s, s.callers[u]);
      if u != t {
        assert !SameOwner(s.callers[u], s.callers[t]) && !SameOwner(s.callers[t], s.callers[u]);
      }
    }
  }

  lemma CreationKeepsOwnersHold(s: State, a: Action)
    requires OwnersHold(s) && SingleFlight(s) && CreationAction(a)
    ensures OwnersHold(Step(s, a))
  {
    assert Step(s, a).callers == s.callers && Step(s, a).pending == s.pending;
    forall t | 0 <= t < |s.callers| ensures OwnerHolds(Step(s, a), s.callers[t]) {
      assert OwnerHolds(s, s.callers[t]);
    }
  }

  lemma OtherKeepsOwnersHold(s: State, a: Action)
    requires OwnersHold(s) && (a.Call? || a.DisposeSettled? || (a.Proceed? && !a.healthy))
    ensures OwnersHold(Step(s, a))
  {
    var v := Step(s, a);
    forall t | 0 <= t < |v.callers| ensures OwnerHolds(v, v.callers[t]) {
      assert t < |s.callers| ==> OwnerHolds(s, s.callers[t]);
    }
  }

  lemma {:induction false} RunKeepsOwnersHold(actions: seq<Action>)
    requires DisposeStart !in actions
    ensures OwnersHold(Run(actions))
  {
    if actions != [] {
      var s, a := Run(DropLast(actions)), Last(actions);
      RunKeepsOwnersHold(DropLast(actions));
      RunKeepsCreations(DropLast(actions));
      RunIsSingleFlight(DropLast(actions));
      if a.Wake? {
        if a.t < |s.callers| && s.callers[a.t].Waiting? {
          WakeKeepsOwnersHold(s, a.t);
        }
      } else if a.Proceed? && a.healthy {
        if a.t < |s.callers| && s.callers[a.t].AwaitingHealth? {
          ProceedKeepsOwnersHold(s, a.t);
        }
      } else if CreationAction(a) {
        CreationKeepsOwnersHold(s, a);
      } else {
        OtherKeepsOwnersHold(s, a);
      }
    }
  }

  /** The live map names connections that their creations opened. */
  ghost predicate LiveIsOpen(s: State) {
    forall agent :: agent in s.live ==>
        s.live[agent] < |s.creations| && s.creations[s.live[agent]] == Creation(agent, Fulfilled(s.live[agent]))
  }

  lemma StepKeepsLive(s: State, a: Action)
    requires LiveIsOpen(s)
    ensures LiveIsOpen(Step(s, a))
  {
  }

  lemma {:induction false} RunKeepsLive(actions: seq<Action>)
    ensures LiveIsOpen(Run(actions))
  {
    if actions != [] {
      RunKeepsLive(DropLast(actions));
      StepKeepsLive(Run(DropLast(actions)), Last(actions));
    }
  }

  /** Creation `c` has opened the agent's connection. */
  predicate OpenedFor(actions: seq<Action>, agent: string, c: nat) {
    c < |Run(actions).creations| && Run(actions).creations[c].agent == agent && Fate(actions, c) == Fulfilled(c)
  }

  /**
   * Without dispose, a caller whose health wait is over is given the agent's
   * connection if a creation has opened one; it joins the creation that
   * another caller began and still waits for, if there is one; and otherwise
   * it begins one. If the health wait failed, so does it.
   */
  lemma CallersAreServed(actions: seq<Action>, t: nat)
    requires DisposeStart !in actions
    requires t < |Run(actions).callers| && Run(actions).callers[t].AwaitingHealth?
    ensures Run(actions + [Proceed(t, false)]).callers[t] == Failed
    ensures var s := Run(actions);
      var agent := s.callers[t].agent;
      var u := Run(actions + [Proceed(t, true)]);
      && (forall c :: OpenedFor(actions, agent, c) ==> u.callers[t] == Got(agent, c) && u.creations == s.creations)
      && (forall c :: HasOwner(s, agent, c) && !OpenedFor(actions, agent, c) ==>
            u.callers[t] == Waiting(agent, c, false) && u.creations == s.creations)
      && ((forall c :: !OpenedFor(actions, agent, c) && !HasOwner(s, agent, c)) ==>
          u.callers[t] == Waiting(agent, |s.creations|, true) &&
          u.creations == s.creations + [Creation(agent, Connecting)])
  {
    RunSnoc(actions, Proceed(t, false));
    RunSnoc(actions, Proceed(t, true));
    RunIsSingleFlight(actions);
    RunKeepsOwners(actions);
    RunKeepsOwnersHold(actions);
    var s := Run(actions);
    var agent := s.callers[t].agent;
    forall c: nat ensures OpenedFor(actions, agent, c) ==> Lookup(s.live, agent) == Some(c) {
      CreationsMeetTheirFate(actions, c);
    }
    RunKeepsLive(actions);
    if agent in s.live {
      CreationsMeetTheirFate(actions, s.live[agent]);
      assert OpenedFor(actions, agent, s.live[agent]);
    }
  }

  lemma LosingStep(s: State, c: nat, w: nat)
    requires c < |s.creations| && s.creations[c].phase.Connecting? && Lookup(s.live, s.creations[c].agent) == Some(w)
    ensures Step(s, Created(c)) ==
            s.(openedConns := s.openedConns + {c}, closedConns := s.closedConns + {c},
               creations := s.creations[c := Creation(s.creations[c].agent, ClosingRaced(w))])
  {
  }

  lemma RacedStep(s: State, c: nat, w: nat, ok: bool)
    requires c < |s.creations| && s.creations[c].phase == ClosingRaced(w)
    ensures Step(s, RacedClosed(c, ok)).creations ==
            s.creations[c := Creation(s.creations[c].agent, if ok then Fulfilled(w) else Rejected)]
  {
  }

  /**
   * A creation that finds another connection of its agent in place, as only
   * happens after a dispose: its own is closed and stays out of the map, and
   * it comes to the other one, which a creation of that agent opened. If the
   * closing fails, it comes to nothing.
   */
  lemma LoserGivesTheWinner(actions: seq<Action>, c: nat, w: nat)
    requires c < |Run(actions).creations| && Run(actions).creations[c].phase.Connecting?
    requires Lookup(Run(actions).live, Run(actions).creations[c].agent) == Some(w)
    ensures var s, lost := Run(actions), Run(actions + [Created(c)]);
      && lost.live == s.live && c in lost.closedConns
      && w < |s.creations| && s.creations[w] == Creation(s.creations[c].agent, Fulfilled(w))
      && Run(actions + [Created(c)] + [RacedClosed(c, true)]).creations ==
         s.creations[c := Creation(s.creations[c].agent, Fulfilled(w))]
      && Run(actions + [Created(c)] + [RacedClosed(c, false)]).creations ==
         s.creations[c := Creation(s.creations[c].agent, Rejected)]
  {
    RunSnoc(actions, Created(c));
    RunSnoc(actions + [Created(c)], RacedClosed(c, true));
    RunSnoc(actions + [Created(c)], RacedClosed(c, false));
    LosingStep(Run(actions), c, w);
    RacedStep(Run(actions + [Created(c)]), c, w, true);
    RacedStep(Run(actions + [Created(c)]), c, w, false);
    LiveAt(actions, Run(actions).creations[c].agent);
  }

  lemma LiveAt(actions: seq<Action>, agent: string)
    requires agent in Run(actions).live
    ensures var s := Run(actions);
      s.live[agent] < |s.creations| && s.creations[s.live[agent]] == Creation(agent, Fulfilled(s.live[agent]))
  {
    RunKeepsLive(actions);
  }

  /**
   * Whatever the maps held, a dispose empties them: the next caller of any
   * agent begins a creation of its own.
   */
  lemma DisposeLeavesNothingToShare(actions: seq<Action>, t: nat)
    requires t < |Run(actions).callers| && Run(actions).callers[t].AwaitingHealth?
    ensures var s := Run(actions);
      Run(actions + [DisposeStart] + [Proceed(t, true)]).callers ==
      s.callers[t := Waiting(s.callers[t].agent, |s.creations|, true)]
  {
    RunSnoc(actions, DisposeStart);
    RunSnoc(actions + [DisposeStart], Proceed(t, true));
  }

  // ---------------------------------------------------------------- the object

  /** The agent object's two connection maps, with the promises and callers that are suspended around them. */
  class ConnectionTable {
    var liveConnections: map<string, nat>
    var pendingLiveConnections: map<string, nat>
    var creations: seq<Creation>
    var callers: seq<Caller>
    var openedConns: set<nat>
    var closedConns: set<nat>
    var disposals: seq<Disposal>

    function View(): State
      reads this
    {
      State(liveConnections, pendingLiveConnections, creations, callers, openedConns, closedConns, disposals)
    }

    constructor ()
      ensures View() == START
    {
      liveConnections, pendingLiveConnections, creations, callers := map[], map[], [], [];
      openedConns, closedConns, disposals := {}, {}, [];
    }

    /** getLiveConnection from the health wait to its next await. */
    method GetLiveConnection(t: nat)
      requires t < |callers| && callers[t].AwaitingHealth?
      modifies this
      ensures View() == Step(old(View()), Proceed(t, true))
    {
      var agent := callers[t].agent;
      if agent in liveConnections {
        callers := callers[t := Got(agent, liveConnections[agent])];
        return;
      }
      if agent in pendingLiveConnections {
        callers := callers[t := Waiting(agent, pendingLiveConnections[agent], false)];
        return;
      }
      var creating := |creations|;
      creations := creations + [Creation(agent, Connecting)];
      pendingLiveConnections := pendingLiveConnections[agent := creating];
      callers := callers[t := Waiting(agent, creating, true)];
    }

    /** The rest of a creation, once its connection is open. */
    method FinishCreation(c: nat)
      requires c < |creations| && creations[c].phase.Connecting?
      modifies this
      ensures View() == Step(old(View()), Created(c))
    {
      var agent := creations[c].agent;
      openedConns := openedConns + {c};
      if agent in liveConnections {
        closedConns := closedConns + {c};
        creations := creations[c := creations[c].(phase := ClosingRaced(liveConnections[agent]))];
        return;
      }
      liveConnections := liveConnections[agent := c];
      creations := creations[c := creations[c].(phase := Fulfilled(c))];
    }

    /** The creation's promise is rejected, before its transport opened or because the handshake failed on it. */
    method CreationFailed(c: nat, wasOpen: bool)
      requires c < |creations| && creations[c].phase.Connecting?
      modifies this`creations, this`openedConns
      ensures View() == Step(old(View()), if wasOpen then HandshakeFails(c) else CreateFails(c))
    {
      if wasOpen {
        openedConns := openedConns + {c};
      }
      creations := creations[c := creations[c].(phase := if wasOpen then Abandoned else Rejected)];
    }

    /** A caller's `await creating` returns; the one that began the creation tidies the map. */
    method CallerWakes(t: nat)
      requires t < |callers| && callers[t].Waiting? && callers[t].creation < |creations| &&
          Settled(creations[callers[t].creation])
      modifies this
      ensures View() == Step(old(View()), Wake(t))
    {
      var Waiting(agent, c, owner) := callers[t];
      if owner && agent in pendingLiveConnections && pendingLiveConnections[agent] == c {
        pendingLiveConnections := pendingLiveConnections - {agent};
      }
      callers := callers[t := if creations[c].phase.Fulfilled? then Got(agent, creations[c].phase.conn) else Failed];
    }

    /** dispose up to its first await. */
    method BeginDispose()
      modifies this
      ensures View() == Step(old(View()), DisposeStart)
    {
      var connections := ValuesOf(liveConnections);
      var pending := ValuesOf(pendingLiveConnections);
      disposals := disposals + [Disposal(connections, pending, connections + UnsettledOf(creations), false)];
      liveConnections, pendingLiveConnections := map[], map[];
    }

    /** The rest of dispose, once all pending creations have settled. */
    method FinishDispose(d: nat)
      requires d < |disposals| && !disposals[d].finished && AllSettled(creations, disposals[d].waiting)
      modifies this
      ensures View() == Step(old(View()), DisposeSettled(d))
    {
      closedConns := closedConns + disposals[d].toClose + Produced(creations, disposals[d].waiting);
      disposals := disposals[d := disposals[d].(finished := true)];
    }
  }
}
