/**
 * Which local session an envelope belongs to. A live connection keeps four
 * tables and consumes their entries as envelopes pass; the model compares
 * them with a ledger of what really happened that only ever grows.
 */
module Routing {
  import opened Prelude

  /** The parts of a JSON-RPC envelope that routing looks at; None stands for absent, null or not a string. */
  datatype Envelope = Envelope(id: Option<string>, rpcMethod: Option<string>, paramsSession: Option<string>,
      resultSession: Option<string>)

  /** Empty strings are falsy. */
  function Truthy(s: Option<string>): Option<string> {
    if s == Some("") then None else s
  }

  datatype Conn = Conn(
    sessionByLocal: map<string, string>,
    localByAgent: map<string, string>,
    pendingNew: seq<string>,
    pendingReq: map<string, string>)

  const EMPTY: Conn := Conn(map[], map[], [], map[])

  function Bind(c: Conn, local: string, agent: string): Conn {
    c.(sessionByLocal := c.sessionByLocal[local := agent], localByAgent := c.localByAgent[agent := local])
  }

  function LocalFromParams(c: Conn, e: Envelope): Option<string> {
    match Truthy(e.paramsSession)
    case None => None
    case Some(agent) => Lookup(c.localByAgent, agent)
  }

  function ResolveOutbound(c: Conn, e: Envelope): (Conn, Option<string>) {
    var id := Truthy(e.id);
    if id.Some? && e.rpcMethod == Some("session/new") then
      if c.pendingNew == [] then (c, None)
      else
        var local := c.pendingNew[0];
        var shifted := c.(pendingNew := c.pendingNew[1..]);
        if local != "" then (shifted.(pendingReq := shifted.pendingReq[id.value := local]), Some(local))
        else (shifted, Some(local))
    else
      var local := LocalFromParams(c, e);
      if id.Some? && Truthy(local).Some? then (c.(pendingReq := c.pendingReq[id.value := local.value]), local)
      else (c, local)
  }

  function ResolveInbound(c: Conn, e: Envelope): (Conn, Option<string>) {
    var id := Truthy(e.id);
    var pending := if id.Some? then Truthy(Lookup(c.pendingReq, id.value)) else None;
    if pending.Some? then
      var consumed := c.(pendingReq := c.pendingReq - {id.value});
      var agent := Truthy(e.resultSession);
      (if agent.Some? then Bind(consumed, pending.value, agent.value) else consumed, pending)
    else (c, LocalFromParams(c, e))
  }

  /** `splice(indexOf(local), 1)`: removes the first occurrence, if there is one. */
  function RemoveFirst(locals: seq<string>, local: string): seq<string> {
    if locals == [] then []
    else if locals[0] == local then locals[1..]
    else [locals[0]] + RemoveFirst(locals[1..], local)
  }

  datatype Action =
    | CallNew(local: string)
    | NewDone(local: string, agent: string)
    | NewFailed(local: string)
    | Rebind(local: string, agent: string)
    | Outbound(e: Envelope, caller: string)   // for session/new: the local session whose call it carries
    | Inbound(e: Envelope)

  /** The connection after an action, and the local session the envelope is attributed to. */
  function Step(c: Conn, a: Action): (Conn, Option<string>) {
    match a
    case CallNew(local) => (c.(pendingNew := c.pendingNew + [local]), None)
    case NewDone(local, agent) => (Bind(c, local, agent), None)
    case NewFailed(local) => (c.(pendingNew := RemoveFirst(c.pendingNew, local)), None)
    case Rebind(local, agent) => (Bind(c, local, agent), None)
    case Outbound(e, _) => ResolveOutbound(c, e)
    case Inbound(e) => ResolveInbound(c, e)
  }

  // ----------------------------------------------------------------- the ledger

  /**
   * What happened: session/new calls whose envelope is still to be written, in
   * call order; local ids with such a call under way; the local session behind
   * each request ever written; the requests already answered; the local session
   * each agent session id was given to; and the agent session id each local
   * session was given last.
   */
  datatype Ledger = Ledger(
    unwritten: seq<string>,
    inFlight: set<string>,
    written: set<string>,
    owner: map<string, string>,
    answered: set<string>,
    agentOwner: map<string, string>,
    current: map<string, string>)

  const BLANK: Ledger := Ledger([], {}, {}, map[], {}, map[], map[])

  predicate IsNewSession(e: Envelope) {
    Truthy(e.id).Some? && e.rpcMethod == Some("session/new")
  }

  function OwnerOfParams(l: Ledger, e: Envelope): Option<string> {
    match Truthy(e.paramsSession)
    case None => None
    case Some(agent) => Lookup(l.agentOwner, agent)
  }

  /** Is this the first answer to a request of a local session? */
  predicate FirstAnswer(l: Ledger, e: Envelope) {
    e.rpcMethod.None? && e.id.Some? && e.id.value in l.owner && e.id.value !in l.answered
  }

  /** The session the envelope really belongs to. */
  function Truth(l: Ledger, a: Action): Option<string> {
    match a
    case Outbound(e, caller) => if IsNewSession(e) then Some(caller) else OwnerOfParams(l, e)
    case Inbound(e) => if FirstAnswer(l, e) then Some(l.owner[e.id.value]) else OwnerOfParams(l, e)
    case _ => None
  }

  function GiveTo(l: Ledger, agent: string, local: string): Ledger {
    l.(agentOwner := l.agentOwner[agent := local], current := l.current[local := agent])
  }

  function Advance(l: Ledger, a: Action): Ledger {
    match a
    case CallNew(local) => l.(unwritten := l.unwritten + [local], inFlight := l.inFlight + {local})
    case NewDone(local, agent) => GiveTo(l.(inFlight := l.inFlight - {local}), agent, local)
    case NewFailed(local) => l.(unwritten := RemoveFirst(l.unwritten, local), inFlight := l.inFlight - {local})
    case Rebind(local, agent) => l.(current := l.current[local := agent])
    case Outbound(e, caller) =>
      var id := Truthy(e.id);
      if id.None? then l
      else if IsNewSession(e) then
        l.(written := l.written + {id.value}, owner := l.owner[id.value := caller], unwritten :=
            RemoveFirst(l.unwritten, caller))
      else if OwnerOfParams(l, e).Some? then
        l.(written := l.written + {id.value}, owner := l.owner[id.value := OwnerOfParams(l, e).value])
      else if e.rpcMethod.Some? then l.(written := l.written + {id.value})
      else l
    case Inbound(e) =>
      if !FirstAnswer(l, e) then l
      else
        var done := l.(answered := l.answered + {e.id.value});
        if Truthy(e.resultSession).Some? then GiveTo(done, e.resultSession.value, l.owner[e.id.value]) else done
  }

  /** An agent session id that is new, or this local session's own. */
  predicate FreshOrOwn(l: Ledger, agent: string, local: string) {
    agent != "" && (agent in l.agentOwner ==> l.agentOwner[agent] == local)
  }

  /**
   * What the client library and the agent are relied on for: request ids are
   * not reused, a session/new envelope carries a call that is still unwritten,
   * in-flight local ids are distinct, agent session ids are fresh, responses
   * carry no params and requests no result, and an agent's own request ids stay
   * clear of the client's outstanding ones.
   */
  predicate Admissible(l: Ledger, a: Action) {
    match a
    case CallNew(local) => local != "" && local !in l.inFlight
    case NewDone(local, agent) => local in l.inFlight && local !in l.unwritten && FreshOrOwn(l, agent, local)
    case NewFailed(local) => local in l.inFlight
    case Rebind(local, agent) => agent in l.agentOwner && l.agentOwner[agent] == local
    case Outbound(e, caller) =>
      && (e.rpcMethod.None? ==> e.paramsSession.None?)
      && (e.rpcMethod.Some? && e.id.Some? ==> e.id.value != "" && e.id.value !in l.written)
      && (IsNewSession(e) ==> caller in l.unwritten)
    case Inbound(e) =>
      && (e.rpcMethod.None? ==> e.paramsSession.None?)
      && (e.rpcMethod.Some? && e.id.Some? && e.id.value in l.owner ==> e.id.value in l.answered)
      && (FirstAnswer(l, e) && Truthy(e.resultSession).Some? ==>
          FreshOrOwn(l, e.resultSession.value, l.owner[e.id.value]))
  }

  /** A session/new envelope carries the oldest call that is still unwritten. */
  predicate Ordered(l: Ledger, a: Action) {
    a.Outbound? && IsNewSession(a.e) ==> l.unwritten != [] && a.caller == l.unwritten[0]
  }

  ghost predicate Agrees(c: Conn, l: Ledger) {
    && c.pendingNew == l.unwritten
    && NoDuplicates(l.unwritten)
    && (forall x :: x in l.unwritten ==> x in l.inFlight)
    && "" !in l.inFlight
    && (forall id :: id in c.pendingReq <==> id in l.owner && id !in l.answered)
    && (forall id :: id in c.pendingReq ==> c.pendingReq[id] == l.owner[id])
    && (forall id :: id in l.owner ==> id in l.written && id != "" && l.owner[id] != "")
    && l.answered <= l.written
    && c.localByAgent == l.agentOwner
    && (forall agent :: agent in l.agentOwner ==> agent != "" && l.agentOwner[agent] != "")
    && c.sessionByLocal == l.current
    && (forall x :: x in l.current ==> l.current[x] in l.agentOwner && l.agentOwner[l.current[x]] == x)
  }

  lemma {:induction false} RemoveFirstOnly(locals: seq<string>, local: string)
    requires NoDuplicates(locals)
    ensures NoDuplicates(RemoveFirst(locals, local))
    ensures forall x :: x in RemoveFirst(locals, local) <==> x in locals && x != local
  {
    if locals != [] {
      var rest := locals[1..];
      forall i, j | 0 <= i < j < |rest| ensures rest[i] != rest[j] {
        assert rest[i] == locals[i + 1] && rest[j] == locals[j + 1];
      }
      assert locals == [locals[0]] + rest;
      assert forall i :: 0 <= i < |rest| ==> rest[i] == locals[i + 1];
      if locals[0] != local {
        RemoveFirstOnly(rest, local);
        var shorter := RemoveFirst(rest, local);
        forall j | 0 <= j < |shorter| ensures shorter[j] != locals[0] {
          assert shorter[j] in rest;
        }
      }
    }
  }

  lemma BindingAgrees(c: Conn, l: Ledger, local: string, agent: string)
    requires Agrees(c, l) && FreshOrOwn(l, agent, local) && local != ""
    ensures Agrees(Bind(c, local, agent), GiveTo(l, agent, local))
  {
  }

  lemma RestOfUnwritten(locals: seq<string>)
    requires NoDuplicates(locals) && locals != []
    ensures RemoveFirst(locals, locals[0]) == locals[1..]
    ensures NoDuplicates(locals[1..]) && forall x :: x in locals[1..] ==> x in locals
  {
    var rest := locals[1..];
    forall i, j | 0 <= i < j < |rest| ensures rest[i] != rest[j] {
      assert rest[i] == locals[i + 1] && rest[j] == locals[j + 1];
    }
  }

  lemma NewSessionAgrees(c: Conn, l: Ledger, e: Envelope, caller: string)
    requires Agrees(c, l) && Admissible(l, Outbound(e, caller)) && IsNewSession(e)
    requires Ordered(l, Outbound(e, caller))
    ensures Agrees(ResolveOutbound(c, e).0, Advance(l, Outbound(e, caller)))
    ensures ResolveOutbound(c, e).1 == Truth(l, Outbound(e, caller))
  {
    RestOfUnwritten(l.unwritten);
    assert l.unwritten[0] in l.unwritten;
  }

  lemma OtherOutboundAgrees(c: Conn, l: Ledger, e: Envelope, caller: string)
    requires Agrees(c, l) && Admissible(l, Outbound(e, caller)) && !IsNewSession(e)
    ensures Agrees(ResolveOutbound(c, e).0, Advance(l, Outbound(e, caller)))
    ensures ResolveOutbound(c, e).1 == Truth(l, Outbound(e, caller))
  {
  }

  lemma OutboundAgrees(c: Conn, l: Ledger, e: Envelope, caller: string)
    requires Agrees(c, l) && Admissible(l, Outbound(e, caller)) && Ordered(l, Outbound(e, caller))
    ensures Agrees(ResolveOutbound(c, e).0, Advance(l, Outbound(e, caller)))
    ensures ResolveOutbound(c, e).1 == Truth(l, Outbound(e, caller))
  {
    if IsNewSession(e) {
      NewSessionAgrees(c, l, e, caller);
    } else {
      OtherOutboundAgrees(c, l, e, caller);
    }
  }

  lemma InboundAgrees(c: Conn, l: Ledger, e: Envelope)
    requires Agrees(c, l) && Admissible(l, Inbound(e))
    ensures Agrees(ResolveInbound(c, e).0, Advance(l, Inbound(e)))
    ensures ResolveInbound(c, e).1 == Truth(l, Inbound(e))
  {
    if FirstAnswer(l, e) {
      var local := l.owner[e.id.value];
      var consumed := c.(pendingReq := c.pendingReq - {e.id.value});
      var done := l.(answered := l.answered + {e.id.value});
      assert Agrees(consumed, done);
      if Truthy(e.resultSession).Some? {
        BindingAgrees(consumed, done, local, e.resultSession.value);
      }
    }
  }

  lemma StepAgrees(c: Conn, l: Ledger, a: Action)
    requires Agrees(c, l) && Admissible(l, a) && Ordered(l, a)
    ensures Agrees(Step(c, a).0, Advance(l, a))
    ensures Step(c, a).1 == Truth(l, a)
  {
    match a
    case CallNew(local) =>
    case NewDone(local, agent) =>
      var m := l.(inFlight := l.inFlight - {local});
      assert Agrees(c, m);
      BindingAgrees(c, m, local, agent);
    case NewFailed(local) => RemoveFirstOnly(l.unwritten, local);
    case Rebind(local, agent) => BindingAgrees(c, l, local, agent);
      assert l.agentOwner[agent := local] == l.agentOwner;
    case Outbound(e, caller) => OutboundAgrees(c, l, e, caller);
    case Inbound(e) => InboundAgrees(c, l, e);
  }

  // -------------------------------------------------------------------- runs

  datatype World = World(conn: Conn, ledger: Ledger)

  function Run(actions: seq<Action>): World {
    if actions == [] then World(EMPTY, BLANK)
    else
      var w := Run(DropLast(actions));
      World(Step(w.conn, Last(actions)).0, Advance(w.ledger, Last(actions)))
  }

  predicate AdmissibleRun(actions: seq<Action>) {
    actions == [] || (AdmissibleRun(DropLast(actions)) && Admissible(Run(DropLast(actions)).ledger, Last(actions)))
  }

  predicate OrderedRun(actions: seq<Action>) {
    actions == [] || (OrderedRun(DropLast(actions)) && Ordered(Run(DropLast(actions)).ledger, Last(actions)))
  }

  /** session/new envelopes are written in call order, and everything else is as relied on. */
  predicate ProperRun(actions: seq<Action>) {
    AdmissibleRun(actions) && OrderedRun(actions)
  }

  lemma {:induction false} RunAgrees(actions: seq<Action>)
    requires ProperRun(actions)
    ensures Agrees(Run(actions).conn, Run(actions).ledger)
  {
    if actions != [] {
      RunAgrees(DropLast(actions));
      var w := Run(DropLast(actions));
      StepAgrees(w.conn, w.ledger, Last(actions));
    }
  }

  /** Every envelope of the run was attributed to the session it belongs to. */
  predicate AllRight(actions: seq<Action>) {
    actions == [] ||
    var w := Run(DropLast(actions));
    AllRight(DropLast(actions)) && Step(w.conn, Last(actions)).1 == Truth(w.ledger, Last(actions))
  }

  /**
   * In an admissible run every envelope is attributed to the session it
   * belongs to if and only if session/new envelopes are written in call order.
   */
  lemma {:induction false} AllRightIffInCallOrder(actions: seq<Action>)
    requires AdmissibleRun(actions)
    ensures AllRight(actions) <==> OrderedRun(actions)
  {
    if actions != [] {
      AllRightIffInCallOrder(DropLast(actions));
      if OrderedRun(DropLast(actions)) {
        RunAgrees(DropLast(actions));
        var w, a := Run(DropLast(actions)), Last(actions);
        if Ordered(w.ledger, a) {
          StepAgrees(w.conn, w.ledger, a);
        } else {
          assert w.conn.pendingNew == w.ledger.unwritten && a.caller in w.ledger.unwritten;
        }
      }
    }
  }

  /**
   * In every proper run the connection attributes every envelope to the
   * session the ledger names; it has each local session bound to the agent
   * session id it was given last; and its two binding tables match.
   */
  lemma EveryEnvelopeIsRoutedRight(actions: seq<Action>, next: Action)
    requires ProperRun(actions + [next])
    ensures var w := Run(actions);
      && Step(w.conn, next).1 == Truth(w.ledger, next)
      && w.conn.sessionByLocal == w.ledger.current
      && (forall x :: x in w.conn.sessionByLocal ==> Lookup(w.conn.localByAgent, w.conn.sessionByLocal[x]) == Some(x))
  {
    assert DropLast(actions + [next]) == actions;
    RunAgrees(actions);
    StepAgrees(Run(actions).conn, Run(actions).ledger, next);
  }

  lemma AdvanceGrows(l: Ledger, a: Action, agent: string)
    requires Admissible(l, a) && agent in l.agentOwner
    ensures agent in Advance(l, a).agentOwner && Advance(l, a).agentOwner[agent] == l.agentOwner[agent]
    ensures l.answered <= Advance(l, a).answered && l.owner.Keys <= Advance(l, a).owner.Keys
  {
  }

  /** An agent session id keeps routing to its local session, however often the session is bound anew. */
  lemma {:induction false} OldAgentIdsKeepRouting(actions: seq<Action>, more: seq<Action>, agent: string)
    requires ProperRun(actions + more)
    requires agent in Run(actions).conn.localByAgent
    ensures ProperRun(actions)
    ensures Lookup(Run(actions + more).conn.localByAgent, agent) == Some(Run(actions).conn.localByAgent[agent])
  {
    if more == [] {
      assert actions + more == actions;
    } else {
      assert DropLast(actions + more) == actions + DropLast(more);
      OldAgentIdsKeepRouting(actions, DropLast(more), agent);
      RunAgrees(actions + DropLast(more));
      RunAgrees(actions + more);
      AdvanceGrows(Run(actions + DropLast(more)).ledger, Last(more), agent);
    }
  }

  lemma {:induction false} PrefixAdmissible(actions: seq<Action>, more: seq<Action>)
    requires ProperRun(actions + more)
    ensures ProperRun(actions)
  {
    if more == [] {
      assert actions + more == actions;
    } else {
      assert DropLast(actions + more) == actions + DropLast(more);
      PrefixAdmissible(actions, DropLast(more));
    }
  }

  lemma {:induction false} AnswersStay(actions: seq<Action>, more: seq<Action>)
    requires ProperRun(actions + more)
    ensures Run(actions).ledger.answered <= Run(actions + more).ledger.answered
    ensures forall id :: id in Run(actions).ledger.answered && id in Run(actions).ledger.owner ==>
              id in Run(actions + more).ledger.owner
  {
    if more == [] {
      assert actions + more == actions;
    } else {
      assert DropLast(actions + more) == actions + DropLast(more);
      AnswersStay(actions, DropLast(more));
    }
  }

  /**
   * Each request is answered into its own session exactly once: the first
   * response goes to the session that asked, a session id in its result binds
   * that session, and any later copy goes nowhere.
   */
  lemma ResponsesAreAttributedOnce(actions: seq<Action>, first: Envelope, more: seq<Action>, again: Envelope)
    requires ProperRun(actions + [Inbound(first)] + more + [Inbound(again)])
    requires FirstAnswer(Run(actions).ledger, first)
    requires again.rpcMethod.None? && again.id == first.id
    ensures var w := Run(actions);
      var asker := w.ledger.owner[first.id.value];
      var after := Step(w.conn, Inbound(first)).0;
      && Step(w.conn, Inbound(first)).1 == Some(asker)
      && (Truthy(first.resultSession).Some? ==>
            Lookup(after.sessionByLocal, asker) == first.resultSession &&
                Lookup(after.localByAgent, first.resultSession.value) == Some(asker))
    ensures Step(Run(actions + [Inbound(first)] + more).conn, Inbound(again)).1 == None
  {
    var upTo := actions + [Inbound(first)];
    assert upTo + more + [Inbound(again)] == upTo + (more + [Inbound(again)]);
    PrefixAdmissible(upTo, more + [Inbound(again)]);
    EveryEnvelopeIsRoutedRight(actions, Inbound(first));
    assert DropLast(upTo) == actions;
    RunAgrees(actions);
    PrefixAdmissible(upTo + more, [Inbound(again)]);
    AnswersStay(upTo, more);
    EveryEnvelopeIsRoutedRight(upTo + more, Inbound(again));
    assert DropLast(upTo + more + [Inbound(again)]) == upTo + more;
  }

  /**
   * The table of outstanding requests is consulted without looking at whether
   * the envelope is a response. An agent's request is therefore routed by its
   * session id exactly when its own id is not outstanding (or happens to lead
   * to the same session) ...
   */
  lemma AgentRequestsNeedDisjointIds(c: Conn, l: Ledger, e: Envelope)
    requires Agrees(c, l) && e.rpcMethod.Some?
    ensures ResolveInbound(c, e).1 == OwnerOfParams(l, e)
            <==> (e.id.None? || e.id.value !in l.owner || e.id.value in l.answered ||
                OwnerOfParams(l, e) == Some(l.owner[e.id.value]))
  {
    if e.id.Some? && e.id.value in l.owner && e.id.value !in l.answered {
      assert e.id.value in c.pendingReq;
    }
  }

  /** ... and otherwise it also swallows the entry, so that the real response is lost to its session. */
  lemma CollidingIdLosesTheResponse(c: Conn, l: Ledger, request: Envelope, response: Envelope)
    requires Agrees(c, l) && request.rpcMethod.Some? && response.rpcMethod.None? && response.paramsSession.None?
    requires request.id == response.id && FirstAnswer(l, response)
    ensures ResolveInbound(c, request).1 == Some(l.owner[request.id.value])
    ensures ResolveInbound(ResolveInbound(c, request).0, response).1 == None
  {
    assert request.id.value in c.pendingReq;
  }

  function NotEmpty(s: Option<string>): Option<string> {
    match s
    case None => None
    case Some(text) => if |text| == 0 then None else Some(text)
  }

  /** An empty id or session id counts as none at all, in either direction and whatever the tables hold. */
  lemma EmptyCountsAsAbsent(c: Conn, e: Envelope, caller: string)
    ensures var f := Envelope(NotEmpty(e.id), e.rpcMethod, NotEmpty(e.paramsSession), NotEmpty(e.resultSession));
      Step(c, Outbound(e, caller)) == Step(c, Outbound(f, caller)) && Step(c, Inbound(e)) == Step(c, Inbound(f))
  {
    assert forall s: Option<string> :: Truthy(NotEmpty(s)) == Truthy(s);
  }

  // --------------------------------------------------------------- the object

  /** The routing part of a live connection, its tables updated in place. */
  class LiveAcpConnection {
    var sessionByLocalId: map<string, string>
    var localByAgentSessionId: map<string, string>
    var pendingNewSessionLocals: seq<string>
    var pendingRequestSessionById: map<string, string>

    function View(): Conn
      reads this
    {
      Conn(sessionByLocalId, localByAgentSessionId, pendingNewSessionLocals, pendingRequestSessionById)
    }

    constructor ()
      ensures View() == EMPTY
    {
      sessionByLocalId, localByAgentSessionId, pendingNewSessionLocals, pendingRequestSessionById :=
          map[], map[], [], map[];
    }

    method BindSession(localSessionId: string, agentSessionId: string)
      modifies this
      ensures View() == Bind(old(View()), localSessionId, agentSessionId)
    {
      sessionByLocalId := sessionByLocalId[localSessionId := agentSessionId];
      localByAgentSessionId := localByAgentSessionId[agentSessionId := localSessionId];
    }

    /** The part of createRemoteSession before its await. */
    method BeginCreate(localSessionId: string)
      modifies this
      ensures View() == Step(old(View()), CallNew(localSessionId)).0
    {
      pendingNewSessionLocals := pendingNewSessionLocals + [localSessionId];
    }

    /** Its catch block. */
    method CreateFailed(localSessionId: string)
      modifies this
      ensures View() == Step(old(View()), NewFailed(localSessionId)).0
    {
      var index := 0;
      while index < |pendingNewSessionLocals| && pendingNewSessionLocals[index] != localSessionId
        invariant 0 <= index <= |pendingNewSessionLocals|
        invariant forall i :: 0 <= i < index ==> pendingNewSessionLocals[i] != localSessionId
      {
        index := index + 1;
      }
      RemoveFirstAt(pendingNewSessionLocals, localSessionId, index);
      if index < |pendingNewSessionLocals| {
        pendingNewSessionLocals := pendingNewSessionLocals[..index] + pendingNewSessionLocals[index + 1..];
      }
    }

    function LocalFromEnvelopeParams(envelope: Envelope): Option<string>
      reads this
    {
      LocalFromParams(View(), envelope)
    }

    method ResolveSessionId(envelope: Envelope, outbound: bool, ghost caller: string) returns (local: Option<string>)
      modifies this
      ensures (View(), local) == Step(old(View()), if outbound then Outbound(envelope, caller) else Inbound(envelope))
    {
      var id := Truthy(envelope.id);
      if outbound {
        if id.Some? && envelope.rpcMethod == Some("session/new") {
          if |pendingNewSessionLocals| == 0 {
            return None;
          }
          local := Some(pendingNewSessionLocals[0]);
          pendingNewSessionLocals := pendingNewSessionLocals[1..];
          if local.value != "" {
            pendingRequestSessionById := pendingRequestSessionById[id.value := local.value];
          }
          return;
        }
        local := LocalFromEnvelopeParams(envelope);
        if id.Some? && Truthy(local).Some? {
          pendingRequestSessionById := pendingRequestSessionById[id.value := local.value];
        }
        return;
      }
      if id.Some? {
        var pending := Lookup(pendingRequestSessionById, id.value);
        if Truthy(pending).Some? {
          pendingRequestSessionById := pendingRequestSessionById - {id.value};
          var sessionIdFromResult := Truthy(envelope.resultSession);
          if sessionIdFromResult.Some? {
            BindSession(pending.value, sessionIdFromResult.value);
          }
          return pending;
        }
      }
      return LocalFromEnvelopeParams(envelope);
    }
  }

  lemma {:induction false} RemoveFirstAt(locals: seq<string>, local: string, index: nat)
    requires index <= |locals| && forall i :: 0 <= i < index ==> locals[i] != local
    requires index < |locals| ==> locals[index] == local
    ensures RemoveFirst(locals, local) == if index < |locals| then locals[..index] + locals[index + 1..] else locals
    decreases |locals|
  {
    if locals != [] && locals[0] != local {
      RemoveFirstAt(locals[1..], local, index - 1);
      if index < |locals| {
        assert locals[..index] == [locals[0]] + locals[1..][..index - 1];
        assert locals[1..][index - 1 + 1..] == locals[index + 1..];
      }
    } else if locals != [] {
      assert index == 0;
    }
  }
}
