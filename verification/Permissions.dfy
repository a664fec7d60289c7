/**
 * Permission requests: what replies a request offers and which option each
 * reply selects, and the table of requests waiting for an answer. Ids are
 * given out in order of arrival.
 */
module Permissions {
  import opened Prelude

  // ----------------------------------------------------------------- replies

  datatype Kind = AllowOnce | AllowAlways | RejectOnce | RejectAlways | OtherKind(name: string)

  datatype Choice = Choice(optionId: string, kind: Kind)

  datatype Reply = Once | Always | Reject

  function ReplyFor(kind: Kind): Option<Reply> {
    match kind
    case AllowOnce => Some(Once)
    case AllowAlways => Some(Always)
    case RejectOnce => Some(Reject)
    case RejectAlways => Some(Reject)
    case OtherKind(_) => None
  }

  /** The replies advertised with a request. */
  function AvailableReplies(options: seq<Choice>): set<Reply> {
    if options == [] then {}
    else
      AvailableReplies(DropLast(options))
      + (match ReplyFor(Last(options).kind) case Some(reply) => {reply} case None => {})
  }

  function FindKind(options: seq<Choice>, kind: Kind): Option<Choice> {
    if options == [] then None
    else if options[0].kind == kind then Some(options[0])
    else FindKind(options[1..], kind)
  }

  function PreferredKinds(reply: Reply): seq<Kind> {
    match reply
    case Once => [AllowOnce]
    case Always => [AllowAlways, AllowOnce]
    case Reject => [RejectOnce, RejectAlways]
  }

  function FirstFound(options: seq<Choice>, kinds: seq<Kind>): Option<Choice> {
    if kinds == [] then None
    else if FindKind(options, kinds[0]).Some? then FindKind(options, kinds[0])
    else FirstFound(options, kinds[1..])
  }

  /** The option a reply selects; None is the UnsupportedPermissionReplyError. */
  function SelectedOption(options: seq<Choice>, reply: Reply): Option<Choice> {
    FirstFound(options, PreferredKinds(reply))
  }

  lemma {:induction false} FindKindFinds(options: seq<Choice>, kind: Kind)
    ensures FindKind(options, kind).Some? <==> exists c :: c in options && c.kind == kind
    ensures FindKind(options, kind).Some? ==>
        FindKind(options, kind).value in options && FindKind(options, kind).value.kind == kind
  {
    if options != [] {
      FindKindFinds(options[1..], kind);
      assert options == [options[0]] + options[1..];
      assert options[0] in options;
    }
  }

  lemma {:induction false} AvailableMeans(options: seq<Choice>, reply: Reply)
    ensures reply in AvailableReplies(options) <==> exists c :: c in options && ReplyFor(c.kind) == Some(reply)
  {
    if options != [] {
      AvailableMeans(DropLast(options), reply);
      assert options == DropLast(options) + [Last(options)];
      assert Last(options) in options;
      assert forall c :: c in options <==> c in DropLast(options) || c == Last(options);
    }
  }

  /**
   * Every advertised reply is accepted and selects an offered option of its own
   * kind. Beyond those, only "always" is accepted, where only "once" is offered.
   */
  lemma AdvertisedRepliesAreAccepted(options: seq<Choice>, reply: Reply)
    ensures SelectedOption(options, reply).Some?
            <==> reply in AvailableReplies(options) || (reply == Always && Once in AvailableReplies(options))
    ensures SelectedOption(options, reply).Some? ==> SelectedOption(options, reply).value in options
    ensures reply in AvailableReplies(options) ==> ReplyFor(SelectedOption(options, reply).value.kind) == Some(reply)
    ensures reply !in AvailableReplies(options) && SelectedOption(options, reply).Some? ==>
              SelectedOption(options, reply).value.kind == AllowOnce
  {
    AvailableMeans(options, reply);
    AvailableMeans(options, Once);
    FindKindFinds(options, AllowOnce);
    FindKindFinds(options, AllowAlways);
    FindKindFinds(options, RejectOnce);
    FindKindFinds(options, RejectAlways);
    assert PreferredKinds(reply)[1..] ==
        match reply case Once => [] case Always => [AllowOnce] case Reject => [RejectAlways];
    assert [AllowOnce][1..] == [] && [RejectAlways][1..] == [];
    assert FirstFound(options, []) == None;
    assert FirstFound(options, [AllowOnce]) == FindKind(options, AllowOnce);
    assert FirstFound(options, [RejectAlways]) == FindKind(options, RejectAlways);
  }

  predicate Offered(options: seq<Choice>, kind: Kind) {
    exists c :: c in options && c.kind == kind
  }

  /** The first option of its kind in the list. */
  ghost predicate IsFirst(options: seq<Choice>, c: Choice) {
    exists i :: 0 <= i < |options| && options[i] == c && forall j :: 0 <= j < i ==> options[j].kind != c.kind
  }

  lemma {:induction false} FindKindFindsFirst(options: seq<Choice>, kind: Kind)
    ensures FindKind(options, kind).Some? <==> Offered(options, kind)
    ensures FindKind(options, kind).Some? ==>
        FindKind(options, kind).value.kind == kind && IsFirst(options, FindKind(options, kind).value)
  {
    FindKindFinds(options, kind);
    if options != [] {
      if options[0].kind == kind {
        assert options[0] == FindKind(options, kind).value;
      } else if FindKind(options, kind).Some? {
        FindKindFindsFirst(options[1..], kind);
        var c := FindKind(options, kind).value;
        var i :| 0 <= i < |options[1..]| && options[1..][i] == c &&
            forall j :: 0 <= j < i ==> options[1..][j].kind != c.kind;
        assert forall j :: 0 < j < i + 1 ==> options[j] == options[1..][j - 1];
      }
    }
  }

  /**
   * Which option a reply selects: "once" an option to allow once, "always" one
   * to allow always and failing that one to allow once, "reject" one to reject
   * once and failing that one to reject always; of several, the first.
   */
  lemma PreferredOptionIsSelected(options: seq<Choice>, reply: Reply)
    ensures var wanted :=
        match reply
        case Once => AllowOnce
        case Always => if Offered(options, AllowAlways) then AllowAlways else AllowOnce
        case Reject => if Offered(options, RejectOnce) then RejectOnce else RejectAlways;
      var selected := SelectedOption(options, reply);
      && (selected.Some? <==> Offered(options, wanted))
      && (selected.Some? ==> selected.value.kind == wanted && IsFirst(options, selected.value))
  {
    FindKindFindsFirst(options, AllowOnce);
    FindKindFindsFirst(options, AllowAlways);
    FindKindFindsFirst(options, RejectOnce);
    FindKindFindsFirst(options, RejectAlways);
    assert PreferredKinds(reply)[1..] ==
        match reply case Once => [] case Always => [AllowOnce] case Reject => [RejectAlways];
    assert [AllowOnce][1..] == [] && [RejectAlways][1..] == [];
    assert FirstFound(options, []) == None;
    assert FirstFound(options, [AllowOnce]) == FindKind(options, AllowOnce);
    assert FirstFound(options, [RejectAlways]) == FindKind(options, RejectAlways);
  }

  method AvailablePermissionReplies(options: seq<Choice>) returns (replies: set<Reply>)
    ensures forall reply :: reply in replies <==> exists c :: c in options && ReplyFor(c.kind) == Some(reply)
    ensures replies == AvailableReplies(options)
  {
    replies := {};
    for i := 0 to |options|
      invariant replies == AvailableReplies(options[..i])
    {
      assert DropLast(options[..i + 1]) == options[..i];
      match options[i].kind {
        case AllowOnce => replies := replies + {Once};
        case AllowAlways => replies := replies + {Always};
        case RejectOnce => replies := replies + {Reject};
        case RejectAlways => replies := replies + {Reject};
        case OtherKind(_) =>
      }
    }
    assert options[..|options|] == options;
    forall reply ensures reply in replies <==> exists c :: c in options && ReplyFor(c.kind) == Some(reply) {
      AvailableMeans(options, reply);
    }
  }

  // ------------------------------------------------------- waiting for answers

  datatype Outcome = Selected(optionId: string) | Raw(response: string) | CancelledOutcome | Failure

  /** A request that waits for an answer. */
  datatype Pending = Pending(sessionId: string, options: seq<Choice>)

  /** The promise handed to the agent: unsettled, or settled for good. */
  datatype Promise = Promise(sessionId: string, outcome: Option<Outcome>)

  datatype State = State(pending: map<nat, Pending>, promises: seq<Promise>)

  /** What can be done to the table, by a listener or by anyone else. */
  datatype Act =
    | Respond(id: nat, reply: Reply)
    | RawRespond(id: nat, response: string)
    | DestroySession(sessionId: string)
    | Dispose

  /** A listener makes some calls and may then throw. */
  datatype Listener = Listener(acts: seq<Act>, throws: bool)

  datatype Action =
    | Request(sessionId: string, options: seq<Choice>, listeners: seq<Listener>)
    | Perform(act: Act)

  /** Settling a promise a second time has no effect. */
  function SettleOne(p: Promise, outcome: Outcome): Promise {
    if p.outcome.None? then p.(outcome := Some(outcome)) else p
  }

  /** Deletes `ids` from the table and settles their promises. */
  function SettleIds(s: State, ids: set<nat>, outcome: Outcome): State {
    State(s.pending - ids, seq(|s.promises|, i requires 0 <= i < |s.promises| =>
      if i in ids then SettleOne(s.promises[i], outcome) else s.promises[i]))
  }

  function OfSession(s: State, sessionId: string): set<nat> {
    set id | id in s.pending && s.pending[id].sessionId == sessionId
  }

  /** How a reply settles a request: an unsupported one rejects the promise. */
  function Answer(options: seq<Choice>, reply: Reply): Outcome {
    match SelectedOption(options, reply)
    case None => Failure
    case Some(choice) => Selected(choice.optionId)
  }

  function DoAct(s: State, act: Act): State {
    match act
    case Respond(id, reply) =>
      if id !in s.pending then s
      else SettleIds(s, {id}, Answer(s.pending[id].options, reply))
    case RawRespond(id, response) => if id !in s.pending then s else SettleIds(s, {id}, Raw(response))
    case DestroySession(sessionId) => SettleIds(s, OfSession(s, sessionId), CancelledOutcome)
    case Dispose => SettleIds(s, s.pending.Keys, CancelledOutcome)
  }

  function DoActs(s: State, acts: seq<Act>): State {
    if acts == [] then s else DoAct(DoActs(s, DropLast(acts)), Last(acts))
  }

  /** The listeners are called in turn until one throws. */
  function CallListeners(s: State, listeners: seq<Listener>): (State, bool)
    decreases |listeners|
  {
    if listeners == [] then (s, false)
    else
      var t := DoActs(s, listeners[0].acts);
      if listeners[0].throws then (t, true) else CallListeners(t, listeners[1..])
  }

  /** The table as a request enters it, before any listener is called. */
  function Asked(s: State, sessionId: string, options: seq<Choice>): State {
    State(s.pending[|s.promises| := Pending(sessionId, options)], s.promises + [Promise(sessionId, None)])
  }

  /** A request nobody listens for is answered with a cancellation at once. */
  function DoRequest(s: State, sessionId: string, options: seq<Choice>, listeners: seq<Listener>): State {
    if listeners == [] then s.(promises := s.promises + [Promise(sessionId, Some(CancelledOutcome))])
    else
      var id := |s.promises|;
      var (t, threw) := CallListeners(Asked(s, sessionId, options), listeners);
      if threw then SettleIds(t, {id}, Failure) else t
  }

  function Step(s: State, a: Action): State {
    match a
    case Request(sessionId, options, listeners) => DoRequest(s, sessionId, options, listeners)
    case Perform(act) => DoAct(s, act)
  }

  function Run(s: State, actions: seq<Action>): State {
    if actions == [] then s else Step(Run(s, DropLast(actions)), Last(actions))
  }

  const NOTHING: State := State(map[], [])

  /** A request is in the table exactly while its promise is unsettled. */
  ghost predicate Inv(s: State) {
    forall id: nat ::
      && (id in s.pending <==> id < |s.promises| && s.promises[id].outcome.None?)
      && (id in s.pending ==> s.pending[id].sessionId == s.promises[id].sessionId)
  }

  /** Promises may be added; settled ones keep their outcome. */
  ghost predicate Later(s: State, t: State) {
    && |s.promises| <= |t.promises|
    && (forall i :: 0 <= i < |s.promises| ==>
          && t.promises[i].sessionId == s.promises[i].sessionId
          && (s.promises[i].outcome.Some? ==> t.promises[i] == s.promises[i]))
  }

  lemma SettleKeeps(s: State, ids: set<nat>, outcome: Outcome)
    requires Inv(s)
    ensures Inv(SettleIds(s, ids, outcome)) && Later(s, SettleIds(s, ids, outcome))
    ensures |SettleIds(s, ids, outcome).promises| == |s.promises|
  {
  }

  lemma ActKeeps(s: State, act: Act)
    requires Inv(s)
    ensures Inv(DoAct(s, act)) && Later(s, DoAct(s, act)) && |DoAct(s, act).promises| == |s.promises|
  {
    match act
    case Respond(id, reply) =>
      if id in s.pending {
        SettleKeeps(s, {id}, Answer(s.pending[id].options, reply));
      }
    case RawRespond(id, response) => SettleKeeps(s, {id}, Raw(response));
    case DestroySession(sessionId) => SettleKeeps(s, OfSession(s, sessionId), CancelledOutcome);
    case Dispose => SettleKeeps(s, s.pending.Keys, CancelledOutcome);
  }

  lemma {:induction false} ActsKeep(s: State, acts: seq<Act>)
    requires Inv(s)
    ensures Inv(DoActs(s, acts)) && Later(s, DoActs(s, acts)) && |DoActs(s, acts).promises| == |s.promises|
  {
    if acts != [] {
      ActsKeep(s, DropLast(acts));
      ActKeeps(DoActs(s, DropLast(acts)), Last(acts));
    }
  }

  lemma {:induction false} ListenersKeep(s: State, listeners: seq<Listener>)
    requires Inv(s)
    ensures var t := CallListeners(s, listeners).0; Inv(t) && Later(s, t) && |t.promises| == |s.promises|
    decreases |listeners|
  {
    if listeners != [] {
      ActsKeep(s, listeners[0].acts);
      ListenersKeep(DoActs(s, listeners[0].acts), listeners[1..]);
    }
  }

  lemma StepKeeps(s: State, a: Action)
    requires Inv(s)
    ensures Inv(Step(s, a)) && Later(s, Step(s, a))
  {
    match a
    case Request(sessionId, options, listeners) =>
      if listeners != [] {
        var id := |s.promises|;
        var asked := Asked(s, sessionId, options);
        assert Inv(asked);
        ListenersKeep(asked, listeners);
        SettleKeeps(CallListeners(asked, listeners).0, {id}, Failure);
      }
    case Perform(act) => ActKeeps(s, act);
  }

  /**
   * In every run, listeners that answer at once and then throw included: a
   * request is pending exactly while its promise is unsettled, and a promise
   * that has settled never changes again.
   */
  lemma {:induction false} EachRequestSettlesOnce(actions: seq<Action>, more: seq<Action>)
    ensures Inv(Run(NOTHING, actions)) && Inv(Run(NOTHING, actions + more))
    ensures Later(Run(NOTHING, actions), Run(NOTHING, actions + more))
    decreases |actions| + |more|
  {
    if more == [] {
      assert actions + more == actions;
      if actions != [] {
        EachRequestSettlesOnce(DropLast(actions), []);
        StepKeeps(Run(NOTHING, DropLast(actions)), Last(actions));
      }
    } else {
      assert DropLast(actions + more) == actions + DropLast(more);
      EachRequestSettlesOnce(actions, DropLast(more));
      StepKeeps(Run(NOTHING, actions + DropLast(more)), Last(more));
    }
  }

  /** Destroying a session cancels exactly its own waiting requests; disposing cancels all of them. */
  lemma CancellingIsExact(s: State, act: Act)
    requires Inv(s) && (act.DestroySession? || act.Dispose?)
    ensures var t := DoAct(s, act);
      && |t.promises| == |s.promises|
      && (forall i :: 0 <= i < |s.promises| ==>
            t.promises[i] == (if s.promises[i].outcome.None? &&
                (act.Dispose? || s.promises[i].sessionId == act.sessionId)
                              then s.promises[i].(outcome := Some(CancelledOutcome)) else s.promises[i]))
      && (act.Dispose? ==> t.pending == map[])
  {
    ActKeeps(s, act);
  }

  /**
   * An answer settles the request it names and no other: an accepted reply with
   * an offered option that fits it, an unsupported one with a failure, a raw
   * response with itself. An id that is not pending changes nothing.
   */
  lemma AnsweringIsExact(s: State, act: Act)
    requires Inv(s) && (act.Respond? || act.RawRespond?)
    ensures var t := DoAct(s, act);
      && (act.id !in s.pending ==> t == s)
      && (act.id in s.pending ==>
            && t.pending == s.pending - {act.id} && |t.promises| == |s.promises|
            && (forall i :: 0 <= i < |s.promises| && i != act.id ==> t.promises[i] == s.promises[i])
            && t.promises[act.id].sessionId == s.promises[act.id].sessionId
            && match act
               case RawRespond(id, response) => t.promises[id].outcome == Some(Raw(response))
               case Respond(id, reply) =>
                 var options := s.pending[id].options;
                 if (exists c :: c in options && c.kind in PreferredKinds(reply))
                 then exists c :: (c in options && c.kind in PreferredKinds(reply)
                                   && t.promises[id].outcome == Some(Selected(c.optionId)))
                 else t.promises[id].outcome == Some(Failure))
  {
    if act.Respond? && act.id in s.pending {
      SelectedFits(s.pending[act.id].options, act.reply);
    }
  }

  lemma SelectedFits(options: seq<Choice>, reply: Reply)
    ensures SelectedOption(options, reply).Some? <==> exists c :: c in options && c.kind in PreferredKinds(reply)
    ensures SelectedOption(options, reply).Some? ==>
              SelectedOption(options, reply).value in options &&
                  SelectedOption(options, reply).value.kind in PreferredKinds(reply)
  {
    var kinds := PreferredKinds(reply);
    FirstFoundFits(options, kinds);
  }

  lemma {:induction false} FirstFoundFits(options: seq<Choice>, kinds: seq<Kind>)
    ensures FirstFound(options, kinds).Some? <==> exists c :: c in options && c.kind in kinds
    ensures FirstFound(options, kinds).Some? ==>
        FirstFound(options, kinds).value in options && FirstFound(options, kinds).value.kind in kinds
  {
    if kinds != [] {
      FindKindFinds(options, kinds[0]);
      FirstFoundFits(options, kinds[1..]);
      assert kinds == [kinds[0]] + kinds[1..];
    }
  }

  /** In the middle of a request: the first `n` listeners have returned, and the next has made its first `k` calls. */
  function During(asked: State, listeners: seq<Listener>, n: nat, k: nat): State
    requires n < |listeners| && k <= |listeners[n].acts|
  {
    DoActs(CallListeners(asked, listeners[..n]).0, listeners[n].acts[..k])
  }

  lemma {:induction false} CallsContinue(s: State, listeners: seq<Listener>, n: nat)
    requires n <= |listeners| && !CallListeners(s, listeners[..n]).1
    ensures CallListeners(s, listeners) == CallListeners(CallListeners(s, listeners[..n]).0, listeners[n..])
    decreases n
  {
    if n == 0 {
      assert listeners[n..] == listeners;
    } else {
      var t := DoActs(s, listeners[0].acts);
      assert listeners[..n][1..] == listeners[1..][..n - 1];
      assert listeners[1..][n - 1..] == listeners[n..];
      CallsContinue(t, listeners[1..], n - 1);
    }
  }

  lemma {:induction false} ActsContinue(s: State, acts: seq<Act>, k: nat)
    requires Inv(s) && k <= |acts|
    ensures Inv(DoActs(s, acts[..k])) && Later(DoActs(s, acts[..k]), DoActs(s, acts))
    decreases |acts|
  {
    ActsKeep(s, acts[..k]);
    if k == |acts| {
      assert acts[..k] == acts;
    } else {
      assert DropLast(acts)[..k] == acts[..k];
      ActsContinue(s, DropLast(acts), k);
      ActsKeep(s, DropLast(acts));
      ActKeeps(DoActs(s, DropLast(acts)), Last(acts));
    }
  }

  /** The rest of a request, from the middle of one listener on. */
  lemma RestOfRequest(s: State, sessionId: string, options: seq<Choice>, listeners: seq<Listener>, n: nat, k: nat)
    requires Inv(s) && n < |listeners| && k <= |listeners[n].acts|
    requires !CallListeners(Asked(s, sessionId, options), listeners[..n]).1
    ensures var u := During(Asked(s, sessionId, options), listeners, n, k);
      Inv(u) && Later(u, DoRequest(s, sessionId, options, listeners))
  {
    var asked := Asked(s, sessionId, options);
    assert Inv(asked);
    var v := CallListeners(asked, listeners[..n]).0;
    ListenersKeep(asked, listeners[..n]);
    CallsContinue(asked, listeners, n);
    ActsContinue(v, listeners[n].acts, k);
    var w := DoActs(v, listeners[n].acts);
    ActsKeep(v, listeners[n].acts);
    ListenersKeep(w, listeners[n..][1..]);
    var t := CallListeners(v, listeners[n..]).0;
    assert Inv(t) && Later(w, t);
    SettleKeeps(t, {|s.promises|}, Failure);
  }

  /**
   * Also inside one request, at every moment between two calls of its
   * listeners: a request is pending exactly while its promise is unsettled, and
   * whatever is settled by then, this request or another, keeps its outcome,
   * however the listeners go on and whether or not one of them throws.
   */
  lemma SettledStaysSettled(s: State, sessionId: string, options: seq<Choice>, listeners: seq<Listener>, n: nat,
      k: nat, i: nat)
    requires Inv(s) && n < |listeners| && k <= |listeners[n].acts|
    requires !CallListeners(Asked(s, sessionId, options), listeners[..n]).1
    ensures var u := During(Asked(s, sessionId, options), listeners, n, k);
      var t := DoRequest(s, sessionId, options, listeners);
      && Inv(u)
      && (i < |u.promises| && u.promises[i].outcome.Some? ==> i < |t.promises| && t.promises[i] == u.promises[i])
  {
    RestOfRequest(s, sessionId, options, listeners, n, k);
  }

  /**
   * The first accepted answer to a request decides its outcome, whichever
   * listener gives it and whatever they all do next.
   */
  lemma FirstAnswerWins(s: State, sessionId: string, options: seq<Choice>, listeners: seq<Listener>, n: nat, k: nat,
      reply: Reply)
    requires Inv(s) && n < |listeners| && k < |listeners[n].acts|
    requires !CallListeners(Asked(s, sessionId, options), listeners[..n]).1
    requires listeners[n].acts[k] == Respond(|s.promises|, reply) && SelectedOption(options, reply).Some?
    requires |s.promises| in During(Asked(s, sessionId, options), listeners, n, k).pending
    ensures var id := |s.promises|;
      var t := DoRequest(s, sessionId, options, listeners);
      id < |t.promises| && t.promises[id].outcome == Some(Selected(SelectedOption(options, reply).value.optionId))
  {
    var id := |s.promises|;
    var asked := Asked(s, sessionId, options);
    StillItsEntry(s, sessionId, options, listeners, n, k);
    var u := During(asked, listeners, n, k);
    assert DropLast(listeners[n].acts[..k + 1]) == listeners[n].acts[..k];
    assert During(asked, listeners, n, k + 1) == DoAct(u, Respond(id, reply));
    RestOfRequest(s, sessionId, options, listeners, n, k);
    RestOfRequest(s, sessionId, options, listeners, n, k + 1);
    AnswerIsTaken(u, id, reply);
  }

  /** As long as a request is in the table, it is there with its own options. */
  lemma StillItsEntry(s: State, sessionId: string, options: seq<Choice>, listeners: seq<Listener>, n: nat, k: nat)
    requires n < |listeners| && k <= |listeners[n].acts|
    ensures var u := During(Asked(s, sessionId, options), listeners, n, k);
      |s.promises| in u.pending ==> u.pending[|s.promises|] == Pending(sessionId, options)
  {
    var asked := Asked(s, sessionId, options);
    EntriesStay(asked, listeners[..n]);
    ActsOnlyRemove(CallListeners(asked, listeners[..n]).0, listeners[n].acts[..k]);
  }

  lemma AnswerIsTaken(u: State, id: nat, reply: Reply)
    requires Inv(u) && id in u.pending
    ensures var t := DoAct(u, Respond(id, reply));
      id < |t.promises| && t.promises[id].outcome == Some(Answer(u.pending[id].options, reply))
  {
  }

  /** Acts take entries out of the table and never change one. */
  ghost predicate OnlyRemoves(s: State, t: State) {
    forall id :: id in t.pending ==> id in s.pending && t.pending[id] == s.pending[id]
  }

  lemma {:induction false} ActsOnlyRemove(s: State, acts: seq<Act>)
    ensures OnlyRemoves(s, DoActs(s, acts))
  {
    if acts != [] {
      ActsOnlyRemove(s, DropLast(acts));
      var t := DoActs(s, DropLast(acts));
      assert OnlyRemoves(t, DoAct(t, Last(acts)));
    }
  }

  lemma {:induction false} EntriesStay(s: State, listeners: seq<Listener>)
    ensures OnlyRemoves(s, CallListeners(s, listeners).0)
    decreases |listeners|
  {
    if listeners != [] {
      ActsOnlyRemove(s, listeners[0].acts);
      EntriesStay(DoActs(s, listeners[0].acts), listeners[1..]);
    }
  }

  lemma {:induction false} ThrowsIff(s: State, listeners: seq<Listener>)
    ensures CallListeners(s, listeners).1 <==> exists l :: l in listeners && l.throws
    decreases |listeners|
  {
    if listeners != [] {
      ThrowsIff(DoActs(s, listeners[0].acts), listeners[1..]);
      assert listeners == [listeners[0]] + listeners[1..];
      assert listeners[0] in listeners;
    }
  }

  lemma {:induction false} QuietListeners(s: State, listeners: seq<Listener>)
    requires forall l :: l in listeners ==> l.acts == [] && !l.throws
    ensures CallListeners(s, listeners) == (s, false)
    decreases |listeners|
  {
    if listeners != [] {
      assert listeners[0] in listeners;
      QuietListeners(s, listeners[1..]);
    }
  }

  /**
   * How a request stands when its listeners have been called: cancelled if
   * there were none; settled if one of them threw, and then as a failure unless
   * it had been answered or cancelled before; and if they all just looked on,
   * waiting, with the options it came with.
   */
  lemma HowARequestStands(s: State, sessionId: string, options: seq<Choice>, listeners: seq<Listener>)
    requires Inv(s)
    ensures var id, t := |s.promises|, DoRequest(s, sessionId, options, listeners);
      var called := CallListeners(Asked(s, sessionId, options), listeners).0;
      && |t.promises| == id + 1 && t.promises[id].sessionId == sessionId
      && (listeners == [] ==> t.promises[id].outcome == Some(CancelledOutcome) && t.pending == s.pending)
      && ((exists l :: l in listeners && l.throws) ==>
          id !in t.pending &&
          t.promises[id].outcome == if id in called.pending then Some(Failure) else called.promises[id].outcome)
      && (listeners != [] && (forall l :: l in listeners ==> l.acts == [] && !l.throws) ==>
          t.pending == s.pending[id := Pending(sessionId, options)] && t.promises[id].outcome == None)
  {
    var asked := Asked(s, sessionId, options);
    assert Inv(asked);
    ListenersKeep(asked, listeners);
    ThrowsIff(asked, listeners);
    if forall l :: l in listeners ==> l.acts == [] && !l.throws {
      QuietListeners(asked, listeners);
    }
  }

  // --------------------------------------------------------------- the object

  /** The permission part of the agent object. */
  class PermissionTable {
    var pendingPermissionRequests: map<nat, Pending>
    var promises: seq<Promise>

    function View(): State
      reads this
    {
      State(pendingPermissionRequests, promises)
    }

    constructor ()
      ensures View() == NOTHING
    {
      pendingPermissionRequests, promises := map[], [];
    }

    /** Deletes an entry and resolves or rejects its promise. */
    method Settle(id: nat, outcome: Outcome)
      requires id < |promises|
      modifies this
      ensures View() == SettleIds(old(View()), {id}, outcome)
    {
      pendingPermissionRequests := pendingPermissionRequests - {id};
      promises := promises[id := SettleOne(promises[id], outcome)];
    }

    method RespondPermission(id: nat, reply: Reply) returns (ok: bool)
      requires Inv(View())
      modifies this
      ensures Inv(View()) && View() == DoAct(old(View()), Respond(id, reply))
      ensures ok <==>
              && id in old(pendingPermissionRequests)
              && SelectedOption(old(pendingPermissionRequests)[id].options, reply).Some?
    {
      ActKeeps(View(), Respond(id, reply));
      if id !in pendingPermissionRequests {
        return false;
      }
      var response := SelectedOption(pendingPermissionRequests[id].options, reply);
      if response.None? {
        Settle(id, Failure);
        return false;
      }
      Settle(id, Selected(response.value.optionId));
      return true;
    }

    method RawRespondPermission(id: nat, response: string) returns (ok: bool)
      requires Inv(View())
      modifies this
      ensures Inv(View()) && View() == DoAct(old(View()), RawRespond(id, response))
      ensures ok <==> id in old(pendingPermissionRequests)
    {
      ActKeeps(View(), RawRespond(id, response));
      if id !in pendingPermissionRequests {
        return false;
      }
      Settle(id, Raw(response));
      return true;
    }

    /** The loop over the table that destroySession runs. */
    method CancelPendingPermissionsForSession(sessionId: string)
      requires Inv(View())
      modifies this
      ensures Inv(View()) && View() == DoAct(old(View()), DestroySession(sessionId))
    {
      ActKeeps(View(), DestroySession(sessionId));
      var rest := pendingPermissionRequests.Keys;
      ghost var cancelled: set<nat> := {};
      NothingSettled(View(), CancelledOutcome);
      while rest != {}
        invariant rest <= pendingPermissionRequests.Keys
        invariant View() == SettleIds(old(View()), cancelled, CancelledOutcome)
        invariant cancelled == set id | id in old(pendingPermissionRequests) && id !in rest &&
            old(pendingPermissionRequests)[id].sessionId == sessionId
        decreases rest
      {
        var id := Pick(rest);
        rest := rest - {id};
        if pendingPermissionRequests[id].sessionId == sessionId {
          SettleMore(old(View()), cancelled, id, CancelledOutcome);
          Settle(id, CancelledOutcome);
          cancelled := cancelled + {id};
        }
      }
      assert cancelled == OfSession(old(View()), sessionId);
    }

    /** The loop over the table that dispose runs. */
    method CancelAll()
      requires Inv(View())
      modifies this
      ensures Inv(View()) && View() == DoAct(old(View()), Dispose)
    {
      ActKeeps(View(), Dispose);
      var rest := pendingPermissionRequests.Keys;
      ghost var cancelled: set<nat> := {};
      NothingSettled(View(), CancelledOutcome);
      while rest != {}
        invariant rest <= pendingPermissionRequests.Keys
        invariant View() == SettleIds(old(View()), cancelled, CancelledOutcome)
        invariant cancelled == old(pendingPermissionRequests).Keys - rest
        decreases rest
      {
        var id := Pick(rest);
        rest := rest - {id};
        SettleMore(old(View()), cancelled, id, CancelledOutcome);
        Settle(id, CancelledOutcome);
        cancelled := cancelled + {id};
      }
      assert cancelled == old(pendingPermissionRequests).Keys;
    }

    method PerformAct(act: Act)
      requires Inv(View())
      modifies this
      ensures Inv(View()) && View() == DoAct(old(View()), act)
    {
      match act
      case Respond(id, reply) => var ok := RespondPermission(id, reply);
      case RawRespond(id, response) => var ok := RawRespondPermission(id, response);
      case DestroySession(sessionId) => CancelPendingPermissionsForSession(sessionId);
      case Dispose => CancelAll();
    }

    /** A permission request arrives: enter it, tell the listeners, and take it back if one throws. */
    method EnqueuePermissionRequest(sessionId: string, options: seq<Choice>, listeners: seq<Listener>)
      requires Inv(View())
      modifies this
      ensures Inv(View()) && View() == DoRequest(old(View()), sessionId, options, listeners)
    {
      if |listeners| == 0 {
        promises := promises + [Promise(sessionId, Some(CancelledOutcome))];
        return;
      }
      var pendingId := |promises|;
      promises := promises + [Promise(sessionId, None)];
      pendingPermissionRequests := pendingPermissionRequests[pendingId := Pending(sessionId, options)];
      ghost var asked := View();
      var i := 0;
      while i < |listeners|
        invariant 0 <= i <= |listeners| && Inv(View()) && |promises| == |asked.promises|
        invariant CallListeners(asked, listeners) == CallListeners(View(), listeners[i..])
      {
        var listener := listeners[i];
        assert listeners[i..][0] == listener && listeners[i..][1..] == listeners[i + 1..];
        ghost var before := View();
        ActsKeep(before, listener.acts);
        for k := 0 to |listener.acts|
          invariant Inv(View()) && View() == DoActs(before, listener.acts[..k])
        {
          assert DropLast(listener.acts[..k + 1]) == listener.acts[..k];
          PerformAct(listener.acts[k]);
        }
        assert listener.acts[..|listener.acts|] == listener.acts;
        if listener.throws {
          SettleKeeps(View(), {pendingId}, Failure);
          Settle(pendingId, Failure);
          return;
        }
        i := i + 1;
      }
    }
  }

  lemma NothingSettled(s: State, outcome: Outcome)
    ensures SettleIds(s, {}, outcome) == s
  {
    assert s.pending - {} == s.pending;
    assert SettleIds(s, {}, outcome).promises == s.promises;
  }

  lemma SettleMore(s: State, ids: set<nat>, id: nat, outcome: Outcome)
    ensures SettleIds(SettleIds(s, ids, outcome), {id}, outcome) == SettleIds(s, ids + {id}, outcome)
  {
    assert (s.pending - ids) - {id} == s.pending - (ids + {id});
    assert SettleIds(SettleIds(s, ids, outcome), {id}, outcome).promises == SettleIds(s, ids + {id}, outcome).promises;
  }
}
