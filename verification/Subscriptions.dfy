/**
 * Shared subscriptions: the listeners of one key share one connection, opened
 * for the first of them and disposed after the last. Opening is asynchronous,
 * and so is the disposal, which waits for the opening it undoes. Connection
 * attempts are numbered in the order in which they begin.
 */
module Subscriptions {
  import opened Prelude
  import opened Text

  datatype Phase = Connecting | Opened | Failed

  /** A promise of a disposer; `queued` and `ran` count the callbacks hung on it by unsubscribing. */
  datatype Attempt = Attempt(key: string, phase: Phase, queued: nat, ran: nat, disposals: nat)

  datatype Entry = Entry(listeners: set<nat>, attempt: Option<nat>)

  datatype State = State(entries: map<string, Entry>, attempts: seq<Attempt>)

  const START: State := State(map[], [])

  datatype Action =
    | Subscribe(key: string, listener: nat)
    | Unsubscribe(key: string, listener: nat)
    | Connect(c: nat)
    | ConnectFails(c: nat)
    | DisposeCallback(c: nat)

  /** `promise?.then(dispose)`. */
  function HangDisposal(attempts: seq<Attempt>, attempt: Option<nat>): seq<Attempt> {
    if attempt.Some? && attempt.value < |attempts|
    then attempts[attempt.value := attempts[attempt.value].(queued := attempts[attempt.value].queued + 1)]
    else attempts
  }

  function DoSubscribe(s: State, key: string, listener: nat): State {
    var entry := if key in s.entries then s.entries[key] else Entry({}, None);
    var joined := entry.(listeners := entry.listeners + {listener});
    if joined.attempt.Some? then s.(entries := s.entries[key := joined])
    else State(s.entries[key := joined.(attempt := Some(|s.attempts|))],
        s.attempts + [Attempt(key, Connecting, 0, 0, 0)])
  }

  function DoUnsubscribe(s: State, key: string, listener: nat): State {
    if key !in s.entries then s
    else
      var current := s.entries[key];
      var left := current.listeners - {listener};
      if left != {} then s.(entries := s.entries[key := current.(listeners := left)])
      else State(s.entries - {key}, HangDisposal(s.attempts, current.attempt))
  }

  /** What settling an opening, or running a callback hung on it, does to the attempts. */
  function OnAttempts(attempts: seq<Attempt>, a: Action): seq<Attempt> {
    match a
    case Connect(c) =>
      if c < |attempts| && attempts[c].phase.Connecting? then attempts[c := attempts[c].(phase := Opened)] else attempts
    case ConnectFails(c) =>
      if c < |attempts| && attempts[c].phase.Connecting? then attempts[c := attempts[c].(phase := Failed)] else attempts
    case DisposeCallback(c) =>
      if c < |attempts| && !attempts[c].phase.Connecting? && attempts[c].queued > 0 then
        var x := attempts[c];
        attempts[c := x.(queued := x.queued - 1, ran := x.ran + 1,
                         disposals := if x.phase.Opened? then x.disposals + 1 else x.disposals)]
      else attempts
    case Subscribe(_, _) => attempts
    case Unsubscribe(_, _) => attempts
  }

  function Step(s: State, a: Action): State {
    match a
    case Subscribe(key, listener) => DoSubscribe(s, key, listener)
    case Unsubscribe(key, listener) => DoUnsubscribe(s, key, listener)
    case _ => s.(attempts := OnAttempts(s.attempts, a))
  }

  function Run(actions: seq<Action>): State {
    if actions == [] then START else Step(Run(DropLast(actions)), Last(actions))
  }

  /** The account by listener: which functions have been subscribed to a key and not unsubscribed since. */
  function Subscribers(actions: seq<Action>, key: string): set<nat> {
    if actions == [] then {}
    else
      var before := Subscribers(DropLast(actions), key);
      match Last(actions)
      case Subscribe(k, listener) => if k == key then before + {listener} else before
      case Unsubscribe(k, listener) => if k == key then before - {listener} else before
      case _ => before
  }

  // ------------------------------------------------------------- the invariant

  predicate Serves(s: State, key: string, c: nat) {
    key in s.entries && s.entries[key].attempt == Some(c)
  }

  ghost predicate EntryInv(s: State, key: string)
    requires key in s.entries
  {
    && s.entries[key].listeners != {}
    && s.entries[key].attempt.Some? && s.entries[key].attempt.value < |s.attempts|
    && s.attempts[s.entries[key].attempt.value].key == key
    && forall d: nat :: s.entries[key].attempt.value < d < |s.attempts| ==> s.attempts[d].key != key
  }

  /** In use: nothing hung on it. Dropped: exactly one callback, which has run or will. */
  predicate AttemptInv(s: State, c: nat)
    requires c < |s.attempts|
  {
    var x := s.attempts[c];
    && x.queued + x.ran == (if Serves(s, x.key, c) then 0 else 1)
    && x.disposals == (if x.phase.Opened? then x.ran else 0)
    && (x.phase.Connecting? ==> x.ran == 0)
  }

  ghost predicate Inv(s: State) {
    && (forall key :: key in s.entries ==> EntryInv(s, key))
    && (forall c: nat :: c < |s.attempts| ==> AttemptInv(s, c))
  }

  lemma SubscribeKeepsInv(s: State, key: string, listener: nat)
    requires Inv(s)
    ensures Inv(DoSubscribe(s, key, listener))
  {
    var t := DoSubscribe(s, key, listener);
    forall k | k in t.entries ensures EntryInv(t, k) {
      if k in s.entries {
        assert EntryInv(s, k);
      }
    }
    forall c: nat | c < |t.attempts| ensures AttemptInv(t, c) {
      if c < |s.attempts| {
        assert AttemptInv(s, c);
        assert key in s.entries ==> EntryInv(s, key);
      }
    }
  }

  lemma UnsubscribeKeepsInv(s: State, key: string, listener: nat)
    requires Inv(s)
    ensures Inv(DoUnsubscribe(s, key, listener))
  {
    var t := DoUnsubscribe(s, key, listener);
    assert key in s.entries ==> EntryInv(s, key);
    forall k | k in t.entries ensures EntryInv(t, k) {
      assert EntryInv(s, k);
    }
    forall c: nat | c < |t.attempts| ensures AttemptInv(t, c) {
      assert AttemptInv(s, c);
    }
  }

  lemma StepKeepsInv(s: State, a: Action)
    requires Inv(s)
    ensures Inv(Step(s, a))
  {
    match a {
      case Subscribe(key, listener) => SubscribeKeepsInv(s, key, listener);
      case Unsubscribe(key, listener) => UnsubscribeKeepsInv(s, key, listener);
      case _ =>
        var t := Step(s, a);
        forall k | k in t.entries ensures EntryInv(t, k) {
          assert EntryInv(s, k);
        }
        forall c: nat | c < |t.attempts| ensures AttemptInv(t, c) {
          assert AttemptInv(s, c);
        }
    }
  }

  lemma {:induction false} RunKeepsInv(actions: seq<Action>)
    ensures Inv(Run(actions))
  {
    if actions != [] {
      RunKeepsInv(DropLast(actions));
      StepKeepsInv(Run(DropLast(actions)), Last(actions));
    }
  }

  // ----------------------------------------------------------- the main results

  /**
   * In every run the table agrees with the listeners' account: a key has an
   * entry exactly when some listener is subscribed, and the entry's listeners,
   * which are the ones an event reaches, are exactly those. Unsubscribing
   * twice, or after the key was dropped and taken up again, cannot end the
   * subscription of another listener.
   */
  lemma {:induction false} ListenersAreTheSubscribers(actions: seq<Action>, key: string)
    ensures key in Run(actions).entries <==> Subscribers(actions, key) != {}
    ensures key in Run(actions).entries ==> Run(actions).entries[key].listeners == Subscribers(actions, key)
  {
    if actions != [] {
      ListenersAreTheSubscribers(DropLast(actions), key);
    }
  }

  /** The connections of a key that are open and have not been disposed. */
  function OpenConnections(s: State, key: string): set<nat> {
    set c: nat | c < |s.attempts| && s.attempts[c].key == key && s.attempts[c].phase.Opened? &&
        s.attempts[c].disposals == 0
  }

  /** Nothing left to happen by itself: no opening under way, no callback waiting. */
  predicate Quiescent(s: State) {
    forall c: nat :: c < |s.attempts| ==> !s.attempts[c].phase.Connecting? && s.attempts[c].queued == 0
  }

  /**
   * In every reachable state no connection is disposed twice and none while it
   * serves its key; one that is dropped is disposed exactly once if it opened,
   * as soon as its one callback has run, and never if it failed.
   */
  lemma DroppedConnectionsAreDisposedOnce(actions: seq<Action>, c: nat)
    requires c < |Run(actions).attempts|
    ensures var s := Run(actions);
      var x := s.attempts[c];
      && x.disposals <= 1
      && (Serves(s, x.key, c) ==> x.queued == 0 && x.disposals == 0)
      && (!Serves(s, x.key, c) && x.queued == 0 && x.phase.Opened? ==> x.disposals == 1)
      && (!Serves(s, x.key, c) && x.queued != 0 ==> x.queued == 1 && x.disposals == 0)
      && (x.phase.Failed? ==> x.disposals == 0)
  {
    RunKeepsInv(actions);
    assert AttemptInv(Run(actions), c);
  }

  /** What became of attempt `c`: the first report on it after it began decides. */
  function Reported(actions: seq<Action>, c: nat): Phase {
    if actions == [] then Connecting
    else
      var before := DropLast(actions);
      if Reported(before, c) != Connecting || c >= |Run(before).attempts| then Reported(before, c)
      else if Last(actions) == Connect(c) then Opened
      else if Last(actions) == ConnectFails(c) then Failed
      else Connecting
  }

  lemma StepReports(s: State, a: Action, c: nat)
    ensures |s.attempts| <= |Step(s, a).attempts|
    ensures |s.attempts| <= c < |Step(s, a).attempts| ==> Step(s, a).attempts[c].phase == Connecting
    ensures c < |s.attempts| ==>
      Step(s, a).attempts[c].phase ==
      if !s.attempts[c].phase.Connecting? then s.attempts[c].phase
      else if a == Connect(c) then Opened
      else if a == ConnectFails(c) then Failed
      else Connecting
  {
  }

  lemma {:induction false} AttemptsTurnOutAsReported(actions: seq<Action>, c: nat)
    ensures c < |Run(actions).attempts| ==> Run(actions).attempts[c].phase == Reported(actions, c)
    ensures c >= |Run(actions).attempts| ==> Reported(actions, c) == Connecting
  {
    if actions != [] {
      AttemptsTurnOutAsReported(DropLast(actions), c);
      StepReports(Run(DropLast(actions)), Last(actions), c);
    }
  }

  /**
   * An attempt opens or fails as its first report says; and once it has, the
   * callback hung on it runs, once, and disposes it exactly if it opened.
   */
  lemma CallbackDisposes(actions: seq<Action>, c: nat)
    requires c < |Run(actions).attempts|
    ensures Run(actions).attempts[c].phase == Reported(actions, c)
    ensures var s, t := Run(actions), Run(actions + [DisposeCallback(c)]);
      Reported(actions, c) != Connecting && !Serves(s, s.attempts[c].key, c) ==>
        c < |t.attempts| && t.attempts[c].queued == 0 &&
        t.attempts[c].disposals == if Reported(actions, c) == Opened then 1 else 0
  {
    AttemptsTurnOutAsReported(actions, c);
    RunKeepsInv(actions);
    assert AttemptInv(Run(actions), c);
    assert DropLast(actions + [DisposeCallback(c)]) == actions;
  }

  /** `c` is the latest attempt made for `key`. */
  ghost predicate Latest(s: State, key: string, c: nat) {
    && c < |s.attempts| && s.attempts[c].key == key
    && forall d: nat :: c < d < |s.attempts| ==> s.attempts[d].key != key
  }

  /**
   * Every key with subscribers is served by exactly one attempt, the latest
   * one made for it; and once everything has settled the key has that one
   * connection open if the attempt succeeded, none if it failed, and none if
   * nobody is subscribed.
   */
  lemma OneConnectionWhileSubscribed(actions: seq<Action>, key: string)
    ensures Subscribers(actions, key) != {} ==>
      exists c :: Serves(Run(actions), key, c) && Latest(Run(actions), key, c)
    ensures Quiescent(Run(actions)) && Subscribers(actions, key) == {} ==> OpenConnections(Run(actions), key) == {}
    ensures forall c: nat ::
      (Quiescent(Run(actions)) && Subscribers(actions, key) != {} && Latest(Run(actions), key, c)) ==>
      OpenConnections(Run(actions), key) == if Run(actions).attempts[c].phase.Opened? then {c} else {}
  {
    var s := Run(actions);
    RunKeepsInv(actions);
    ListenersAreTheSubscribers(actions, key);
    if Subscribers(actions, key) != {} {
      assert EntryInv(s, key);
      assert Serves(s, key, s.entries[key].attempt.value) && Latest(s, key, s.entries[key].attempt.value);
    }
    if Quiescent(s) {
      forall c: nat | c < |s.attempts| && s.attempts[c].key == key && s.attempts[c].phase.Opened?
        ensures c in OpenConnections(s, key) <==> Serves(s, key, c) {
        assert AttemptInv(s, c);
      }
    }
  }

  // ------------------------------------------------- subscriptions, one by one

  /**
   * What callers do: subscribe, and call the function they were given, named
   * after the call that gave it. Meanwhile connections open, fail and are
   * disposed.
   */
  datatype Call = Sub(key: string, listener: nat) | Unsub(token: nat) | Meanwhile(a: Action)

  /** The token was handed out by an earlier call. */
  predicate Issued(calls: seq<Call>, token: nat) {
    token < |calls| && calls[token].Sub?
  }

  /** The subscriptions that nobody has ended. */
  function Live(calls: seq<Call>): set<nat> {
    if calls == [] then {}
    else
      match Last(calls)
      case Sub(_, _) => Live(DropLast(calls)) + {|calls| - 1}
      case Unsub(token) => Live(DropLast(calls)) - {token}
      case Meanwhile(_) => Live(DropLast(calls))
  }

  /** Whom the live subscriptions to a key want to be notified. */
  function Wanted(calls: seq<Call>, key: string): set<nat> {
    set i | i in Live(calls) && Issued(calls, i) && calls[i].key == key :: calls[i].listener
  }

  /** What the calls do to the table, where listeners are kept by identity. */
  function Done(calls: seq<Call>): seq<Action> {
    if calls == [] then []
    else
      Done(DropLast(calls)) +
      match Last(calls)
      case Sub(key, listener) => [Subscribe(key, listener)]
      case Unsub(token) =>
        if Issued(DropLast(calls), token) then [Unsubscribe(calls[token].key, calls[token].listener)] else []
      case Meanwhile(a) => if a.Subscribe? || a.Unsubscribe? then [] else [a]
  }

  /** Whom an event on a connection of the key reaches. */
  function Reached(s: State, key: string): set<nat> {
    if key in s.entries then s.entries[key].listeners else {}
  }

  /** Events reach exactly those the live subscriptions want reached. */
  ghost predicate Served(calls: seq<Call>) {
    forall key :: Reached(Run(Done(calls)), key) == Wanted(calls, key)
  }

  lemma ReachedAreSubscribers(calls: seq<Call>)
    ensures forall key :: Reached(Run(Done(calls)), key) == Subscribers(Done(calls), key)
  {
    forall key ensures Reached(Run(Done(calls)), key) == Subscribers(Done(calls), key) {
      ListenersAreTheSubscribers(Done(calls), key);
    }
  }

  ghost predicate AlwaysServed(calls: seq<Call>) {
    Served(calls) && (calls == [] || AlwaysServed(DropLast(calls)))
  }

  /** No other live subscription has the same key and the same listener. */
  ghost predicate Sole(calls: seq<Call>, token: nat)
    requires Issued(calls, token)
  {
    forall i :: i in Live(calls) && Issued(calls, i) && i != token ==> calls[i] != calls[token]
  }

  /** Every unsubscribe, repeated ones included, came when no other live subscription had its key and listener. */
  ghost predicate AlwaysSole(calls: seq<Call>) {
    calls == [] ||
    (AlwaysSole(DropLast(calls))
     && (Last(calls).Unsub? && Issued(DropLast(calls), Last(calls).token) ==> Sole(DropLast(calls), Last(calls).token)))
  }

  lemma {:induction false} LiveIsIssued(calls: seq<Call>)
    ensures forall i :: i in Live(calls) ==> Issued(calls, i)
  {
    if calls != [] {
      LiveIsIssued(DropLast(calls));
    }
  }

  /** One more subscription is served if those before it were. */
  lemma SubIsServed(calls: seq<Call>)
    requires calls != [] && Last(calls).Sub? && Served(DropLast(calls))
    ensures Served(calls)
  {
    var before, key, listener := DropLast(calls), Last(calls).key, Last(calls).listener;
    LiveIsIssued(before);
    ReachedAreSubscribers(before);
    ReachedAreSubscribers(calls);
    assert DropLast(Done(before) + [Subscribe(key, listener)]) == Done(before);
    forall k ensures Subscribers(Done(calls), k) == Wanted(calls, k) {
      assert Reached(Run(Done(before)), k) == Wanted(before, k);
      forall x ensures x in Wanted(calls, k) <==> x in Wanted(before, k) || (k == key && x == listener) {
        if x in Wanted(before, k) {
          var i :| i in Live(before) && Issued(before, i) && before[i].key == k && before[i].listener == x;
          assert i in Live(calls) && calls[i] == before[i];
        }
        if k == key && x == listener {
          assert |calls| - 1 in Live(calls) && calls[|calls| - 1] == Last(calls);
        }
      }
    }
  }

  lemma WantedAfterUnsub(calls: seq<Call>, token: nat, k: string, x: nat)
    requires calls != [] && Last(calls) == Unsub(token)
    ensures x in Wanted(calls, k) <==>
      exists i :: i in Live(DropLast(calls)) && Issued(DropLast(calls), i) && i != token && calls[i] == Sub(k, x)
  {
    var before := DropLast(calls);
    LiveIsIssued(before);
    if i :| i in Live(before) && Issued(before, i) && i != token && calls[i] == Sub(k, x) {
      assert i in Live(calls) && Issued(calls, i);
    }
  }

  /** After an unsubscribe everybody is still served if and only if it was the sole one of its kind. */
  lemma UnsubIsServedIff(calls: seq<Call>)
    requires calls != [] && Last(calls).Unsub? && Served(DropLast(calls))
    ensures Served(calls) <==> (Issued(DropLast(calls), Last(calls).token) ==> Sole(DropLast(calls), Last(calls).token))
  {
    var before, token := DropLast(calls), Last(calls).token;
    LiveIsIssued(before);
    ReachedAreSubscribers(before);
    ReachedAreSubscribers(calls);
    if Issued(before, token) {
      var key, listener := before[token].key, before[token].listener;
      assert DropLast(Done(before) + [Unsubscribe(key, listener)]) == Done(before);
      assert forall k ::
          Subscribers(Done(calls), k) == if k == key then Wanted(before, k) - {listener} else Wanted(before, k) by {
        assert forall k :: Reached(Run(Done(before)), k) == Wanted(before, k);
      }
      if Sole(before, token) {
        forall k ensures Subscribers(Done(calls), k) == Wanted(calls, k) {
          forall x ensures x in Wanted(calls, k) <==> x in Wanted(before, k) && !(k == key && x == listener) {
            WantedAfterUnsub(calls, token, k, x);
          }
        }
      } else {
        var i :| i in Live(before) && Issued(before, i) && i != token && before[i] == before[token];
        WantedAfterUnsub(calls, token, key, listener);
        assert calls[i] == Sub(key, listener);
        assert listener in Wanted(calls, key) && listener !in Subscribers(Done(calls), key);
      }
    } else {
      assert Done(calls) == Done(before);
      forall k ensures Wanted(calls, k) == Wanted(before, k) {
        forall x ensures x in Wanted(calls, k) <==> x in Wanted(before, k) {
          WantedAfterUnsub(calls, token, k, x);
        }
      }
      forall k ensures Subscribers(Done(calls), k) == Wanted(calls, k) {
        assert Reached(Run(Done(before)), k) == Wanted(before, k);
      }
    }
  }

  /** What happens to connections is no concern of the listeners. */
  lemma MeanwhileIsServed(calls: seq<Call>)
    requires calls != [] && Last(calls).Meanwhile? && Served(DropLast(calls))
    ensures Served(calls)
  {
    var before, a := DropLast(calls), Last(calls).a;
    LiveIsIssued(before);
    ReachedAreSubscribers(before);
    ReachedAreSubscribers(calls);
    assert DropLast(Done(before) + [a]) == Done(before);
    assert Done(before) + [] == Done(before);
    forall k ensures Subscribers(Done(calls), k) == Wanted(calls, k) {
      assert Reached(Run(Done(before)), k) == Wanted(before, k);
      assert Live(calls) == Live(before);
      assert forall i :: i in Live(before) ==> calls[i] == before[i];
    }
  }

  /**
   * When callers are kept apart. The table keeps listeners by identity, so one
   * function subscribed twice is one entry. Every subscriber is served, and
   * nobody else, at every moment of a run if and only if each unsubscribe,
   * first or repeated, came when no other live subscription had its key and
   * its listener.
   */
  lemma {:induction false} SubscribersAreKeptApartIff(calls: seq<Call>)
    ensures AlwaysServed(calls) <==> AlwaysSole(calls)
  {
    if calls != [] {
      SubscribersAreKeptApartIff(DropLast(calls));
      if AlwaysServed(DropLast(calls)) {
        if Last(calls).Sub? {
          SubIsServed(calls);
        } else if Last(calls).Meanwhile? {
          MeanwhileIsServed(calls);
        } else {
          UnsubIsServedIff(calls);
        }
      }
    }
  }

  // ---------------------------------------------------------- the keys of sandboxes

  /** `${organizationId}:${sandboxProviderId}:${sandboxId}`. */
  function SandboxKey(organization: string, provider: string, sandbox: string): string {
    organization + ":" + provider + ":" + sandbox
  }

  lemma FirstColon(a: string, rest: string, b: string, more: string)
    requires ':' !in a && ':' !in b && a + ":" + rest == b + ":" + more
    ensures a == b && rest == more
  {
    SplitOnFirst(a, ':', rest);
    SplitOnFirst(b, ':', more);
    assert a == SplitOn(a + ":" + rest, ':')[0] == b;
    assert rest == (a + ":" + rest)[|a| + 1..] && more == (b + ":" + more)[|b| + 1..];
  }

  /** Sandboxes never share an entry, as long as organization and provider ids have no colon. */
  lemma SandboxKeysAreDistinct(o: string, p: string, x: string, o': string, p': string, x': string)
    requires ':' !in o && ':' !in p && ':' !in o' && ':' !in p'
    ensures SandboxKey(o, p, x) == SandboxKey(o', p', x') ==> o == o' && p == p' && x == x'
  {
    if SandboxKey(o, p, x) == SandboxKey(o', p', x') {
      assert SandboxKey(o, p, x) == o + ":" + (p + ":" + x);
      assert SandboxKey(o', p', x') == o' + ":" + (p' + ":" + x');
      FirstColon(o, p + ":" + x, o', p' + ":" + x');
      FirstColon(p, x, p', x');
    }
  }

  function Colons(s: string): nat {
    if s == "" then 0 else (if s[0] == ':' then 1 else 0) + Colons(s[1..])
  }

  lemma {:induction false} ColonsConcat(a: string, b: string)
    ensures Colons(a + b) == Colons(a) + Colons(b)
    ensures Colons(a) == 0 <==> ':' !in a
  {
    if a == "" {
      assert a + b == b;
    } else {
      ColonsConcat(a[1..], b);
      assert (a + b)[1..] == a[1..] + b && a == [a[0]] + a[1..];
    }
  }

  lemma ColonsOfKey(o: string, p: string, x: string)
    ensures Colons(SandboxKey(o, p, x)) == Colons(o) + Colons(p) + Colons(x) + 2
  {
    assert Colons(":") == 1;
    ColonsConcat(o, ":");
    ColonsConcat(o + ":", p);
    ColonsConcat(o + ":" + p, ":");
    ColonsConcat(o + ":" + p + ":", x);
  }

  /** The text in front of and behind the first colon. */
  lemma {:induction false} AroundColon(s: string) returns (a: string, b: string)
    requires ':' in s
    ensures s == a + ":" + b
  {
    if s[0] == ':' {
      a, b := "", s[1..];
    } else {
      a, b := AroundColon(s[1..]);
      a := [s[0]] + a;
    }
  }

  lemma KeySplits(a: string, b: string, c: string, d: string)
    ensures SandboxKey(a, b, c + ":" + d) == SandboxKey(a + ":" + b, c, d) == SandboxKey(a, b + ":" + c, d)
  {
  }

  /**
   * A sandbox shares its key with no other if and only if none of its ids has
   * a colon; one that has can be split at another place.
   */
  lemma SandboxKeyIsUnsharedIff(o: string, p: string, x: string)
    ensures (forall o', p', x' :: SandboxKey(o', p', x') == SandboxKey(o, p, x) ==> o' == o && p' == p && x' == x)
            <==> ':' !in o && ':' !in p && ':' !in x
  {
    ColonsOfKey(o, p, x);
    ColonsConcat(o, "");
    ColonsConcat(p, "");
    ColonsConcat(x, "");
    if ':' in o {
      var a, b := AroundColon(o);
      KeySplits(a, b, p, x);
      assert SandboxKey(a, b, p + ":" + x) == SandboxKey(o, p, x) && a != o;
    } else if ':' in p {
      var a, b := AroundColon(p);
      KeySplits(o, a, b, x);
      assert SandboxKey(o, a, b + ":" + x) == SandboxKey(o, p, x) && a != p;
    } else if ':' in x {
      var a, b := AroundColon(x);
      KeySplits(o, p, a, b);
      assert SandboxKey(o, p + ":" + a, b) == SandboxKey(o, p, x) && b != x;
    } else {
      forall o', p', x' | SandboxKey(o', p', x') == SandboxKey(o, p, x) ensures o' == o && p' == p && x' == x {
        ColonsOfKey(o', p', x');
        ColonsConcat(o', "");
        ColonsConcat(p', "");
        SandboxKeysAreDistinct(o', p', x', o, p, x);
      }
    }
  }

  // --------------------------------------------------- the application's own feed

  /** The single subscription to the application: one record that is never removed. */
  datatype App = App(listeners: set<nat>, attempt: Option<nat>, attempts: seq<Attempt>)

  const APP_START: App := App({}, None, [])

  const APP_KEY: string := "app"

  function AppStep(s: App, a: Action): App {
    match a
    case Subscribe(_, listener) =>
      var joined := s.(listeners := s.listeners + {listener});
      if s.attempt.Some? then joined
      else joined.(attempt := Some(|s.attempts|), attempts := s.attempts + [Attempt(APP_KEY, Connecting, 0, 0, 0)])
    case Unsubscribe(_, listener) =>
      var left := s.listeners - {listener};
      if left != {} then s.(listeners := left) else App(left, None, HangDisposal(s.attempts, s.attempt))
    case _ => s.(attempts := OnAttempts(s.attempts, a))
  }

  function AppRun(actions: seq<Action>): App {
    if actions == [] then APP_START else AppStep(AppRun(DropLast(actions)), Last(actions))
  }

  predicate ForApp(a: Action) {
    (a.Subscribe? || a.Unsubscribe?) ==> a.key == APP_KEY
  }

  /** The application's record, seen as a table with at most one key. */
  function AsTable(s: App): State {
    State(if s.listeners == {} then map[] else map[APP_KEY := Entry(s.listeners, s.attempt)], s.attempts)
  }

  /**
   * The permanent record behaves as a table used with one key, so everything
   * proved of the table holds of it; and it holds a promise exactly while it
   * has listeners.
   */
  lemma {:induction false} AppIsATableWithOneKey(actions: seq<Action>)
    requires forall a :: a in actions ==> ForApp(a)
    ensures AsTable(AppRun(actions)) == Run(actions)
    ensures AppRun(actions).attempt.Some? <==> AppRun(actions).listeners != {}
  {
    if actions != [] {
      var before, a := DropLast(actions), Last(actions);
      assert forall b :: b in before ==> b in actions;
      AppIsATableWithOneKey(before);
      AppStepRefines(AppRun(before), a);
    }
  }

  lemma AppStepRefines(s: App, a: Action)
    requires ForApp(a) && (s.attempt.Some? <==> s.listeners != {})
    ensures AsTable(AppStep(s, a)) == Step(AsTable(s), a)
    ensures AppStep(s, a).attempt.Some? <==> AppStep(s, a).listeners != {}
  {
    match a {
      case Subscribe(key, listener) => assert listener in AppStep(s, a).listeners;
      case Unsubscribe(key, listener) =>
        if s.listeners != {} {
          assert AsTable(s).entries - {APP_KEY} == map[];
        }
      case _ =>
    }
  }

  // ---------------------------------------------------------------- the objects

  /** The client's map of subscriptions, with the promises of its disposers. */
  class SubscriptionTable {
    var subscriptions: map<string, Entry>
    var attempts: seq<Attempt>

    function View(): State
      reads this
    {
      State(subscriptions, attempts)
    }

    constructor ()
      ensures View() == START
    {
      subscriptions, attempts := map[], [];
    }

    method AddListener(key: string, listener: nat)
      modifies this
      ensures View() == Step(old(View()), Subscribe(key, listener))
    {
      var entry := Entry({}, None);
      if key in subscriptions {
        entry := subscriptions[key];
      } else {
        subscriptions := subscriptions[key := entry];
      }
      entry := entry.(listeners := entry.listeners + {listener});
      if entry.attempt.None? {
        entry := entry.(attempt := Some(|attempts|));
        attempts := attempts + [Attempt(key, Connecting, 0, 0, 0)];
      }
      subscriptions := subscriptions[key := entry];
    }

    /** The function that subscribing returns; it may be called any number of times. */
    method RemoveListener(key: string, listener: nat)
      modifies this
      ensures View() == Step(old(View()), Unsubscribe(key, listener))
    {
      if key !in subscriptions {
        return;
      }
      var current := subscriptions[key];
      current := current.(listeners := current.listeners - {listener});
      if current.listeners != {} {
        subscriptions := subscriptions[key := current];
        return;
      }
      subscriptions := subscriptions - {key};
      if current.attempt.Some? && current.attempt.value < |attempts| {
        var c := current.attempt.value;
        attempts := attempts[c := attempts[c].(queued := attempts[c].queued + 1)];
      }
    }

    method SettleOpening(c: nat, ok: bool)
      requires c < |attempts| && attempts[c].phase.Connecting?
      modifies this`attempts
      ensures View() == Step(old(View()), if ok then Connect(c) else ConnectFails(c))
    {
      attempts := attempts[c := attempts[c].(phase := if ok then Opened else Failed)];
    }

    /** `await disposeConn?.()`, once the promise has settled. */
    method RunDisposal(c: nat)
      requires c < |attempts| && !attempts[c].phase.Connecting? && attempts[c].queued > 0
      modifies this`attempts
      ensures View() == Step(old(View()), DisposeCallback(c))
    {
      var x := attempts[c];
      x := x.(queued := x.queued - 1, ran := x.ran + 1);
      if x.phase.Opened? {
        x := x.(disposals := x.disposals + 1);
      }
      attempts := attempts[c := x];
    }

    /** The connection's event handler: whom an event on any connection of the key reaches. */
    method OnEvent(key: string) returns (notified: set<nat>)
      ensures notified == if key in subscriptions then subscriptions[key].listeners else {}
    {
      if key !in subscriptions {
        return {};
      }
      notified := subscriptions[key].listeners;
    }
  }

  /** The record of the application's listeners. */
  class AppSubscription {
    var listeners: set<nat>
    var disposeConnPromise: Option<nat>
    var attempts: seq<Attempt>

    function View(): App
      reads this
    {
      App(listeners, disposeConnPromise, attempts)
    }

    constructor ()
      ensures View() == APP_START
    {
      listeners, disposeConnPromise, attempts := {}, None, [];
    }

    method AddListener(listener: nat)
      modifies this
      ensures View() == AppStep(old(View()), Subscribe(APP_KEY, listener))
    {
      listeners := listeners + {listener};
      if disposeConnPromise.None? {
        disposeConnPromise := Some(|attempts|);
        attempts := attempts + [Attempt(APP_KEY, Connecting, 0, 0, 0)];
      }
    }

    method RemoveListener(listener: nat)
      modifies this
      ensures View() == AppStep(old(View()), Unsubscribe(APP_KEY, listener))
    {
      listeners := listeners - {listener};
      if listeners != {} {
        return;
      }
      if disposeConnPromise.Some? && disposeConnPromise.value < |attempts| {
        var c := disposeConnPromise.value;
        attempts := attempts[c := attempts[c].(queued := attempts[c].queued + 1)];
      }
      disposeConnPromise := None;
    }
  }
}
