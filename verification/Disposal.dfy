/**
 * What a dispose leaves of a session's persistence: it forgets the promise
 * chain, so the next envelope does not wait for the ones that are under way.
 */
module Disposal {
  import opened Prelude
  import opened SessionStore
  import opened SessionLog

  /** `t` can follow on `s`, with no further dispose. */
  ghost predicate Reaches(s: State, t: State) {
    exists actions :: Dispose !in actions && Run(s, actions) == t
  }

  lemma ReachesSelf(s: State)
    ensures Reaches(s, s)
  {
    assert Run(s, []) == s;
  }

  lemma ReachesNext(s: State, t: State, a: Action)
    requires Reaches(s, t) && !a.Dispose?
    ensures Reaches(s, Step(t, a))
  {
    var actions :| Dispose !in actions && Run(s, actions) == t;
    assert DropLast(actions + [a]) == actions;
    assert Dispose !in actions + [a] && Run(s, actions + [a]) == Step(t, a);
  }

  lemma ReachesSettled(s: State, t: State)
    requires Reaches(s, t) && Inv(s) && t.seed.None?
    ensures forall k :: 0 <= k < |t.seeds| ==> Settled(t.seeds[k])
  {
    var actions :| Dispose !in actions && Run(s, actions) == t;
    InvContinues(s, actions);
    SeedsAreSettled(t);
  }

  lemma SeedsAreSettled(s: State)
    requires SeedInv(s) && s.seed.None?
    ensures forall k :: 0 <= k < |s.seeds| ==> Settled(s.seeds[k])
  {
    forall k | 0 <= k < |s.seeds| ensures Settled(s.seeds[k]) {
      assert k == |s.seeds| - 1 ==> s.seeds[k] == Last(s.seeds);
    }
  }

  /** A seed that is under way is brought to its end, successfully if it has not failed yet. */
  lemma SettleSeed(s0: State, s: State) returns (t: State)
    requires Reaches(s0, s) && Inv(s)
    ensures Reaches(s0, t)
    ensures t.jobs == s.jobs && t.log == s.log && t.tail == s.tail && t.seed.None? && |t.seeds| == |s.seeds|
    ensures forall j: nat :: Doomed(t, j) <==> Doomed(s, j)
  {
    t := s;
    if s.seed.Some? {
      var k := s.seed.value;
      if s.seeds[k].Scanning? {
        ReachesNext(s0, t, Scanned(k, true));
        t := Step(t, Scanned(k, true));
      }
      ReachesNext(s0, t, SeedFinally(k));
      t := Step(t, SeedFinally(k));
    }
  }

  /** A newcomer that begins a seed brings it to a good end. */
  lemma SeedsForItself(s0: State, s: State, n: nat, k: nat) returns (t: State)
    requires Reaches(s0, s) && At(s, n) && s.jobs[n].phase == WaitingSeed(0, k) && k == |s.seeds| - 1 &&
        s.seeds[k].Scanning?
    ensures Reaches(s0, t) && t.log == s.log && t.seed.None? && t.next.Some?
    ensures t.jobs == s.jobs[n := s.jobs[n].(phase := Seeded(0))]
    ensures |t.seeds| == |s.seeds| && t.seeds[..k] == s.seeds[..k]
  {
    ReachesNext(s0, s, Scanned(k, true));
    t := Step(s, Scanned(k, true));
    ReachesNext(s0, t, SeedFinally(k));
    t := Step(t, SeedFinally(k));
    ReachesNext(s0, t, SeedWake(n));
    t := Step(t, SeedWake(n));
  }

  /** With no chain and no seed under way, a new envelope gets as far as holding an index. */
  lemma NewcomerGetsIndex(s0: State, s: State) returns (t: State)
    requires Reaches(s0, s) && s.tail.None? && s.seed.None?
    ensures Reaches(s0, t)
    ensures |t.jobs| == |s.jobs| + 1 && t.jobs[..|s.jobs|] == s.jobs && t.jobs[|s.jobs|].phase.Seeded?
    ensures t.log == s.log && t.seed.None? && t.next.Some?
    ensures |t.seeds| >= |s.seeds| && t.seeds[..|s.seeds|] == s.seeds
  {
    var n := |s.jobs|;
    ReachesNext(s0, s, Enqueue);
    t := Step(s, Enqueue);
    ReachesNext(s0, t, Start(n));
    t := Step(t, Start(n));
    if s.next.None? {
      t := SeedsForItself(s0, t, n, |s.seeds|);
    }
  }

  predicate MayInsert(s: State, j: nat) {
    At(s, j) && (s.jobs[j].phase.Inserting? || s.jobs[j].phase.Seeded?
                 || (s.jobs[j].phase.WaitingSeed? && s.jobs[j].phase.seed < |s.seeds| &&
                     s.seeds[s.jobs[j].phase.seed].SeedOk?))
  }

  /** An envelope on its way to its insert gets there. */
  lemma Inserts(s0: State, s: State, j: nat) returns (t: State)
    requires Reaches(s0, s) && MayInsert(s, j)
    ensures Reaches(s0, t) && |t.log| == |s.log| + 1 && t.log[..|s.log|] == s.log && Last(t.log).job == j
    ensures |t.jobs| == |s.jobs| && forall i :: 0 <= i < |s.jobs| && i != j ==> t.jobs[i] == s.jobs[i]
    ensures t.seeds == s.seeds && t.seed == s.seed && (s.next.Some? ==> t.next.Some?)
  {
    t := s;
    if t.jobs[j].phase.WaitingSeed? {
      ReachesNext(s0, t, SeedWake(j));
      t := Step(t, SeedWake(j));
    }
    if t.jobs[j].phase.Seeded? {
      ReachesNext(s0, t, TakeIndex(j));
      t := Step(t, TakeIndex(j));
    }
    ReachesNext(s0, t, InsertOk(j, 1));
    t := Step(t, InsertOk(j, 1));
  }

  /** An envelope whose predecessor is past gets its turn. */
  lemma GetsItsTurn(s0: State, s: State, j: nat) returns (t: State)
    requires Reaches(s0, s) && At(s, j) && s.jobs[j].phase.Queued? && s.next.Some?
    requires forall k :: 0 <= k < |s.seeds| ==> Settled(s.seeds[k])
    requires s.jobs[j].prev.Some? ==> j > 0 && s.jobs[j].prev.value == j - 1 && Past(s, j - 1, true)
    ensures Reaches(s0, t) && t.log == s.log && MayInsert(t, j)
  {
    t := s;
    if s.jobs[j].prev.Some? && !Finished(s.jobs[j - 1]) {
      var a := if s.jobs[j - 1].phase.Publishing? then Published(j - 1) else SeedWake(j - 1);
      ReachesNext(s0, t, a);
      t := Step(t, a);
    }
    ReachesNext(s0, t, Start(j));
    t := Step(t, Start(j));
  }

  /** The first envelope of which something may still be stored. */
  lemma FirstNotPast(s: State) returns (j: nat)
    requires exists i: nat :: At(s, i) && !Past(s, i, true)
    ensures At(s, j) && !Past(s, j, true) && forall i: nat :: i < j ==> Past(s, i, true)
  {
    j := 0;
    while Past(s, j, true)
      invariant At(s, j) && forall i: nat :: i < j ==> Past(s, i, true)
      invariant exists i: nat :: j <= i && At(s, i) && !Past(s, i, true)
      decreases |s.jobs| - j
    {
      j := j + 1;
    }
  }

  /** `t` is `s` with a newcomer's event stored, and nothing else changed for the envelopes of `s`. */
  ghost predicate Overtaken(s: State, t: State) {
    && |t.jobs| == |s.jobs| + 1 && t.next.Some? && |t.seeds| >= |s.seeds|
    && (forall i: nat :: i < |s.jobs| ==> t.jobs[i] == s.jobs[i] && Doomed(t, i) == Doomed(s, i))
    && (forall k :: 0 <= k < |t.seeds| ==> Settled(t.seeds[k]))
    && |t.log| == |s.log| + 1 && Last(t.log).job == |s.jobs|
  }

  lemma NewcomerOvertakes(s: State) returns (t: State)
    requires Inv(s) && s.tail.None?
    ensures Reaches(s, t) && Overtaken(s, t)
  {
    var n := |s.jobs|;
    ReachesSelf(s);
    var s1 := SettleSeed(s, s);
    var s2 := NewcomerGetsIndex(s, s1);
    t := Inserts(s, s2, n);
    ReachesSettled(s, t);
    forall i: nat | i < n ensures t.jobs[i] == s.jobs[i] && Doomed(t, i) == Doomed(s, i) {
      assert s2.jobs[..n][i] == s2.jobs[i];
      assert Doomed(s1, i) == Doomed(s, i);
      assert forall k :: 0 <= k < |s1.seeds| ==> s2.seeds[..|s1.seeds|][k] == s2.seeds[k];
    }
  }

  /** An envelope that may still be stored can be overtaken by one that arrives after the dispose. */
  lemma CanBeOvertaken(s: State, j: nat) returns (t: State)
    requires Inv(s) && ChainOf(s, true)
    requires At(s, j) && !Past(s, j, true) && forall i: nat :: i < j ==> Past(s, i, true)
    ensures Reaches(Step(s, Dispose), t) && !InOrder(t.log)
  {
    var s0 := Step(s, Dispose);
    StepKeepsInv(s, Dispose);
    var s3 := NewcomerOvertakes(s0);
    SamePhase(s, s0, s3, j);
    var s4 := s3;
    if s.jobs[j].phase.Queued? {
      if s.jobs[j].prev.Some? {
        assert Past(s, j - 1, true);
        SamePhase(s, s0, s3, j - 1);
      }
      s4 := GetsItsTurn(s0, s3, j);
    }
    t := Inserts(s0, s4, j);
    assert t.log[|s.log|] == t.log[..|s4.log|][|s.log|] == Last(s3.log);
  }

  lemma SamePhase(s: State, s0: State, t: State, j: nat)
    requires At(s, j) && s0 == Step(s, Dispose) && Overtaken(s0, t)
    ensures At(t, j) && t.jobs[j] == s.jobs[j] && Doomed(t, j) == Doomed(s, j) && Past(t, j, true) == Past(s, j, true)
  {
    assert Doomed(s0, j) == Doomed(s, j);
  }

  /** With no chain, a new envelope starts at once, beside whatever is under way. */
  lemma NewcomerStarts(s0: State, s: State) returns (t: State)
    requires Reaches(s0, s) && s.tail.None?
    ensures Reaches(s0, t) && |t.jobs| == |s.jobs| + 1 && t.jobs[..|s.jobs|] == s.jobs && Active(Last(t.jobs))
  {
    ReachesNext(s0, s, Enqueue);
    t := Step(s, Enqueue);
    ReachesNext(s0, t, Start(|s.jobs|));
    t := Step(t, Start(|s.jobs|));
  }

  /** An unfinished envelope and one that arrives after the dispose can be under way together. */
  lemma CanRunBesides(s: State, j: nat) returns (t: State)
    requires Chain(s) && FirstUnfinished(s, j)
    ensures Reaches(Step(s, Dispose), t) && !OneActive(t)
  {
    var s0 := Step(s, Dispose);
    ReachesSelf(s0);
    t := s0;
    if s.jobs[j].phase.Queued? {
      assert CanStart(s0, j);
      ReachesNext(s0, t, Start(j));
      t := Step(t, Start(j));
    }
    var before := t;
    t := NewcomerStarts(s0, t);
    assert t.jobs[j] == t.jobs[..|before.jobs|][j] == before.jobs[j];
  }

  // ------------------------------------------------------- any number of disposals

  ghost predicate AllPast(s: State, loosely: bool) {
    forall j: nat :: At(s, j) ==> Past(s, j, loosely)
  }

  /** Until the next dispose, whatever happens, one envelope at a time is being persisted. */
  ghost predicate StaysOneActive(s: State) {
    forall more :: Dispose !in more ==> OneActive(Run(s, more))
  }

  /** Until the next dispose, whatever happens, the log is in arrival order. */
  ghost predicate StaysInOrder(s: State) {
    forall more :: Dispose !in more ==> InOrder(Run(s, more).log)
  }

  ghost predicate Chained(s: State, loosely: bool) {
    Inv(s) && ChainOf(s, loosely) && LogInv(s)
  }

  lemma ChainedStays(s: State)
    ensures Chained(s, false) ==> StaysOneActive(s)
    ensures Chained(s, true) ==> StaysInOrder(s)
  {
    if Chained(s, false) {
      forall more | Dispose !in more ensures OneActive(Run(s, more)) {
        OrderContinues(s, more, false);
        ChainIsOneActive(Run(s, more));
      }
    }
    if Chained(s, true) {
      forall more | Dispose !in more ensures InOrder(Run(s, more).log) {
        OrderContinues(s, more, true);
      }
    }
  }

  /** A dispose that finds everything past keeps the chain. */
  lemma DisposeKeepsChain(s: State, loosely: bool)
    requires Chained(s, loosely) && AllPast(s, loosely)
    ensures Chained(Step(s, Dispose), loosely)
  {
    var t := Step(s, Dispose);
    StepKeepsInv(s, Dispose);
    forall j: nat | j < |t.jobs| ensures Past(t, j, loosely) {
      assert Past(s, j, loosely);
    }
  }

  /** A dispose that does not find everything past can be followed by a violation. */
  lemma DisposeSpoils(s: State)
    ensures Chained(s, false) && !AllPast(s, false) ==> !StaysOneActive(Step(s, Dispose))
    ensures Chained(s, true) && !AllPast(s, true) ==> !StaysInOrder(Step(s, Dispose))
  {
    var t := Step(s, Dispose);
    if Chained(s, false) && !AllPast(s, false) {
      OneIsFirst(s);
      var j: nat :| FirstUnfinished(s, j);
      var u := CanRunBesides(s, j);
      var actions :| Dispose !in actions && Run(t, actions) == u;
      assert !OneActive(Run(t, actions));
    }
    if Chained(s, true) && !AllPast(s, true) {
      var j := FirstNotPast(s);
      var u := CanBeOvertaken(s, j);
      var actions :| Dispose !in actions && Run(t, actions) == u;
      assert !InOrder(Run(t, actions).log);
    }
  }

  /** Every dispose of the run came when all envelopes were past. */
  ghost predicate DisposedWhenPast(s: State, actions: seq<Action>, loosely: bool) {
    actions == [] ||
    (DisposedWhenPast(s, DropLast(actions), loosely)
     && (Last(actions).Dispose? ==> AllPast(Run(s, DropLast(actions)), loosely)))
  }

  ghost predicate AlwaysOneActive(s: State, actions: seq<Action>) {
    StaysOneActive(Run(s, actions)) && (actions == [] || AlwaysOneActive(s, DropLast(actions)))
  }

  ghost predicate AlwaysInOrder(s: State, actions: seq<Action>) {
    StaysInOrder(Run(s, actions)) && (actions == [] || AlwaysInOrder(s, DropLast(actions)))
  }

  lemma {:induction false} ChainContinues(s: State, actions: seq<Action>, loosely: bool)
    requires Chained(s, loosely) && DisposedWhenPast(s, actions, loosely)
    ensures Chained(Run(s, actions), loosely)
  {
    if actions != [] {
      ChainContinues(s, DropLast(actions), loosely);
      var t, a := Run(s, DropLast(actions)), Last(actions);
      if a.Dispose? {
        DisposeKeepsChain(t, loosely);
      } else {
        StepKeepsInv(t, a);
        StepKeepsChain(t, a, loosely);
        StepKeepsLog(t, a, loosely);
      }
    }
  }

  /**
   * In any run, with any number of disposals: at every moment one envelope at
   * a time is being persisted, and will be whatever happens until the next
   * dispose, if and only if each dispose came when every envelope was finished.
   */
  lemma {:induction false} OneAtATimeIff(base: seq<Event>, cap: nat, actions: seq<Action>)
    requires |base| <= cap
    ensures AlwaysOneActive(Init(base, cap), actions) <==> DisposedWhenPast(Init(base, cap), actions, false)
  {
    var s := Init(base, cap);
    if DisposedWhenPast(s, actions, false) {
      ChainContinues(s, actions, false);
      ChainedStays(Run(s, actions));
    }
    if actions != [] {
      OneAtATimeIff(base, cap, DropLast(actions));
      if DisposedWhenPast(s, DropLast(actions), false) {
        ChainContinues(s, DropLast(actions), false);
        DisposeSpoils(Run(s, DropLast(actions)));
      }
    }
  }

  /**
   * In any run, with any number of disposals: at every moment the log is in
   * arrival order, and will be whatever happens until the next dispose, if and
   * only if each dispose came when every envelope was finished, or already
   * stored and with its listeners, or waiting for a seed that has failed.
   */
  lemma {:induction false} ArrivalOrderIff(base: seq<Event>, cap: nat, actions: seq<Action>)
    requires |base| <= cap
    ensures AlwaysInOrder(Init(base, cap), actions) <==> DisposedWhenPast(Init(base, cap), actions, true)
  {
    var s := Init(base, cap);
    if DisposedWhenPast(s, actions, true) {
      ChainContinues(s, actions, true);
      ChainedStays(Run(s, actions));
    }
    if actions != [] {
      ArrivalOrderIff(base, cap, DropLast(actions));
      if DisposedWhenPast(s, DropLast(actions), true) {
        ChainContinues(s, DropLast(actions), true);
        DisposeSpoils(Run(s, DropLast(actions)));
      }
    }
  }

  lemma FailedScan()
    ensures var s := Run(Init([], 1), [Enqueue, Start(0), Scanned(0, false)]);
      s.jobs == [Job(None, WaitingSeed(0, 0))] && s.seeds == [ScanFailed]
  {
    var actions := [Enqueue, Start(0), Scanned(0, false)];
    assert DropLast(actions) == [Enqueue, Start(0)];
    assert DropLast([Enqueue, Start(0)]) == [Enqueue] && DropLast([Enqueue]) == [];
  }

  /** An envelope that waits for a failed seed is neither finished nor stored, and yet a dispose does no harm. */
  lemma DoomedDoesNoHarm()
    ensures var actions := [Enqueue, Start(0), Scanned(0, false)];
      var s := Run(Init([], 1), actions);
      && At(s, 0) && !Finished(s.jobs[0]) && !s.jobs[0].phase.Publishing?
      && AlwaysInOrder(Init([], 1), actions + [Dispose])
  {
    var actions := [Enqueue, Start(0), Scanned(0, false)];
    FailedScan();
    assert AllPast(Run(Init([], 1), actions), true);
    NoDisposeYet(Init([], 1), actions, true);
    assert DropLast(actions + [Dispose]) == actions;
    ArrivalOrderIff([], 1, actions + [Dispose]);
  }

  lemma {:induction false} NoDisposeYet(s: State, actions: seq<Action>, loosely: bool)
    requires Dispose !in actions
    ensures DisposedWhenPast(s, actions, loosely)
  {
    if actions != [] {
      NoDisposeYet(s, DropLast(actions), loosely);
    }
  }
}
