/**
 * That the persistence of a session always comes to its end: from whatever a
 * run has led to, envelopes queued, waiting, in the middle of a retry or left
 * over by a dispose, there is a way on, and it loses nothing more.
 */
module Progress {
  import opened Prelude
  import opened SessionStore
  import opened SessionLog

  /** Nothing new arrives, nothing is disposed of, and whatever is awaited succeeds. */
  predicate Kind(a: Action) {
    !a.Enqueue? && !a.Dispose? && !a.InsertConflict? && !a.InsertError? && (a.Scanned? ==> a.ok)
  }

  /** `t` can follow on `s` in that way. */
  ghost predicate Leads(s: State, t: State) {
    exists actions :: (forall a :: a in actions ==> Kind(a)) && Run(s, actions) == t
  }

  lemma LeadsNowhere(s: State)
    ensures Leads(s, s)
  {
    assert Run(s, []) == s;
  }

  lemma LeadsOn(s: State, t: State, a: Action)
    requires Leads(s, t) && Kind(a)
    ensures Leads(s, Step(t, a))
  {
    var actions :| (forall x :: x in actions ==> Kind(x)) && Run(s, actions) == t;
    assert DropLast(actions + [a]) == actions;
    assert Run(s, actions + [a]) == Step(t, a);
  }

  /** No seed is under way. */
  ghost predicate Settled(s: State) {
    Inv(s) && s.seed.None?
  }

  lemma NoSeedIsScanning(s: State, k: nat)
    requires Settled(s) && k < |s.seeds|
    ensures s.seeds[k].SeedOk? || s.seeds[k].SeedFailed?
  {
    assert k == |s.seeds| - 1 ==> s.seeds[k] == Last(s.seeds);
  }

  lemma ScanSucceeds(s0: State, s: State, k: nat)
    requires Leads(s0, s) && Inv(s) && k < |s.seeds| && s.seeds[k].Scanning?
    ensures var t := Step(s, Scanned(k, true));
      && Leads(s0, t) && Inv(t)
      && t == s.(seeds := s.seeds[k := ScanOk], next := t.next)
  {
    LeadsOn(s0, s, Scanned(k, true));
    StepKeepsInv(s, Scanned(k, true));
  }

  lemma SeedCloses(s0: State, s: State, k: nat)
    requires Leads(s0, s) && Inv(s) && k < |s.seeds| && (s.seeds[k].ScanOk? || s.seeds[k].ScanFailed?)
    ensures var t := Step(s, SeedFinally(k));
      && Leads(s0, t) && Settled(t)
      && t == s.(seeds := s.seeds[k := if s.seeds[k].ScanOk? then SeedOk else SeedFailed], seed := None)
  {
    LeadsOn(s0, s, SeedFinally(k));
    StepKeepsInv(s, SeedFinally(k));
  }

  /** The seed under way, if any, is brought to its end; an envelope is doomed by it only if it was before. */
  lemma SeedEnds(s: State) returns (t: State)
    requires Inv(s)
    ensures Leads(s, t) && Settled(t) && t.jobs == s.jobs && t.log == s.log
    ensures forall j: nat :: Doomed(t, j) <==> Doomed(s, j)
  {
    LeadsNowhere(s);
    t := s;
    if s.seed.Some? {
      var k := s.seed.value;
      if s.seeds[k].Scanning? {
        ScanSucceeds(s, t, k);
        t := Step(t, Scanned(k, true));
      }
      SeedCloses(s, t, k);
      t := Step(t, SeedFinally(k));
    }
  }

  /** `t` is `s` with envelope `j` in another phase, and what was stored for the others as it was. */
  ghost predicate Moves(s: State, t: State, j: nat) {
    && At(s, j) && |t.jobs| == |s.jobs|
    && (forall i :: 0 <= i < |s.jobs| && i != j ==>
          t.jobs[i] == s.jobs[i] && StoredFor(t.log, i) == StoredFor(s.log, i))
    && (forall i: nat :: i != j && At(s, i) ==> (Doomed(t, i) <==> Doomed(s, i)))
  }

  /** An envelope that may start gets as far as waiting for nothing but an index. */
  lemma Starts(s0: State, s: State, j: nat) returns (t: State)
    requires Leads(s0, s) && Settled(s) && CanStart(s, j)
    ensures Leads(s0, t) && Settled(t) && Moves(s, t, j) && t.jobs[j].phase == Seeded(0) && t.log == s.log
  {
    LeadsOn(s0, s, Start(j));
    StepKeepsInv(s, Start(j));
    t := Step(s, Start(j));
    if s.next.None? {
      var k := |s.seeds|;
      t := SeedsWell(s0, t, j, k);
      forall i: nat | i != j && At(s, i) ensures Doomed(t, i) <==> Doomed(s, i) {
        assert t.jobs[i] == s.jobs[i];
      }
    }
  }

  lemma WakesWell(s0: State, s: State, j: nat)
    requires Leads(s0, s) && Settled(s) && At(s, j) && s.jobs[j].phase.WaitingSeed?
    requires s.jobs[j].phase.seed < |s.seeds| && s.seeds[s.jobs[j].phase.seed].SeedOk?
    ensures var t := Step(s, SeedWake(j));
      && Leads(s0, t) && Settled(t)
      && t == s.(jobs := s.jobs[j := s.jobs[j].(phase := Seeded(s.jobs[j].phase.attempt))])
  {
    LeadsOn(s0, s, SeedWake(j));
    StepKeepsInv(s, SeedWake(j));
  }

  lemma SeedsWell(s0: State, s: State, j: nat, k: nat) returns (t: State)
    requires Leads(s0, s) && Inv(s) && At(s, j) && s.jobs[j].phase == WaitingSeed(0, k)
    requires k == |s.seeds| - 1 && s.seeds[k].Scanning?
    ensures Leads(s0, t) && Settled(t) && t.log == s.log && t.seeds == s.seeds[k := SeedOk]
    ensures t.jobs == s.jobs[j := s.jobs[j].(phase := Seeded(0))]
  {
    ScanSucceeds(s0, s, k);
    t := Step(s, Scanned(k, true));
    SeedCloses(s0, t, k);
    t := Step(t, SeedFinally(k));
    WakesWell(s0, t, j);
    t := Step(t, SeedWake(j));
  }

  /** An envelope whose seed has settled wakes up, to go on or to end. */
  lemma WakesUp(s0: State, s: State, j: nat) returns (t: State)
    requires Leads(s0, s) && Settled(s) && At(s, j) && s.jobs[j].phase.WaitingSeed?
    ensures Leads(s0, t) && Settled(t) && Moves(s, t, j) && t.log == s.log
    ensures if Doomed(s, j) then t.jobs[j].phase.Done? else t.jobs[j].phase.Seeded?
  {
    NoSeedIsScanning(s, s.jobs[j].phase.seed);
    LeadsOn(s0, s, SeedWake(j));
    StepKeepsInv(s, SeedWake(j));
    t := Step(s, SeedWake(j));
  }

  lemma TakesIndex(s0: State, s: State, j: nat)
    requires Leads(s0, s) && Settled(s) && At(s, j) && s.jobs[j].phase.Seeded?
    ensures var t := Step(s, TakeIndex(j));
      Leads(s0, t) && Settled(t) && Moves(s, t, j) && IsInserting(t, j) && t.log == s.log
  {
    LeadsOn(s0, s, TakeIndex(j));
    StepKeepsInv(s, TakeIndex(j));
  }

  lemma Inserts(s0: State, s: State, j: nat)
    requires Leads(s0, s) && Settled(s) && IsInserting(s, j)
    ensures var t := Step(s, InsertOk(j, 0));
      && Leads(s0, t) && Settled(t) && Moves(s, t, j) && t.jobs[j].phase.Publishing?
      && |StoredFor(t.log, j)| == |StoredFor(s.log, j)| + 1
  {
    LeadsOn(s0, s, InsertOk(j, 0));
    StepKeepsInv(s, InsertOk(j, 0));
    assert DropLast(Step(s, InsertOk(j, 0)).log) == s.log;
  }

  lemma Publishes(s0: State, s: State, j: nat)
    requires Leads(s0, s) && Settled(s) && At(s, j) && s.jobs[j].phase.Publishing?
    ensures var t := Step(s, Published(j));
      Leads(s0, t) && Settled(t) && Moves(s, t, j) && t.jobs[j].phase.Done? && t.log == s.log
  {
    LeadsOn(s0, s, Published(j));
    StepKeepsInv(s, Published(j));
  }

  lemma MovesOn(s: State, t: State, u: State, j: nat)
    requires Moves(s, t, j) && Moves(t, u, j)
    ensures Moves(s, u, j)
  {
  }

  lemma InsertsAndPublishes(s0: State, s: State, j: nat) returns (t: State)
    requires Leads(s0, s) && Settled(s) && IsInserting(s, j)
    ensures Leads(s0, t) && Settled(t) && Moves(s, t, j) && t.jobs[j].phase.Done?
    ensures |StoredFor(t.log, j)| == |StoredFor(s.log, j)| + 1
  {
    Inserts(s0, s, j);
    var s1 := Step(s, InsertOk(j, 0));
    Publishes(s0, s1, j);
    t := Step(s1, Published(j));
    MovesOn(s, s1, t, j);
  }

  /** An envelope that waits for nothing but an index is stored and finished. */
  lemma GetsStored(s0: State, s: State, j: nat) returns (t: State)
    requires Leads(s0, s) && Settled(s) && At(s, j)
    requires s.jobs[j].phase.Seeded? || s.jobs[j].phase.Inserting?
    ensures Leads(s0, t) && Settled(t) && Moves(s, t, j) && t.jobs[j].phase.Done?
    ensures |StoredFor(t.log, j)| == |StoredFor(s.log, j)| + 1
  {
    if s.jobs[j].phase.Inserting? {
      t := InsertsAndPublishes(s0, s, j);
    } else {
      TakesIndex(s0, s, j);
      var s1 := Step(s, TakeIndex(j));
      t := InsertsAndPublishes(s0, s1, j);
      MovesOn(s, s1, t, j);
    }
  }

  /** What is still to be stored for an envelope. */
  function Due(s: State, j: nat): nat
    requires At(s, j)
  {
    if s.jobs[j].phase.Publishing? || Finished(s.jobs[j]) || Doomed(s, j) then 0 else 1
  }

  lemma QueuedFinishes(s0: State, s: State, j: nat) returns (t: State)
    requires Leads(s0, s) && Settled(s) && CanStart(s, j)
    ensures Leads(s0, t) && Settled(t) && Moves(s, t, j) && Finished(t.jobs[j])
    ensures |StoredFor(t.log, j)| == |StoredFor(s.log, j)| + 1
  {
    var s1 := Starts(s0, s, j);
    t := GetsStored(s0, s1, j);
    MovesOn(s, s1, t, j);
  }

  lemma WaitingFinishes(s0: State, s: State, j: nat) returns (t: State)
    requires Leads(s0, s) && Settled(s) && At(s, j) && s.jobs[j].phase.WaitingSeed?
    ensures Leads(s0, t) && Settled(t) && Moves(s, t, j) && Finished(t.jobs[j])
    ensures |StoredFor(t.log, j)| == |StoredFor(s.log, j)| + if Doomed(s, j) then 0 else 1
  {
    t := WakesUp(s0, s, j);
    if !Doomed(s, j) {
      var s1 := t;
      t := GetsStored(s0, s1, j);
      MovesOn(s, s1, t, j);
    }
  }

  /** An envelope whose turn it is comes to its end. */
  lemma Finishes(s0: State, s: State, j: nat) returns (t: State)
    requires Leads(s0, s) && Settled(s) && At(s, j) && (s.jobs[j].phase.Queued? ==> CanStart(s, j))
    ensures Leads(s0, t) && Settled(t) && Moves(s, t, j) && Finished(t.jobs[j])
    ensures |StoredFor(t.log, j)| == |StoredFor(s.log, j)| + Due(s, j)
  {
    match s.jobs[j].phase {
      case Queued => t := QueuedFinishes(s0, s, j);
      case WaitingSeed(_, _) => t := WaitingFinishes(s0, s, j);
      case Seeded(_) => t := GetsStored(s0, s, j);
      case Inserting(_, _) => t := GetsStored(s0, s, j);
      case Publishing =>
        Publishes(s0, s, j);
        t := Step(s, Published(j));
      case _ => t := s;
    }
  }

  /** Nobody waits for an envelope that came later. */
  ghost predicate ChainedBack(s: State) {
    forall j :: 0 <= j < |s.jobs| && s.jobs[j].prev.Some? ==> s.jobs[j].prev.value < j
  }

  /** All envelopes up to the `n`-th, one after the other. */
  lemma {:induction false} AllFinish(s0: State, s: State, n: nat) returns (t: State)
    requires Leads(s0, s) && Settled(s) && ChainedBack(s) && n <= |s.jobs|
    ensures Leads(s0, t) && Settled(t) && |t.jobs| == |s.jobs|
    ensures forall i :: n <= i < |s.jobs| ==>
        t.jobs[i] == s.jobs[i] && StoredFor(t.log, i) == StoredFor(s.log, i) && Doomed(t, i) == Doomed(s, i)
    ensures forall i :: 0 <= i < n ==>
        Finished(t.jobs[i]) && |StoredFor(t.log, i)| == |StoredFor(s.log, i)| + Due(s, i)
  {
    t := s;
    if n > 0 {
      var u := AllFinish(s0, s, n - 1);
      t := Finishes(s0, u, n - 1);
    }
  }

  /**
   * From every reachable state, failures, retries and disposals behind it:
   * there is a way on, with nothing failing any more, after which every
   * envelope is finished; and each is then stored, exactly once, except those
   * that had failed by then and those waiting for a seed that had failed.
   */
  lemma NothingMoreIsLost(base: seq<Event>, cap: nat, actions: seq<Action>) returns (t: State)
    requires |base| <= cap
    ensures var s := Run(Init(base, cap), actions);
      && Leads(s, t) && |t.jobs| == |s.jobs|
      && forall j: nat :: j < |s.jobs| ==>
           && Finished(t.jobs[j])
           && |StoredFor(t.log, j)| ==
              if Failed(StoryOf(Init(base, cap), actions, j)) || Doomed(s, j) then 0 else 1
  {
    var s := Run(Init(base, cap), actions);
    RunKeepsInv(base, cap, actions);
    RunIsSound(base, cap, actions);
    var u := SeedEnds(s);
    t := AllFinish(s, u, |s.jobs|);
    forall j: nat | j < |s.jobs|
      ensures |StoredFor(s.log, j)| + Due(u, j) ==
              if Failed(StoryOf(Init(base, cap), actions, j)) || Doomed(s, j) then 0 else 1
    {
      RunFits(base, cap, actions, j);
    }
  }
}
