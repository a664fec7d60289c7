/**
 * Persisting one session's envelopes: the promise chain that lets one envelope
 * at a time through, the lazily seeded index counter, and the inserts with
 * their retries. Each action is a stretch of code between two awaits; actions
 * that are not enabled change nothing, so a run is any list of actions.
 */
module SessionLog {
  import opened Prelude
  import opened SessionStore

  const MAX_EVENT_INDEX_INSERT_RETRIES: nat := 3

  /** A seed attempt: its scan, then its `finally`, after which those waiting for it wake up. */
  datatype Seed = Scanning | ScanOk | ScanFailed | SeedOk | SeedFailed

  /** Where the persistence of one envelope stands. */
  datatype Phase =
    | Queued
    | WaitingSeed(attempt: nat, seed: nat)
    | Seeded(attempt: nat)
    | Inserting(attempt: nat, index: int)
    | Publishing
    | Done
    | CleanedUp

  /** An envelope, and the envelope it was chained behind when it arrived. */
  datatype Job = Job(prev: Option<nat>, phase: Phase)

  datatype Entry = Entry(job: nat, event: Event)

  datatype State = State(
    base: seq<Event>,
    cap: nat,
    next: Option<int>,
    seed: Option<nat>,
    seeds: seq<Seed>,
    tail: Option<nat>,
    jobs: seq<Job>,
    taken: seq<int>,
    log: seq<Entry>)

  datatype Action =
    | Enqueue
    | Start(j: nat)
    | Scanned(k: nat, ok: bool)
    | SeedFinally(k: nat)
    | SeedWake(j: nat)
    | TakeIndex(j: nat)
    | InsertOk(j: nat, id: int)
    | InsertConflict(j: nat)
    | InsertError(j: nat)
    | Published(j: nat)
    | Cleanup(j: nat)
    | Dispose

  /** A client facing a store that holds `base` for the session and keeps at most `cap` events. */
  function Init(base: seq<Event>, cap: nat): State {
    State(base, cap, None, None, [], None, [], [], [])
  }

  function Events(log: seq<Entry>): seq<Event> {
    if log == [] then [] else Events(DropLast(log)) + [Last(log).event]
  }

  /** What the store holds of the session: everything ever inserted, trimmed. */
  function Stored(s: State): seq<Event> {
    LastN(s.base + Events(s.log), s.cap)
  }

  predicate At(s: State, j: nat) {
    j < |s.jobs|
  }

  predicate Finished(job: Job) {
    job.phase.Done? || job.phase.CleanedUp?
  }

  function SetPhase(s: State, j: nat, phase: Phase): State
    requires At(s, j)
  {
    s.(jobs := s.jobs[j := s.jobs[j].(phase := phase)])
  }

  /** The synchronous part of allocating an index: reuse the counter, join a seed under way, or begin one. */
  function BeginAllocate(s: State, j: nat, attempt: nat): State
    requires At(s, j)
  {
    if s.next.Some? then SetPhase(s, j, Seeded(attempt))
    else if s.seed.Some? then SetPhase(s, j, WaitingSeed(attempt, s.seed.value))
    else
      var k := |s.seeds|;
      SetPhase(s.(seeds := s.seeds + [Scanning], seed := Some(k)), j, WaitingSeed(attempt, k))
  }

  predicate CanStart(s: State, j: nat) {
    At(s, j) && s.jobs[j].phase.Queued?
    && (s.jobs[j].prev.Some? ==> At(s, s.jobs[j].prev.value) && Finished(s.jobs[s.jobs[j].prev.value]))
  }

  function Step(s: State, a: Action): State {
    match a
    case Enqueue => s.(jobs := s.jobs + [Job(s.tail, Queued)], tail := Some(|s.jobs|))
    case Start(j) => if CanStart(s, j) then BeginAllocate(s, j, 0) else s
    case Scanned(k, ok) =>
      if k < |s.seeds| && s.seeds[k].Scanning? then
        if ok then s.(seeds := s.seeds[k := ScanOk], next := Some(Max(1, MaxIndex(Stored(s)) + 1)))
        else s.(seeds := s.seeds[k := ScanFailed])
      else s
    case SeedFinally(k) =>
      if k < |s.seeds| && (s.seeds[k].ScanOk? || s.seeds[k].ScanFailed?) then
        s.(seeds := s.seeds[k := if s.seeds[k].ScanOk? then SeedOk else SeedFailed], seed := None)
      else s
    case SeedWake(j) =>
      if At(s, j) && s.jobs[j].phase.WaitingSeed? && s.jobs[j].phase.seed < |s.seeds| then
        match s.seeds[s.jobs[j].phase.seed]
        case SeedOk => SetPhase(s, j, Seeded(s.jobs[j].phase.attempt))
        case SeedFailed => SetPhase(s, j, Done)
        case _ => s
      else s
    case TakeIndex(j) =>
      if At(s, j) && s.jobs[j].phase.Seeded? then
        var index := if s.next.Some? then s.next.value else 1;
        SetPhase(s.(next := Some(index + 1), taken := s.taken + [index]), j, Inserting(s.jobs[j].phase.attempt, index))
      else s
    case InsertOk(j, id) =>
      if At(s, j) && s.jobs[j].phase.Inserting? then
        SetPhase(s.(log := s.log + [Entry(j, Event(id, s.jobs[j].phase.index, ""))]), j, Publishing)
      else s
    case InsertConflict(j) =>
      if At(s, j) && s.jobs[j].phase.Inserting? then
        if s.jobs[j].phase.attempt + 1 < MAX_EVENT_INDEX_INSERT_RETRIES
            then BeginAllocate(s, j, s.jobs[j].phase.attempt + 1)
        else SetPhase(s, j, Done)
      else s
    case InsertError(j) => if At(s, j) && s.jobs[j].phase.Inserting? then SetPhase(s, j, Done) else s
    case Published(j) => if At(s, j) && s.jobs[j].phase.Publishing? then SetPhase(s, j, Done) else s
    case Cleanup(j) =>
      if At(s, j) && s.jobs[j].phase.Done? then
        SetPhase(if s.tail == Some(j) then s.(tail := None) else s, j, CleanedUp)
      else s
    case Dispose => s.(tail := None)
  }

  function Run(s: State, actions: seq<Action>): State {
    if actions == [] then s else Step(Run(s, DropLast(actions)), Last(actions))
  }

  // ------------------------------------------------------ indexes, in every run

  ghost predicate Increasing(xs: seq<int>) {
    forall i, j :: 0 <= i < j < |xs| ==> xs[i] < xs[j]
  }

  predicate Succeeded(seed: Seed) {
    seed.ScanOk? || seed.SeedOk?
  }

  predicate Settled(seed: Seed) {
    seed.SeedOk? || seed.SeedFailed?
  }

  ghost predicate SeedInv(s: State) {
    // only the last seed can be under way, and it is the one in the table
    && (s.seed.Some? ==> s.seed.value == |s.seeds| - 1 && !Settled(s.seeds[s.seed.value]))
    && (s.seed.None? ==> s.seeds == [] || Settled(Last(s.seeds)))
    && (forall k :: 0 <= k < |s.seeds| - 1 ==> s.seeds[k] == SeedFailed)
    // the counter exists from the first success on
    && (s.next.Some? <==> s.seeds != [] && Succeeded(Last(s.seeds)))
  }

  ghost predicate IndexInv(s: State) {
    && Increasing(s.taken)
    && (s.next.None? ==> s.taken == [] && s.log == [])
    && (s.next.Some? ==> s.next.value >= 1 && s.next.value > MaxIndex(s.base))
    && (forall i :: 0 <= i < |s.taken| ==> s.next.Some? && MaxIndex(s.base) < s.taken[i] < s.next.value)
    && (forall j :: 0 <= j < |s.jobs| && (s.jobs[j].phase.Seeded? || s.jobs[j].phase.Inserting?) ==> s.next.Some?)
    && (forall j :: 0 <= j < |s.jobs| && s.jobs[j].phase.Inserting? ==> s.jobs[j].phase.index in s.taken)
    && (forall e :: e in s.log ==> e.event.eventIndex in s.taken)
    && (forall j :: 0 <= j < |s.jobs| && s.jobs[j].phase.WaitingSeed? ==> s.jobs[j].phase.seed < |s.seeds|)
  }

  ghost predicate Inv(s: State) {
    |s.base| <= s.cap && SeedInv(s) && IndexInv(s)
  }

  lemma BeginAllocateKeeps(s: State, j: nat, attempt: nat)
    requires Inv(s) && At(s, j)
    ensures Inv(BeginAllocate(s, j, attempt))
  {
    var t := BeginAllocate(s, j, attempt);
    if s.next.None? && s.seed.None? {
      assert s.seeds == [] || s.seeds[|s.seeds| - 1] == Last(s.seeds);
      assert forall k :: 0 <= k < |t.seeds| - 1 ==> t.seeds[k] == s.seeds[k];
    }
  }

  lemma SeedStepKeeps(s: State, a: Action)
    requires Inv(s) && (a.Scanned? || a.SeedFinally?)
    ensures Inv(Step(s, a))
  {
    if a.Scanned? && a.k < |s.seeds| && s.seeds[a.k].Scanning? {
      assert a.k == |s.seeds| - 1;
      assert s.base + Events([]) == s.base;
      if a.ok {
        assert s.next.None?;
        assert MaxIndex(Stored(s)) == MaxIndex(s.base);
      }
    }
  }

  lemma TakeIndexKeeps(s: State, j: nat)
    requires Inv(s)
    ensures Inv(Step(s, TakeIndex(j)))
  {
    if At(s, j) && s.jobs[j].phase.Seeded? {
      var t := Step(s, TakeIndex(j));
      assert Last(t.taken) == s.next.value;
      assert forall x :: x in s.taken ==> x in t.taken;
      assert t.jobs[j].phase.index in t.taken;
    }
  }

  lemma SetPhaseKeeps(s: State, j: nat, phase: Phase)
    requires Inv(s) && At(s, j)
    requires phase.Seeded? ==> s.next.Some?
    requires phase.Publishing? || phase.Done? || phase.CleanedUp? || phase.Seeded?
    ensures Inv(SetPhase(s, j, phase)) && Inv(SetPhase(s.(tail := None), j, phase))
  {
  }

  lemma InsertKeeps(s: State, j: nat, id: int)
    requires Inv(s)
    ensures Inv(Step(s, InsertOk(j, id)))
  {
    if At(s, j) && s.jobs[j].phase.Inserting? {
      var t := s.(log := s.log + [Entry(j, Event(id, s.jobs[j].phase.index, ""))]);
      assert Inv(t);
      SetPhaseKeeps(t, j, Publishing);
    }
  }

  lemma WakeKeeps(s: State, j: nat)
    requires Inv(s)
    ensures Inv(Step(s, SeedWake(j)))
  {
    if At(s, j) && s.jobs[j].phase.WaitingSeed? {
      var k := s.jobs[j].phase.seed;
      assert s.seeds[k].SeedOk? ==> s.next.Some?;
      if s.next.Some? {
        SetPhaseKeeps(s, j, Seeded(s.jobs[j].phase.attempt));
      }
      SetPhaseKeeps(s, j, Done);
    }
  }

  lemma EndKeeps(s: State, a: Action)
    requires Inv(s) && (a.InsertError? || a.Published? || a.Cleanup?)
    ensures Inv(Step(s, a))
  {
    if At(s, a.j) {
      SetPhaseKeeps(s, a.j, Done);
      SetPhaseKeeps(s, a.j, CleanedUp);
    }
  }

  lemma ConflictKeeps(s: State, j: nat)
    requires Inv(s)
    ensures Inv(Step(s, InsertConflict(j)))
  {
    if At(s, j) && s.jobs[j].phase.Inserting? {
      BeginAllocateKeeps(s, j, s.jobs[j].phase.attempt + 1);
      SetPhaseKeeps(s, j, Done);
    }
  }

  lemma StepKeepsInv(s: State, a: Action)
    requires Inv(s)
    ensures Inv(Step(s, a))
  {
    match a
    case Enqueue =>
    case Start(j) =>
      if CanStart(s, j) {
        BeginAllocateKeeps(s, j, 0);
      }
    case InsertConflict(j) => ConflictKeeps(s, j);
    case Scanned(k, ok) => SeedStepKeeps(s, a);
    case SeedFinally(k) => SeedStepKeeps(s, a);
    case SeedWake(j) => WakeKeeps(s, j);
    case TakeIndex(j) => TakeIndexKeeps(s, j);
    case InsertOk(j, id) => InsertKeeps(s, j, id);
    case InsertError(j) => EndKeeps(s, a);
    case Published(j) => EndKeeps(s, a);
    case Cleanup(j) => EndKeeps(s, a);
    case Dispose =>
  }

  lemma {:induction false} InvContinues(s: State, actions: seq<Action>)
    requires Inv(s)
    ensures Inv(Run(s, actions))
  {
    if actions != [] {
      InvContinues(s, DropLast(actions));
      StepKeepsInv(Run(s, DropLast(actions)), Last(actions));
    }
  }

  lemma {:induction false} BaseStays(s: State, actions: seq<Action>)
    ensures Run(s, actions).base == s.base && Run(s, actions).cap == s.cap
  {
    if actions != [] {
      BaseStays(s, DropLast(actions));
    }
  }

  lemma RunKeepsInv(base: seq<Event>, cap: nat, actions: seq<Action>)
    requires |base| <= cap
    ensures Inv(Run(Init(base, cap), actions))
    ensures Run(Init(base, cap), actions).base == base && Run(Init(base, cap), actions).cap == cap
  {
    InvContinues(Init(base, cap), actions);
    BaseStays(Init(base, cap), actions);
  }

  function Successes(seeds: seq<Seed>): nat {
    if seeds == [] then 0 else Successes(DropLast(seeds)) + (if Succeeded(Last(seeds)) then 1 else 0)
  }

  lemma {:induction false} FailedSeedsDoNotCount(seeds: seq<Seed>)
    requires forall k :: 0 <= k < |seeds| ==> seeds[k] == SeedFailed
    ensures Successes(seeds) == 0
  {
    if seeds != [] {
      FailedSeedsDoNotCount(DropLast(seeds));
    }
  }

  /**
   * In every run, with seed attempts that fail and are retried and with disposal
   * at any point: the seed scan succeeds at most once, no index is handed out
   * twice, later ones are larger, and all lie above what was stored before.
   */
  lemma IndexesAreUnique(base: seq<Event>, cap: nat, actions: seq<Action>)
    requires |base| <= cap
    ensures var s := Run(Init(base, cap), actions);
      && Successes(s.seeds) <= 1
      && Increasing(s.taken) && NoDuplicates(s.taken)
      && (forall x, e :: x in s.taken && e in base ==> x > e.eventIndex && x >= 1)
      && (forall entry :: entry in s.log ==> entry.event.eventIndex in s.taken)
  {
    RunKeepsInv(base, cap, actions);
    var s := Run(Init(base, cap), actions);
    if s.seeds != [] {
      FailedSeedsDoNotCount(DropLast(s.seeds));
    }
    MaxIndexBounds(base);
  }

  /** The first index this client hands out: the one after the highest stored, and at least 1. */
  function FirstIndex(base: seq<Event>): int {
    Max(1, MaxIndex(base) + 1)
  }

  ghost predicate Consecutive(s: State) {
    && (s.next.Some? ==> s.next.value == FirstIndex(s.base) + |s.taken|)
    && (forall i :: 0 <= i < |s.taken| ==> s.taken[i] == FirstIndex(s.base) + i)
  }

  lemma StepKeepsConsecutive(s: State, a: Action)
    requires Inv(s) && Consecutive(s)
    ensures Consecutive(Step(s, a))
  {
    if a.Scanned? && a.ok && a.k < |s.seeds| && s.seeds[a.k].Scanning? {
      assert a.k == |s.seeds| - 1 && s.next.None?;
      assert LastN(s.base + Events([]), s.cap) == s.base;
    }
  }

  /** In every run the indexes handed out are consecutive, from the one after the highest that was stored. */
  lemma {:induction false} IndexesAreConsecutive(base: seq<Event>, cap: nat, actions: seq<Action>)
    requires |base| <= cap
    ensures var taken := Run(Init(base, cap), actions).taken;
      forall i :: 0 <= i < |taken| ==> taken[i] == FirstIndex(base) + i
    ensures Consecutive(Run(Init(base, cap), actions))
  {
    RunKeepsInv(base, cap, actions);
    if actions != [] {
      IndexesAreConsecutive(base, cap, DropLast(actions));
      RunKeepsInv(base, cap, DropLast(actions));
      StepKeepsConsecutive(Run(Init(base, cap), DropLast(actions)), Last(actions));
    }
  }

  // ------------------------------------------------------ what becomes of one envelope, in every run

  /** What an envelope met with: the indexes that conflicted, in order, and whether anything else went wrong. */
  datatype Story = Story(conflicts: seq<int>, broken: bool)

  predicate IsInserting(s: State, j: nat) {
    At(s, j) && s.jobs[j].phase.Inserting?
  }

  predicate WaitsInVain(s: State, j: nat) {
    At(s, j) && s.jobs[j].phase.WaitingSeed? && s.jobs[j].phase.seed < |s.seeds|
    && s.seeds[s.jobs[j].phase.seed].SeedFailed?
  }

  function Tell(st: Story, s: State, a: Action, j: nat): Story {
    if a == InsertConflict(j) && IsInserting(s, j) then st.(conflicts := st.conflicts + [s.jobs[j].phase.index])
    else if (a == InsertError(j) && IsInserting(s, j)) || (a == SeedWake(j) && WaitsInVain(s, j))
      then st.(broken := true)
    else st
  }

  /** The story of envelope `j` in a run. */
  function StoryOf(s: State, actions: seq<Action>, j: nat): Story {
    if actions == [] then Story([], false)
    else Tell(StoryOf(s, DropLast(actions), j), Run(s, DropLast(actions)), Last(actions), j)
  }

  /** The events that were stored for envelope `j`. */
  function StoredFor(log: seq<Entry>, j: nat): seq<Event> {
    if log == [] then []
    else StoredFor(DropLast(log), j) + (if Last(log).job == j then [Last(log).event] else [])
  }

  /** A third conflict, or any other error. */
  predicate Failed(st: Story) {
    |st.conflicts| >= 3 || st.broken
  }

  ghost predicate Below(xs: seq<int>, index: int) {
    forall x :: x in xs ==> x < index
  }

  /** Where an envelope stands, by its story. */
  ghost predicate Fits(s: State, j: nat, st: Story) {
    var events := StoredFor(s.log, j);
    && (forall x :: x in st.conflicts ==> x in s.taken)
    && |st.conflicts| <= 3
    && if !At(s, j) || s.jobs[j].phase.Queued? then st == Story([], false) && events == []
       else if Failed(st) then Finished(s.jobs[j]) && events == []
       else if s.jobs[j].phase.Publishing? || Finished(s.jobs[j])
         then |events| == 1 && Below(st.conflicts, events[0].eventIndex)
       else
         && events == [] && s.jobs[j].phase.attempt == |st.conflicts|
         && (s.jobs[j].phase.Inserting? ==> Below(st.conflicts, s.jobs[j].phase.index))
  }

  predicate About(a: Action, j: nat) {
    (JobAction(a) || a.Cleanup?) && a.j == j
  }

  lemma OthersLeaveIt(s: State, a: Action, j: nat)
    requires !About(a, j)
    ensures At(s, j) ==> At(Step(s, a), j) && Step(s, a).jobs[j] == s.jobs[j]
    ensures !At(s, j) && At(Step(s, a), j) ==> Step(s, a).jobs[j].phase.Queued?
    ensures StoredFor(Step(s, a).log, j) == StoredFor(s.log, j)
    ensures s.taken <= Step(s, a).taken
  {
    if a.InsertOk? && IsInserting(s, a.j) {
      assert DropLast(Step(s, a).log) == s.log;
    }
  }

  lemma OthersFit(s: State, a: Action, j: nat, st: Story)
    requires Fits(s, j, st) && !About(a, j)
    ensures Fits(Step(s, a), j, Tell(st, s, a, j))
  {
    OthersLeaveIt(s, a, j);
  }

  lemma TakingFits(s: State, j: nat, st: Story)
    requires Inv(s) && Fits(s, j, st)
    ensures Fits(Step(s, TakeIndex(j)), j, Tell(st, s, TakeIndex(j), j))
  {
    if At(s, j) && s.jobs[j].phase.Seeded? {
      var t := Step(s, TakeIndex(j));
      forall x | x in st.conflicts ensures x < t.jobs[j].phase.index && x in t.taken {
        assert x in s.taken;
      }
    }
  }

  lemma ConflictFits(s: State, j: nat, st: Story)
    requires Inv(s) && Fits(s, j, st)
    ensures Fits(Step(s, InsertConflict(j)), j, Tell(st, s, InsertConflict(j), j))
  {
  }

  lemma InsertFits(s: State, j: nat, id: int, st: Story)
    requires Fits(s, j, st)
    ensures Fits(Step(s, InsertOk(j, id)), j, Tell(st, s, InsertOk(j, id), j))
  {
    if IsInserting(s, j) {
      assert DropLast(Step(s, InsertOk(j, id)).log) == s.log;
    }
  }

  lemma StartFits(s: State, a: Action, j: nat, st: Story)
    requires Fits(s, j, st) && (a == Start(j) || a == SeedWake(j))
    ensures Fits(Step(s, a), j, Tell(st, s, a, j))
  {
  }

  lemma EndFits(s: State, a: Action, j: nat, st: Story)
    requires Fits(s, j, st) && (a == InsertError(j) || a == Published(j) || a == Cleanup(j))
    ensures Fits(Step(s, a), j, Tell(st, s, a, j))
  {
  }

  lemma StepFits(s: State, a: Action, j: nat, st: Story)
    requires Inv(s) && Fits(s, j, st)
    ensures Fits(Step(s, a), j, Tell(st, s, a, j))
  {
    if !About(a, j) {
      OthersFit(s, a, j, st);
    } else {
      match a
      case TakeIndex(_) => TakingFits(s, j, st);
      case InsertConflict(_) => ConflictFits(s, j, st);
      case InsertOk(_, id) => InsertFits(s, j, id, st);
      case Start(_) => StartFits(s, a, j, st);
      case SeedWake(_) => StartFits(s, a, j, st);
      case _ => EndFits(s, a, j, st);
    }
  }

  lemma {:induction false} RunFits(base: seq<Event>, cap: nat, actions: seq<Action>, j: nat)
    requires |base| <= cap
    ensures Fits(Run(Init(base, cap), actions), j, StoryOf(Init(base, cap), actions, j))
  {
    if actions != [] {
      var before := DropLast(actions);
      RunFits(base, cap, before, j);
      RunKeepsInv(base, cap, before);
      StepFits(Run(Init(base, cap), before), Last(actions), j, StoryOf(Init(base, cap), before, j));
    }
  }

  /**
   * In every run, disposals included: an envelope that is over has been stored,
   * once, if and only if it met fewer than three index conflicts and no other
   * error, and then under an index above all that conflicted; as long as it
   * has met no more than that it is not given up.
   */
  lemma EnvelopeFate(base: seq<Event>, cap: nat, actions: seq<Action>, j: nat)
    requires |base| <= cap && At(Run(Init(base, cap), actions), j)
    ensures var s := Run(Init(base, cap), actions);
      var Story(conflicts, broken) := StoryOf(Init(base, cap), actions, j);
      var events := StoredFor(s.log, j);
      && |conflicts| <= 3
      && (|conflicts| == 3 || broken ==> Finished(s.jobs[j]) && events == [])
      && (|conflicts| < 3 && !broken && Finished(s.jobs[j]) ==> |events| == 1)
      && |events| <= 1
      && (|events| == 1 ==> forall x :: x in conflicts ==> x < events[0].eventIndex)
  {
    RunFits(base, cap, actions, j);
  }

  /** After a third conflict, or any other error, the envelope is never stored, whatever happens later. */
  lemma FailedIsNeverStored(base: seq<Event>, cap: nat, actions: seq<Action>, more: seq<Action>, j: nat)
    requires |base| <= cap && Failed(StoryOf(Init(base, cap), actions, j))
    ensures StoredFor(Run(Init(base, cap), actions + more).log, j) == []
  {
    FailedStays(Init(base, cap), actions, more, j);
    RunFits(base, cap, actions + more, j);
  }

  lemma {:induction false} FailedStays(s: State, actions: seq<Action>, more: seq<Action>, j: nat)
    requires Failed(StoryOf(s, actions, j))
    ensures Failed(StoryOf(s, actions + more, j))
  {
    if more == [] {
      assert actions + more == actions;
    } else {
      FailedStays(s, actions, DropLast(more), j);
      assert DropLast(actions + more) == actions + DropLast(more);
    }
  }

  // ------------------------------------------------------ nothing stalls or is lost, in every run

  ghost predicate InLog(s: State, j: nat) {
    exists e :: e in s.log && e.job == j
  }

  /** The chain points backwards, and what is being published is in the log. */
  ghost predicate Sound(s: State) {
    && (s.tail.Some? ==> s.tail.value < |s.jobs|)
    && (forall j :: 0 <= j < |s.jobs| && s.jobs[j].prev.Some? ==> s.jobs[j].prev.value < j)
    && (forall j :: 0 <= j < |s.jobs| && s.jobs[j].phase.Publishing? ==> InLog(s, j))
  }

  lemma InsertIsSound(s: State, j: nat, id: int)
    requires Sound(s)
    ensures Sound(Step(s, InsertOk(j, id)))
  {
    if At(s, j) && s.jobs[j].phase.Inserting? {
      var t := Step(s, InsertOk(j, id));
      assert Last(t.log).job == j && Last(t.log) in t.log;
      forall i | 0 <= i < |t.jobs| && t.jobs[i].phase.Publishing? ensures InLog(t, i) {
        if i != j {
          assert InLog(s, i);
          var e :| e in s.log && e.job == i;
          assert e in t.log;
        }
      }
    }
  }

  lemma StepIsSound(s: State, a: Action)
    requires Sound(s)
    ensures Sound(Step(s, a))
  {
    if a.InsertOk? {
      InsertIsSound(s, a.j, a.id);
    } else {
      var t := Step(s, a);
      assert t.log == s.log && |s.jobs| <= |t.jobs|;
      forall i | 0 <= i < |t.jobs| && t.jobs[i].phase.Publishing? ensures InLog(t, i) {
        assert InLog(s, i);
      }
    }
  }

  /** What the session's table holds is not yet cleaned up. */
  predicate TableIsTidy(s: State) {
    s.tail.Some? ==> At(s, s.tail.value) && !s.jobs[s.tail.value].phase.CleanedUp?
  }

  lemma {:induction false} RunIsTidy(base: seq<Event>, cap: nat, actions: seq<Action>)
    ensures TableIsTidy(Run(Init(base, cap), actions))
  {
    if actions != [] {
      RunIsTidy(base, cap, DropLast(actions));
    }
  }

  lemma {:induction false} RunIsSound(base: seq<Event>, cap: nat, actions: seq<Action>)
    ensures Sound(Run(Init(base, cap), actions))
  {
    if actions != [] {
      RunIsSound(base, cap, DropLast(actions));
      StepIsSound(Run(Init(base, cap), DropLast(actions)), Last(actions));
    }
  }

  /** The first envelope that is not over. */
  ghost predicate FirstUnfinished(s: State, j: nat) {
    At(s, j) && !Finished(s.jobs[j]) && forall i :: 0 <= i < j ==> Finished(s.jobs[i])
  }

  /**
   * In every run, failures and disposals included: the first unfinished
   * envelope, if there is any, is at work or may start, so a failed write never
   * holds up the ones after it; an envelope that gets as far as its listeners
   * has been stored; and what the session's table holds is not yet cleaned up.
   */
  lemma ChainNeverStalls(base: seq<Event>, cap: nat, actions: seq<Action>)
    ensures var s := Run(Init(base, cap), actions);
      && (forall j: nat :: FirstUnfinished(s, j) ==> CanStart(s, j) || Active(s.jobs[j]))
      && ((forall j: nat :: !FirstUnfinished(s, j)) ==> forall j :: 0 <= j < |s.jobs| ==> Finished(s.jobs[j]))
      && (forall j :: 0 <= j < |s.jobs| && s.jobs[j].phase.Publishing? ==> InLog(s, j))
      && TableIsTidy(s)
  {
    RunIsSound(base, cap, actions);
    RunIsTidy(base, cap, actions);
    OneIsFirst(Run(Init(base, cap), actions));
  }

  lemma OneIsFirst(s: State)
    ensures (forall j: nat :: !FirstUnfinished(s, j)) ==> forall j :: 0 <= j < |s.jobs| ==> Finished(s.jobs[j])
  {
    if forall j: nat :: !FirstUnfinished(s, j) {
      for k := 0 to |s.jobs|
        invariant forall i :: 0 <= i < k ==> Finished(s.jobs[i])
      {
        assert !FirstUnfinished(s, k);
      }
    }
  }

  // ------------------------------------------------- order, as long as nothing is disposed

  predicate Started(job: Job) {
    !job.phase.Queued?
  }

  /** Waiting for a seed that failed: such an envelope can only end, with nothing stored. */
  predicate Doomed(s: State, j: nat) {
    At(s, j) && s.jobs[j].phase.WaitingSeed? && s.jobs[j].phase.seed < |s.seeds|
    && (s.seeds[s.jobs[j].phase.seed].ScanFailed? || s.seeds[s.jobs[j].phase.seed].SeedFailed?)
  }

  /** Over; or, `loosely`, past the point where anything of it can still be stored. */
  predicate Past(s: State, j: nat, loosely: bool)
    requires At(s, j)
  {
    Finished(s.jobs[j]) || (loosely && (s.jobs[j].phase.Publishing? || Doomed(s, j)))
  }

  /** The promise chain: an envelope may start only when all earlier ones are past. */
  ghost predicate ChainOf(s: State, loosely: bool) {
    && (s.tail.Some? ==> s.tail.value == |s.jobs| - 1)
    && (s.tail.None? ==> forall j: nat :: j < |s.jobs| ==> Past(s, j, loosely))
    && (forall j: nat :: j < |s.jobs| && s.jobs[j].prev.Some? ==> s.jobs[j].prev.value == j - 1)
    && (forall i: nat, j: nat :: i < j < |s.jobs| && s.jobs[j].prev.None? ==> Past(s, i, loosely))
    && (forall i: nat, j: nat :: i < j < |s.jobs| && Started(s.jobs[j]) ==> Past(s, i, loosely))
  }

  ghost predicate Chain(s: State) {
    ChainOf(s, false)
  }

  ghost predicate InOrder(log: seq<Entry>) {
    forall p, q :: 0 <= p < q < |log| ==> log[p].job < log[q].job && log[p].event.eventIndex < log[q].event.eventIndex
  }

  ghost predicate LogInv(s: State) {
    && InOrder(s.log)
    && (forall e :: e in s.log ==> At(s, e.job) && (s.jobs[e.job].phase.Publishing? || Finished(s.jobs[e.job])))
    && (forall j, e :: 0 <= j < |s.jobs| && s.jobs[j].phase.Inserting? && e in s.log ==>
        e.event.eventIndex < s.jobs[j].phase.index)
  }

  /** Phases that are past waiting in the queue and not yet over. */
  predicate Active(job: Job) {
    Started(job) && !Finished(job)
  }

  ghost predicate OneActive(s: State) {
    forall i, j :: 0 <= i < j < |s.jobs| ==> !(Active(s.jobs[i]) && Active(s.jobs[j]))
  }

  lemma ChainIsOneActive(s: State)
    requires Chain(s)
    ensures OneActive(s)
  {
    forall i: nat, j: nat | i < j < |s.jobs| && Started(s.jobs[j]) ensures Finished(s.jobs[i]) {
      assert Past(s, i, false);
    }
  }

  predicate JobAction(a: Action) {
    a.Start? || a.SeedWake? || a.TakeIndex? || a.InsertOk? || a.InsertConflict? || a.InsertError? || a.Published?
  }

  /** A step of one envelope changes only that envelope's phase, and it was that envelope's turn. */
  ghost predicate MovesOnly(s: State, t: State, j: nat) {
    && t.tail == s.tail
    && (t.jobs == s.jobs
        || (At(s, j) && (Active(s.jobs[j]) || CanStart(s, j)) && |t.jobs| == |s.jobs| && !t.jobs[j].phase.Queued?
            && t.jobs == s.jobs[j := s.jobs[j].(phase := t.jobs[j].phase)]))
  }

  lemma JobActionsMoveOneJob(s: State, a: Action)
    requires JobAction(a)
    ensures MovesOnly(s, Step(s, a), a.j)
  {
  }

  ghost predicate PastStays(s: State, t: State, loosely: bool) {
    |s.jobs| <= |t.jobs| && forall i: nat :: i < |s.jobs| && Past(s, i, loosely) ==> Past(t, i, loosely)
  }

  lemma JobActionsKeepPast(s: State, a: Action, loosely: bool)
    requires JobAction(a)
    ensures PastStays(s, Step(s, a), loosely)
  {
  }

  lemma OtherActionsKeepPast(s: State, a: Action, loosely: bool)
    requires !JobAction(a)
    ensures PastStays(s, Step(s, a), loosely)
  {
  }

  lemma MoveKeepsChain(s: State, t: State, j: nat, loosely: bool)
    requires ChainOf(s, loosely) && MovesOnly(s, t, j) && PastStays(s, t, loosely)
    ensures ChainOf(t, loosely)
  {
    if t.jobs != s.jobs {
      forall i: nat | i < j ensures Past(s, i, loosely) {
        if s.jobs[j].prev.Some? && i < j - 1 {
          assert Finished(s.jobs[j - 1]) || Started(s.jobs[j]);
        }
      }
    }
  }

  lemma EnqueueKeepsChain(s: State, loosely: bool)
    requires ChainOf(s, loosely) && PastStays(s, Step(s, Enqueue), loosely)
    ensures ChainOf(Step(s, Enqueue), loosely)
  {
    var t := Step(s, Enqueue);
    assert forall i :: 0 <= i < |s.jobs| ==> t.jobs[i] == s.jobs[i];
  }

  lemma CleanupKeepsChain(s: State, j: nat, loosely: bool)
    requires ChainOf(s, loosely) && PastStays(s, Step(s, Cleanup(j)), loosely)
    ensures ChainOf(Step(s, Cleanup(j)), loosely)
  {
    if At(s, j) && s.jobs[j].phase.Done? {
      var t := Step(s, Cleanup(j));
      assert forall i :: 0 <= i < |s.jobs| ==>
          Started(t.jobs[i]) == Started(s.jobs[i]) && t.jobs[i].prev == s.jobs[i].prev;
      if s.tail == Some(j) {
        assert Started(s.jobs[j]);
      }
    }
  }

  lemma StepKeepsChain(s: State, a: Action, loosely: bool)
    requires ChainOf(s, loosely) && !a.Dispose?
    ensures ChainOf(Step(s, a), loosely)
  {
    if JobAction(a) {
      JobActionsMoveOneJob(s, a);
      JobActionsKeepPast(s, a, loosely);
      MoveKeepsChain(s, Step(s, a), a.j, loosely);
    } else {
      OtherActionsKeepPast(s, a, loosely);
      if a.Enqueue? {
        EnqueueKeepsChain(s, loosely);
      } else if a.Cleanup? {
        CleanupKeepsChain(s, a.j, loosely);
      }
    }
  }

  /** No other envelope is inserting, and none behind this one has started. */
  ghost predicate Alone(s: State, j: nat) {
    && (forall i :: 0 <= i < |s.jobs| && i != j ==> !s.jobs[i].phase.Inserting?)
    && (forall i :: j < i < |s.jobs| ==> !Started(s.jobs[i]))
  }

  lemma InsertingIsAlone(s: State, j: nat, loosely: bool)
    requires ChainOf(s, loosely) && At(s, j) && s.jobs[j].phase.Inserting?
    ensures Alone(s, j)
  {
    assert !Past(s, j, loosely);
    forall i: nat | i < j ensures !s.jobs[i].phase.Inserting? {
      assert Past(s, i, loosely);
    }
  }

  /** A step that stores nothing and starts no insert. */
  ghost predicate Quiet(s: State, t: State) {
    && t.log == s.log && |t.jobs| >= |s.jobs|
    && (forall i :: 0 <= i < |s.jobs| && (s.jobs[i].phase.Publishing? || Finished(s.jobs[i]))
          ==> t.jobs[i].phase.Publishing? || Finished(t.jobs[i]))
    && (forall i :: 0 <= i < |t.jobs| && t.jobs[i].phase.Inserting? ==> i < |s.jobs| && t.jobs[i] == s.jobs[i])
  }

  lemma QuietKeepsLog(s: State, t: State)
    requires LogInv(s) && Quiet(s, t)
    ensures LogInv(t)
  {
  }

  lemma OtherActionsAreQuiet(s: State, a: Action)
    requires !a.InsertOk? && !a.TakeIndex?
    ensures Quiet(s, Step(s, a))
  {
  }

  lemma LogOneMore(log: seq<Entry>, entry: Entry)
    requires InOrder(log) && forall e :: e in log ==> e.job < entry.job && e.event.eventIndex < entry.event.eventIndex
    ensures InOrder(log + [entry]) && forall e :: e in log + [entry] ==> e in log || e == entry
  {
  }

  lemma InsertKeepsLog(s: State, j: nat, id: int)
    requires LogInv(s) && (At(s, j) && s.jobs[j].phase.Inserting? ==> Alone(s, j))
    ensures LogInv(Step(s, InsertOk(j, id)))
  {
    if At(s, j) && s.jobs[j].phase.Inserting? {
      var t := Step(s, InsertOk(j, id));
      forall e | e in s.log ensures e.job < j {
        assert Started(s.jobs[e.job]);
      }
      LogOneMore(s.log, Last(t.log));
    }
  }

  lemma TakeIndexKeepsLog(s: State, j: nat)
    requires Inv(s) && LogInv(s)
    ensures LogInv(Step(s, TakeIndex(j)))
  {
    if At(s, j) && s.jobs[j].phase.Seeded? {
      forall e | e in s.log ensures e.event.eventIndex < s.next.value {
        assert e.event.eventIndex in s.taken;
      }
    }
  }

  lemma StepKeepsLog(s: State, a: Action, loosely: bool)
    requires Inv(s) && ChainOf(s, loosely) && LogInv(s)
    ensures LogInv(Step(s, a))
  {
    if a.InsertOk? {
      if At(s, a.j) && s.jobs[a.j].phase.Inserting? {
        InsertingIsAlone(s, a.j, loosely);
      }
      InsertKeepsLog(s, a.j, a.id);
    } else if a.TakeIndex? {
      TakeIndexKeepsLog(s, a.j);
    } else {
      OtherActionsAreQuiet(s, a);
      QuietKeepsLog(s, Step(s, a));
    }
  }

  /** From any state in which the chain holds, until a dispose. */
  lemma {:induction false} OrderContinues(s: State, actions: seq<Action>, loosely: bool)
    requires Inv(s) && ChainOf(s, loosely) && LogInv(s) && Dispose !in actions
    ensures ChainOf(Run(s, actions), loosely) && LogInv(Run(s, actions))
  {
    if actions != [] {
      OrderContinues(s, DropLast(actions), loosely);
      InvContinues(s, DropLast(actions));
      StepKeepsChain(Run(s, DropLast(actions)), Last(actions), loosely);
      StepKeepsLog(Run(s, DropLast(actions)), Last(actions), loosely);
    }
  }

  lemma {:induction false} EventsAt(log: seq<Entry>)
    ensures |Events(log)| == |log| && forall i :: 0 <= i < |log| ==> Events(log)[i] == log[i].event
  {
    if log != [] {
      EventsAt(DropLast(log));
    }
  }

  /** Everything the session ever stored: what was there, then what this client wrote. */
  function Written(s: State): seq<Event> {
    s.base + Events(s.log)
  }

  lemma WrittenIsIncreasing(s: State)
    requires Inv(s) && LogInv(s) && IncreasingIndexes(s.base)
    ensures IncreasingIndexes(Written(s))
  {
    EventsAt(s.log);
    MaxIndexBounds(s.base);
    var all := Written(s);
    forall i, j | 0 <= i < j < |all| ensures all[i].eventIndex < all[j].eventIndex {
      if i < |s.base| <= j {
        assert s.log[j - |s.base|] in s.log;
        assert all[j].eventIndex in s.taken;
        assert s.base[i] in s.base;
      }
    }
  }

  /**
   * Until a dispose, in every run and whatever fails: at most one envelope is
   * being persisted at a time, events are stored in arrival order, and the
   * stored indexes strictly increase.
   */
  lemma LogIsInArrivalOrder(base: seq<Event>, cap: nat, actions: seq<Action>)
    requires |base| <= cap && cap >= 1 && Dispose !in actions && IncreasingIndexes(base)
    ensures var s := Run(Init(base, cap), actions);
      && OneActive(s)
      && InOrder(s.log)
      && IncreasingIndexes(Stored(s))
  {
    RunKeepsInv(base, cap, actions);
    OrderContinues(Init(base, cap), actions, false);
    var s := Run(Init(base, cap), actions);
    ChainIsOneActive(s);
    WrittenIsIncreasing(s);
    TrimmingKeepsTheHighest(Written(s), cap);
  }

  /**
   * A later client on the same store hands out only indexes above everything
   * the first client ever stored, trimmed away or not.
   */
  lemma LaterClientContinuesAbove(base: seq<Event>, cap: nat, first: seq<Action>, second: seq<Action>)
    requires |base| <= cap && cap >= 1 && Dispose !in first && IncreasingIndexes(base)
    ensures var s := Run(Init(base, cap), first);
      |Stored(s)| <= cap
      && forall x, e :: x in Run(Init(Stored(s), cap), second).taken && e in Written(s) ==> x > e.eventIndex
  {
    RunKeepsInv(base, cap, first);
    OrderContinues(Init(base, cap), first, false);
    var s := Run(Init(base, cap), first);
    WrittenIsIncreasing(s);
    TrimmingKeepsTheHighest(Written(s), cap);
    RunKeepsInv(Stored(s), cap, second);
    MaxIndexBounds(Written(s));
  }
}
