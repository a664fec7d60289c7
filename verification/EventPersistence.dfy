/**
 * The agent object's side of event persistence: its maps are keyed by session
 * id, and every method works on one session's entries. Each method is one step
 * of that session's log and leaves all other sessions alone.
 */
module EventPersistence {
  import opened Prelude
  import opened SessionStore
  import opened SessionLog

  /** What is suspended or recorded for one session, outside the maps of the object. */
  datatype Work = Work(seeds: seq<Seed>, jobs: seq<Job>, taken: seq<int>, log: seq<Entry>)

  const IDLE: Work := Work([], [], [], [])

  class EventPersister {
    var nextSessionEventIndexBySession: map<string, int>
    var seedSessionEventIndexBySession: map<string, nat>
    var pendingObservedEnvelopePersistenceBySession: map<string, nat>
    var work: map<string, Work>
    /** What the store held of each session when the object was made, and the store's cap. */
    ghost const base: map<string, seq<Event>>
    ghost const cap: nat

    constructor (ghost base: map<string, seq<Event>>, ghost cap: nat)
      ensures this.base == base && this.cap == cap
      ensures forall id :: View(id) == Init(if id in base then base[id] else [], cap)
    {
      nextSessionEventIndexBySession, seedSessionEventIndexBySession := map[], map[];
      pendingObservedEnvelopePersistenceBySession, work := map[], map[];
      this.base, this.cap := base, cap;
    }

    function WorkOf(id: string): Work
      reads this`work
    {
      if id in work then work[id] else IDLE
    }

    ghost function View(id: string): State
      reads this
    {
      var w := WorkOf(id);
      State(if id in base then base[id] else [], cap,
            Lookup(nextSessionEventIndexBySession, id), Lookup(seedSessionEventIndexBySession, id),
            w.seeds, Lookup(pendingObservedEnvelopePersistenceBySession, id), w.jobs, w.taken, w.log)
    }

    /** The synchronous part of enqueueObservedEnvelopePersistence: chain behind the pending promise and become it. */
    method Enqueue(id: string)
      modifies this
      ensures View(id) == Step(old(View(id)), SessionLog.Enqueue)
      ensures forall other :: other != id ==> View(other) == old(View(other))
    {
      var previous := Lookup(pendingObservedEnvelopePersistenceBySession, id);
      var current := |WorkOf(id).jobs|;
      work := work[id := WorkOf(id).(jobs := WorkOf(id).jobs + [Job(previous, Queued)])];
      pendingObservedEnvelopePersistenceBySession := pendingObservedEnvelopePersistenceBySession[id := current];
    }

    method SetPhase(id: string, j: nat, phase: Phase)
      requires j < |WorkOf(id).jobs|
      modifies this`work
      ensures View(id) == SessionLog.SetPhase(old(View(id)), j, phase)
      ensures forall other :: other != id ==> View(other) == old(View(other))
    {
      work := work[id := WorkOf(id).(jobs := WorkOf(id).jobs[j := WorkOf(id).jobs[j].(phase := phase)])];
    }

    /** ensureSessionEventIndexSeeded up to its await, called for attempt `attempt` of envelope `j`. */
    method EnsureSeeded(id: string, j: nat, attempt: nat)
      requires j < |WorkOf(id).jobs|
      modifies this
      ensures View(id) == BeginAllocate(old(View(id)), j, attempt)
      ensures forall other :: other != id ==> View(other) == old(View(other))
    {
      if id in nextSessionEventIndexBySession {
        SetPhase(id, j, Seeded(attempt));
        return;
      }
      if id !in seedSessionEventIndexBySession {
        var pending := |WorkOf(id).seeds|;
        work := work[id := WorkOf(id).(seeds := WorkOf(id).seeds + [Scanning])];
        seedSessionEventIndexBySession := seedSessionEventIndexBySession[id := pending];
      }
      SetPhase(id, j, WaitingSeed(attempt, seedSessionEventIndexBySession[id]));
    }

    /** The chained promise has settled: persistObservedEnvelope begins with its first attempt. */
    method StartPersisting(id: string, j: nat)
      requires CanStart(View(id), j)
      modifies this
      ensures View(id) == Step(old(View(id)), Start(j))
      ensures forall other :: other != id ==> View(other) == old(View(other))
    {
      EnsureSeeded(id, j, 0);
    }

    /** The scan of seed `k` is over; on success the counter starts above the highest stored index. */
    method SeedScanned(id: string, k: nat, ok: bool, maxPersistedIndex: int)
      requires k < |WorkOf(id).seeds| && WorkOf(id).seeds[k].Scanning?
      requires ok ==> maxPersistedIndex == MaxIndex(Stored(View(id)))
      modifies this
      ensures View(id) == Step(old(View(id)), Scanned(k, ok))
      ensures forall other :: other != id ==> View(other) == old(View(other))
    {
      work := work[id := WorkOf(id).(seeds := WorkOf(id).seeds[k := if ok then ScanOk else ScanFailed])];
      if ok {
        nextSessionEventIndexBySession := nextSessionEventIndexBySession[id := Max(1, maxPersistedIndex + 1)];
      }
    }

    /** The seed's `finally`, which deletes whatever seed is in the map. */
    method SeedSettled(id: string, k: nat)
      requires k < |WorkOf(id).seeds| && (WorkOf(id).seeds[k].ScanOk? || WorkOf(id).seeds[k].ScanFailed?)
      modifies this
      ensures View(id) == Step(old(View(id)), SeedFinally(k))
      ensures forall other :: other != id ==> View(other) == old(View(other))
    {
      var settled := if WorkOf(id).seeds[k].ScanOk? then SeedOk else SeedFailed;
      work := work[id := WorkOf(id).(seeds := WorkOf(id).seeds[k := settled])];
      seedSessionEventIndexBySession := seedSessionEventIndexBySession - {id};
    }

    /** The rest of allocateSessionEventIndex. */
    method AllocateIndex(id: string, j: nat) returns (index: int)
      requires j < |WorkOf(id).jobs| && WorkOf(id).jobs[j].phase.Seeded?
      modifies this
      ensures View(id) == Step(old(View(id)), TakeIndex(j))
      ensures View(id).taken == old(View(id)).taken + [index]
      ensures forall other :: other != id ==> View(other) == old(View(other))
    {
      index := if id in nextSessionEventIndexBySession then nextSessionEventIndexBySession[id] else 1;
      nextSessionEventIndexBySession := nextSessionEventIndexBySession[id := index + 1];
      work := work[id := WorkOf(id).(taken := WorkOf(id).taken + [index])];
      SetPhase(id, j, Inserting(WorkOf(id).jobs[j].phase.attempt, index));
    }

    /** An insert attempt has come back. */
    method InsertSettled(id: string, j: nat, a: Action)
      requires j < |WorkOf(id).jobs| && WorkOf(id).jobs[j].phase.Inserting?
      requires a == InsertConflict(j) || a == InsertError(j) || (a.InsertOk? && a.j == j)
      modifies this
      ensures View(id) == Step(old(View(id)), a)
      ensures forall other :: other != id ==> View(other) == old(View(other))
    {
      var phase := WorkOf(id).jobs[j].phase;
      if a.InsertOk? {
        work := work[id := WorkOf(id).(log := WorkOf(id).log + [Entry(j, Event(a.id, phase.index, ""))])];
        SetPhase(id, j, Publishing);
      } else if a.InsertConflict? && phase.attempt + 1 < MAX_EVENT_INDEX_INSERT_RETRIES {
        EnsureSeeded(id, j, phase.attempt + 1);
      } else {
        SetPhase(id, j, Done);
      }
    }

    /** The `finally` of enqueueObservedEnvelopePersistence: forget the promise unless a newer one took its place. */
    method PersistenceSettled(id: string, j: nat)
      requires j < |WorkOf(id).jobs| && WorkOf(id).jobs[j].phase.Done?
      modifies this
      ensures View(id) == Step(old(View(id)), Cleanup(j))
      ensures forall other :: other != id ==> View(other) == old(View(other))
    {
      if id in pendingObservedEnvelopePersistenceBySession && pendingObservedEnvelopePersistenceBySession[id] == j {
        pendingObservedEnvelopePersistenceBySession := pendingObservedEnvelopePersistenceBySession - {id};
      }
      SetPhase(id, j, CleanedUp);
    }

    /** The line of dispose that touches persistence: all chains are forgotten at once. */
    method ForgetChains()
      modifies this
      ensures forall id :: View(id) == Step(old(View(id)), Dispose)
    {
      pendingObservedEnvelopePersistenceBySession := map[];
    }
  }
}
