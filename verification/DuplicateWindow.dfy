/**
 * The transport's filter for repeated JSON-RPC responses. The source keeps a
 * set of ids together with a queue; the model states what the pair must mean:
 * a response is let through unless its id is among the last 2048 response ids
 * let through before it.
 */
module DuplicateWindow {
  import opened Prelude

  const WINDOW: nat := 2048

  /** The `id` member: left out, JSON null, or a value with its `String(id)` text. */
  datatype IdField = Absent | Null | Value(text: string)

  /** What the filter can see of a parsed JSON value. */
  datatype Envelope =
    | NotAnObject(raw: string)
    | Object(hasMethod: bool, hasResult: bool, hasError: bool, id: IdField, body: string)

  /** The id of a JSON-RPC response, or None for requests, notifications and anything else. */
  function ResponseEnvelopeId(m: Envelope): Option<string> {
    match m
    case NotAnObject(_) => None
    case Object(hasMethod, hasResult, hasError, id, _) =>
      if hasMethod then None
      else if !hasResult && !hasError then None
      else if id.Absent? || id.Null? then None
      else Some(id.text)
  }

  /** The id the filter works with; an empty id text is falsy and never filtered. */
  function FilterId(m: Envelope): Option<string> {
    var id := ResponseEnvelopeId(m);
    if id == Some("") then None else id
  }

  /**
   * A JSON-RPC response to the request `id`: an object with a result or an
   * error, without a method, whose id reads as `id`.
   */
  predicate Answers(m: Envelope, id: string) {
    m.Object? && !m.hasMethod && (m.hasResult || m.hasError) && m.id == Value(id)
  }

  /** Requests, notifications, other values, and responses whose id is missing, null or reads as nothing. */
  predicate IsNoAnswer(m: Envelope) {
    || m.NotAnObject?
    || m.hasMethod
    || (!m.hasResult && !m.hasError)
    || m.id.Absent? || m.id.Null? || m.id == Value("")
  }

  /** The filter concerns itself with responses, all of them, and with nothing else. */
  lemma FilterIdIs(m: Envelope)
    ensures forall id :: FilterId(m) == Some(id) <==> Answers(m, id) && id != ""
    ensures FilterId(m).None? <==> IsNoAnswer(m)
  {
  }

  /** The plain scan that the set and the queue implement. */
  predicate Accepts(accepted: seq<string>, m: Envelope) {
    FilterId(m).None? || FilterId(m).value !in LastN(accepted, WINDOW)
  }

  function Remember(accepted: seq<string>, m: Envelope): seq<string> {
    if FilterId(m).Some? && Accepts(accepted, m) then accepted + [FilterId(m).value] else accepted
  }

  /** The response ids of a list of envelopes, in order. */
  function Ids(ms: seq<Envelope>): seq<string> {
    if ms == [] then []
    else Ids(DropLast(ms)) + (if FilterId(Last(ms)).Some? then [FilterId(Last(ms)).value] else [])
  }

  /** What comes out of the filter when `arrivals` go in, starting with an empty window. */
  function Delivered(arrivals: seq<Envelope>): seq<Envelope> {
    if arrivals == [] then []
    else
      var before := Delivered(DropLast(arrivals));
      if Accepts(Ids(before), Last(arrivals)) then before + [Last(arrivals)] else before
  }

  /** The envelopes that are no answers to anything, in order. */
  function NoAnswers(ms: seq<Envelope>): seq<Envelope> {
    if ms == [] then []
    else NoAnswers(DropLast(ms)) + (if IsNoAnswer(Last(ms)) then [Last(ms)] else [])
  }

  /** The ids, other than `x`, that are answered among these envelopes. */
  ghost function OtherIds(ms: seq<Envelope>, x: string): set<string> {
    Elements(Ids(ms)) - {x}
  }

  lemma {:induction false} AnsweredIds(ms: seq<Envelope>, id: string)
    ensures id in Ids(ms) <==> id != "" && exists m :: m in ms && Answers(m, id)
  {
    if ms != [] {
      var before, m := DropLast(ms), Last(ms);
      AnsweredIds(before, id);
      FilterIdIs(m);
      assert ms == before + [m];
      assert forall x :: x in ms <==> x in before || x == m;
    }
  }

  /** The other ids are those that envelopes in the list answer, and no more. */
  lemma OtherIdsAreAnswered(ms: seq<Envelope>, x: string)
    ensures forall id :: id in OtherIds(ms, x) <==> id != x && id != "" && exists m :: m in ms && Answers(m, id)
  {
    forall id ensures id in OtherIds(ms, x) <==> id != x && id != "" && exists m :: m in ms && Answers(m, id) {
      AnsweredIds(ms, id);
    }
  }

  /** The two fields of the transport that make up the filter. */
  class ResponseFilter {
    var seenResponseIds: set<string>
    var seenResponseIdOrder: seq<string>
    /** Every response id let through so far, oldest first. */
    ghost var accepted: seq<string>

    ghost predicate Valid()
      reads this
    {
      && seenResponseIdOrder == LastN(accepted, WINDOW)
      && NoDuplicates(seenResponseIdOrder)
      && |seenResponseIdOrder| <= WINDOW
      && seenResponseIds == Elements(seenResponseIdOrder)
    }

    constructor ()
      ensures Valid() && accepted == []
    {
      seenResponseIds, seenResponseIdOrder, accepted := {}, [], [];
    }

    method Accept(m: Envelope) returns (deliver: bool)
      requires Valid()
      modifies this
      ensures Valid()
      ensures deliver == Accepts(old(accepted), m)
      ensures accepted == Remember(old(accepted), m)
    {
      deliver := true;
      var responseId := FilterId(m);
      if responseId.Some? {
        if responseId.value in seenResponseIds {
          return false;
        }
        WindowShift(accepted, responseId.value);
        QueueGrows(seenResponseIdOrder, responseId.value);
        seenResponseIds := seenResponseIds + {responseId.value};
        seenResponseIdOrder := seenResponseIdOrder + [responseId.value];
        accepted := accepted + [responseId.value];
        if |seenResponseIdOrder| > WINDOW {
          var oldest := seenResponseIdOrder[0];
          QueueShrinks(seenResponseIdOrder);
          seenResponseIdOrder := seenResponseIdOrder[1..];
          seenResponseIds := seenResponseIds - {oldest};
        }
      }
    }
  }

  lemma QueueGrows(queue: seq<string>, id: string)
    requires NoDuplicates(queue) && id !in Elements(queue)
    ensures NoDuplicates(queue + [id]) && Elements(queue + [id]) == Elements(queue) + {id}
  {
    assert forall k :: 0 <= k < |queue| ==> queue[k] in Elements(queue);
  }

  lemma QueueShrinks(queue: seq<string>)
    requires NoDuplicates(queue) && queue != []
    ensures NoDuplicates(queue[1..]) && Elements(queue[1..]) == Elements(queue) - {queue[0]}
  {
    assert queue == [queue[0]] + queue[1..];
    forall i, j | 0 <= i < j < |queue[1..]| ensures queue[1..][i] != queue[1..][j] {
      assert queue[1..][i] == queue[i + 1] && queue[1..][j] == queue[j + 1];
    }
    assert queue[0] !in queue[1..];
  }

  /** Appending one id to the history moves the window by one. */
  lemma WindowShift(accepted: seq<string>, id: string)
    ensures LastN(accepted + [id], WINDOW)
            == (var queue := LastN(accepted, WINDOW) + [id]; if |queue| > WINDOW then queue[1..] else queue)
  {
  }

  /** Every element of `ms` was let through by the window of those before it. */
  ghost predicate Legal(ms: seq<Envelope>) {
    forall j :: 0 <= j < |ms| ==> Accepts(Ids(ms[..j]), ms[j])
  }

  lemma LegalOneMore(ms: seq<Envelope>, m: Envelope)
    requires Legal(ms) && Accepts(Ids(ms), m)
    ensures Legal(ms + [m]) && Ids(ms + [m]) == Remember(Ids(ms), m)
  {
    var more := ms + [m];
    assert DropLast(more) == ms;
    forall j | 0 <= j < |more| ensures Accepts(Ids(more[..j]), more[j]) {
      assert more[..j] == ms[..j];
      assert ms[..|ms|] == ms;
    }
  }

  lemma {:induction false} DeliveredIsLegal(arrivals: seq<Envelope>)
    ensures Legal(Delivered(arrivals))
  {
    if arrivals != [] {
      DeliveredIsLegal(DropLast(arrivals));
      if Accepts(Ids(Delivered(DropLast(arrivals))), Last(arrivals)) {
        LegalOneMore(Delivered(DropLast(arrivals)), Last(arrivals));
      }
    }
  }

  lemma {:induction false} IdsOfConcat(a: seq<Envelope>, b: seq<Envelope>)
    ensures Ids(a + b) == Ids(a) + Ids(b)
  {
    if b == [] {
      assert a + b == a;
    } else {
      IdsOfConcat(a, DropLast(b));
      assert DropLast(a + b) == a + DropLast(b);
    }
  }

  /** A legal history never holds an id twice inside one window. */
  lemma {:induction false} WindowIsDuplicateFree(ms: seq<Envelope>)
    requires Legal(ms)
    ensures NoDuplicates(LastN(Ids(ms), WINDOW))
  {
    if ms != [] {
      var before := DropLast(ms);
      forall j | 0 <= j < |before| ensures Accepts(Ids(before[..j]), before[j]) {
        assert before[..j] == ms[..j];
      }
      WindowIsDuplicateFree(before);
      assert ms[..|ms| - 1] == before;
      if FilterId(Last(ms)).Some? {
        WindowShift(Ids(before), FilterId(Last(ms)).value);
      }
    }
  }

  /** If `x` has left a duplicate-free window, that many distinct other ids came after it. */
  lemma WindowPassed(before: seq<string>, x: string, after: seq<string>)
    requires NoDuplicates(LastN(before + [x] + after, WINDOW))
    requires x !in LastN(before + [x] + after, WINDOW)
    ensures |Elements(after) - {x}| >= WINDOW
  {
    var ids := before + [x] + after;
    var window := LastN(ids, WINDOW);
    assert ids[|before|] == x;
    forall k | Max(0, |ids| - WINDOW) <= k < |ids| ensures ids[k] in window {
      assert window[k - Max(0, |ids| - WINDOW)] == ids[k];
    }
    assert |before| < |ids| - WINDOW;
    assert window == after[|after| - WINDOW..];
    assert Elements(window) <= Elements(after) - {x};
    DistinctCardinality(window);
    SubsetCardinality(Elements(window), Elements(after) - {x});
  }

  /**
   * Between two deliveries of responses to one request at least 2048 others
   * are answered, all of them distinct.
   */
  lemma RedeliverySpacing(arrivals: seq<Envelope>, i: nat, j: nat, id: string)
    requires i < j < |Delivered(arrivals)| && id != ""
    requires Answers(Delivered(arrivals)[i], id) && Answers(Delivered(arrivals)[j], id)
    ensures |OtherIds(Delivered(arrivals)[i + 1..j], id)| >= 2048
  {
    DeliveredIsLegal(arrivals);
    LegalSpacing(Delivered(arrivals), i, j, id);
  }

  lemma LegalSpacing(d: seq<Envelope>, i: nat, j: nat, id: string)
    requires Legal(d) && i < j < |d| && id != ""
    requires Answers(d[i], id) && Answers(d[j], id)
    ensures |OtherIds(d[i + 1..j], id)| >= 2048
  {
    FilterIdIs(d[i]);
    FilterIdIs(d[j]);
    LegalPrefix(d, j);
    WindowIsDuplicateFree(d[..j]);
    assert Accepts(Ids(d[..j]), d[j]);
    IdsAround(d, i, j);
    WindowPassed(Ids(d[..i]), id, Ids(d[i + 1..j]));
  }

  lemma LegalPrefix(d: seq<Envelope>, j: nat)
    requires Legal(d) && j <= |d|
    ensures Legal(d[..j])
  {
    forall k | 0 <= k < j ensures Accepts(Ids(d[..j][..k]), d[..j][k]) {
      assert d[..j][..k] == d[..k];
    }
  }

  lemma IdsAround(d: seq<Envelope>, i: nat, j: nat)
    requires i < j <= |d| && FilterId(d[i]).Some?
    ensures Ids(d[..j]) == Ids(d[..i]) + [FilterId(d[i]).value] + Ids(d[i + 1..j])
  {
    assert d[..j] == (d[..i] + [d[i]]) + d[i + 1..j];
    IdsOfConcat(d[..i] + [d[i]], d[i + 1..j]);
    IdsOfConcat(d[..i], [d[i]]);
    assert DropLast([d[i]]) == [];
  }

  /** How many of these envelopes are responses that the filter concerns itself with. */
  function Responses(ms: seq<Envelope>): nat {
    if ms == [] then 0 else Responses(DropLast(ms)) + if IsNoAnswer(Last(ms)) then 0 else 1
  }

  lemma {:induction false} IdsAreCounted(ms: seq<Envelope>)
    ensures |Ids(ms)| == Responses(ms)
  {
    if ms != [] {
      IdsAreCounted(DropLast(ms));
      FilterIdIs(Last(ms));
    }
  }

  /** The envelope behind the id at position `p`. */
  lemma {:induction false} IdComesFrom(ms: seq<Envelope>, p: nat) returns (i: nat)
    requires p < |Ids(ms)|
    ensures i < |ms| && FilterId(ms[i]) == Some(Ids(ms)[p]) && |Ids(ms[..i])| == p
  {
    var before := DropLast(ms);
    if p < |Ids(before)| {
      i := IdComesFrom(before, p);
      assert before[..i] == ms[..i];
    } else {
      i := |ms| - 1;
    }
  }

  /** `d` has a response to `id` with fewer than 2048 responses after it. */
  ghost predicate AnsweredLately(d: seq<Envelope>, id: string) {
    exists i :: 0 <= i < |d| && Answers(d[i], id) && Responses(d[i + 1..]) < 2048
  }

  lemma InWindow(ids: seq<string>, id: string, n: nat)
    ensures id in LastN(ids, n) <==> exists p :: Max(0, |ids| - n) <= p < |ids| && ids[p] == id
  {
    var start := |ids| - |LastN(ids, n)|;
    if id in LastN(ids, n) {
      var q :| 0 <= q < |LastN(ids, n)| && LastN(ids, n)[q] == id;
      assert ids[start + q] == id;
    }
    forall p | Max(0, |ids| - n) <= p < |ids| && ids[p] == id ensures id in LastN(ids, n) {
      assert LastN(ids, n)[p - start] == id;
    }
  }

  lemma AfterIt(d: seq<Envelope>, i: nat, id: string)
    requires i < |d| && FilterId(d[i]) == Some(id)
    ensures Ids(d) == Ids(d[..i]) + [id] + Ids(d[i + 1..])
    ensures |Ids(d[i + 1..])| == Responses(d[i + 1..])
  {
    IdsAround(d, i, |d|);
    assert d[..|d|] == d && d[i + 1..|d|] == d[i + 1..];
    IdsAreCounted(d[i + 1..]);
  }

  /** An id is in the window if and only if it was answered lately. */
  lemma WindowIsLately(d: seq<Envelope>, id: string)
    requires id != ""
    ensures id in LastN(Ids(d), WINDOW) <==> AnsweredLately(d, id)
  {
    InWindow(Ids(d), id, WINDOW);
    if p: nat :| Max(0, |Ids(d)| - WINDOW) <= p < |Ids(d)| && Ids(d)[p] == id {
      var i := IdComesFrom(d, p);
      AfterIt(d, i, id);
      FilterIdIs(d[i]);
    }
    forall i | 0 <= i < |d| && Answers(d[i], id) && Responses(d[i + 1..]) < 2048 ensures id in LastN(Ids(d), WINDOW) {
      FilterIdIs(d[i]);
      AfterIt(d, i, id);
      assert Ids(d)[|Ids(d[..i])|] == id;
    }
  }

  /**
   * Exactly when a response is dropped: if a response to the same request was
   * let through and fewer than 2048 responses have been let through since.
   */
  lemma DroppedIffAnsweredLately(arrivals: seq<Envelope>, m: Envelope, id: string)
    requires Answers(m, id) && id != ""
    ensures Delivered(arrivals + [m]) ==
            if AnsweredLately(Delivered(arrivals), id) then Delivered(arrivals) else Delivered(arrivals) + [m]
  {
    HistoryIsDeliveredIds(arrivals, m);
    FilterIdIs(m);
    WindowIsLately(Delivered(arrivals), id);
  }

  /** One more arrival; the history kept by the filter stays exactly the list of response ids delivered so far. */
  lemma {:induction false} HistoryIsDeliveredIds(arrivals: seq<Envelope>, m: Envelope)
    ensures Delivered(arrivals + [m]) ==
        Delivered(arrivals) + (if Accepts(Ids(Delivered(arrivals)), m) then [m] else [])
    ensures Ids(Delivered(arrivals + [m])) == Remember(Ids(Delivered(arrivals)), m)
  {
    assert DropLast(arrivals + [m]) == arrivals;
    if Accepts(Ids(Delivered(arrivals)), m) {
      DeliveredIsLegal(arrivals);
      LegalOneMore(Delivered(arrivals), m);
    }
  }

  /** Deliveries keep arrival order, nothing is invented, and whatever is no answer comes out whole and in order. */
  lemma {:induction false} DeliveryOrder(arrivals: seq<Envelope>)
    ensures Subsequence(Delivered(arrivals), arrivals)
    ensures NoAnswers(Delivered(arrivals)) == NoAnswers(arrivals)
  {
    if arrivals != [] {
      DeliveryOrder(DropLast(arrivals));
      FilterIdIs(Last(arrivals));
      var before, d := Delivered(DropLast(arrivals)), Delivered(arrivals);
      if Accepts(Ids(before), Last(arrivals)) {
        assert DropLast(d) == before;
      }
    }
  }

  lemma LastIsFresh(ids: seq<string>, id: string)
    requires NoDuplicates(ids + [id])
    ensures NoDuplicates(ids) && id !in LastN(ids, WINDOW)
  {
    var longer := ids + [id];
    forall i, j | 0 <= i < j < |ids| ensures ids[i] != ids[j] {
      assert longer[i] == ids[i] && longer[j] == ids[j];
    }
    forall i | 0 <= i < |ids| ensures ids[i] != id {
      assert longer[i] != longer[|ids|];
    }
  }

  /** Without repeated response ids the filter is invisible. */
  lemma {:induction false} FreshResponsesPass(arrivals: seq<Envelope>)
    requires NoDuplicates(Ids(arrivals))
    ensures Delivered(arrivals) == arrivals
  {
    if arrivals != [] {
      var before, m := DropLast(arrivals), Last(arrivals);
      assert arrivals == before + [m];
      if FilterId(m).Some? {
        LastIsFresh(Ids(before), FilterId(m).value);
      } else {
        assert Ids(arrivals) == Ids(before);
      }
      FreshResponsesPass(before);
    }
  }
}
