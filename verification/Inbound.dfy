/**
 * The whole way in: from the text of the event streams, cut into reads, through
 * the splitter, the field parser and the filter, to what the consumer gets.
 * Reads come between all other actions of the transport; every response to a
 * GET is a stream of its own, with a buffer that lives as long as it is read.
 */
module Inbound {
  import opened Prelude
  import opened DuplicateWindow
  import opened SseText
  import opened SseEvents
  import opened Transport
  import opened TransportClass

  /** `JSON.parse`, together with what observer and stream do with the result: Malformed, or an arrival. */
  type Parser = string -> Body

  function ItemOf(chunk: string, parse: Parser): Item {
    Item(ChunkId(chunk), match ChunkPayload(chunk, "message") case None => NoBody case Some(p) => parse(p))
  }

  function ItemsOf(chunks: seq<string>, parse: Parser): seq<Item> {
    if chunks == [] then [] else ItemsOf(DropLast(chunks), parse) + [ItemOf(Last(chunks), parse)]
  }

  /** The events that a further read completes. */
  function NewEvents(parts: seq<string>): seq<string>
    requires parts != []
  {
    Split(ReadAll(DropLast(parts)).rest + Normalise(Last(parts))).events
  }

  // --------------------------------------------------------------- the objects

  /** The fields of all events that a read completed. */
  method ParseEvents(chunks: seq<string>, parse: Parser) returns (items: seq<Item>)
    ensures items == ItemsOf(chunks, parse)
  {
    items := [];
    for i := 0 to |chunks|
      invariant items == ItemsOf(chunks[..i], parse)
    {
      assert DropLast(chunks[..i + 1]) == chunks[..i];
      var id, payload := ProcessSseEvent(chunks[i]);
      var body := NoBody;
      if payload.Some? {
        body := parse(payload.value);
      }
      items := items + [Item(id, body)];
    }
    assert chunks[..|chunks|] == chunks;
  }

  /**
   * One pass of the reading loop, from the text of a read to the transport's
   * new state. Events are cut off first and handled afterwards; where the
   * source alternates, an event that throws ends the loop and its buffer.
   */
  method ConsumeRead(transport: StreamableHttpAcpTransport, reader: StreamReader, k: nat, read: string, parse: Parser)
    requires transport.Valid() && reader.Valid()
    modifies transport, transport.filter, reader
    ensures transport.Valid() && reader.Valid()
    ensures reader.received == old(reader.received) + Normalise(read)
    ensures old(reader.processed) <= reader.processed
    ensures var events := reader.processed[|old(reader.processed)|..];
      transport.View() == Step(old(transport.View()), ReadDone(k, ItemsOf(events, parse)))
  {
    var before := |reader.processed|;
    reader.Feed(read);
    var items := ParseEvents(reader.processed[before..], parse);
    transport.ReadSettled(k, items);
  }

  // ------------------------------------------------------------- runs over text

  type Json = string -> Option<Envelope>

  /** What is done with a payload during one read: the envelopes that observer or stream will not take are given. */
  function ParserOf(json: Json, throwing: set<Envelope>, failing: set<Envelope>): Parser {
    p => match json(p) case None => Malformed case Some(m) => Parsed(Arrival(m, m in throwing, m in failing))
  }

  /** A read of loop `k`, or any other action of the transport. */
  datatype TextAction =
    | Read(k: nat, text: string, throwing: set<Envelope>, failing: set<Envelope>)
    | Other(a: Action)

  /** One response to a GET: the loop that reads it, its reads so far, and the envelopes that came in with them. */
  datatype Stream = Stream(loop: nat, texts: seq<string>, came: seq<Envelope>)

  /** The transport after `actions`, its streams in the order in which they began, and each loop's latest stream. */
  datatype World = World(actions: seq<Action>, t: State, streams: seq<Stream>, current: map<nat, nat>)

  predicate Reads(w: World, k: nat, g: nat) {
    At(w.t, k, Reading) && Lookup(w.current, k) == Some(g) && g < |w.streams|
  }

  /** What came in between two states. */
  function Fresh(s: State, t: State): seq<Envelope> {
    var n := |Arrivals(s.trace)|;
    if n <= |Arrivals(t.trace)| then Arrivals(t.trace)[n..] else []
  }

  function DoRead(w: World, k: nat, g: nat, text: string, parse: Parser): World
    requires Reads(w, k, g)
  {
    var texts := w.streams[g].texts + [text];
    var a := ReadDone(k, ItemsOf(NewEvents(texts), parse));
    var t := Step(w.t, a);
    World(w.actions + [a], t, w.streams[g := Stream(w.streams[g].loop, texts, w.streams[g].came + Fresh(w.t, t))],
        w.current)
  }

  /** A GET that is answered begins a stream, with an empty buffer. */
  predicate BeginsStream(s: State, a: Action) {
    a.GetDone? && At(s, a.k, Fetching) && At(Step(s, a), a.k, Reading)
  }

  function DoOther(w: World, a: Action): World {
    var acted := w.(actions := w.actions + [a], t := Step(w.t, a));
    if BeginsStream(w.t, a)
    then acted.(streams := w.streams + [Stream(a.k, [], [])], current := w.current[a.k := |w.streams|])
    else acted
  }

  /** Actions that are not enabled change nothing; reads come as text only. */
  function TextStep(json: Json, w: World, ta: TextAction): World {
    match ta
    case Read(k, text, throwing, failing) =>
      if k in w.current && Reads(w, k, w.current[k])
      then DoRead(w, k, w.current[k], text, ParserOf(json, throwing, failing))
      else w
    case Other(a) => if a.ReadDone? then w else DoOther(w, a)
  }

  function TextRun(json: Json, bootstrap: bool, tas: seq<TextAction>): World {
    if tas == [] then World([], Init(bootstrap), [], map[])
    else TextStep(json, TextRun(json, bootstrap, DropLast(tas)), Last(tas))
  }

  function ParseAll(payloads: seq<string>, json: Json): seq<Envelope> {
    if payloads == [] then []
    else ParseAll(DropLast(payloads), json) + (if json(Last(payloads)).Some? then [json(Last(payloads)).value] else [])
  }

  /** The envelopes in a list of events. */
  function Carries(chunks: seq<string>, json: Json): seq<Envelope> {
    ParseAll(Payloads(chunks, "message"), json)
  }

  /** Every payload of the events is JSON. */
  ghost predicate WellFormedEvents(chunks: seq<string>, json: Json) {
    forall p :: p in Payloads(chunks, "message") ==> json(p).Some?
  }

  // --------------------------------------------------------------- what events bring

  function ArrivalsOf(items: seq<Item>): seq<Envelope> {
    if items == [] then []
    else ArrivalsOf(DropLast(items)) + (if Last(items).body.Parsed? then [Last(items).body.arrival.m] else [])
  }

  function LastItemId(items: seq<Item>, before: Option<string>): Option<string> {
    if items == [] then before
    else if Last(items).id.Some? then Last(items).id
    else LastItemId(DropLast(items), before)
  }

  lemma PushBrings(s: State, a: Arrival)
    ensures Arrivals(PushInbound(s, a).0.trace) == Arrivals(s.trace) + (if s.closed then [] else [a.m])
    ensures PushInbound(s, a).0.lastEventId == s.lastEventId && (s.closed ==> PushInbound(s, a).0.closed)
  {
    if !s.closed && Accepts(s.accepted, a.m) {
      var t := Emit(s, Arrived(a.m)).(accepted := Remember(s.accepted, a.m));
      var u := Emit(t, Swallowed(a.m));
      FailIsSilent(u);
      assert Arrivals(u.trace) == Arrivals(s.trace) + [a.m];
      assert Arrivals(FailReadable(u).trace) == IntakeOf(FailReadable(u).trace).arrivals == Arrivals(u.trace);
    }
  }

  /** One event: what comes in, and that nothing is missing unless it throws or the transport is closed. */
  lemma ItemBrings(s: State, item: Item)
    ensures var (t, threw) := ProcessItem(s, item);
      var arriving := if item.body.Parsed? then [item.body.arrival.m] else [];
      && Arrivals(t.trace) == Arrivals(s.trace) + (if s.closed then [] else arriving)
      && (item.body.Malformed? ==> threw)
      && t.lastEventId == (if item.id.Some? then item.id else s.lastEventId)
      && (s.closed ==> t.closed)
  {
    var u := SeeId(s, item.id);
    assert Arrivals(u.trace) == Arrivals(s.trace);
    if item.body.Parsed? {
      PushBrings(u, item.body.arrival);
    }
  }

  ghost predicate Brings(s: State, items: seq<Item>, t: State, threw: bool) {
    && (s.closed ==> t.closed && Arrivals(t.trace) == Arrivals(s.trace))
    && Arrivals(s.trace) <= Arrivals(t.trace) <= Arrivals(s.trace) + ArrivalsOf(items)
    && (!threw && !t.closed ==> Arrivals(t.trace) == Arrivals(s.trace) + ArrivalsOf(items))
    && (!threw ==> t.lastEventId == LastItemId(items, s.lastEventId) && forall i :: i in items ==> !i.body.Malformed?)
  }

  lemma BringsFirst(s: State, first: Item, rest: seq<Item>, t: State, u: State, threw: bool)
    requires ProcessItem(s, first) == (t, false) && Brings(t, rest, u, threw)
    ensures Brings(s, [first] + rest, u, threw)
  {
    ItemBrings(s, first);
    ArrivalsOfConcat([first], rest, s.lastEventId);
    assert DropLast([first]) == [];
    var arriving := if first.body.Parsed? then [first.body.arrival.m] else [];
    assert ArrivalsOf([first]) == arriving;
    Associate(Arrivals(s.trace), arriving, ArrivalsOf(rest));
  }

  lemma ThrowsFirst(s: State, first: Item, rest: seq<Item>, t: State)
    requires ProcessItem(s, first) == (t, true)
    ensures Brings(s, [first] + rest, t, true)
  {
    ItemBrings(s, first);
    ArrivalsOfConcat([first], rest, s.lastEventId);
    assert DropLast([first]) == [];
  }

  lemma {:induction false} ItemsBring(s: State, items: seq<Item>)
    ensures Brings(s, items, ProcessItems(s, items).0, ProcessItems(s, items).1)
    decreases |items|
  {
    if items != [] {
      var first, rest := items[0], items[1..];
      assert items == [first] + rest;
      var (t, threw) := ProcessItem(s, first);
      if threw {
        ThrowsFirst(s, first, rest, t);
      } else {
        ItemsBring(t, rest);
        BringsFirst(s, first, rest, t, ProcessItems(t, rest).0, ProcessItems(t, rest).1);
      }
    }
  }

  lemma {:induction false} ArrivalsOfConcat(a: seq<Item>, b: seq<Item>, before: Option<string>)
    ensures ArrivalsOf(a + b) == ArrivalsOf(a) + ArrivalsOf(b)
    ensures LastItemId(a + b, before) == LastItemId(b, LastItemId(a, before))
  {
    if b == [] {
      assert a + b == a;
    } else {
      ArrivalsOfConcat(a, DropLast(b), before);
      assert DropLast(a + b) == a + DropLast(b) && Last(a + b) == Last(b);
      Associate(ArrivalsOf(a), ArrivalsOf(DropLast(b)), if Last(b).body.Parsed? then [Last(b).body.arrival.m] else []);
    }
  }

  lemma {:induction false} PayloadsConcat(a: seq<string>, b: seq<string>)
    ensures Payloads(a + b, "message") == Payloads(a, "message") + Payloads(b, "message")
  {
    if b == [] {
      assert a + b == a;
    } else {
      PayloadsConcat(a, DropLast(b));
      assert DropLast(a + b) == a + DropLast(b);
    }
  }

  lemma {:induction false} ParseConcat(a: seq<string>, b: seq<string>, json: Json)
    ensures ParseAll(a + b, json) == ParseAll(a, json) + ParseAll(b, json)
  {
    if b == [] {
      assert a + b == a;
    } else {
      ParseConcat(a, DropLast(b), json);
      assert DropLast(a + b) == a + DropLast(b);
    }
  }

  lemma CarriesConcat(a: seq<string>, b: seq<string>, json: Json)
    ensures Carries(a + b, json) == Carries(a, json) + Carries(b, json)
    ensures WellFormedEvents(a + b, json) <==> WellFormedEvents(a, json) && WellFormedEvents(b, json)
  {
    PayloadsConcat(a, b);
    ParseConcat(Payloads(a, "message"), Payloads(b, "message"), json);
  }

  /** The items of a list of events bring what the events carry. */
  lemma {:induction false} ItemsCarry(chunks: seq<string>, json: Json, throwing: set<Envelope>, failing: set<Envelope>)
    ensures ArrivalsOf(ItemsOf(chunks, ParserOf(json, throwing, failing))) == Carries(chunks, json)
    ensures (forall i :: i in ItemsOf(chunks, ParserOf(json, throwing, failing)) ==> !i.body.Malformed?)
            <==> WellFormedEvents(chunks, json)
  {
    if chunks != [] {
      var before, last := DropLast(chunks), Last(chunks);
      var parse := ParserOf(json, throwing, failing);
      ItemsCarry(before, json, throwing, failing);
      var items := ItemsOf(chunks, parse);
      assert items == ItemsOf(before, parse) + [ItemOf(last, parse)];
      if ChunkPayload(last, "message").Some? {
        var p := ChunkPayload(last, "message").value;
        assert Payloads(chunks, "message") == Payloads(before, "message") + [p];
        assert DropLast(Payloads(chunks, "message")) == Payloads(before, "message");
      } else {
        assert Payloads(chunks, "message") == Payloads(before, "message");
      }
    }
  }

  lemma {:induction false} IdsAreKept(chunks: seq<string>, parse: Parser, before: Option<string>)
    ensures LastItemId(ItemsOf(chunks, parse), before) == LastId(chunks, before)
  {
    if chunks != [] {
      IdsAreKept(DropLast(chunks), parse, before);
      assert DropLast(ItemsOf(chunks, parse)) == ItemsOf(DropLast(chunks), parse);
    }
  }

  lemma EventsGrow(parts: seq<string>)
    requires parts != []
    ensures ReadAll(parts).events == ReadAll(DropLast(parts)).events + NewEvents(parts)
  {
    SplitAppend(NormaliseEach(DropLast(parts)), Normalise(Last(parts)));
  }

  // --------------------------------------------------------- every run, every stream

  /** What came in with a stream is what its text carries; less only if the loop left it or the transport closed. */
  ghost predicate StreamInv(json: Json, w: World, g: nat)
    requires g < |w.streams|
  {
    var st := w.streams[g];
    var events := ReadAll(st.texts).events;
    && st.came <= Carries(events, json)
    && (Reads(w, st.loop, g) && !w.t.closed ==> st.came == Carries(events, json) && WellFormedEvents(events, json))
  }

  ghost predicate LoopsInv(w: World) {
    && Inv(w.t)
    && (forall k: nat :: At(w.t, k, Reading) ==> k in w.current)
    && (forall k :: k in w.current ==> w.current[k] < |w.streams| && w.streams[w.current[k]].loop == k)
  }

  ghost predicate WorldInv(json: Json, w: World) {
    LoopsInv(w) && forall g: nat :: g < |w.streams| ==> StreamInv(json, w, g)
  }

  lemma WriteReads(s: State, observerThrows: bool, k: nat)
    requires At(DoWrite(s, observerThrows), k, Reading)
    ensures At(s, k, Reading)
  {
  }

  lemma PostLeavesLoops(s: State, outcome: PostOutcome)
    requires Core(s)
    ensures DoPostDone(s, outcome).loops == s.loops
  {
    FailKeeps(s);
    if outcome.PostReply? {
      PushKeeps(s, outcome.arrival);
      FailKeeps(PushInbound(s, outcome.arrival).0);
    }
  }

  /** Other actions make no loop read that was not reading, except by beginning a stream. */
  lemma OtherStepReads(s: State, a: Action, k: nat)
    requires Core(s) && !a.ReadDone? && At(Step(s, a), k, Reading)
    ensures At(s, k, Reading) || (BeginsStream(s, a) && a.k == k)
  {
    if a.Write? {
      WriteReads(s, a.observerThrows, k);
    } else if a.PostDone? {
      if s.posts > 0 {
        PostLeavesLoops(s.(posts := s.posts - 1), a.outcome);
      }
    } else if a.Close? || a.Cancel? || a.DeleteDone? {
      assert Step(s, a).loops == s.loops;
    } else {
      LoopActionReads(s, a, k);
    }
  }

  lemma LoopActionReads(s: State, a: Action, k: nat)
    requires a.GetDone? || a.ReadEnd? || a.ReadFailed? || a.DelayDone? || a.LoopFinally?
    requires At(Step(s, a), k, Reading)
    ensures At(s, k, Reading) || (BeginsStream(s, a) && a.k == k)
  {
  }

  lemma OtherKeepsWorld(json: Json, w: World, a: Action)
    requires WorldInv(json, w) && !a.ReadDone?
    ensures WorldInv(json, DoOther(w, a))
  {
    var v := DoOther(w, a);
    StepKeeps(w.t, a);
    forall k: nat | At(v.t, k, Reading) ensures k in v.current {
      OtherStepReads(w.t, a, k);
    }
    forall g: nat | g < |v.streams| ensures StreamInv(json, v, g) {
      if g < |w.streams| {
        assert StreamInv(json, w, g);
        if Reads(v, v.streams[g].loop, g) {
          OtherStepReads(w.t, a, v.streams[g].loop);
        }
      } else {
        NoBlankLine("");
      }
    }
  }

  lemma ReadBrings(s: State, k: nat, items: seq<Item>)
    requires At(s, k, Reading)
    ensures var t := Step(s, ReadDone(k, items));
      && Brings(s, items, t, !At(t, k, Reading))
      && (At(t, k, Reading) ==> !t.closed && t == ProcessItems(s, items).0)
  {
    ItemsBring(s, items);
  }

  /** Appending what came in to what had come in, when all of it is on the way. */
  lemma CameGrows(came: seq<Envelope>, carried: seq<Envelope>, arrived: seq<Envelope>, bringing: seq<Envelope>)
    requires came == carried && arrived <= bringing
    ensures came + arrived <= carried + bringing
  {
  }

  lemma FreshIs(s: State, items: seq<Item>, t: State, threw: bool)
    requires Brings(s, items, t, threw)
    ensures Fresh(s, t) <= ArrivalsOf(items)
    ensures s.closed ==> Fresh(s, t) == []
    ensures !threw && !t.closed ==> Fresh(s, t) == ArrivalsOf(items)
  {
  }

  lemma ReadKeepsStream(
    json: Json, w: World, k: nat, g: nat, text: string, throwing: set<Envelope>, failing: set<Envelope>)
    requires WorldInv(json, w) && Reads(w, k, g)
    ensures StreamInv(json, DoRead(w, k, g, text, ParserOf(json, throwing, failing)), g)
  {
    var st := w.streams[g];
    var texts := st.texts + [text];
    var items := ItemsOf(NewEvents(texts), ParserOf(json, throwing, failing));
    var t := Step(w.t, ReadDone(k, items));
    var carried, bringing := Carries(ReadAll(st.texts).events, json), Carries(NewEvents(texts), json);
    assert StreamInv(json, w, g) && st.loop == k && DropLast(texts) == st.texts;
    ReadBrings(w.t, k, items);
    FreshIs(w.t, items, t, !At(t, k, Reading));
    ItemsCarry(NewEvents(texts), json, throwing, failing);
    EventsGrow(texts);
    CarriesConcat(ReadAll(st.texts).events, NewEvents(texts), json);
    if w.t.closed {
      assert st.came + [] == st.came;
    } else {
      CameGrows(st.came, carried, Fresh(w.t, t), bringing);
    }
  }

  lemma ReadKeepsWorld(
    json: Json, w: World, k: nat, g: nat, text: string, throwing: set<Envelope>, failing: set<Envelope>)
    requires WorldInv(json, w) && Reads(w, k, g)
    ensures WorldInv(json, DoRead(w, k, g, text, ParserOf(json, throwing, failing)))
  {
    var v := DoRead(w, k, g, text, ParserOf(json, throwing, failing));
    StepKeeps(w.t, Last(v.actions));
    ReadKeepsLoops(w.t, k, Last(v.actions).items);
    ReadKeepsStream(json, w, k, g, text, throwing, failing);
    forall h: nat | h < |v.streams| && h != g ensures StreamInv(json, v, h) {
      assert StreamInv(json, w, h) && v.streams[h] == w.streams[h];
    }
  }

  lemma ReadKeepsLoops(s: State, k: nat, items: seq<Item>)
    requires Inv(s)
    ensures forall j: nat :: At(Step(s, ReadDone(k, items)), j, Reading) ==> At(s, j, Reading)
  {
    ItemsKeep(s, items);
  }

  lemma {:induction false} TextRunKeepsWorld(json: Json, bootstrap: bool, tas: seq<TextAction>)
    ensures WorldInv(json, TextRun(json, bootstrap, tas))
  {
    if tas == [] {
      RunKeepsInv(bootstrap, []);
    } else {
      TextRunKeepsWorld(json, bootstrap, DropLast(tas));
      var w := TextRun(json, bootstrap, DropLast(tas));
      match Last(tas) {
        case Read(k, text, throwing, failing) =>
          if k in w.current && Reads(w, k, w.current[k]) {
            ReadKeepsWorld(json, w, k, w.current[k], text, throwing, failing);
          }
        case Other(a) =>
          if !a.ReadDone? {
            OtherKeepsWorld(json, w, a);
          }
      }
    }
  }

  /** A run over text is a run of the transport. */
  lemma {:induction false} TextRunIsARun(json: Json, bootstrap: bool, tas: seq<TextAction>)
    ensures TextRun(json, bootstrap, tas).t == Run(Init(bootstrap), TextRun(json, bootstrap, tas).actions)
  {
    if tas != [] {
      TextRunIsARun(json, bootstrap, DropLast(tas));
      var w, v := TextRun(json, bootstrap, DropLast(tas)), TextRun(json, bootstrap, tas);
      if v.actions != w.actions {
        RunSnoc(Init(bootstrap), w.actions, Last(v.actions));
      }
    }
  }

  /**
   * In every run, with reads between any other actions, and for every stream:
   * what came in with it is what the events of all its text carry, in order,
   * as long as its loop still reads it and the transport is open, and all
   * payloads so far were JSON; otherwise it is a beginning of that.
   */
  lemma {:induction false} EveryStreamIsItsText(json: Json, bootstrap: bool, tas: seq<TextAction>, g: nat)
    requires g < |TextRun(json, bootstrap, tas).streams|
    ensures var w := TextRun(json, bootstrap, tas);
      var st := w.streams[g];
      var events := ReadAll(st.texts).events;
      && st.came <= Carries(events, json)
      && (Reads(w, st.loop, g) && !w.t.closed ==> st.came == Carries(events, json) && WellFormedEvents(events, json))
  {
    TextRunKeepsWorld(json, bootstrap, tas);
    assert StreamInv(json, TextRun(json, bootstrap, tas), g);
  }

  lemma OneEvent(parts: seq<string>, e: string)
    requires NormaliseEach(parts) == e + "\n\n" && '\n' !in e
    ensures ReadAll(parts) == Cut([e], "")
  {
    SplitFront(e, "");
    assert e + "\n\n" + "" == e + "\n\n";
    NoBlankLine("");
  }

  lemma OneRead(a: string)
    requires '\r' !in a
    ensures NormaliseEach([a]) == a
  {
    NormalisePlain(a, "");
    assert a + "" == a && DropLast([a]) == [];
  }

  lemma TwoReads(a: string, b: string)
    requires '\r' !in a && '\r' !in b
    ensures NormaliseEach([a, b]) == a + b
  {
    OneRead(a);
    OneRead(b);
    NormalisePlain(b, "");
    assert DropLast([a, b]) == [a];
  }

  /** What is left in the buffer counts: it comes in front of the next event's first line. */
  lemma LeftoverJoinsTheNextEvent(left: string, e: string)
    requires '\n' !in left + e && '\r' !in left + e
    ensures ReadAll([left, e + "\n\n"]) == Cut([left + e], "")
    ensures ReadAll([e + "\n\n"]) == Cut([e], "")
  {
    var b := e + "\n\n";
    assert '\r' !in e && '\r' !in left && '\n' !in e;
    OneRead(b);
    TwoReads(left, b);
    Associate(left, e, "\n\n");
    OneEvent([left, b], left + e);
    OneEvent([b], e);
  }

  // ----------------------------------------------------- a printed list, in any company

  predicate Benign(item: Item) {
    match item.body
    case NoBody => true
    case Malformed => false
    case Parsed(arrival) => !arrival.observerThrows && !arrival.enqueueFails
  }

  /**
   * Actions that leave stream and transport alone: reads in which nobody
   * throws, writes, and replies that are taken; but no closing or cancelling,
   * no failed POST, and no end of the stream that loop `k` reads.
   */
  predicate Gentle(ta: TextAction, k: nat) {
    match ta
    case Read(j, _, throwing, failing) => j == k ==> throwing == {} && failing == {}
    case Other(a) =>
      && !a.Close? && !a.Cancel?
      && (a.ReadEnd? || a.ReadFailed? ==> a.k != k)
      && (a.PostDone? ==> !a.outcome.PostFailed?)
      && (a.PostDone? && a.outcome.PostReply? ==> !a.outcome.arrival.observerThrows && !a.outcome.arrival.enqueueFails)
  }

  /** The texts that loop `k` reads in a run, in order. */
  function TextsOf(tas: seq<TextAction>, k: nat): seq<string> {
    if tas == [] then [] else TextsOf(DropLast(tas), k) + TextOf(Last(tas), k)
  }

  function TextOf(ta: TextAction, k: nat): seq<string> {
    if ta.Read? && ta.k == k then [ta.text] else []
  }

  /** The events that further reads complete, after what is in the buffer. */
  function LaterEvents(texts: seq<string>, parts: seq<string>): seq<string> {
    Split(ReadAll(texts).rest + NormaliseEach(parts)).events
  }

  lemma {:induction false} NormaliseConcat(a: seq<string>, b: seq<string>)
    ensures NormaliseEach(a + b) == NormaliseEach(a) + NormaliseEach(b)
  {
    if b == [] {
      assert a + b == a;
    } else {
      NormaliseConcat(a, DropLast(b));
      assert DropLast(a + b) == a + DropLast(b);
      Associate(NormaliseEach(a), NormaliseEach(DropLast(b)), Normalise(Last(b)));
    }
  }

  lemma ReadOn(texts: seq<string>, parts: seq<string>)
    ensures ReadAll(texts + parts) == Resume(ReadAll(texts), Split(ReadAll(texts).rest + NormaliseEach(parts)))
  {
    NormaliseConcat(texts, parts);
    SplitAppend(NormaliseEach(texts), NormaliseEach(parts));
  }

  /** One more read after `parts`. */
  lemma LaterGrows(texts: seq<string>, parts: seq<string>, text: string)
    ensures LaterEvents(texts, parts + [text]) == LaterEvents(texts, parts) + NewEvents(texts + parts + [text])
  {
    var first := ReadAll(texts).rest + NormaliseEach(parts);
    ReadOn(texts, parts);
    assert DropLast(parts + [text]) == parts && DropLast(texts + parts + [text]) == texts + parts;
    Associate(ReadAll(texts).rest, NormaliseEach(parts), Normalise(text));
    SplitAppend(first, Normalise(text));
  }

  lemma OneItemComesIn(s: State, item: Item)
    requires Core(s) && !s.closed && Benign(item)
    ensures var (t, threw) := ProcessItem(s, item);
      !threw && Core(t) && !t.closed && SomeSwallowed(t.trace) == SomeSwallowed(s.trace)
  {
    ItemKeeps(s, item);
    ItemSwallowsIff(s, item);
    var u := SeeId(s, item.id);
    assert !u.closed;
  }

  lemma {:induction false} BenignItemsComeIn(s: State, items: seq<Item>)
    requires Core(s) && !s.closed && forall i :: i in items ==> Benign(i)
    ensures var (t, threw) := ProcessItems(s, items);
      !threw && !t.closed && SomeSwallowed(t.trace) == SomeSwallowed(s.trace)
    decreases |items|
  {
    if items != [] {
      assert items == [items[0]] + items[1..];
      OneItemComesIn(s, items[0]);
      BenignItemsComeIn(ProcessItem(s, items[0]).0, items[1..]);
    }
  }

  lemma {:induction false} GoodEventsAreBenign(chunks: seq<string>, json: Json)
    requires WellFormedEvents(chunks, json)
    ensures forall i :: i in ItemsOf(chunks, ParserOf(json, {}, {})) ==> Benign(i)
  {
    if chunks != [] {
      assert chunks == DropLast(chunks) + [Last(chunks)];
      CarriesConcat(DropLast(chunks), [Last(chunks)], json);
      GoodEventsAreBenign(DropLast(chunks), json);
      assert DropLast([Last(chunks)]) == [];
      if ChunkPayload(Last(chunks), "message").Some? {
        assert ChunkPayload(Last(chunks), "message").value in Payloads([Last(chunks)], "message");
      }
    }
  }

  /** The stream goes on being read, with nothing lost and nothing swallowed. */
  ghost predicate GoesOn(w: World, k: nat, g: nat, parts: seq<string>, v: World) {
    && Reads(w, k, g) && Reads(v, k, g) && !v.t.closed
    && v.streams[g].texts == w.streams[g].texts + parts
    && v.t.lastEventId == LastId(LaterEvents(w.streams[g].texts, parts), w.t.lastEventId)
    && SomeSwallowed(v.t.trace) == SomeSwallowed(w.t.trace)
  }

  lemma GentleStepGoesOn(s: State, a: Action, k: nat)
    requires Inv(s) && !s.closed && At(s, k, Reading) && !a.ReadDone? && Gentle(Other(a), k)
    ensures var t := Step(s, a);
      && !t.closed && At(t, k, Reading) && t.lastEventId == s.lastEventId && !BeginsStream(s, a)
      && SomeSwallowed(t.trace) == SomeSwallowed(s.trace)
  {
    assert s.loops.Keys == {k};
    StepSwallowsIff(s, a);
    if a.PostDone? && s.posts > 0 && a.outcome.PostReply? {
      PushBrings(s.(posts := s.posts - 1), a.outcome.arrival);
    }
  }

  lemma {:induction false} LastIdConcat(a: seq<string>, b: seq<string>, before: Option<string>)
    ensures LastId(a + b, before) == LastId(b, LastId(a, before))
  {
    if b == [] {
      assert a + b == a;
    } else {
      LastIdConcat(a, DropLast(b), before);
      assert DropLast(a + b) == a + DropLast(b) && Last(a + b) == Last(b);
    }
  }

  lemma GentleReadGoesOn(json: Json, w: World, k: nat, g: nat, parts: seq<string>, v: World, text: string)
    requires GoesOn(w, k, g, parts, v) && WorldInv(json, v)
    requires WellFormedEvents(LaterEvents(w.streams[g].texts, parts + [text]), json)
    ensures GoesOn(w, k, g, parts + [text], DoRead(v, k, g, text, ParserOf(json, {}, {})))
  {
    var texts := w.streams[g].texts;
    var chunks := NewEvents(v.streams[g].texts + [text]);
    var items := ItemsOf(chunks, ParserOf(json, {}, {}));
    Associate(texts, parts, [text]);
    LaterGrows(texts, parts, text);
    CarriesConcat(LaterEvents(texts, parts), chunks, json);
    GoodEventsAreBenign(chunks, json);
    BenignItemsComeIn(v.t, items);
    ItemsKeep(v.t, items);
    ReadBrings(v.t, k, items);
    IdsAreKept(chunks, ParserOf(json, {}, {}), v.t.lastEventId);
    LastIdConcat(LaterEvents(texts, parts), chunks, w.t.lastEventId);
  }

  lemma GentleGoesOn(json: Json, w: World, k: nat, g: nat, parts: seq<string>, v: World, ta: TextAction)
    requires GoesOn(w, k, g, parts, v) && WorldInv(json, v) && Gentle(ta, k)
    requires WellFormedEvents(LaterEvents(w.streams[g].texts, parts + TextOf(ta, k)), json)
    ensures GoesOn(w, k, g, parts + TextOf(ta, k), TextStep(json, v, ta))
  {
    if ta.Read? && ta.k == k {
      GentleReadGoesOn(json, w, k, g, parts, v, ta.text);
    } else {
      assert parts + TextOf(ta, k) == parts && v.t.loops.Keys == {k};
      if ta.Other? && !ta.a.ReadDone? {
        GentleStepGoesOn(v.t, ta.a, k);
      }
    }
  }

  lemma NothingReadGoesOn(w: World, k: nat, g: nat)
    requires Reads(w, k, g) && !w.t.closed
    ensures GoesOn(w, k, g, [], w)
  {
    var texts := w.streams[g].texts;
    SplitIsLeftmost(NormaliseEach(texts));
    NoBlankLine(ReadAll(texts).rest);
    assert texts + [] == texts && ReadAll(texts).rest + NormaliseEach([]) == ReadAll(texts).rest;
  }

  lemma EarlierEventsAreGood(json: Json, texts: seq<string>, parts: seq<string>, ta: TextAction, k: nat)
    requires WellFormedEvents(LaterEvents(texts, parts + TextOf(ta, k)), json)
    ensures WellFormedEvents(LaterEvents(texts, parts), json)
  {
    if ta.Read? && ta.k == k {
      LaterGrows(texts, parts, ta.text);
      CarriesConcat(LaterEvents(texts, parts), NewEvents(texts + parts + [ta.text]), json);
    } else {
      assert parts + TextOf(ta, k) == parts;
    }
  }

  /**
   * In gentle company a stream goes on being read, from whatever its buffer
   * holds, as long as its payloads are JSON.
   */
  lemma {:induction false} GentleRunGoesOn(
    json: Json, bootstrap: bool, before: seq<TextAction>, more: seq<TextAction>, k: nat, g: nat)
    requires Reads(TextRun(json, bootstrap, before), k, g) && !TextRun(json, bootstrap, before).t.closed
    requires forall ta :: ta in more ==> Gentle(ta, k)
    requires var texts := TextRun(json, bootstrap, before).streams[g].texts;
      WellFormedEvents(LaterEvents(texts, TextsOf(more, k)), json)
    ensures GoesOn(TextRun(json, bootstrap, before), k, g, TextsOf(more, k), TextRun(json, bootstrap, before + more))
    decreases |more|
  {
    var w := TextRun(json, bootstrap, before);
    if more == [] {
      assert before + more == before;
      NothingReadGoesOn(w, k, g);
    } else {
      var earlier, ta := DropLast(more), Last(more);
      assert DropLast(before + more) == before + earlier && more == earlier + [ta];
      EarlierEventsAreGood(json, w.streams[g].texts, TextsOf(earlier, k), ta, k);
      GentleRunGoesOn(json, bootstrap, before, earlier, k, g);
      TextRunKeepsWorld(json, bootstrap, before + earlier);
      GentleGoesOn(json, w, k, g, TextsOf(earlier, k), TextRun(json, bootstrap, before + earlier), ta);
    }
  }

  /**
   * Round trip through the whole way in. In any run, a stream whose text so
   * far ends where an event ends goes on with a printed list of events, with
   * either kind of line end, in any reads that tear no CRLF pair, in any
   * gentle company, and with payloads that are JSON. Then the stream is still
   * being read, its buffer is empty, all the payloads have come in with it, in
   * order, and the last event id is the list's; and if nothing was swallowed
   * before, the consumer has got of all arrivals exactly what the plain scan of
   * the last 2048 ids lets through, which is everything when no response id
   * repeats.
   */
  lemma {:induction false} PrintedStreamIsDelivered(
    json: Json, bootstrap: bool, before: seq<TextAction>, more: seq<TextAction>, k: nat, g: nat, blocks: seq<Block>,
        crlf: bool)
    requires Reads(TextRun(json, bootstrap, before), k, g) && !TextRun(json, bootstrap, before).t.closed
    requires ReadAll(TextRun(json, bootstrap, before).streams[g].texts).rest == ""
    requires forall ta :: ta in more ==> Gentle(ta, k)
    requires forall b :: b in blocks ==> Printable(b)
    requires Concat(TextsOf(more, k)) == if crlf then WithCrlf(Print(blocks)) else Print(blocks)
    requires crlf ==> KeepsCrlf(TextsOf(more, k))
    requires forall p :: p in CarriedAll(blocks, "message") ==> json(p).Some?
    ensures var w, v := TextRun(json, bootstrap, before), TextRun(json, bootstrap, before + more);
      && Reads(v, k, g) && !v.t.closed && ReadAll(v.streams[g].texts).rest == ""
      && v.streams[g].came == w.streams[g].came + ParseAll(CarriedAll(blocks, "message"), json)
      && v.t.lastEventId == LastBlockId(blocks, w.t.lastEventId)
      && (!RunSpoils(Init(bootstrap), w.actions) ==>
          Deliveries(v.t.trace) == DuplicateWindow.Delivered(Arrivals(v.t.trace)))
      && (!RunSpoils(Init(bootstrap), w.actions) && NoDuplicates(Ids(Arrivals(v.t.trace))) ==>
            Deliveries(v.t.trace) == Arrivals(v.t.trace))
  {
    var w, v := TextRun(json, bootstrap, before), TextRun(json, bootstrap, before + more);
    var texts, parts := w.streams[g].texts, TextsOf(more, k);
    PrintedEventsReadBack(blocks, crlf, parts, "message", w.t.lastEventId);
    assert ReadAll(texts).rest + NormaliseEach(parts) == NormaliseEach(parts);
    assert LaterEvents(texts, parts) == ReadAll(parts).events;
    GentleRunGoesOn(json, bootstrap, before, more, k, g);
    ReadOn(texts, parts);
    CarriesConcat(ReadAll(texts).events, ReadAll(parts).events, json);
    TextRunKeepsWorld(json, bootstrap, before);
    assert StreamInv(json, w, g);
    TextRunKeepsWorld(json, bootstrap, before + more);
    assert StreamInv(json, v, g);
    NothingSwallowed(json, bootstrap, before, before + more);
  }

  /** Two moments of a run between which nothing was swallowed. */
  lemma NothingSwallowed(json: Json, bootstrap: bool, before: seq<TextAction>, after: seq<TextAction>)
    requires var w, v := TextRun(json, bootstrap, before), TextRun(json, bootstrap, after);
      SomeSwallowed(v.t.trace) == SomeSwallowed(w.t.trace)
    ensures var w, v := TextRun(json, bootstrap, before), TextRun(json, bootstrap, after);
      !RunSpoils(Init(bootstrap), w.actions) ==>
        && Deliveries(v.t.trace) == DuplicateWindow.Delivered(Arrivals(v.t.trace))
        && (NoDuplicates(Ids(Arrivals(v.t.trace))) ==> Deliveries(v.t.trace) == Arrivals(v.t.trace))
  {
    var w, v := TextRun(json, bootstrap, before), TextRun(json, bootstrap, after);
    TextRunIsARun(json, bootstrap, before);
    TextRunIsARun(json, bootstrap, after);
    RunSwallowsIff(bootstrap, w.actions);
    WithoutSwallowing(v.t.trace);
    LetThroughIsFiltered(bootstrap, v.actions);
    if NoDuplicates(Ids(Arrivals(v.t.trace))) {
      FreshResponsesPass(Arrivals(v.t.trace));
    }
  }
}
