/**
 * Reading the fields of one server-sent event, and the round trip from a
 * printed list of events through any sequence of reads back to the payloads.
 * The grammar is that of WHATWG HTML sections 9.2.5 and 9.2.6.
 */
module SseEvents {
  import opened Prelude
  import opened Text
  import opened SseText

  /** What one line of an event contributes. */
  datatype Line = Skipped | NameLine(name: string) | IdLine(id: string) | DataLine(text: string)

  function Classify(line: string): Line {
    if line == "" || line[0] == ':' then Skipped
    else if "event:" <= line then NameLine(Trim(line[6..]))
    else if "id:" <= line then IdLine(Trim(line[3..]))
    else if "data:" <= line then DataLine(TrimStart(line[5..]))
    else Skipped
  }

  datatype Fields = Fields(name: string, id: Option<string>, data: seq<string>)

  /** The last name, the last id and every data line. */
  function Gather(lines: seq<string>): Fields {
    if lines == [] then Fields("message", None, [])
    else
      var before := Gather(DropLast(lines));
      match Classify(Last(lines))
      case Skipped => before
      case NameLine(name) => before.(name := name)
      case IdLine(id) => before.(id := Some(id))
      case DataLine(text) => before.(data := before.data + [text])
  }

  /** The payload an event chunk carries for the readers that listen to events named `wanted`. */
  function ChunkPayload(chunk: string, wanted: string): Option<string> {
    var fields := Gather(SplitOn(chunk, '\n'));
    if Trim(chunk) == "" || fields.name != wanted || Trim(Join(fields.data, '\n')) == "" then None
    else Some(Join(fields.data, '\n'))
  }

  /** An empty id counts as none. */
  function ChunkId(chunk: string): Option<string> {
    var fields := Gather(SplitOn(chunk, '\n'));
    if Trim(chunk) == "" || fields.id == Some("") then None else fields.id
  }

  /** All payloads of a list of chunks, in order. */
  function Payloads(chunks: seq<string>, wanted: string): seq<string> {
    if chunks == [] then []
    else
      Payloads(DropLast(chunks), wanted)
      + (match ChunkPayload(Last(chunks), wanted) case Some(p) => [p] case None => [])
  }

  function LastId(chunks: seq<string>, before: Option<string>): Option<string> {
    if chunks == [] then before
    else if ChunkId(Last(chunks)).Some? then ChunkId(Last(chunks))
    else LastId(DropLast(chunks), before)
  }

  /** The transport's event handler: the new id, if any, and the text to be parsed as an envelope, if any. */
  method ProcessSseEvent(chunk: string) returns (id: Option<string>, payload: Option<string>)
    ensures id == ChunkId(chunk)
    ensures payload == ChunkPayload(chunk, "message")
  {
    if Trim(chunk) == "" {
      return None, None;
    }
    var eventName := "message";
    var eventId: Option<string> := None;
    var dataLines: seq<string> := [];
    var lines := SplitOn(chunk, '\n');
    for i := 0 to |lines|
      invariant eventName == Gather(lines[..i]).name
      invariant eventId == Gather(lines[..i]).id
      invariant dataLines == Gather(lines[..i]).data
    {
      var line := lines[i];
      assert DropLast(lines[..i + 1]) == lines[..i];
      if line == "" || line[0] == ':' {
        continue;
      }
      if "event:" <= line {
        eventName := Trim(line[6..]);
        continue;
      }
      if "id:" <= line {
        eventId := Some(Trim(line[3..]));
        continue;
      }
      if "data:" <= line {
        dataLines := dataLines + [TrimStart(line[5..])];
      }
    }
    assert lines[..|lines|] == lines;
    id := if eventId == Some("") then None else eventId;
    if eventName != "message" || |dataLines| == 0 {
      return id, None;
    }
    var payloadText := Join(dataLines, '\n');
    if Trim(payloadText) == "" {
      return id, None;
    }
    return id, Some(payloadText);
  }

  /** The process-log reader's parser for one chunk. */
  method ParseProcessLogSseChunk(chunk: string) returns (entry: Option<string>)
    ensures entry == ChunkPayload(chunk, "log")
  {
    if Trim(chunk) == "" {
      return None;
    }
    var eventName := "message";
    var dataLines: seq<string> := [];
    var lines := SplitOn(chunk, '\n');
    for i := 0 to |lines|
      invariant eventName == Gather(lines[..i]).name
      invariant dataLines == Gather(lines[..i]).data
    {
      var line := lines[i];
      assert DropLast(lines[..i + 1]) == lines[..i];
      if line == "" || line[0] == ':' {
        continue;
      }
      if "event:" <= line {
        eventName := Trim(line[6..]);
        continue;
      }
      if "data:" <= line {
        dataLines := dataLines + [TrimStart(line[5..])];
      }
    }
    assert lines[..|lines|] == lines;
    if eventName != "log" {
      return None;
    }
    var data := Join(dataLines, '\n');
    if Trim(data) == "" {
      return None;
    }
    return Some(data);
  }

  /** Hands a list of complete events to the handler one by one. */
  method ProcessEvents(chunks: seq<string>, before: Option<string>)
    returns (payloads: seq<string>, lastEventId: Option<string>)
    ensures payloads == Payloads(chunks, "message")
    ensures lastEventId == LastId(chunks, before)
  {
    payloads, lastEventId := [], before;
    for i := 0 to |chunks|
      invariant payloads == Payloads(chunks[..i], "message")
      invariant lastEventId == LastId(chunks[..i], before)
    {
      assert DropLast(chunks[..i + 1]) == chunks[..i];
      var id, payload := ProcessSseEvent(chunks[i]);
      if id.Some? {
        lastEventId := id;
      }
      if payload.Some? {
        payloads := payloads + [payload.value];
      }
    }
    assert chunks[..|chunks|] == chunks;
  }

  // ---------------------------------------------------------------- printing

  /** One line of a stream as a server may write it, with any white space around what it says. */
  datatype Field =
    | Comment(text: string)
    | Named(before: string, name: string, after: string)
    | Identified(before: string, id: string, after: string)
    | Data(before: string, text: string)
    | Unknown(line: string)

  /** One event: its lines, in any order. */
  type Block = seq<Field>

  predicate SingleLine(s: string) {
    '\n' !in s && '\r' !in s
  }

  /** White space inside a line. */
  predicate Gap(s: string) {
    SingleLine(s) && forall c :: c in s ==> IsSpace(c)
  }

  /** Text that `trim` leaves alone and that fits on a line. */
  predicate Token(s: string) {
    SingleLine(s) && (s == "" || (!IsSpace(s[0]) && !IsSpace(Last(s))))
  }

  predicate PrintableField(f: Field) {
    match f
    case Comment(text) => SingleLine(text)
    case Named(before, name, after) => Gap(before) && Token(name) && Gap(after)
    case Identified(before, id, after) => Gap(before) && Token(id) && Gap(after)
    case Data(before, text) => Gap(before) && SingleLine(text) && (text == "" || !IsSpace(text[0]))
    case Unknown(line) =>
      CleanLine(line) && line[0] != ':' && !("event:" <= line) && !("id:" <= line) && !("data:" <= line)
  }

  predicate Printable(b: Block) {
    b != [] && forall f :: f in b ==> PrintableField(f)
  }

  function LineOf(f: Field): string {
    match f
    case Comment(text) => ":" + text
    case Named(before, name, after) => "event:" + (before + name + after)
    case Identified(before, id, after) => "id:" + (before + id + after)
    case Data(before, text) => "data:" + (before + text)
    case Unknown(line) => line
  }

  function Lines(b: Block): seq<string> {
    if b == [] then [] else Lines(DropLast(b)) + [LineOf(Last(b))]
  }

  function Print(blocks: seq<Block>): string {
    if blocks == [] then "" else Join(Lines(blocks[0]), '\n') + "\n\n" + Print(blocks[1..])
  }

  /** The name an event was given last, or "message". */
  function NameOf(b: Block): string {
    if b == [] then "message" else if Last(b).Named? then Last(b).name else NameOf(DropLast(b))
  }

  /** The id an event was given last; an empty one counts as none. */
  function IdOf(b: Block): Option<string> {
    if b == [] then None
    else if Last(b).Identified? then (if Last(b).id == "" then None else Some(Last(b).id))
    else IdOf(DropLast(b))
  }

  function DataOf(b: Block): seq<string> {
    if b == [] then [] else DataOf(DropLast(b)) + (if Last(b).Data? then [Last(b).text] else [])
  }

  /** What a reader listening to `wanted` events is meant to get from a block. */
  function Carried(b: Block, wanted: string): Option<string> {
    if NameOf(b) != wanted || Trim(Join(DataOf(b), '\n')) == "" then None else Some(Join(DataOf(b), '\n'))
  }

  function CarriedAll(blocks: seq<Block>, wanted: string): seq<string> {
    if blocks == [] then []
    else
      CarriedAll(DropLast(blocks), wanted)
      + (match Carried(Last(blocks), wanted) case Some(p) => [p] case None => [])
  }

  function LastBlockId(blocks: seq<Block>, before: Option<string>): Option<string> {
    if blocks == [] then before
    else if IdOf(Last(blocks)).Some? then IdOf(Last(blocks))
    else LastBlockId(DropLast(blocks), before)
  }

  function Chunks(blocks: seq<Block>): seq<string> {
    if blocks == [] then [] else [Join(Lines(blocks[0]), '\n')] + Chunks(blocks[1..])
  }

  // ------------------------------------------------------- printed blocks read back

  predicate CleanLine(l: string) {
    l != "" && SingleLine(l)
  }

  lemma {:induction false} LinesClean(b: Block)
    requires forall f :: f in b ==> PrintableField(f)
    ensures |Lines(b)| == |b| && forall l :: l in Lines(b) ==> CleanLine(l)
  {
    if b != [] {
      LinesClean(DropLast(b));
      assert PrintableField(Last(b));
    }
  }

  /** Joined clean lines start and end inside a line and contain no blank line. */
  lemma {:induction false} JoinClean(lines: seq<string>)
    requires lines != [] && forall l :: l in lines ==> CleanLine(l)
    ensures var chunk := Join(lines, '\n');
      chunk != "" && chunk[0] != '\n' && Last(chunk) != '\n' && '\r' !in chunk && forall j :: !BlankLineAt(chunk, j)
  {
    var first := lines[0];
    assert CleanLine(first);
    if |lines| > 1 {
      JoinClean(lines[1..]);
      var tail := Join(lines[1..], '\n');
      var chunk := Join(lines, '\n');
      assert chunk == first + ['\n'] + tail;
      assert Last(chunk) == Last(tail);
      assert first[|first| - 1] in first && tail[0] != '\n';
      forall j ensures !BlankLineAt(chunk, j) {
        if 0 <= j < |first| {
          assert chunk[j] == first[j] && first[j] in first;
        } else if |first| < j < |chunk| - 1 {
          assert !BlankLineAt(tail, j - |first| - 1);
          assert chunk[j] == tail[j - |first| - 1] && chunk[j + 1] == tail[j - |first|];
        }
      }
    }
  }

  /** Printing keeps the events apart: the splitter finds exactly the printed chunks. */
  lemma {:induction false} PrintSplits(blocks: seq<Block>)
    requires forall b :: b in blocks ==> Printable(b)
    ensures Split(Print(blocks)) == Cut(Chunks(blocks), "")
    ensures '\r' !in Print(blocks)
  {
    if blocks == [] {
      NoBlankLine("");
    } else {
      assert blocks[0] in blocks;
      LinesClean(blocks[0]);
      JoinClean(Lines(blocks[0]));
      PrintSplits(blocks[1..]);
      var e := Join(Lines(blocks[0]), '\n');
      forall j | 0 <= j < |e| ensures !BlankLineAt(e + "\n\n", j) {
        assert !BlankLineAt(e, j);
      }
      SplitFront(e, Print(blocks[1..]));
    }
  }

  /** Every line is taken for what it is, with the white space around it gone. */
  lemma FieldReadsBack(f: Field)
    requires PrintableField(f)
    ensures Classify(LineOf(f)) ==
            match f
            case Comment(_) => Skipped
            case Named(_, name, _) => NameLine(name)
            case Identified(_, id, _) => IdLine(id)
            case Data(_, text) => DataLine(text)
            case Unknown(_) => Skipped
  {
    var line := LineOf(f);
    match f
    case Comment(_) =>
    case Named(before, name, after) =>
      assert line[0] == 'e' && line[6..] == before + name + after;
      TrimPadded(before, name, after);
    case Identified(before, id, after) =>
      assert line[0] == 'i' && line[3..] == before + id + after;
      TrimPadded(before, id, after);
    case Data(before, text) =>
      assert line[0] == 'd' && line[5..] == before + text;
      TrimStartSkips(before, text);
    case Unknown(_) =>
  }

  /** The id line that counts, as it is written. */
  function RawId(b: Block): Option<string> {
    if b == [] then None else if Last(b).Identified? then Some(Last(b).id) else RawId(DropLast(b))
  }

  lemma {:induction false} RawIdIs(b: Block)
    ensures IdOf(b) == if RawId(b) == Some("") then None else RawId(b)
  {
    if b != [] {
      RawIdIs(DropLast(b));
    }
  }

  /** The fields of a printed event are read back as printed. */
  lemma {:induction false} FieldsReadBack(b: Block)
    requires forall f :: f in b ==> PrintableField(f)
    ensures Gather(Lines(b)) == Fields(NameOf(b), RawId(b), DataOf(b))
  {
    if b != [] {
      assert DropLast(Lines(b)) == Lines(DropLast(b));
      assert Last(b) in b;
      FieldsReadBack(DropLast(b));
      FieldReadsBack(Last(b));
    }
  }

  /** Every character of a line is one of the joined lines. */
  lemma {:induction false} JoinHolds(lines: seq<string>, l: string, c: char)
    requires l in lines && c in l
    ensures c in Join(lines, '\n')
  {
    if |lines| > 1 {
      var whole := lines[0] + ['\n'] + Join(lines[1..], '\n');
      assert Join(lines, '\n') == whole;
      if l == lines[0] {
        var k :| 0 <= k < |l| && l[k] == c;
        assert whole[k] == c;
      } else {
        assert lines == [lines[0]] + lines[1..];
        JoinHolds(lines[1..], l, c);
        var tail := Join(lines[1..], '\n');
        var k :| 0 <= k < |tail| && tail[k] == c;
        assert whole[|lines[0]| + 1 + k] == c;
      }
    }
  }

  /** An event that is nothing but white space says nothing. */
  lemma {:induction false} BlankSaysNothing(b: Block)
    requires forall f :: f in b ==> PrintableField(f)
    requires forall l, c :: l in Lines(b) && c in l ==> IsSpace(c)
    ensures NameOf(b) == "message" && RawId(b) == None && DataOf(b) == []
  {
    if b != [] {
      assert Last(Lines(b)) == LineOf(Last(b));
      assert LineOf(Last(b)) in Lines(b);
      assert Last(b) in b && LineOf(Last(b))[0] in LineOf(Last(b));
      assert forall l :: l in Lines(DropLast(b)) ==> l in Lines(b);
      BlankSaysNothing(DropLast(b));
    }
  }

  /** One printed block, taken as a chunk, yields what it carries. */
  lemma BlockReadsBack(b: Block, wanted: string)
    requires Printable(b)
    ensures ChunkPayload(Join(Lines(b), '\n'), wanted) == Carried(b, wanted)
    ensures ChunkId(Join(Lines(b), '\n')) == IdOf(b)
  {
    LinesClean(b);
    var chunk := Join(Lines(b), '\n');
    forall l | l in Lines(b) ensures '\n' !in l {
      assert CleanLine(l);
    }
    SplitOnJoin(Lines(b), '\n');
    FieldsReadBack(b);
    RawIdIs(b);
    if Trim(chunk) == "" {
      forall l, c | l in Lines(b) && c in l ensures IsSpace(c) {
        JoinHolds(Lines(b), l, c);
        var k :| 0 <= k < |chunk| && chunk[k] == c;
        BlankIsSpace(chunk, k);
      }
      BlankSaysNothing(b);
      assert Join([], '\n') == "";
    }
  }

  lemma {:induction false} ChunksReadBack(blocks: seq<Block>, wanted: string, before: Option<string>)
    requires forall b :: b in blocks ==> Printable(b)
    ensures Payloads(Chunks(blocks), wanted) == CarriedAll(blocks, wanted)
    ensures LastId(Chunks(blocks), before) == LastBlockId(blocks, before)
  {
    if blocks != [] {
      ChunksSnoc(DropLast(blocks), Last(blocks));
      assert DropLast(blocks) + [Last(blocks)] == blocks;
      ChunksReadBack(DropLast(blocks), wanted, before);
      assert Last(blocks) in blocks;
      BlockReadsBack(Last(blocks), wanted);
      assert DropLast(Chunks(blocks)) == Chunks(DropLast(blocks));
    }
  }

  lemma {:induction false} ChunksSnoc(blocks: seq<Block>, b: Block)
    ensures Chunks(blocks + [b]) == Chunks(blocks) + [Join(Lines(b), '\n')]
  {
    if blocks != [] {
      assert (blocks + [b])[1..] == blocks[1..] + [b];
      ChunksSnoc(blocks[1..], b);
      Associate([Join(Lines(blocks[0]), '\n')], Chunks(blocks[1..]), [Join(Lines(b), '\n')]);
    } else {
      assert (blocks + [b])[1..] == [];
    }
  }

  /** A stream written with CRLF line ends. */
  function WithCrlf(text: string): string {
    if text == "" then ""
    else (if text[0] == '\n' then "\r\n" else [text[0]]) + WithCrlf(text[1..])
  }

  lemma {:induction false} NormaliseWithCrlf(text: string)
    requires '\r' !in text
    ensures Normalise(WithCrlf(text)) == text
  {
    if text != "" {
      NormaliseWithCrlf(text[1..]);
      var tail := WithCrlf(text[1..]);
      if text[0] == '\n' {
        assert ("\r\n" + tail)[2..] == tail;
      } else {
        NormalisePlain([text[0]], tail);
      }
    }
  }

  lemma {:induction false} NothingToTear(parts: seq<string>)
    requires '\r' !in Concat(parts)
    ensures KeepsCrlf(parts)
  {
    if parts != [] {
      NothingToTear(DropLast(parts));
    }
  }

  /**
   * Round trip: however a printed list of events is cut into reads, with
   * either kind of line end, the reader gets back the payloads in order and
   * the last id, and keeps nothing in its buffer.
   */
  lemma PrintedEventsReadBack(blocks: seq<Block>, crlf: bool, parts: seq<string>, wanted: string,
      before: Option<string>)
    requires forall b :: b in blocks ==> Printable(b)
    requires Concat(parts) == if crlf then WithCrlf(Print(blocks)) else Print(blocks)
    requires crlf ==> KeepsCrlf(parts)
    ensures ReadAll(parts).rest == ""
    ensures Payloads(ReadAll(parts).events, wanted) == CarriedAll(blocks, wanted)
    ensures LastId(ReadAll(parts).events, before) == LastBlockId(blocks, before)
  {
    PrintSplits(blocks);
    if !crlf {
      NothingToTear(parts);
    }
    ReadsDoNotMatter(parts);
    NormaliseWithCrlf(Print(blocks));
    NormalisePlain(Print(blocks), "");
    assert Print(blocks) + "" == Print(blocks);
    ChunksReadBack(blocks, wanted, before);
  }
}
