/**
 * Cutting an event stream into events while it arrives. Both stream readers
 * (the transport's and the process-log one) append each read to a buffer,
 * with CRLF turned into LF read by read, and take an event off the front
 * whenever the buffer holds a blank line.
 */
module SseText {
  import opened Prelude

  /** `text.replace(/\r\n/g, "\n")`. */
  function Normalise(text: string): string {
    if |text| < 2 then text
    else if text[0] == '\r' && text[1] == '\n' then "\n" + Normalise(text[2..])
    else [text[0]] + Normalise(text[1..])
  }

  predicate BlankLineAt(text: string, k: int) {
    0 <= k < |text| - 1 && text[k] == '\n' && text[k + 1] == '\n'
  }

  /** `text.indexOf("\n\n")`, searching from `from`. */
  function IndexOfBlankLine(text: string, from: nat): (k: int)
    ensures k == -1 || from <= k
    ensures k != -1 ==> BlankLineAt(text, k)
    ensures forall j :: from <= j < (if k == -1 then |text| else k) ==> !BlankLineAt(text, j)
    decreases |text| - from
  {
    if from >= |text| then -1
    else if BlankLineAt(text, from) then from
    else IndexOfBlankLine(text, from + 1)
  }

  datatype Cut = Cut(events: seq<string>, rest: string)

  function Prepend(e: string, cut: Cut): Cut {
    Cut([e] + cut.events, cut.rest)
  }

  /** The events of `cut` followed by what its rest turned into. */
  function Resume(cut: Cut, continued: Cut): Cut {
    Cut(cut.events + continued.events, continued.rest)
  }

  /** The text taken apart at its leftmost blank lines. */
  function Split(text: string): Cut
    decreases |text|
  {
    var k := IndexOfBlankLine(text, 0);
    if k == -1 then Cut([], text) else Prepend(text[..k], Split(text[k + 2..]))
  }

  lemma ResumePrepended(e: string, cut: Cut, continued: Cut)
    ensures Resume(Prepend(e, cut), continued) == Prepend(e, Resume(cut, continued))
  {
    assert [e] + (cut.events + continued.events) == ([e] + cut.events) + continued.events;
  }

  function Glue(cut: Cut): string
    decreases |cut.events|
  {
    if cut.events == [] then cut.rest
    else cut.events[0] + "\n\n" + Glue(Cut(cut.events[1..], cut.rest))
  }

  /** No event could have ended earlier, and nothing is left that could be taken. */
  ghost predicate Leftmost(cut: Cut) {
    && (forall i, k :: 0 <= i < |cut.events| && 0 <= k < |cut.events[i]| ==> !BlankLineAt(cut.events[i] + "\n\n", k))
    && (forall k :: !BlankLineAt(cut.rest, k))
  }

  /** One step of `Split`: the first event `e` has no earlier end than its blank line. */
  lemma SplitFront(e: string, tail: string)
    requires forall j :: 0 <= j < |e| ==> !BlankLineAt(e + "\n\n", j)
    ensures Split(e + "\n\n" + tail) == Prepend(e, Split(tail))
  {
    var text := e + "\n\n" + tail;
    assert BlankLineAt(text, |e|);
    forall j | 0 <= j < |e| ensures !BlankLineAt(text, j) {
      assert !BlankLineAt(e + "\n\n", j);
    }
    assert IndexOfBlankLine(text, 0) == |e|;
    assert text[..|e|] == e;
    assert text[|e| + 2..] == tail;
  }

  /** The text before and after the first blank line. */
  lemma FirstEvent(text: string) returns (e: string, tail: string)
    requires IndexOfBlankLine(text, 0) != -1
    ensures e == text[..IndexOfBlankLine(text, 0)] && tail == text[IndexOfBlankLine(text, 0) + 2..]
    ensures text == e + "\n\n" + tail
    ensures forall j :: 0 <= j < |e| ==> !BlankLineAt(e + "\n\n", j)
  {
    var k := IndexOfBlankLine(text, 0);
    e, tail := text[..k], text[k + 2..];
    forall j | 0 <= j < |e| ensures !BlankLineAt(e + "\n\n", j) {
      assert !BlankLineAt(text, j);
    }
  }

  /** `Split` loses nothing and stops at the leftmost blank lines. */
  lemma {:induction false} SplitIsLeftmost(text: string)
    ensures Glue(Split(text)) == text && Leftmost(Split(text))
    decreases |text|
  {
    if IndexOfBlankLine(text, 0) != -1 {
      var e, tail := FirstEvent(text);
      SplitFront(e, tail);
      SplitIsLeftmost(tail);
      assert Split(text) == Prepend(e, Split(tail));
      PrependIsLeftmost(e, Split(tail));
    } else {
      assert Split(text) == Cut([], text);
    }
  }

  lemma PrependIsLeftmost(e: string, cut: Cut)
    requires Leftmost(cut) && forall j :: 0 <= j < |e| ==> !BlankLineAt(e + "\n\n", j)
    ensures Leftmost(Prepend(e, cut)) && Glue(Prepend(e, cut)) == e + "\n\n" + Glue(cut)
  {
    var whole := Prepend(e, cut);
    assert whole.events[1..] == cut.events;
    forall i, j | 0 <= i < |whole.events| && 0 <= j < |whole.events[i]|
      ensures !BlankLineAt(whole.events[i] + "\n\n", j)
    {
      assert i > 0 ==> whole.events[i] == cut.events[i - 1];
    }
  }

  /** There is no other way to take the text apart that way. */
  lemma {:induction false} LeftmostCutIsUnique(cut: Cut)
    requires Leftmost(cut)
    ensures Split(Glue(cut)) == cut
    decreases |cut.events|
  {
    if cut.events == [] {
      assert IndexOfBlankLine(cut.rest, 0) == -1;
    } else {
      var others := Cut(cut.events[1..], cut.rest);
      assert Leftmost(others) by {
        forall i, k | 0 <= i < |others.events| && 0 <= k < |others.events[i]|
          ensures !BlankLineAt(others.events[i] + "\n\n", k)
        {
          assert others.events[i] == cut.events[i + 1];
        }
      }
      LeftmostCutIsUnique(others);
      SplitFront(cut.events[0], Glue(others));
    }
  }

  /** Splitting may be resumed from the unfinished rest when more text arrives. */
  lemma {:induction false} SplitAppend(a: string, b: string)
    ensures Split(a + b) == Resume(Split(a), Split(Split(a).rest + b))
    decreases |a|
  {
    if IndexOfBlankLine(a, 0) != -1 {
      var e, tail := FirstEvent(a);
      SplitAppend(tail, b);
      SplitAppendStep(e, tail, b);
    } else {
      assert Split(a) == Cut([], a);
    }
  }

  lemma SplitAppendStep(e: string, tail: string, b: string)
    requires forall j :: 0 <= j < |e| ==> !BlankLineAt(e + "\n\n", j)
    requires Split(tail + b) == Resume(Split(tail), Split(Split(tail).rest + b))
    ensures var a := e + "\n\n" + tail; Split(a + b) == Resume(Split(a), Split(Split(a).rest + b))
  {
    var a := e + "\n\n" + tail;
    assert a + b == e + "\n\n" + (tail + b);
    SplitFront(e, tail);
    SplitFront(e, tail + b);
    ResumePrepended(e, Split(tail), Split(Split(tail).rest + b));
  }

  /** The reading loop's buffer, with the events it has handed on. */
  class StreamReader {
    var buffer: string
    var processed: seq<string>
    /** The normalised text of all reads so far. */
    ghost var received: string

    ghost predicate Valid()
      reads this
    {
      Split(received) == Cut(processed, buffer)
    }

    constructor ()
      ensures Valid() && received == "" && processed == []
    {
      buffer, processed, received := "", [], "";
    }

    /** One pass of the reading loop: append a read, then take off every complete event. */
    method Feed(read: string)
      requires Valid()
      modifies this
      ensures Valid()
      ensures received == old(received) + Normalise(read)
      ensures old(processed) <= processed
    {
      SplitAppend(received, Normalise(read));
      received := received + Normalise(read);
      buffer := buffer + Normalise(read);
      ghost var target := Split(received);
      var separatorIndex := IndexOfBlankLine(buffer, 0);
      while separatorIndex != -1
        invariant separatorIndex == IndexOfBlankLine(buffer, 0)
        invariant received == old(received) + Normalise(read)
        invariant old(processed) <= processed
        invariant target == Resume(Cut(processed, buffer), Split(buffer))
        decreases |buffer|
      {
        TakeOne(processed, buffer);
        var eventChunk := buffer[..separatorIndex];
        buffer := buffer[separatorIndex + 2..];
        processed := processed + [eventChunk];
        separatorIndex := IndexOfBlankLine(buffer, 0);
      }
      assert Split(buffer) == Cut([], buffer);
    }
  }

  /** Handing on the first event of the buffer leaves the same things to come. */
  lemma TakeOne(processed: seq<string>, buffer: string)
    requires IndexOfBlankLine(buffer, 0) != -1
    ensures var k := IndexOfBlankLine(buffer, 0);
      Resume(Cut(processed, buffer), Split(buffer)) ==
          Resume(Cut(processed + [buffer[..k]], buffer[k + 2..]), Split(buffer[k + 2..]))
  {
    var k := IndexOfBlankLine(buffer, 0);
    Associate(processed, [buffer[..k]], Split(buffer[k + 2..]).events);
  }

  /** A CRLF pair straddles the end of `a` and the start of `b`. */
  predicate TearsCrlf(a: string, b: string) {
    a != [] && b != [] && Last(a) == '\r' && b[0] == '\n'
  }

  lemma NormaliseStep(c: char, rest: string)
    ensures TearsCrlf([c], rest) ==> Normalise([c] + rest) == "\n" + Normalise(rest[1..])
    ensures !TearsCrlf([c], rest) ==> Normalise([c] + rest) == [c] + Normalise(rest)
  {
    var text := [c] + rest;
    assert text[1..] == rest;
    if TearsCrlf([c], rest) {
      assert text[2..] == rest[1..];
    } else if rest == "" {
      assert Normalise(rest) == "";
    }
  }

  lemma NormaliseFromNewline(rest: string)
    ensures rest != "" && rest[0] == '\n' ==> Normalise(rest) == "\n" + Normalise(rest[1..])
  {
    if rest != "" && rest[0] == '\n' {
      NormaliseStep('\n', rest[1..]);
      assert rest == ['\n'] + rest[1..];
    }
  }

  predicate Appends(a: string, b: string) {
    if TearsCrlf(a, b) then |Normalise(a + b)| == |Normalise(a)| + |Normalise(b)| - 1
    else Normalise(a + b) == Normalise(a) + Normalise(b)
  }

  lemma AppendsToOne(c: char, b: string)
    ensures Appends([c], b)
  {
    NormaliseStep(c, b);
    NormaliseFromNewline(b);
    assert Normalise([c]) == [c];
  }

  lemma NormalisePair(rest: string)
    ensures Normalise("\r\n" + rest) == "\n" + Normalise(rest)
  {
    assert ("\r\n" + rest)[2..] == rest;
  }

  lemma TearsBehindPair(rest: string, b: string)
    ensures TearsCrlf("\r\n" + rest, b) == TearsCrlf(rest, b)
  {
    assert rest == "" ==> Last("\r\n" + rest) == '\n';
    assert rest != "" ==> Last("\r\n" + rest) == Last(rest);
  }

  lemma AppendsBehindPair(rest: string, b: string)
    requires Appends(rest, b)
    ensures Appends("\r\n" + rest, b)
  {
    NormalisePair(rest);
    NormalisePair(rest + b);
    TearsBehindPair(rest, b);
    Associate("\r\n", rest, b);
    Associate("\n", Normalise(rest), Normalise(b));
  }

  lemma AppendsBehindOne(c: char, rest: string, b: string)
    requires rest != "" && !TearsCrlf([c], rest) && Appends(rest, b)
    ensures Appends([c] + rest, b)
  {
    var a := [c] + rest;
    NormaliseStep(c, rest);
    NormaliseStep(c, rest + b);
    assert a + b == [c] + (rest + b);
    assert Last(a) == Last(rest);
  }

  /** Normalising two reads apart leaves one character too many exactly when the cut tears a CRLF pair. */
  lemma {:induction false} NormaliseAppend(a: string, b: string)
    ensures !TearsCrlf(a, b) ==> Normalise(a + b) == Normalise(a) + Normalise(b)
    ensures TearsCrlf(a, b) ==> |Normalise(a + b)| == |Normalise(a)| + |Normalise(b)| - 1
    decreases |a|
  {
    if a == [] {
      assert a + b == b;
    } else if |a| == 1 {
      AppendsToOne(a[0], b);
      assert a == [a[0]];
    } else if a[0] == '\r' && a[1] == '\n' {
      NormaliseAppend(a[2..], b);
      AppendsBehindPair(a[2..], b);
      assert a == "\r\n" + a[2..];
    } else {
      NormaliseAppend(a[1..], b);
      AppendsBehindOne(a[0], a[1..], b);
      assert a == [a[0]] + a[1..];
    }
  }

  ghost predicate NoPair(text: string) {
    forall k :: 0 <= k < |text| - 1 ==> !(text[k] == '\r' && text[k + 1] == '\n')
  }

  lemma {:induction false} NormaliseKeeps(text: string)
    requires NoPair(text)
    ensures Normalise(text) == text
  {
    if |text| >= 2 {
      NormaliseKeeps(text[1..]);
      assert text == [text[0]] + text[1..];
    }
  }

  /** Normalising turns each CRLF pair into a line feed and changes nothing else. */
  lemma NormaliseReplacesPairs(before: string, rest: string)
    requires NoPair(before)
    ensures Normalise(before) == before
    ensures Normalise(before + "\r\n" + rest) == before + "\n" + Normalise(rest)
  {
    NormaliseKeeps(before);
    assert before + "\r\n" + rest == before + ("\r\n" + rest);
    NormaliseAppend(before, "\r\n" + rest);
    NormalisePair(rest);
  }

  /** No cut between reads falls inside a CRLF pair. */
  predicate KeepsCrlf(parts: seq<string>) {
    parts == [] || (KeepsCrlf(DropLast(parts)) && !TearsCrlf(Concat(DropLast(parts)), Last(parts)))
  }

  function NormaliseEach(parts: seq<string>): string {
    if parts == [] then "" else NormaliseEach(DropLast(parts)) + Normalise(Last(parts))
  }

  lemma {:induction false} NormaliseReads(parts: seq<string>)
    ensures |NormaliseEach(parts)| >= |Normalise(Concat(parts))|
    ensures KeepsCrlf(parts) ==> NormaliseEach(parts) == Normalise(Concat(parts))
    ensures !KeepsCrlf(parts) ==> |NormaliseEach(parts)| > |Normalise(Concat(parts))|
  {
    if parts != [] {
      NormaliseReads(DropLast(parts));
      NormaliseAppend(Concat(DropLast(parts)), Last(parts));
    }
  }

  /** The reader's state after a list of reads, read by read. */
  function ReadAll(parts: seq<string>): Cut {
    Split(NormaliseEach(parts))
  }

  /**
   * For every way of cutting a stream into reads, the reader ends with the
   * leftmost split of the whole normalised stream if and only if no cut tears
   * a CRLF pair.
   */
  lemma ReadsDoNotMatter(parts: seq<string>)
    ensures ReadAll(parts) == Split(Normalise(Concat(parts))) <==> KeepsCrlf(parts)
  {
    NormaliseReads(parts);
    SplitIsLeftmost(NormaliseEach(parts));
    SplitIsLeftmost(Normalise(Concat(parts)));
  }

  /** A torn pair is visible: here it hides the end of the only event. */
  lemma TornCrlfHidesAnEvent()
    ensures ReadAll(["d\r\n\r", "\n"]) == Cut([], "d\n\r\n")
    ensures Split(Normalise(Concat(["d\r\n\r", "\n"]))) == Cut(["d"], "")
  {
    var parts := ["d\r\n\r", "\n"];
    assert DropLast(parts) == ["d\r\n\r"] && DropLast(["d\r\n\r"]) == [];
    assert "d\r\n\r"[1..] == "\r\n\r" && "\r\n\r"[2..] == "\r";
    assert NormaliseEach(parts) == "d\n\r\n";
    NoBlankLine("d\n\r\n");
    var whole := "d\r\n\r\n";
    assert Concat(parts) == whole;
    assert whole[1..] == "\r\n\r\n" && whole[1..][2..] == "\r\n" && "\r\n"[2..] == "";
    assert Normalise(whole) == "d\n\n";
    SplitFront("d", "");
    assert "d" + "\n\n" + "" == "d\n\n";
    NoBlankLine("");
  }

  lemma NoBlankLine(text: string)
    requires forall j :: !BlankLineAt(text, j)
    ensures Split(text) == Cut([], text)
  {
  }

  lemma {:induction false} NormalisePlain(plain: string, text: string)
    requires '\r' !in plain
    ensures Normalise(plain + text) == plain + Normalise(text)
  {
    if plain == [] {
      assert plain + text == text;
    } else {
      assert (plain + text)[1..] == plain[1..] + text;
      NormalisePlain(plain[1..], text);
    }
  }
}
