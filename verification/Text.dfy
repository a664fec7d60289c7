/** The JavaScript string operations the parsers and printers rely on. */
module Text {
  import opened Prelude

  /** White space and line terminators: what `trim` removes and the regular expression `\s` matches. */
  predicate IsSpace(c: char) {
    || '\t' <= c <= '\r'
    || c == ' '
    || c == '\U{00A0}' || c == '\U{1680}'
    || '\U{2000}' <= c <= '\U{200A}'
    || c == '\U{2028}' || c == '\U{2029}' || c == '\U{202F}' || c == '\U{205F}' || c == '\U{3000}' || c == '\U{FEFF}'
  }

  function TrimStart(s: string): string {
    if s == "" || !IsSpace(s[0]) then s else TrimStart(s[1..])
  }

  function TrimEnd(s: string): string {
    if s == "" || !IsSpace(Last(s)) then s else TrimEnd(DropLast(s))
  }

  function Trim(s: string): string {
    TrimEnd(TrimStart(s))
  }

  /** `s.split(c)`: always at least one piece. */
  function SplitOn(s: string, c: char): (pieces: seq<string>)
    ensures pieces != []
  {
    if s == "" then [""]
    else
      var rest := SplitOn(s[1..], c);
      if s[0] == c then [""] + rest else [[s[0]] + rest[0]] + rest[1..]
  }

  /** `pieces.join(c)`. */
  function Join(pieces: seq<string>, c: char): string {
    if pieces == [] then ""
    else if |pieces| == 1 then pieces[0]
    else pieces[0] + [c] + Join(pieces[1..], c)
  }

  lemma {:induction false} SplitOnPlain(s: string, c: char)
    requires c !in s
    ensures SplitOn(s, c) == [s]
  {
    if s != "" {
      SplitOnPlain(s[1..], c);
      assert [s[0]] + s[1..] == s;
    }
  }

  lemma {:induction false} SplitOnFirst(s: string, c: char, tail: string)
    requires c !in s
    ensures SplitOn(s + [c] + tail, c) == [s] + SplitOn(tail, c)
  {
    var whole := s + [c] + tail;
    if s == "" {
      assert whole[1..] == tail;
    } else {
      assert whole[1..] == s[1..] + [c] + tail;
      SplitOnFirst(s[1..], c, tail);
      assert [s[0]] + s[1..] == s;
    }
  }

  /** Splitting undoes joining when no piece contains the separator. */
  lemma {:induction false} SplitOnJoin(pieces: seq<string>, c: char)
    requires pieces != [] && forall p :: p in pieces ==> c !in p
    ensures SplitOn(Join(pieces, c), c) == pieces
  {
    if |pieces| == 1 {
      SplitOnPlain(pieces[0], c);
    } else {
      SplitOnJoin(pieces[1..], c);
      SplitOnFirst(pieces[0], c, Join(pieces[1..], c));
    }
  }

  lemma {:induction false} TrimStartSkips(before: string, rest: string)
    requires forall c :: c in before ==> IsSpace(c)
    requires rest == "" || !IsSpace(rest[0])
    ensures TrimStart(before + rest) == rest
  {
    if before == "" {
      assert before + rest == rest;
    } else {
      assert (before + rest)[1..] == before[1..] + rest;
      TrimStartSkips(before[1..], rest);
    }
  }

  lemma {:induction false} TrimEndSkips(rest: string, after: string)
    requires forall c :: c in after ==> IsSpace(c)
    requires rest == "" || !IsSpace(Last(rest))
    ensures TrimEnd(rest + after) == rest
  {
    if after == "" {
      assert rest + after == rest;
    } else {
      assert DropLast(rest + after) == rest + DropLast(after);
      TrimEndSkips(rest, DropLast(after));
    }
  }

  /** White space around a text that has none at its ends is what `trim` removes. */
  lemma TrimPadded(before: string, text: string, after: string)
    requires forall c :: c in before + after ==> IsSpace(c)
    requires text == "" || (!IsSpace(text[0]) && !IsSpace(Last(text)))
    ensures Trim(before + text + after) == text
  {
    assert forall c :: c in before ==> c in before + after;
    assert forall c :: c in after ==> c in before + after;
    if text == "" {
      assert before + text + after == (before + after) + "";
      TrimStartSkips(before + after, "");
    } else {
      assert before + text + after == before + (text + after);
      assert (text + after)[0] == text[0];
      TrimStartSkips(before, text + after);
      TrimEndSkips(text, after);
    }
  }

  lemma {:induction false} TrimEndNonBlank(s: string, k: nat)
    requires k < |s| && !IsSpace(s[k])
    ensures TrimEnd(s) != ""
  {
    if IsSpace(Last(s)) {
      TrimEndNonBlank(DropLast(s), k);
    }
  }

  /** What is trimmed to nothing is white space throughout. */
  lemma {:induction false} BlankIsSpace(s: string, k: nat)
    requires Trim(s) == "" && k < |s|
    ensures IsSpace(s[k])
  {
    if !IsSpace(s[0]) {
      TrimEndNonBlank(s, 0);
    } else if k > 0 {
      BlankIsSpace(s[1..], k - 1);
    }
  }
}
