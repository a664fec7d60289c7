/**
 * Stripping the comments from JSON with comments: the one-pass loop, the
 * tokens it implicitly reads, and a grammar for those tokens.
 */
module Jsonc {
  import opened Prelude

  datatype Kind = Plain | Literal | LineComment | BlockComment

  datatype Token = Token(kind: Kind, text: string)

  predicate IsComment(t: Token) {
    t.kind.LineComment? || t.kind.BlockComment?
  }

  // ------------------------------------------------------------------ the scanners

  /** How much of `s`, which follows an opening quote, belongs to the literal. */
  function LiteralRest(s: string, escaped: bool): (n: nat)
    ensures n <= |s|
  {
    if s == "" then 0
    else if escaped then 1 + LiteralRest(s[1..], false)
    else if s[0] == '\\' then 1 + LiteralRest(s[1..], true)
    else if s[0] == '"' then 1
    else 1 + LiteralRest(s[1..], false)
  }

  /** How much of `s`, which follows `//`, belongs to the comment. */
  function LineRest(s: string): (n: nat)
    ensures n <= |s|
  {
    if s == "" || s[0] == '\n' then 0 else 1 + LineRest(s[1..])
  }

  predicate Closes(s: string) {
    |s| >= 2 && s[0] == '*' && s[1] == '/'
  }

  /** How much of `s`, which follows an opening slash and star, belongs to the comment. */
  function BlockRest(s: string): (n: nat)
    ensures n <= |s|
  {
    if s == "" then 0 else if Closes(s) then 2 else 1 + BlockRest(s[1..])
  }

  predicate Opens(s: string, second: char) {
    |s| >= 2 && s[0] == '/' && s[1] == second
  }

  function First(s: string): (t: Token)
    requires s != ""
    ensures 1 <= |t.text| <= |s| && t.text == s[..|t.text|]
  {
    if s[0] == '"' then Token(Literal, s[..1 + LiteralRest(s[1..], false)])
    else if Opens(s, '/') then Token(LineComment, s[..2 + LineRest(s[2..])])
    else if Opens(s, '*') then Token(BlockComment, s[..2 + BlockRest(s[2..])])
    else Token(Plain, s[..1])
  }

  function Lex(s: string): seq<Token> {
    if s == "" then [] else [First(s)] + Lex(s[|First(s).text|..])
  }

  function Render(ts: seq<Token>): string {
    if ts == [] then "" else ts[0].text + Render(ts[1..])
  }

  function WithoutComments(ts: seq<Token>): seq<Token> {
    if ts == [] then []
    else if IsComment(ts[0]) then WithoutComments(ts[1..])
    else [ts[0]] + WithoutComments(ts[1..])
  }

  function Strip(s: string): string {
    Render(WithoutComments(Lex(s)))
  }

  // --------------------------------------------------------------------- the loop

  /** What is still to be written when the loop stands inside a literal. */
  function StripInside(s: string, escaped: bool): string {
    s[..LiteralRest(s, escaped)] + Strip(s[LiteralRest(s, escaped)..])
  }

  lemma StripFirst(s: string)
    requires s != ""
    ensures var t := First(s);
      Strip(s) == (if IsComment(t) then "" else t.text) + Strip(s[|t.text|..])
  {
    var rest := Lex(s[|First(s).text|..]);
    assert Lex(s)[0] == First(s) && Lex(s)[1..] == rest;
    var kept := [First(s)] + WithoutComments(rest);
    assert kept[0] == First(s) && kept[1..] == WithoutComments(rest);
  }

  /** Cutting behind the first character, and joining again. */
  lemma CutBehindHead(s: string, n: nat, rest: string)
    requires s != "" && n <= |s| - 1
    ensures s[1 + n..] == s[1..][n..]
    ensures s[..1 + n] + rest == [s[0]] + (s[1..][..n] + rest)
  {
  }

  lemma StripLiteral(s: string)
    requires s != "" && s[0] == '"'
    ensures Strip(s) == ['"'] + StripInside(s[1..], false)
  {
    StripFirst(s);
    var n := LiteralRest(s[1..], false);
    CutBehindHead(s, n, Strip(s[1 + n..]));
  }

  lemma StripInsideStep(s: string, escaped: bool)
    requires s != ""
    ensures !escaped && s[0] == '"' ==> StripInside(s, escaped) == [s[0]] + Strip(s[1..])
    ensures escaped || s[0] != '"' ==> StripInside(s, escaped) == [s[0]] + StripInside(s[1..], !escaped && s[0] == '\\')
  {
    var n := LiteralRest(s, escaped);
    CutBehindHead(s, n - 1, Strip(s[n..]));
  }

  /** What is still to be written in a given state of the loop. */
  function Remaining(s: string, inString: bool, escaped: bool): string {
    if inString then StripInside(s, escaped) else Strip(s)
  }

  lemma CopyHead(s: string, inString: bool, escaped: bool)
    requires s != "" && (!inString ==> !Opens(s, '/') && !Opens(s, '*'))
    ensures inString ==>
              Remaining(s, inString, escaped) ==
              [s[0]] + Remaining(s[1..], escaped || s[0] != '"', !escaped && s[0] == '\\')
    ensures !inString ==> Remaining(s, inString, escaped) == [s[0]] + Remaining(s[1..], s[0] == '"', false)
  {
    if inString {
      StripInsideStep(s, escaped);
    } else if s[0] == '"' {
      StripLiteral(s);
    } else {
      StripFirst(s);
    }
  }

  /** The branches that copy a character. */
  lemma CopyOne(input: string, i: nat, inString: bool, escaped: bool, output: string)
    requires i < |input|
    requires !inString ==> !Opens(input[i..], '/') && !Opens(input[i..], '*')
    ensures output + Remaining(input[i..], inString, escaped) == (output + [input[i]]) +
      (if inString then Remaining(input[i + 1..], escaped || input[i] != '"', !escaped && input[i] == '\\')
       else Remaining(input[i + 1..], input[i] == '"', false))
  {
    var rest := input[i..];
    assert rest[1..] == input[i + 1..] && rest[0] == input[i];
    CopyHead(rest, inString, escaped);
    if inString {
      Associate(output, [input[i]], Remaining(rest[1..], escaped || input[i] != '"', !escaped && input[i] == '\\'));
    } else {
      Associate(output, [input[i]], Remaining(rest[1..], input[i] == '"', false));
    }
  }

  /** The branches that skip a comment: where the inner loop has to stop. */
  lemma SkipOne(s: string)
    ensures Opens(s, '/') ==> Strip(s) == Strip(s[2..][LineRest(s[2..])..])
    ensures Opens(s, '*') ==> Strip(s) == Strip(s[2..][BlockRest(s[2..])..])
  {
    if Opens(s, '/') || Opens(s, '*') {
      StripFirst(s);
      assert Opens(s, '/') ==> s[2..][LineRest(s[2..])..] == s[2 + LineRest(s[2..])..];
      assert Opens(s, '*') ==> s[2..][BlockRest(s[2..])..] == s[2 + BlockRest(s[2..])..];
    }
  }

  method StripJsoncComments(input: string) returns (output: string)
    ensures output == Strip(input)
  {
    output := "";
    var i, inString, escaped := 0, false, false;
    while i < |input|
      invariant 0 <= i <= |input|
      invariant escaped ==> inString
      invariant output + Remaining(input[i..], inString, escaped) == Strip(input)
    {
      var ch := input[i];
      ghost var rest := input[i..];
      if inString {
        CopyOne(input, i, inString, escaped, output);
        output := output + [ch];
        if escaped {
          escaped := false;
        } else if ch == '\\' {
          escaped := true;
        } else if ch == '"' {
          inString := false;
        }
        i := i + 1;
        continue;
      }
      if ch == '"' {
        CopyOne(input, i, inString, escaped, output);
        inString := true;
        output := output + [ch];
        i := i + 1;
        continue;
      }
      SkipOne(rest);
      if ch == '/' && i + 1 < |input| && input[i + 1] == '/' {
        i := SkipLine(input, i + 2);
        continue;
      }
      if ch == '/' && i + 1 < |input| && input[i + 1] == '*' {
        i := SkipBlock(input, i + 2);
        continue;
      }
      CopyOne(input, i, inString, escaped, output);
      output := output + [ch];
      i := i + 1;
    }
  }

  /** The inner loop over a line comment. */
  method SkipLine(input: string, start: nat) returns (i: nat)
    requires start <= |input|
    ensures start <= i <= |input| && input[i..] == input[start..][LineRest(input[start..])..]
  {
    i := start;
    while i < |input| && input[i] != '\n'
      invariant start <= i <= |input|
      invariant i + LineRest(input[i..]) == start + LineRest(input[start..])
    {
      assert input[i..][1..] == input[i + 1..];
      i := i + 1;
    }
  }

  /** The inner loop over a block comment; one that is never closed runs to the end. */
  method SkipBlock(input: string, start: nat) returns (i: nat)
    requires start <= |input|
    ensures start <= i <= |input| && input[i..] == input[start..][BlockRest(input[start..])..]
  {
    i := start;
    while i < |input|
      invariant start <= i <= |input|
      invariant i + BlockRest(input[i..]) == start + BlockRest(input[start..])
    {
      if input[i] == '*' && i + 1 < |input| && input[i + 1] == '/' {
        i := i + 2;
        return;
      }
      assert input[i..][1..] == input[i + 1..];
      i := i + 1;
    }
  }

  // ------------------------------------------------------------------ the grammar

  /** The inside of a literal: plain characters, and backslashes each with the character they escape. */
  predicate LiteralBody(s: string) {
    || s == ""
    || (s[0] == '\\' && |s| >= 2 && LiteralBody(s[2..]))
    || (s[0] != '\\' && s[0] != '"' && LiteralBody(s[1..]))
  }

  /** The rest of a literal that the end of the text cuts off, possibly after a backslash. */
  predicate CutLiteral(s: string) {
    LiteralBody(s) || (s != "" && Last(s) == '\\' && LiteralBody(DropLast(s)))
  }

  ghost predicate Closed(s: string) {
    exists k: nat :: k < |s| && Closes(s[k..])
  }

  /** Whether `t` is a token when `tail` follows it. */
  ghost predicate Fits(t: Token, tail: string) {
    var x := t.text;
    match t.kind
    case Plain =>
      |x| == 1 && x[0] != '"' && (x[0] == '/' ==> tail == "" || (tail[0] != '/' && tail[0] != '*'))
    case Literal =>
      && x != "" && x[0] == '"'
      && (|| (|x| >= 2 && Last(x) == '"' && LiteralBody(DropLast(x)[1..]))
          || (tail == "" && CutLiteral(x[1..])))
    case LineComment =>
      Opens(x, '/') && '\n' !in x && (tail == "" || tail[0] == '\n')
    case BlockComment =>
      && Opens(x, '*')
      && (|| (|x| >= 4 && Closes(x[|x| - 2..]) && !Closed(DropLast(x)[2..]))
          || (tail == "" && !Closed(x[2..])))
  }

  /** A list of tokens that can be told apart when printed one after the other. */
  ghost predicate WellFormed(ts: seq<Token>) {
    ts == [] || (Fits(ts[0], Render(ts[1..])) && WellFormed(ts[1..]))
  }

  // ----------------------------------------------------- the scanners and the grammar

  lemma {:induction false} LiteralEnds(s: string, n: nat)
    requires n <= |s|
    ensures LiteralRest(s, false) == n <==>
      || (n > 0 && s[n - 1] == '"' && LiteralBody(s[..n - 1]))
      || (n == |s| && CutLiteral(s))
    decreases |s|
  {
    if s == "" {
    } else if s[0] == '"' {
    } else if s[0] == '\\' {
      if |s| == 1 {
        assert DropLast(s) == "";
      } else {
        assert s[1..][1..] == s[2..];
        if n >= 2 {
          LiteralEnds(s[2..], n - 2);
          Shift(s, n, 2);
        }
      }
    } else if n >= 1 {
      LiteralEnds(s[1..], n - 1);
      Shift(s, n, 1);
    }
  }

  /** Dropping the first unit of a literal's rest drops it from both ways of ending. */
  lemma Shift(s: string, n: nat, k: nat)
    requires 1 <= k <= n <= |s|
    ensures n > k ==> s[..n - 1][k..] == s[k..][..n - k - 1] && s[k..][n - k - 1] == s[n - 1]
    ensures |s| > k ==> DropLast(s)[k..] == DropLast(s[k..]) && Last(s[k..]) == Last(s)
  {
  }

  lemma {:induction false} LineEnds(s: string, n: nat)
    requires n <= |s|
    ensures LineRest(s) == n <==> '\n' !in s[..n] && (n == |s| || s[n] == '\n')
  {
    if s != "" && s[0] != '\n' && n > 0 {
      LineEnds(s[1..], n - 1);
      assert s[..n] == [s[0]] + s[1..][..n - 1];
    } else if s != "" && n > 0 {
      assert s[..n][0] == '\n';
    }
  }

  lemma ClosedFromHead(s: string)
    ensures Closed(s) <==> Closes(s) || (s != "" && Closed(s[1..]))
  {
    if Closes(s) {
      assert s[0..] == s;
    }
    forall k: nat | k + 1 < |s| ensures s[1..][k..] == s[k + 1..] {
    }
    if s != "" && Closed(s[1..]) {
      var k: nat :| k < |s[1..]| && Closes(s[1..][k..]);
      assert s[k + 1..] == s[1..][k..];
    }
    if Closed(s) && !Closes(s) {
      var k: nat :| k < |s| && Closes(s[k..]);
      assert s[0..] == s;
      assert s[1..][k - 1..] == s[k..];
    }
  }

  lemma {:induction false} BlockEnds(s: string, n: nat)
    requires n <= |s|
    ensures BlockRest(s) == n <==>
      || (n >= 2 && Closes(s[n - 2..n]) && !Closed(s[..n - 1]))
      || (n == |s| && !Closed(s))
  {
    ClosedFromHead(s);
    if n >= 2 {
      ClosedFromHead(s[..n - 1]);
    }
    if s != "" && !Closes(s) && n > 0 {
      BlockEnds(s[1..], n - 1);
      if n > 2 {
        assert s[n - 2..n] == s[1..][n - 3..n - 1];
        assert s[..n - 1][1..] == s[1..][..n - 2];
      }
    }
  }

  lemma PlainFits(x: string, tail: string)
    requires x != ""
    ensures Fits(Token(Plain, x), tail) <==> First(x + tail) == Token(Plain, x)
  {
    var u := x + tail;
    assert |x| == 1 ==> (Opens(u, '/') <==> x[0] == '/' && tail != "" && tail[0] == '/');
    assert |x| == 1 ==> (Opens(u, '*') <==> x[0] == '/' && tail != "" && tail[0] == '*');
    assert |x| == 1 ==> u[..1] == x;
  }

  lemma LiteralFits(x: string, tail: string)
    requires x != ""
    ensures Fits(Token(Literal, x), tail) <==> First(x + tail) == Token(Literal, x)
  {
    var u, n := x + tail, |x| - 1;
    assert u[..|x|] == x && u[1..] == x[1..] + tail;
    LiteralEnds(u[1..], n);
    if n > 0 {
      assert u[1..][..n - 1] == DropLast(x)[1..] && u[1..][n - 1] == Last(x);
    }
    assert n == |u[1..]| <==> tail == "";
    assert tail == "" ==> u[1..] == x[1..];
  }

  lemma LineFits(x: string, tail: string)
    requires x != ""
    ensures Fits(Token(LineComment, x), tail) <==> First(x + tail) == Token(LineComment, x)
  {
    var u, n := x + tail, |x| - 2;
    assert u[..|x|] == x;
    if n >= 0 {
      assert u[2..] == x[2..] + tail && u[2..][..n] == x[2..];
      assert x == x[..2] + x[2..];
      LineEnds(u[2..], n);
      assert tail != "" ==> u[2..][n] == tail[0];
    }
  }

  lemma BlockFits(x: string, tail: string)
    requires x != ""
    ensures Fits(Token(BlockComment, x), tail) <==> First(x + tail) == Token(BlockComment, x)
  {
    var u, n := x + tail, |x| - 2;
    assert u[..|x|] == x;
    if n >= 0 {
      assert u[2..] == x[2..] + tail;
      BlockEnds(u[2..], n);
      assert n > 0 ==> u[2..][..n - 1] == DropLast(x)[2..];
      assert n >= 2 ==> u[2..][n - 2..n] == x[|x| - 2..];
      assert tail == "" ==> u[2..] == x[2..];
    }
  }

  /** The scanners read off exactly the token the grammar allows. */
  lemma FirstIsTheOneThatFits(t: Token, tail: string)
    requires t.text != ""
    ensures Fits(t, tail) <==> First(t.text + tail) == t
  {
    match t.kind
    case Plain => PlainFits(t.text, tail);
    case Literal => LiteralFits(t.text, tail);
    case LineComment => LineFits(t.text, tail);
    case BlockComment => BlockFits(t.text, tail);
  }

  // --------------------------------------------------------------- the main results

  lemma FitsNonEmpty(t: Token, tail: string)
    requires Fits(t, tail)
    ensures t.text != ""
  {
  }

  /** Reading back what was printed. */
  lemma {:induction false} LexReadsBack(ts: seq<Token>)
    ensures WellFormed(ts) ==> Lex(Render(ts)) == ts
  {
    if ts != [] && WellFormed(ts) {
      var t, tail := ts[0], Render(ts[1..]);
      FitsNonEmpty(t, tail);
      FirstIsTheOneThatFits(t, tail);
      assert Render(ts)[|t.text|..] == tail;
      LexReadsBack(ts[1..]);
      assert ts == [t] + ts[1..];
    }
  }

  /** Every text is the printing of its tokens, and they are well formed. */
  lemma {:induction false} LexIsLossless(s: string)
    ensures Render(Lex(s)) == s && WellFormed(Lex(s))
    decreases |s|
  {
    if s != "" {
      var t := First(s);
      var rest := s[|t.text|..];
      LexIsLossless(rest);
      assert Lex(s)[0] == t && Lex(s)[1..] == Lex(rest);
      assert t.text + rest == s;
      FirstIsTheOneThatFits(t, rest);
    }
  }

  /** The tokens of a text are the only well-formed list that prints as it. */
  lemma LexIsTheOnlyReading(s: string, ts: seq<Token>)
    ensures WellFormed(ts) && Render(ts) == s <==> ts == Lex(s)
  {
    LexIsLossless(s);
    LexReadsBack(ts);
  }

  lemma {:induction false} WithoutCommentsFits(t: Token, ts: seq<Token>)
    requires !IsComment(t) && WellFormed(ts) && Fits(t, Render(ts))
    ensures Fits(t, Render(WithoutComments(ts)))
  {
    if ts != [] {
      FitsNonEmpty(ts[0], Render(ts[1..]));
      assert Render(ts)[0] == ts[0].text[0];
      if !IsComment(ts[0]) {
        var kept := [ts[0]] + WithoutComments(ts[1..]);
        assert kept[0] == ts[0] && kept[1..] == WithoutComments(ts[1..]);
        assert Render(WithoutComments(ts))[0] == ts[0].text[0];
      }
    }
  }

  lemma {:induction false} WithoutCommentsStaysWellFormed(ts: seq<Token>)
    requires WellFormed(ts)
    ensures WellFormed(WithoutComments(ts))
  {
    if ts != [] {
      WithoutCommentsStaysWellFormed(ts[1..]);
      if !IsComment(ts[0]) {
        WithoutCommentsFits(ts[0], ts[1..]);
        var kept := [ts[0]] + WithoutComments(ts[1..]);
        assert kept[0] == ts[0] && kept[1..] == WithoutComments(ts[1..]);
      }
    }
  }

  /** Stripping a printed list of tokens prints the list without its comments. */
  lemma {:induction false} StripDropsExactlyTheComments(ts: seq<Token>)
    requires WellFormed(ts)
    ensures Strip(Render(ts)) == Render(WithoutComments(ts))
    ensures Lex(Strip(Render(ts))) == WithoutComments(ts)
  {
    LexReadsBack(ts);
    WithoutCommentsStaysWellFormed(ts);
    LexReadsBack(WithoutComments(ts));
  }

  lemma {:induction false} WithoutCommentsFacts(ts: seq<Token>)
    ensures forall t :: t in WithoutComments(ts) <==> t in ts && !IsComment(t)
    ensures WithoutComments(WithoutComments(ts)) == WithoutComments(ts)
    ensures |Render(WithoutComments(ts))| <= |Render(ts)|
    ensures (forall t :: t in ts ==> t.text != "") && (exists t :: t in ts && IsComment(t)) ==>
        |Render(WithoutComments(ts))| < |Render(ts)|
    ensures (forall t :: t in ts ==> !IsComment(t)) ==> WithoutComments(ts) == ts
  {
    if ts != [] {
      var t, rest := ts[0], ts[1..];
      WithoutCommentsFacts(rest);
      assert ts == [t] + rest;
      if !IsComment(t) {
        var kept := [t] + WithoutComments(rest);
        assert kept[0] == t && kept[1..] == WithoutComments(rest);
      }
    }
  }

  lemma {:induction false} TokensAreNonEmpty(ts: seq<Token>)
    requires WellFormed(ts)
    ensures forall t :: t in ts ==> t.text != ""
  {
    if ts != [] {
      FitsNonEmpty(ts[0], Render(ts[1..]));
      TokensAreNonEmpty(ts[1..]);
    }
  }

  /**
   * For every input: the tokens of the output are the tokens of the input
   * other than comments, in order and verbatim; stripping again changes
   * nothing; and the output equals the input exactly when the input has no
   * comment outside its literals.
   */
  lemma {:induction false} StripKeepsEverythingElse(s: string)
    ensures Lex(Strip(s)) == WithoutComments(Lex(s))
    ensures Strip(Strip(s)) == Strip(s)
    ensures Strip(s) == s <==> forall t :: t in Lex(s) ==> !IsComment(t)
    ensures forall t :: t in Lex(Strip(s)) <==> t in Lex(s) && !IsComment(t)
  {
    var ts := Lex(s);
    LexIsLossless(s);
    StripDropsExactlyTheComments(ts);
    WithoutCommentsFacts(ts);
    TokensAreNonEmpty(ts);
  }
}
