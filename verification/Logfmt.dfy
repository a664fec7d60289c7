/**
 * The log lines `key=value key="value with spaces" …`: how they are printed,
 * and a parser that reads them back.
 */
module Logfmt {
  import opened Prelude
  import opened Text

  // -------------------------------------------------------------------- the values

  /** What JSON.stringify does with a value: it may answer undefined, or throw. */
  datatype Json = JsonText(text: string) | JsonUndefined | JsonThrows

  /** A value as the logger receives it; numbers and big integers come with their decimal text. */
  datatype Value =
    | Undefined
    | Null
    | Str(text: string)
    | Num(digits: string)
    | Bool(b: bool)
    | BigInt(digits: string)
    | ErrorObject(json: string)
    | Other(outcome: Json)

  datatype Serialized = Text(text: string) | Number(digits: string) | Boolean(b: bool) | NullValue

  datatype Field = Field(key: string, value: Value)

  /** A field as a reader of the line sees it. */
  datatype Pair = Pair(key: string, text: string)

  predicate NeedsQuotes(c: char) {
    IsSpace(c) || c == '=' || c == '"' || c == '\\'
  }

  predicate Bare(s: string) {
    s != "" && forall c :: c in s ==> !NeedsQuotes(c)
  }

  /** The text of a number is never empty and has no white space, quotes or the like. */
  predicate ValidValue(v: Value) {
    v.Num? ==> Bare(v.digits)
  }

  function Serialize(v: Value): Serialized {
    match v
    case Undefined => NullValue
    case Null => NullValue
    case Str(text) => Text(text)
    case Num(digits) => Number(digits)
    case Bool(b) => Boolean(b)
    case BigInt(digits) => Text(digits)
    case ErrorObject(json) => Text(json)
    case Other(outcome) =>
      match outcome
      case JsonText(text) => Text(text)
      case JsonUndefined => NullValue
      case JsonThrows => Text("[unserializable]")
  }

  // ------------------------------------------------------------------ the printer

  /** `s.replace(/c/g, with)`. */
  function Replace(s: string, c: char, with: string): string {
    if s == "" then "" else (if s[0] == c then with else [s[0]]) + Replace(s[1..], c, with)
  }

  function Escape(s: string): string {
    Replace(Replace(Replace(s, '\\', "\\\\"), '"', "\\\""), '\n', "\\n")
  }

  function Quote(raw: string): string {
    if Bare(raw) then raw else "\"" + Escape(raw) + "\""
  }

  function FormatValue(v: Serialized): string {
    match v
    case Number(digits) => digits
    case Boolean(b) => if b then "true" else "false"
    case Text(text) => Quote(text)
    case NullValue => Quote("null")
  }

  function FormatField(f: Field): string {
    f.key + "=" + FormatValue(Serialize(f.value))
  }

  function Defined(record: seq<Field>): seq<Field> {
    if record == [] then []
    else if record[0].value.Undefined? then Defined(record[1..])
    else [record[0]] + Defined(record[1..])
  }

  function FormatFields(fields: seq<Field>): seq<string> {
    if fields == [] then [] else [FormatField(fields[0])] + FormatFields(fields[1..])
  }

  function FormatLine(record: seq<Field>): string {
    Join(FormatFields(Defined(record)), ' ')
  }

  // ------------------------------------------------------------------- the reader

  /** The text a value stands for on the line. */
  function TextOf(v: Value): string {
    match v
    case Undefined => "null"
    case Null => "null"
    case Str(text) => text
    case Num(digits) => digits
    case Bool(b) => if b then "true" else "false"
    case BigInt(digits) => digits
    case ErrorObject(json) => json
    case Other(JsonText(text)) => text
    case Other(JsonUndefined) => "null"
    case Other(JsonThrows) => "[unserializable]"
  }

  function PairsOf(fields: seq<Field>): seq<Pair> {
    if fields == [] then [] else [Pair(fields[0].key, TextOf(fields[0].value))] + PairsOf(fields[1..])
  }

  datatype Token = Token(text: string, rest: string)

  /** Everything before the first `stop`. */
  function Before(s: string, stop: char): (n: nat)
    ensures n <= |s|
  {
    if s == "" || s[0] == stop then 0 else 1 + Before(s[1..], stop)
  }

  function Unescaped(c: char): Option<char> {
    if c == '\\' || c == '"' then Some(c) else if c == 'n' then Some('\n') else None
  }

  /** The rest of a quoted value, after its opening quote. */
  function ReadQuoted(s: string): (r: Option<Token>)
    ensures r.Some? ==> |r.value.rest| < |s|
  {
    if s == "" then None
    else if s[0] == '"' then Some(Token("", s[1..]))
    else if s[0] == '\\' then
      if |s| == 1 || Unescaped(s[1]).None? then None
      else
        var tail := ReadQuoted(s[2..]);
        if tail.None? then None else Some(tail.value.(text := [Unescaped(s[1]).value] + tail.value.text))
    else
      var tail := ReadQuoted(s[1..]);
      if tail.None? then None else Some(tail.value.(text := [s[0]] + tail.value.text))
  }

  function ReadValue(s: string): (r: Option<Token>)
    ensures r.Some? ==> |r.value.rest| <= |s|
  {
    if s != "" && s[0] == '"' then ReadQuoted(s[1..])
    else Some(Token(s[..Before(s, ' ')], s[Before(s, ' ')..]))
  }

  function ReadPairs(s: string): Option<seq<Pair>>
    decreases |s|
  {
    var n := Before(s, '=');
    if n == |s| then None
    else
      var value := ReadValue(s[n + 1..]);
      if value.None? then None
      else
        var pair, rest := Pair(s[..n], value.value.text), value.value.rest;
        if rest == "" then Some([pair])
        else if rest[0] != ' ' then None
        else
          var more := ReadPairs(rest[1..]);
          if more.None? then None else Some([pair] + more.value)
  }

  function ReadLine(line: string): Option<seq<Pair>> {
    if line == "" then Some([]) else ReadPairs(line)
  }

  // ------------------------------------------------------------------- escaping

  function EscapeChar(c: char): string {
    if c == '\\' then "\\\\" else if c == '"' then "\\\"" else if c == '\n' then "\\n" else [c]
  }

  function EscapeEach(s: string): string {
    if s == "" then "" else EscapeChar(s[0]) + EscapeEach(s[1..])
  }

  lemma {:induction false} ReplaceAppend(a: string, b: string, c: char, with: string)
    ensures Replace(a + b, c, with) == Replace(a, c, with) + Replace(b, c, with)
  {
    if a == "" {
      assert a + b == b;
    } else {
      ReplaceAppend(a[1..], b, c, with);
      assert (a + b)[1..] == a[1..] + b;
      Associate(if a[0] == c then with else [a[0]], Replace(a[1..], c, with), Replace(b, c, with));
    }
  }

  lemma {:induction false} ReplaceShort(s: string, c: char, with: string)
    requires |s| == 1 || |s| == 2
    ensures |s| == 1 ==> Replace(s, c, with) == if s[0] == c then with else s
    ensures |s| == 2 && s[0] != c ==> Replace(s, c, with) == [s[0]] + if s[1] == c then with else [s[1]]
    ensures |s| == 2 && s[0] == c == s[1] ==> Replace(s, c, with) == with + with
  {
    assert Replace("", c, with) == "";
    assert s[1..] == "" || (s[1..] == [s[1]] && s[1..][1..] == "");
  }

  lemma EscapeOne(c: char)
    ensures Escape([c]) == EscapeChar(c)
  {
    var one := Replace([c], '\\', "\\\\");
    ReplaceShort([c], '\\', "\\\\");
    ReplaceShort(one, '"', "\\\"");
    ReplaceShort(Replace(one, '"', "\\\""), '\n', "\\n");
  }

  /** The three replacements, one pass over the text after another, amount to escaping each character by itself. */
  lemma {:induction false} EscapeIsPerCharacter(s: string)
    ensures Escape(s) == EscapeEach(s)
  {
    if s != "" {
      var head, tail := [s[0]], s[1..];
      assert s == head + tail;
      ReplaceAppend(head, tail, '\\', "\\\\");
      ReplaceAppend(Replace(head, '\\', "\\\\"), Replace(tail, '\\', "\\\\"), '"', "\\\"");
      ReplaceAppend(Replace(Replace(head, '\\', "\\\\"), '"', "\\\""),
          Replace(Replace(tail, '\\', "\\\\"), '"', "\\\""), '\n', "\\n");
      EscapeOne(s[0]);
      EscapeIsPerCharacter(tail);
    }
  }

  /** An escaped character reads as the character, whatever follows. */
  lemma ReadsOneCharacter(c: char, s: string)
    ensures ReadQuoted(EscapeChar(c) + s) ==
      (if ReadQuoted(s).None? then None else Some(Token([c] + ReadQuoted(s).value.text, ReadQuoted(s).value.rest)))
  {
    var whole := EscapeChar(c) + s;
    if |EscapeChar(c)| == 1 {
      assert whole[1..] == s;
    } else {
      assert whole[2..] == s;
    }
  }

  lemma {:induction false} QuotedReadsBack(text: string, rest: string)
    ensures ReadQuoted(EscapeEach(text) + ("\"" + rest)) == Some(Token(text, rest))
  {
    var close := "\"" + rest;
    if text == "" {
      assert EscapeEach(text) + close == close && close[1..] == rest;
    } else {
      QuotedReadsBack(text[1..], rest);
      ReadsOneCharacter(text[0], EscapeEach(text[1..]) + close);
      Associate(EscapeChar(text[0]), EscapeEach(text[1..]), close);
      assert text == [text[0]] + text[1..];
    }
  }

  // ------------------------------------------------------------ reading a line back

  lemma {:induction false} BeforeFinds(s: string, stop: char, rest: string)
    requires stop !in s && (rest == "" || rest[0] == stop)
    ensures Before(s + rest, stop) == |s|
  {
    if s != "" {
      BeforeFinds(s[1..], stop, rest);
      assert (s + rest)[1..] == s[1..] + rest;
    } else {
      assert s + rest == rest;
    }
  }

  /**
   * A printed value is its text, as it is if it is not empty and has no white
   * space, equals sign, quote or backslash, and otherwise quoted, character by
   * character.
   */
  lemma FormatsItsText(v: Value)
    requires ValidValue(v)
    ensures var text := TextOf(v);
      FormatValue(Serialize(v)) ==
      if text != "" && forall c :: c in text ==> !IsSpace(c) && c != '=' && c != '"' && c != '\\' then text
      else "\"" + EscapeEach(text) + "\""
  {
    PrintsItsText(v);
    EscapeIsPerCharacter(TextOf(v));
  }

  lemma PrintsItsText(v: Value)
    requires ValidValue(v)
    ensures FormatValue(Serialize(v)) == Quote(TextOf(v))
  {
    assert Bare("true") && Bare("false");
  }

  lemma BareReadsBack(text: string, rest: string)
    requires Bare(text) && (rest == "" || rest[0] == ' ')
    ensures ReadValue(text + rest) == Some(Token(text, rest))
  {
    var whole := text + rest;
    assert whole[0] == text[0] && text[0] in text && NeedsQuotes('"') && NeedsQuotes(' ');
    BeforeFinds(text, ' ', rest);
    assert whole[..|text|] == text && whole[|text|..] == rest;
  }

  lemma QuoteReadsBack(text: string, rest: string)
    requires rest == "" || rest[0] == ' '
    ensures ReadValue(Quote(text) + rest) == Some(Token(text, rest))
  {
    if Bare(text) {
      BareReadsBack(text, rest);
    } else {
      EscapeIsPerCharacter(text);
      QuotedReadsBack(text, rest);
      var body := EscapeEach(text);
      Associate("\"" + body, "\"", rest);
      Associate("\"", body, "\"" + rest);
      assert (Quote(text) + rest)[1..] == body + ("\"" + rest);
    }
  }

  lemma {:induction false} ValueReadsBack(v: Value, rest: string)
    requires ValidValue(v) && (rest == "" || rest[0] == ' ')
    ensures ReadValue(FormatValue(Serialize(v)) + rest) == Some(Token(TextOf(v), rest))
  {
    PrintsItsText(v);
    QuoteReadsBack(TextOf(v), rest);
  }

  predicate Plain(fields: seq<Field>) {
    forall f :: f in fields ==> '=' !in f.key && ValidValue(f.value)
  }

  lemma FirstPairReadsBack(f: Field, tail: string)
    requires '=' !in f.key && ValidValue(f.value)
    requires tail == "" || tail[0] == ' '
    ensures var pair := Pair(f.key, TextOf(f.value));
      ReadPairs(FormatField(f) + tail) ==
        if tail == "" then Some([pair])
        else if ReadPairs(tail[1..]).None? then None
        else Some([pair] + ReadPairs(tail[1..]).value)
  {
    var value := FormatValue(Serialize(f.value));
    var line := FormatField(f) + tail;
    Associate(f.key + "=", value, tail);
    Associate(f.key, "=", value + tail);
    BeforeFinds(f.key, '=', "=" + (value + tail));
    assert line[..|f.key|] == f.key && line[|f.key| + 1..] == value + tail;
    ValueReadsBack(f.value, tail);
  }

  lemma LineOfFields(f: Field, more: seq<Field>)
    ensures more == [] ==> Join(FormatFields([f] + more), ' ') == FormatField(f) + ""
    ensures more != [] ==> Join(FormatFields([f] + more), ' ') == FormatField(f) + (" " + Join(FormatFields(more), ' '))
    ensures more == [] ==> PairsOf([f]) == [Pair(f.key, TextOf(f.value))]
    ensures PairsOf([f] + more) == [Pair(f.key, TextOf(f.value))] + PairsOf(more)
  {
    var fields := [f] + more;
    assert fields[1..] == more;
    var pieces := [FormatField(f)] + FormatFields(more);
    assert pieces[1..] == FormatFields(more);
    Associate(FormatField(f), " ", Join(FormatFields(more), ' '));
  }

  lemma PairBeforeMore(f: Field, line: string, pairs: seq<Pair>)
    requires '=' !in f.key && ValidValue(f.value) && ReadPairs(line) == Some(pairs)
    ensures ReadPairs(FormatField(f) + (" " + line)) == Some([Pair(f.key, TextOf(f.value))] + pairs)
  {
    FirstPairReadsBack(f, " " + line);
    assert (" " + line)[1..] == line;
  }

  lemma {:induction false} FieldsReadBack(fields: seq<Field>)
    requires fields != [] && Plain(fields)
    ensures ReadPairs(Join(FormatFields(fields), ' ')) == Some(PairsOf(fields))
  {
    var f, more := fields[0], fields[1..];
    assert fields == [f] + more;
    LineOfFields(f, more);
    if more == [] {
      assert fields == [f];
      FirstPairReadsBack(f, "");
    } else {
      FieldsReadBack(more);
      PairBeforeMore(f, Join(FormatFields(more), ' '), PairsOf(more));
    }
  }

  lemma {:induction false} DefinedKeeps(record: seq<Field>)
    ensures forall f :: f in Defined(record) <==> f in record && !f.value.Undefined?
  {
    if record != [] {
      DefinedKeeps(record[1..]);
      assert record == [record[0]] + record[1..];
    }
  }

  lemma {:induction false} ReadKeysAreClean(s: string)
    ensures ReadPairs(s).Some? ==> forall p :: p in ReadPairs(s).value ==> '=' !in p.key
    decreases |s|
  {
    var n := Before(s, '=');
    BeforeIsClean(s, '=');
    if n < |s| {
      var value := ReadValue(s[n + 1..]);
      if value.Some? && value.value.rest != "" && value.value.rest[0] == ' ' {
        ReadKeysAreClean(value.value.rest[1..]);
      }
    }
  }

  lemma {:induction false} BeforeIsClean(s: string, stop: char)
    ensures stop !in s[..Before(s, stop)]
  {
    if s != "" && s[0] != stop {
      BeforeIsClean(s[1..], stop);
      var n := Before(s, stop);
      assert s[..n] == [s[0]] + s[1..][..n - 1];
    }
  }

  lemma {:induction false} PairsHaveTheKeys(fields: seq<Field>)
    ensures forall f :: f in fields ==> exists p :: p in PairsOf(fields) && p.key == f.key
  {
    if fields != [] {
      var first := Pair(fields[0].key, TextOf(fields[0].value));
      PairsHaveTheKeys(fields[1..]);
      assert PairsOf(fields) == [first] + PairsOf(fields[1..]);
      assert fields == [fields[0]] + fields[1..];
      assert first in PairsOf(fields);
    }
  }

  predicate Valid(record: seq<Field>) {
    forall f :: f in record ==> ValidValue(f.value)
  }

  /**
   * Reading a line back gives every key, and the text of every value, of the
   * record it was printed from, in order, if and only if no printed key has an
   * equals sign.
   */
  lemma {:induction false} LineReadsBackIff(record: seq<Field>)
    requires Valid(record)
    ensures ReadLine(FormatLine(record)) == Some(PairsOf(Defined(record)))
            <==> forall f :: f in Defined(record) ==> '=' !in f.key
  {
    var fields := Defined(record);
    DefinedKeeps(record);
    if fields != [] {
      LineIsNotEmpty(fields);
      if forall f :: f in fields ==> '=' !in f.key {
        FieldsReadBack(fields);
      } else {
        PairsHaveTheKeys(fields);
        ReadKeysAreClean(FormatLine(record));
      }
    }
  }

  /** Which fields are printed, and in which order: all but the undefined ones, in the record's. */
  lemma {:induction false} OnlyUndefinedIsLeftOut(before: seq<Field>, f: Field, after: seq<Field>)
    ensures Defined(before + [f] + after) ==
            Defined(before) + (if f.value == Undefined then [] else [f]) + Defined(after)
  {
    if before == [] {
      assert (before + [f] + after)[1..] == after;
    } else {
      assert (before + [f] + after)[1..] == before[1..] + [f] + after;
      OnlyUndefinedIsLeftOut(before[1..], f, after);
    }
  }

  lemma LineIsNotEmpty(fields: seq<Field>)
    requires fields != []
    ensures Join(FormatFields(fields), ' ') != ""
  {
    assert '=' in FormatField(fields[0]);
    assert FormatFields(fields)[0] == FormatField(fields[0]);
  }

  lemma {:induction false} PairsDecideThePrint(a: seq<Field>, b: seq<Field>)
    requires Valid(a) && Valid(b) && PairsOf(a) == PairsOf(b)
    ensures FormatFields(a) == FormatFields(b)
  {
    if a != [] {
      assert b != [];
      assert PairsOf(a)[1..] == PairsOf(a[1..]) && PairsOf(b)[1..] == PairsOf(b[1..]);
      PairsDecideThePrint(a[1..], b[1..]);
      assert PairsOf(a)[0] == PairsOf(b)[0];
      PrintsItsText(a[0].value);
      PrintsItsText(b[0].value);
      assert FormatField(a[0]) == FormatField(b[0]);
    }
  }

  // -------------------------------------------------- keys without spaces, from the right

  /** Quotes inside a quoted value are all escaped. */
  lemma {:induction false} QuotesAreEscaped(s: string, i: nat)
    requires i < |EscapeEach(s)| && EscapeEach(s)[i] == '"'
    ensures i > 0 && EscapeEach(s)[i - 1] == '\\'
  {
    var head := EscapeChar(s[0]);
    if i >= |head| {
      QuotesAreEscaped(s[1..], i - |head|);
    }
  }

  lemma QuoteIsOneToOne(u: string, v: string)
    requires Quote(u) == Quote(v)
    ensures u == v
  {
    QuoteReadsBack(u, "");
    QuoteReadsBack(v, "");
  }

  /** No printed value ends in an equals sign followed by a printed value. */
  lemma NoValueInAValue(u: string, v: string, z: string)
    ensures Quote(v) != z + "=" + Quote(u)
  {
    var inner := Quote(u);
    var outer := z + "=" + inner;
    assert outer[|z|] == '=' && NeedsQuotes('=');
    QuoteEnds(u);
    assert Last(outer) == Last(inner) && outer[|z| + 1] == inner[0];
    if Quote(v) == outer && !Bare(v) {
      EscapeIsPerCharacter(v);
      assert outer[1..|outer| - 1] == EscapeEach(v);
      QuotesAreEscaped(v, |z|);
    }
  }

  /** A value that ends in a quote is quoted. */
  lemma QuoteEnds(u: string)
    ensures Quote(u) != "" && (Last(Quote(u)) == '"' ==> Quote(u)[0] == '"' && |Quote(u)| >= 2)
  {
    if Bare(u) {
      assert Last(u) in u && NeedsQuotes('"');
    }
  }

  lemma LastValue(s: string, u: string, t: string, v: string)
    requires s + "=" + Quote(u) == t + "=" + Quote(v)
    ensures s == t && u == v
  {
    var p, q := Quote(u), Quote(v);
    var whole := s + "=" + p;
    if |p| < |q| {
      var z := q[..|q| - |p| - 1];
      assert whole[|t| + 1..] == q && whole[|s| + 1..] == p && whole[|s|] == '=';
      assert q == z + "=" + p;
      NoValueInAValue(u, v, z);
    } else if |q| < |p| {
      var z := p[..|p| - |q| - 1];
      assert whole[|t| + 1..] == q && whole[|s| + 1..] == p && whole[|t|] == '=';
      assert p == z + "=" + q;
      NoValueInAValue(v, u, z);
    } else {
      assert whole[|s| + 1..] == p && whole[|t| + 1..] == q;
      assert whole[..|s|] == s && whole[..|t|] == t;
      QuoteIsOneToOne(u, v);
    }
  }

  /** The text in front of a field: nothing, or the fields before it and a space. */
  predicate FieldMayFollow(x: string) {
    x == "" || Last(x) == ' '
  }

  lemma LongerFront(x: string, k: string, y: string, l: string)
    requires FieldMayFollow(x) && x + k == y + l && |x| > |y|
    ensures ' ' in l
  {
    var whole := x + k;
    assert whole[|x| - 1] == ' ' && whole[|x| - 1] == l[|x| - 1 - |y|];
  }

  lemma LastKey(x: string, k: string, y: string, l: string)
    requires FieldMayFollow(x) && FieldMayFollow(y) && ' ' !in k && ' ' !in l && x + k == y + l
    ensures x == y && k == l
  {
    var whole := x + k;
    if |x| > |y| {
      LongerFront(x, k, y, l);
    } else if |y| > |x| {
      LongerFront(y, l, x, k);
    } else {
      assert x == whole[..|x|] && k == whole[|x|..] && y == whole[..|y|] && l == whole[|y|..];
    }
  }

  /** The line of all fields but the last, with the space behind it. */
  function FrontOf(fields: seq<Field>): string
    requires fields != []
  {
    if |fields| == 1 then "" else Join(FormatFields(DropLast(fields)), ' ') + " "
  }

  lemma {:induction false} LineFromTheRight(fields: seq<Field>)
    requires fields != []
    ensures Join(FormatFields(fields), ' ') == FrontOf(fields) + FormatField(Last(fields))
    ensures PairsOf(fields) ==
        PairsOf(DropLast(fields)) + [Pair(Last(fields).key, TextOf(Last(fields).value))]
  {
    var f, more := fields[0], fields[1..];
    assert fields == [f] + more;
    LineOfFields(f, more);
    if more != [] {
      LineFromTheRight(more);
      assert DropLast(fields) == [f] + DropLast(more);
      LineOfFields(f, DropLast(more));
      FrontsJoin(FormatField(f), FrontOf(more), FormatField(Last(fields)), Join(FormatFields(DropLast(more)), ' '),
          |more| == 1);
    }
  }

  lemma FrontsJoin(first: string, front: string, last: string, middle: string, none: bool)
    requires front == if none then "" else middle + " "
    ensures none ==> first + (" " + (front + last)) == first + "" + " " + last
    ensures !none ==> first + (" " + (front + last)) == first + (" " + middle) + " " + last
  {
  }

  lemma FieldFromTheRight(front: string, f: Field)
    requires ValidValue(f.value)
    ensures front + FormatField(f) == (front + f.key) + "=" + Quote(TextOf(f.value))
  {
    PrintsItsText(f.value);
  }

  predicate SpaceFree(fields: seq<Field>) {
    forall f :: f in fields ==> ' ' !in f.key
  }

  /** Read from the right, a line of keys without spaces gives its fields one by one. */
  lemma {:induction false} SpaceFreeFieldsAreUnique(a: seq<Field>, b: seq<Field>)
    requires Valid(a) && Valid(b) && SpaceFree(a) && SpaceFree(b)
    requires a != [] && b != [] && Join(FormatFields(a), ' ') == Join(FormatFields(b), ' ')
    ensures PairsOf(a) == PairsOf(b)
    decreases |a|
  {
    var f, g := Last(a), Last(b);
    LineFromTheRight(a);
    LineFromTheRight(b);
    FieldFromTheRight(FrontOf(a), f);
    FieldFromTheRight(FrontOf(b), g);
    LastValue(FrontOf(a) + f.key, TextOf(f.value), FrontOf(b) + g.key, TextOf(g.value));
    LastKey(FrontOf(a), f.key, FrontOf(b), g.key);
    var c, d := DropLast(a), DropLast(b);
    if FrontOf(a) == "" {
      assert c == [] && d == [];
    } else {
      assert DropLast(FrontOf(a)) == Join(FormatFields(c), ' ') && DropLast(FrontOf(b)) == Join(FormatFields(d), ' ');
      SpaceFreeFieldsAreUnique(c, d);
    }
  }

  // ---------------------------------------------------------------- which lines are unique

  /**
   * Two records print alike exactly when they have the same keys and value
   * texts, in the same order, provided that no key has an equals sign, or that
   * no key has a space.
   */
  lemma {:induction false} LinesAreUnique(a: seq<Field>, b: seq<Field>)
    requires Valid(a) && Valid(b) && ((Plain(a) && Plain(b)) || (SpaceFree(a) && SpaceFree(b)))
    ensures FormatLine(a) == FormatLine(b) <==> PairsOf(Defined(a)) == PairsOf(Defined(b))
  {
    var c, d := Defined(a), Defined(b);
    DefinedKeeps(a);
    DefinedKeeps(b);
    if PairsOf(c) == PairsOf(d) {
      PairsDecideThePrint(c, d);
    } else if FormatLine(a) == FormatLine(b) {
      if c == [] || d == [] {
        OnlyEmptyIsEmpty(c);
        OnlyEmptyIsEmpty(d);
      } else if Plain(a) && Plain(b) {
        FieldsReadBack(c);
        FieldsReadBack(d);
      } else {
        SpaceFreeFieldsAreUnique(c, d);
      }
    }
  }

  lemma OnlyEmptyIsEmpty(fields: seq<Field>)
    ensures Join(FormatFields(fields), ' ') == "" <==> fields == []
  {
    if fields != [] {
      LineIsNotEmpty(fields);
    }
  }

  lemma FirstIsPrinted(f: Field, rest: seq<Field>)
    requires f.value != Undefined
    ensures Defined([f] + rest) == [f] + Defined(rest)
  {
    assert ([f] + rest)[1..] == rest;
  }

  lemma TwoFields(f: Field, g: Field)
    requires f.value != Undefined && g.value != Undefined
    ensures FormatLine([f, g]) == FormatField(f) + " " + FormatField(g)
    ensures |PairsOf(Defined([f, g]))| == 2
  {
    FirstIsPrinted(f, [g]);
    FirstIsPrinted(g, []);
    assert [f] + [g] == [f, g] && [g] + [] == [g];
    LineOfFields(f, [g]);
    LineOfFields(g, []);
    assert PairsOf([g]) == [Pair(g.key, TextOf(g.value))] + PairsOf([]);
  }

  lemma OneField(f: Field)
    requires f.value != Undefined
    ensures FormatLine([f]) == FormatField(f) && |PairsOf(Defined([f]))| == 1
  {
    FirstIsPrinted(f, []);
    assert [f] + [] == [f];
    LineOfFields(f, []);
  }

  /** A key that looks like a printed field, a space and more prints like two fields. */
  lemma SuchKeysCollide(x: string, v: string, y: string, t: string)
    ensures var a := [Field(x, Str(v)), Field(y, Str(t))];
      var b := [Field(x + "=" + Quote(v) + " " + y, Str(t))];
      FormatLine(a) == FormatLine(b) && PairsOf(Defined(a)) != PairsOf(Defined(b))
  {
    var f, g, h := Field(x, Str(v)), Field(y, Str(t)), Field(x + "=" + Quote(v) + " " + y, Str(t));
    TwoFields(f, g);
    OneField(h);
    LooksLikeAField(x, v, y, t);
  }

  lemma LooksLikeAField(x: string, v: string, y: string, t: string)
    ensures FormatField(Field(x + "=" + Quote(v) + " " + y, Str(t))) ==
            FormatField(Field(x, Str(v))) + " " + FormatField(Field(y, Str(t)))
  {
    assert FormatField(Field(x, Str(v))) == x + "=" + Quote(v);
    Associate(x + "=" + Quote(v) + " ", y + "=", Quote(t));
    Associate(x + "=" + Quote(v) + " ", y, "=");
  }

  /** No key has any of these characters. */
  predicate KeysWithout(record: seq<Field>, cs: set<char>) {
    Valid(record) && forall f, c :: f in record && c in cs ==> c !in f.key
  }

  ghost predicate UniqueWithout(cs: set<char>) {
    forall a, b :: KeysWithout(a, cs) && KeysWithout(b, cs) && FormatLine(a) == FormatLine(b) ==>
      PairsOf(Defined(a)) == PairsOf(Defined(b))
  }

  /**
   * Which characters have to be kept out of keys. As long as some ordinary
   * character is left, different records never print alike if and only if
   * keys are kept free of the equals sign, or of the space.
   */
  lemma {:induction false} LinesAreUniqueIff(cs: set<char>, ordinary: char)
    requires ordinary !in cs && !NeedsQuotes(ordinary)
    ensures UniqueWithout(cs) <==> '=' in cs || ' ' in cs
  {
    if '=' in cs || ' ' in cs {
      forall a, b | KeysWithout(a, cs) && KeysWithout(b, cs) && FormatLine(a) == FormatLine(b)
        ensures PairsOf(Defined(a)) == PairsOf(Defined(b))
      {
        LinesAreUnique(a, b);
      }
    } else {
      var v := [ordinary];
      assert Bare(v);
      SuchKeysCollide(v, v, v, v);
      var a, b := [Field(v, Str(v)), Field(v, Str(v))], [Field(v + "=" + Quote(v) + " " + v, Str(v))];
      assert forall c :: c in b[0].key ==> c == ordinary || c == '=' || c == ' ';
      assert KeysWithout(a, cs) && KeysWithout(b, cs);
    }
  }

  // --------------------------------------------------------------------- one line

  /** Characters that printing adds by itself: separators, quotes and escapes. */
  predicate Markup(c: char) {
    c == ' ' || c == '=' || c == '"' || c == '\\' || c == 'n'
  }

  lemma {:induction false} EscapedHas(s: string, c: char)
    requires !Markup(c)
    ensures c in EscapeEach(s) <==> c != '\n' && c in s
  {
    if s != "" {
      EscapedHas(s[1..], c);
      assert s == [s[0]] + s[1..];
    }
  }

  /** The field brings `c` to its line: in the key, or in the value unless it is a line feed. */
  predicate Brings(f: Field, c: char) {
    c in f.key || (c != '\n' && c in TextOf(f.value))
  }

  lemma QuotedHas(text: string, c: char)
    requires !Markup(c)
    ensures c in Quote(text) <==> c != '\n' && c in text
  {
    EscapeIsPerCharacter(text);
    EscapedHas(text, c);
    assert NeedsQuotes('\n');
  }

  lemma FieldHas(f: Field, c: char)
    requires ValidValue(f.value) && !Markup(c)
    ensures c in FormatField(f) <==> Brings(f, c)
  {
    PrintsItsText(f.value);
    QuotedHas(TextOf(f.value), c);
  }

  lemma {:induction false} FieldsHave(fields: seq<Field>, c: char)
    requires (forall f :: f in fields ==> ValidValue(f.value)) && !Markup(c)
    ensures c in Join(FormatFields(fields), ' ') <==> exists f :: f in fields && Brings(f, c)
  {
    if fields != [] {
      var f, more := fields[0], fields[1..];
      FieldHas(f, c);
      FieldsHave(more, c);
      assert fields == [f] + more;
      LineOfFields(f, more);
    }
  }

  /**
   * Which characters get into a line: a line feed only from a printed key, as
   * values have theirs escaped; any other character that is not markup, such
   * as a carriage return or U+2028, exactly from a printed key or a value that
   * has it.
   */
  lemma ALineIsOneLine(record: seq<Field>)
    requires Valid(record)
    ensures '\n' in FormatLine(record) <==> exists f :: f in record && !f.value.Undefined? && '\n' in f.key
    ensures forall c :: !Markup(c) && c != '\n' ==>
      (c in FormatLine(record) <==>
          exists f :: f in record && !f.value.Undefined? && (c in f.key || c in TextOf(f.value)))
  {
    DefinedKeeps(record);
    FieldsHave(Defined(record), '\n');
    forall c | !Markup(c) && c != '\n'
      ensures c in FormatLine(record) <==>
          exists f :: f in record && !f.value.Undefined? && (c in f.key || c in TextOf(f.value))
    {
      FieldsHave(Defined(record), c);
    }
  }
}
