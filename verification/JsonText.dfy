/** The JSON printer and the recursive-descent parser of core/common/json.hpp. The functions read a
    suffix of the input and return what is left; the class at the end advances a position in place. */
module JsonText {
  import opened Common

  const TWO_63 := 0x8000_0000_0000_0000

  type Int64 = n: int | -TWO_63 <= n < TWO_63 witness 0

  /** A float keeps its source text: the value of std::stod on it is not modelled. */
  datatype Json =
    | Null
    | Boolean(flag: bool)
    | Integer(int64: Int64)
    | Unsigned(uint64: UInt64)
    | Float(token: string)
    | Text(chars: string)
    | Array(items: seq<Json>)
    | Object(members: seq<Member>)
    | Discarded

  datatype Member = Member(key: string, value: Json)

  datatype Parsed<+T> = Ok(value: T, rest: string) | Fail

  // ---------------------------------------------------------------- printing

  /** Floats are left out: the default stream precision loses digits. */
  predicate Printable(v: Json) {
    match v
    case Float(_) => false
    case Array(items) => forall i :: 0 <= i < |items| ==> Printable(items[i])
    case Object(members) => forall i :: 0 <= i < |members| ==> Printable(members[i].value)
    case _ => true
  }

  function Digit(d: nat): char
    requires d < 10
  {
    '0' + d as char
  }

  function NatText(n: nat): string {
    if n < 10 then [Digit(n)] else NatText(n / 10) + [Digit(n % 10)]
  }

  function IntText(n: int): string {
    if n < 0 then "-" + NatText(-n) else NatText(n)
  }

  function EscapeChar(c: char): string {
    if c == '"' then "\\\""
    else if c == '\\' then "\\\\"
    else if c == '\U{8}' then "\\b"
    else if c == '\U{C}' then "\\f"
    else if c == '\n' then "\\n"
    else if c == '\r' then "\\r"
    else if c == '\t' then "\\t"
    else [c]
  }

  function Escape(s: string): string {
    if s == [] then [] else EscapeChar(s[0]) + Escape(s[1..])
  }

  function Dump(v: Json): string
    requires Printable(v)
    decreases v, 1
  {
    match v
    case Null => "null"
    case Boolean(b) => if b then "true" else "false"
    case Integer(i) => IntText(i)
    case Unsigned(u) => NatText(u)
    case Text(s) => "\"" + Escape(s) + "\""
    case Array(items) => "[" + DumpItems(items) + "]"
    case Object(members) => "{" + DumpMembers(members) + "}"
    case Discarded => "null"
  }

  function DumpItems(items: seq<Json>): string
    requires forall i :: 0 <= i < |items| ==> Printable(items[i])
    decreases items, 0
  {
    if items == [] then []
    else if |items| == 1 then Dump(items[0])
    else Dump(items[0]) + "," + DumpItems(items[1..])
  }

  /** Keys are printed as they are, without escaping. */
  function DumpMember(m: Member): string
    requires Printable(m.value)
    decreases m, 2
  {
    "\"" + m.key + "\":" + Dump(m.value)
  }

  function DumpMembers(members: seq<Member>): string
    requires forall i :: 0 <= i < |members| ==> Printable(members[i].value)
    decreases members, 0
  {
    if members == [] then []
    else if |members| == 1 then DumpMember(members[0])
    else DumpMember(members[0]) + "," + DumpMembers(members[1..])
  }

  // ---------------------------------------------------------------- parsing

  predicate IsSpace(c: char) {
    c == ' ' || c == '\t' || c == '\n' || c == '\r'
  }

  predicate IsDigit(c: char) {
    '0' <= c <= '9'
  }

  function SkipSpace(t: string): (r: string)
    ensures |r| <= |t|
  {
    if t != [] && IsSpace(t[0]) then SkipSpace(t[1..]) else t
  }

  function HexDigit(c: char): (r: Option<nat>)
    ensures r.Some? ==> r.value < 16
  {
    if '0' <= c <= '9' then Some((c - '0') as nat)
    else if 'a' <= c <= 'f' then Some(10 + (c - 'a') as nat)
    else if 'A' <= c <= 'F' then Some(10 + (c - 'A') as nat)
    else None
  }

  /** Code point of four hex digits. */
  function CodePoint(t: string): Option<nat>
    requires |t| >= 4
    ensures CodePoint(t).Some? ==> CodePoint(t).value < 0x1_0000
  {
    var high, low := HexPair(t[0], t[1]), HexPair(t[2], t[3]);
    if high.None? || low.None? then None else Some(high.value * 256 + low.value)
  }

  function HexPair(c: char, d: char): (r: Option<nat>)
    ensures r.Some? ==> r.value < 256
  {
    var high, low := HexDigit(c), HexDigit(d);
    if high.None? || low.None? then None else Some(high.value * 16 + low.value)
  }

  /** The bytes of a code point below 0x10000 in UTF-8; surrogates are encoded one by one. */
  function Utf8(cp: nat): (r: string)
    requires cp < 0x1_0000
    ensures 1 <= |r| <= 3
  {
    if cp < 0x80 then [cp as char]
    else if cp < 0x800 then [(0xC0 + cp / 64) as char, (0x80 + cp % 64) as char]
    else [(0xE0 + cp / 4096) as char, (0x80 + cp / 64 % 64) as char, (0x80 + cp % 64) as char]
  }

  function Unescape(c: char): char {
    if c == 'b' then '\U{8}'
    else if c == 'f' then '\U{C}'
    else if c == 'n' then '\n'
    else if c == 'r' then '\r'
    else if c == 't' then '\t'
    else c
  }

  function Prepend(s: string, r: Parsed<string>): Parsed<string> {
    if r.Fail? then Fail else Ok(s + r.value, r.rest)
  }

  /** A string after its opening quote. */
  function ParseString(t: string): (r: Parsed<string>)
    ensures r.Ok? ==> |r.rest| < |t|
  {
    if t == [] then Fail
    else if t[0] == '"' then Ok([], t[1..])
    else if t[0] != '\\' then Prepend([t[0]], ParseString(t[1..]))
    else if |t| == 1 then Fail
    else if t[1] != 'u' then Prepend([Unescape(t[1])], ParseString(t[2..]))
    else if |t| < 6 || CodePoint(t[2..]).None? then Fail
    else Prepend(Utf8(CodePoint(t[2..]).value), ParseString(t[6..]))
  }

  function DigitRun(t: string): (n: nat)
    ensures n <= |t| && AllDigits(t[..n])
  {
    if t != [] && IsDigit(t[0]) then 1 + DigitRun(t[1..]) else 0
  }

  predicate AllDigits(t: string) {
    forall i :: 0 <= i < |t| ==> IsDigit(t[i])
  }

  function DigitValue(c: char): nat
    requires IsDigit(c)
  {
    c as int - '0' as int
  }

  function NatValue(digits: string): nat
    requires AllDigits(digits)
  {
    if digits == [] then 0
    else NatValue(digits[..|digits| - 1]) * 10 + DigitValue(digits[|digits| - 1])
  }

  /** End of the fraction starting at i, and of the exponent starting at j, if there is one. */
  function FractionEnd(t: string, i: nat): (j: nat)
    requires i <= |t|
    ensures i <= j <= |t|
  {
    if i < |t| && t[i] == '.' then i + 1 + DigitRun(t[i + 1..]) else i
  }

  function ExponentEnd(t: string, j: nat): (k: nat)
    requires j <= |t|
    ensures j <= k <= |t|
  {
    if j < |t| && (t[j] == 'e' || t[j] == 'E') then
      var m := if j + 1 < |t| && (t[j + 1] == '+' || t[j + 1] == '-') then j + 2 else j + 1;
      m + DigitRun(t[m..])
    else j
  }

  /** std::stoll and std::stoull: no digits and values outside 64 bits are refused. */
  function Convert(negative: bool, digits: string): Option<Json>
    requires AllDigits(digits)
  {
    var n: int := NatValue(digits);
    if negative then if digits == [] || n > TWO_63 then None else Some(Integer(-n))
    else if n >= TWO_64 then None else Some(Unsigned(n))
  }

  /** Where the sign, the integer digits, the fraction and the exponent of a number token end. */
  datatype Extent = Extent(sign: nat, whole: nat, fraction: nat, exponent: nat)

  function Measure(t: string): (e: Extent)
    requires t != []
    ensures e.sign <= e.whole <= e.fraction <= e.exponent <= |t| && AllDigits(t[e.sign..e.whole])
    ensures t[0] == '-' || IsDigit(t[0]) ==> e.whole > 0
  {
    var sign := if t[0] == '-' then 1 else 0;
    var whole := sign + DigitRun(t[sign..]);
    assert t[sign..][..whole - sign] == t[sign..whole];
    var fraction := FractionEnd(t, whole);
    Extent(sign, whole, fraction, ExponentEnd(t, fraction))
  }

  /** A token starting with a minus sign or a digit. std::stod refuses one without a mantissa digit. */
  function ParseNumber(t: string): (r: Parsed<Json>)
    requires t != [] && (t[0] == '-' || IsDigit(t[0]))
    ensures r.Ok? ==> |r.rest| < |t|
  {
    var e := Measure(t);
    if e.exponent > e.whole then FloatToken(t, e) else IntegerToken(t, e)
  }

  function FloatToken(t: string, e: Extent): (r: Parsed<Json>)
    requires e.exponent <= |t|
    ensures r.Ok? ==> |r.rest| == |t| - e.exponent
  {
    if e.whole > e.sign || e.fraction > e.whole + 1 then Ok(Float(t[..e.exponent]), t[e.exponent..]) else Fail
  }

  function IntegerToken(t: string, e: Extent): (r: Parsed<Json>)
    requires t != [] && e.sign <= e.whole <= |t| && AllDigits(t[e.sign..e.whole])
    ensures r.Ok? ==> |r.rest| == |t| - e.whole
  {
    var v := Convert(t[0] == '-', t[e.sign..e.whole]);
    if v == None then Fail else Ok(v.value, t[e.whole..])
  }

  function Expect(t: string, word: string, v: Json): Parsed<Json> {
    if word <= t then Ok(v, t[|word|..]) else Fail
  }

  function ParseValue(t: string): (r: Parsed<Json>)
    ensures r.Ok? ==> |r.rest| < |t|
    decreases |t|, 1
  {
    var u := SkipSpace(t);
    if u == [] then Fail
    else if u[0] == '{' then ParseObject(u[1..])
    else if u[0] == '[' then ParseArray(u[1..])
    else ParseScalar(u)
  }

  /** A value that holds no other, told by its first character. */
  function ParseScalar(u: string): (r: Parsed<Json>)
    requires u != []
    ensures r.Ok? ==> |r.rest| < |u|
  {
    if u[0] == '"' then
      var s := ParseString(u[1..]);
      if s.Fail? then Fail else Ok(Text(s.value), s.rest)
    else if u[0] == 't' then Expect(u, "true", Boolean(true))
    else if u[0] == 'f' then Expect(u, "false", Boolean(false))
    else if u[0] == 'n' then Expect(u, "null", Null)
    else if u[0] == '-' || IsDigit(u[0]) then ParseNumber(u)
    else Fail
  }

  function ParseArray(t: string): (r: Parsed<Json>)
    ensures r.Ok? ==> |r.rest| < |t|
    decreases |t|, 3
  {
    var u := SkipSpace(t);
    if u != [] && u[0] == ']' then Ok(Array([]), u[1..])
    else
      var items := ParseItems(u);
      if items.Fail? then Fail else Ok(Array(items.value), items.rest)
  }

  function ParseItems(t: string): (r: Parsed<seq<Json>>)
    ensures r.Ok? ==> |r.rest| < |t|
    decreases |t|, 2
  {
    var head := ParseValue(t);
    if head.Fail? then Fail
    else
      var u := SkipSpace(head.rest);
      if u == [] then Fail
      else if u[0] == ']' then Ok([head.value], u[1..])
      else if u[0] != ',' then Fail
      else
        var tail := ParseItems(u[1..]);
        if tail.Fail? then Fail else Ok([head.value] + tail.value, tail.rest)
  }

  function ParseObject(t: string): (r: Parsed<Json>)
    ensures r.Ok? ==> |r.rest| < |t|
    decreases |t|, 4
  {
    var u := SkipSpace(t);
    if u != [] && u[0] == '}' then Ok(Object([]), u[1..])
    else
      var members := ParseMembers(u);
      if members.Fail? then Fail else Ok(Object(members.value), members.rest)
  }

  /** One key, its colon and its value. */
  function ParseMember(t: string): (r: Parsed<Member>)
    ensures r.Ok? ==> |r.rest| < |t|
    decreases |t|, 2
  {
    var u := SkipSpace(t);
    if u == [] || u[0] != '"' then Fail
    else
      var key := ParseString(u[1..]);
      if key.Fail? then Fail
      else
        var w := SkipSpace(key.rest);
        if w == [] || w[0] != ':' then Fail
        else
          var v := ParseValue(w[1..]);
          if v.Fail? then Fail else Ok(Member(key.value, v.value), v.rest)
  }

  function ParseMembers(t: string): (r: Parsed<seq<Member>>)
    ensures r.Ok? ==> |r.rest| < |t|
    decreases |t|, 3
  {
    var head := ParseMember(t);
    if head.Fail? then Fail
    else
      var u := SkipSpace(head.rest);
      if u == [] then Fail
      else if u[0] == '}' then Ok([head.value], u[1..])
      else if u[0] != ',' then Fail
      else
        var tail := ParseMembers(u[1..]);
        if tail.Fail? then Fail else Ok([head.value] + tail.value, tail.rest)
  }

  /** The whole input must be one value, with white space around it. */
  function Parse(t: string): Option<Json> {
    var r := ParseValue(t);
    if r.Fail? || SkipSpace(r.rest) != [] then None else Some(r.value)
  }

  // ---------------------------------------------------------------- numbers round trip

  lemma {:induction false} NatTextValue(n: nat)
    ensures NatText(n) != [] && AllDigits(NatText(n))
    ensures NatValue(NatText(n)) == n
  {
    if n >= 10 {
      NatTextValue(n / 10);
      assert NatText(n)[..|NatText(n)| - 1] == NatText(n / 10);
    }
  }

  /** What may follow a number without being taken for more of it. */
  predicate EndsNumber(post: string) {
    post != [] ==> !IsDigit(post[0]) && post[0] != '.' && post[0] != 'e' && post[0] != 'E'
  }

  lemma {:induction false} DigitRunIs(t: string, n: nat)
    requires n <= |t| && AllDigits(t[..n]) && (n < |t| ==> !IsDigit(t[n]))
    ensures DigitRun(t) == n
  {
    if n > 0 {
      assert t[..n][0] == t[0];
      assert t[1..][..n - 1] == t[..n][1..];
      DigitRunIs(t[1..], n - 1);
    }
  }

  /** A sign, digits, and then something that is not part of a number. */
  lemma {:induction false} MeasureDigits(negative: bool, digits: string, post: string)
    requires digits != [] && AllDigits(digits) && EndsNumber(post)
    ensures var t := (if negative then "-" else "") + digits + post;
            var sign := if negative then 1 else 0;
            && Measure(t) == Extent(sign, sign + |digits|, sign + |digits|, sign + |digits|)
            && (t[0] == '-' || IsDigit(t[0])) && (t[0] == '-' <==> negative)
            && t[sign..sign + |digits|] == digits && t[sign + |digits|..] == post
  {
    var lead := if negative then "-" else "";
    var t := lead + digits + post;
    Slices(lead, digits, post);
    assert (digits + post)[..|digits|] == digits;
    DigitRunIs(digits + post, |digits|);
  }

  lemma {:induction false} Slices(a: string, b: string, c: string)
    ensures var t := a + b + c;
            && t[|a|..] == b + c && t[|a|..|a| + |b|] == b && t[|a| + |b|..] == c
            && (a != [] ==> t[0] == a[0]) && (a == [] && b != [] ==> t[0] == b[0])
            && (c != [] ==> t[|a| + |b|] == c[0])
  {
  }

  lemma {:induction false} NumberTokenRoundTrip(i: int, post: string)
    requires -TWO_63 <= i < TWO_64 && EndsNumber(post)
    ensures var t := IntText(i) + post;
            && t != [] && (t[0] == '-' || IsDigit(t[0]))
            && ParseNumber(t) == Ok(if i < 0 then Integer(i) else Unsigned(i), post)
  {
    var digits := NatText(if i < 0 then -i else i);
    NatTextValue(if i < 0 then -i else i);
    MeasureDigits(i < 0, digits, post);
    assert (if i < 0 then "-" else "") + digits == IntText(i);
  }

  // ---------------------------------------------------------------- strings round trip

  lemma {:induction false} EscapeCharStep(c: char, tail: string)
    ensures ParseString(EscapeChar(c) + tail) == Prepend([c], ParseString(tail))
  {
    var t := EscapeChar(c) + tail;
    if |EscapeChar(c)| == 1 {
      assert t[0] == c && t[1..] == tail;
    } else {
      PairStep(EscapeChar(c)[1], tail);
      assert EscapeChar(c) == ['\\', EscapeChar(c)[1]];
    }
  }

  lemma {:induction false} PairStep(c: char, tail: string)
    requires c != 'u'
    ensures ParseString(['\\', c] + tail) == Prepend([Unescape(c)], ParseString(tail))
  {
    var t := ['\\', c] + tail;
    assert t[0] == '\\' && t[1] == c && t[2..] == tail;
  }

  lemma {:induction false} EscapeRoundTrip(s: string, post: string)
    ensures ParseString(Escape(s) + "\"" + post) == Ok(s, post)
    decreases |s|
  {
    if s == [] {
      assert Escape(s) + "\"" + post == "\"" + post;
      assert ("\"" + post)[1..] == post;
    } else {
      var tail := Escape(s[1..]) + "\"" + post;
      EscapeRoundTrip(s[1..], post);
      assert Escape(s) + "\"" + post == EscapeChar(s[0]) + tail;
      EscapeCharStep(s[0], tail);
      assert s == [s[0]] + s[1..];
    }
  }

  predicate CleanKey(key: string) {
    forall i :: 0 <= i < |key| ==> key[i] != '"' && key[i] != '\\'
  }

  lemma {:induction false} CleanKeyRoundTrip(key: string, post: string)
    requires CleanKey(key)
    ensures ParseString(key + "\"" + post) == Ok(key, post)
    decreases |key|
  {
    var t := key + "\"" + post;
    if key == [] {
      assert t[1..] == post;
    } else {
      CleanKeyRoundTrip(key[1..], post);
      assert t[1..] == key[1..] + "\"" + post;
      assert key == [key[0]] + key[1..];
    }
  }

  /** Index of the first quote, the length when there is none. */
  function FirstQuote(s: string): (n: nat)
    ensures n <= |s| && forall i :: 0 <= i < n ==> s[i] != '"'
    ensures n < |s| ==> s[n] == '"'
  {
    if s == [] || s[0] == '"' then 0 else 1 + FirstQuote(s[1..])
  }

  lemma {:induction false} FirstQuoteIs(s: string, n: nat)
    requires n <= |s| && (forall i :: 0 <= i < n ==> s[i] != '"') && (n < |s| ==> s[n] == '"')
    ensures FirstQuote(s) == n
  {
  }

  predicate HasBackslash(s: string) {
    exists i :: 0 <= i < |s| && s[i] == '\\'
  }

  /** Reading a quote-free run back, with the closing quote after it, never yields a first quote later
      than the run's end; once an escape is involved it comes strictly earlier. */
  lemma {:induction false} EscapesShrink(a: string, post: string)
    requires FirstQuote(a) == |a|
    ensures var r := ParseString(a + "\"" + post);
            r.Ok? ==> FirstQuote(r.value) <= |a| && (HasBackslash(a) ==> FirstQuote(r.value) < |a|)
    decreases |a|
  {
    var t := a + "\"" + post;
    var r := ParseString(t);
    if a != [] && r.Ok? {
      if a[0] != '\\' {
        assert t[1..] == a[1..] + "\"" + post;
        EscapesShrink(a[1..], post);
        var tail := ParseString(t[1..]).value;
        assert r.value == [a[0]] + tail && r.value[1..] == tail;
        if HasBackslash(a) {
          var i :| 0 <= i < |a| && a[i] == '\\';
          assert a[1..][i - 1] == '\\';
        }
      } else if |a| == 1 {
        assert t[1] == '"' && r.value[0] == '"';
      } else if a[1] != 'u' {
        assert t[2..] == a[2..] + "\"" + post;
        QuoteFreeSuffix(a, 2);
        EscapesShrink(a[2..], post);
        var tail := ParseString(t[2..]).value;
        assert r.value == [Unescape(a[1])] + tail && r.value[1..] == tail;
      } else {
        UnicodeInside(a, post);
        assert t[6..] == a[6..] + "\"" + post;
        QuoteFreeSuffix(a, 6);
        EscapesShrink(a[6..], post);
        FirstQuotePrefix(Utf8(CodePoint(t[2..]).value), ParseString(t[6..]).value);
      }
    }
  }

  lemma {:induction false} QuoteFreeSuffix(a: string, n: nat)
    requires FirstQuote(a) == |a| && n <= |a|
    ensures FirstQuote(a[n..]) == |a| - n
  {
    FirstQuoteIs(a[n..], |a| - n);
  }

  lemma {:induction false} FirstQuotePrefix(a: string, b: string)
    ensures FirstQuote(a + b) <= |a| + FirstQuote(b)
  {
    var n := FirstQuote(b);
    if n < |b| {
      assert (a + b)[|a| + n] == b[n];
    }
  }

  /** Four hex digits cannot reach over the closing quote. */
  lemma {:induction false} UnicodeInside(a: string, post: string)
    requires FirstQuote(a) == |a| >= 2 && a[0] == '\\' && a[1] == 'u'
    requires ParseString(a + "\"" + post).Ok?
    ensures |a| >= 6
  {
    var t := a + "\"" + post;
    assert t[|a|] == '"';
    assert forall i :: 0 <= i < 4 ==> t[2..][i] == t[2 + i];
  }

  /** A key holding a quote or a backslash never comes back as itself. */
  lemma {:induction false} DirtyKeyLost(key: string, post: string)
    requires !CleanKey(key)
    ensures var r := ParseString(key + "\"" + post); r.Ok? ==> r.value != key
  {
    var n := FirstQuote(key);
    var a := key[..n];
    FirstQuoteIs(a, n);
    var after := if n < |key| then key[n + 1..] + "\"" + post else post;
    assert key + "\"" + post == a + "\"" + after;
    EscapesShrink(a, after);
    if !HasBackslash(a) {
      CleanKeyRoundTrip(a, after);
    }
  }

  // ---------------------------------------------------------------- values round trip

  /** Non-negative integers come back unsigned, discarded values as null. */
  function Normal(v: Json): Json
    decreases v, 1
  {
    match v
    case Integer(i) => if i >= 0 then Unsigned(i) else v
    case Array(items) => Array(NormalItems(items))
    case Object(members) => Object(NormalMembers(members))
    case Discarded => Null
    case _ => v
  }

  function NormalItems(items: seq<Json>): (r: seq<Json>)
    ensures |r| == |items|
    decreases items, 0
  {
    if items == [] then [] else [Normal(items[0])] + NormalItems(items[1..])
  }

  function NormalMembers(members: seq<Member>): (r: seq<Member>)
    ensures |r| == |members|
    decreases members, 0
  {
    if members == [] then []
    else [Member(members[0].key, Normal(members[0].value))] + NormalMembers(members[1..])
  }

  /** Every key anywhere in the value is free of quotes and backslashes. */
  predicate CleanKeys(v: Json) {
    match v
    case Array(items) => forall i :: 0 <= i < |items| ==> CleanKeys(items[i])
    case Object(members) =>
      forall i :: 0 <= i < |members| ==> CleanKey(members[i].key) && CleanKeys(members[i].value)
    case _ => true
  }

  /** Printing never starts with white space or with a closing bracket. */
  lemma {:induction false} DumpStarts(v: Json)
    requires Printable(v)
    ensures Dump(v) != [] && !IsSpace(Dump(v)[0]) && Dump(v)[0] != ']'
  {
    match v
    case Integer(i) =>
      var n: int := i;
      NatTextValue(if n < 0 then -n else n);
    case Unsigned(u) => NatTextValue(u);
    case _ =>
  }

  lemma {:induction false} LiteralRoundTrip(word: string, v: Json, post: string)
    requires word in {"null", "true", "false"}
    requires v == if word == "null" then Null else Boolean(word == "true")
    ensures ParseValue(word + post) == Ok(v, post)
  {
    ScalarDispatch(word + post);
    assert word <= word + post && (word + post)[|word|..] == post;
  }

  lemma {:induction false} TextRoundTrip(s: string, post: string)
    ensures ParseValue("\"" + Escape(s) + "\"" + post) == Ok(Text(s), post)
  {
    var t := "\"" + Escape(s) + "\"" + post;
    assert t[1..] == Escape(s) + "\"" + post;
    ScalarDispatch(t);
    EscapeRoundTrip(s, post);
  }

  lemma {:induction false} NumberRoundTrip(i: int, post: string)
    requires -TWO_63 <= i < TWO_64 && EndsNumber(post)
    ensures ParseValue(IntText(i) + post) == Ok(if i < 0 then Integer(i) else Unsigned(i), post)
  {
    NumberTokenRoundTrip(i, post);
    NumberDispatch(IntText(i) + post);
  }

  lemma {:induction false} NumberDispatch(t: string)
    requires t != [] && (t[0] == '-' || IsDigit(t[0]))
    ensures ParseValue(t) == ParseNumber(t)
  {
    ScalarDispatch(t);
    ScalarIsNumber(t);
  }

  /** A text that begins with neither white space nor an opening bracket holds a scalar. */
  lemma {:induction false} ScalarDispatch(t: string)
    requires t != [] && !IsSpace(t[0]) && t[0] != '{' && t[0] != '['
    ensures ParseValue(t) == ParseScalar(t)
  {
    assert SkipSpace(t) == t;
  }

  lemma {:induction false} ScalarIsNumber(t: string)
    requires t != [] && (t[0] == '-' || IsDigit(t[0]))
    ensures ParseScalar(t) == ParseNumber(t)
  {
  }

  /** Parsing reads exactly what was printed and leaves the rest. */
  lemma {:induction false} ValueRoundTrip(v: Json, post: string)
    requires Printable(v) && CleanKeys(v) && EndsNumber(post)
    ensures ParseValue(Dump(v) + post) == Ok(Normal(v), post)
    decreases v, 1
  {
    match v
    case Null => LiteralRoundTrip("null", Null, post);
    case Discarded => LiteralRoundTrip("null", Null, post);
    case Boolean(b) => LiteralRoundTrip(if b then "true" else "false", v, post);
    case Integer(i) => NumberRoundTrip(i, post);
    case Unsigned(u) => NumberRoundTrip(u, post);
    case Text(s) => TextRoundTrip(s, post);
    case Array(items) => ArrayRoundTrip(items, post);
    case Object(members) => ObjectRoundTrip(members, post);
  }

  lemma {:induction false} ArrayRoundTrip(items: seq<Json>, post: string)
    requires forall i :: 0 <= i < |items| ==> Printable(items[i]) && CleanKeys(items[i])
    ensures ParseValue("[" + DumpItems(items) + "]" + post) == Ok(Array(NormalItems(items)), post)
    decreases items, 1
  {
    if items != [] {
      ItemsRoundTrip(items, post);
    }
    ArrayFromItems(items, post);
    Regroup("[", DumpItems(items), "]", post);
  }

  lemma {:induction false} ObjectRoundTrip(members: seq<Member>, post: string)
    requires forall i :: 0 <= i < |members| ==>
               Printable(members[i].value) && CleanKey(members[i].key) && CleanKeys(members[i].value)
    ensures ParseValue("{" + DumpMembers(members) + "}" + post) == Ok(Object(NormalMembers(members)), post)
    decreases members, 1
  {
    if members != [] {
      MembersRoundTrip(members, post);
    }
    ObjectFromMembers(members, post);
    Regroup("{", DumpMembers(members), "}", post);
  }

  // One turn of the two loops, on whatever the first value or member parses to.

  lemma {:induction false} ItemsTurn(t: string, v: Json, last: bool, tail: string)
    requires ParseValue(t) == Ok(v, (if last then "]" else ",") + tail)
    ensures ParseItems(t) ==
            if last then Ok([v], tail)
            else if ParseItems(tail).Fail? then Fail
            else Ok([v] + ParseItems(tail).value, ParseItems(tail).rest)
  {
    var u := (if last then "]" else ",") + tail;
    assert SkipSpace(u) == u && u[1..] == tail;
  }

  lemma {:induction false} MembersTurn(t: string, m: Member, last: bool, tail: string)
    requires ParseMember(t) == Ok(m, (if last then "}" else ",") + tail)
    ensures ParseMembers(t) ==
            if last then Ok([m], tail)
            else if ParseMembers(tail).Fail? then Fail
            else Ok([m] + ParseMembers(tail).value, ParseMembers(tail).rest)
  {
    var u := (if last then "}" else ",") + tail;
    assert SkipSpace(u) == u && u[1..] == tail;
  }

  /** After an opening bracket, the parser sees what the items parse to. */
  lemma {:induction false} ArrayFromItems(items: seq<Json>, post: string)
    requires forall i :: 0 <= i < |items| ==> Printable(items[i])
    ensures var inner := DumpItems(items) + "]" + post;
            var r := ParseItems(inner);
            ParseValue("[" + inner) ==
              if items == [] then Ok(Array([]), post)
              else if r.Fail? then Fail else Ok(Array(r.value), r.rest)
  {
    var inner := DumpItems(items) + "]" + post;
    var t := "[" + inner;
    assert SkipSpace(t) == t && t[1..] == inner;
    if items == [] {
      assert inner == "]" + post && inner[1..] == post;
    } else {
      DumpStarts(items[0]);
      assert SkipSpace(inner) == inner && inner[0] != ']';
    }
  }

  lemma {:induction false} ObjectFromMembers(members: seq<Member>, post: string)
    requires forall i :: 0 <= i < |members| ==> Printable(members[i].value)
    ensures var inner := DumpMembers(members) + "}" + post;
            var r := ParseMembers(inner);
            ParseValue("{" + inner) ==
              if members == [] then Ok(Object([]), post)
              else if r.Fail? then Fail else Ok(Object(r.value), r.rest)
  {
    var inner := DumpMembers(members) + "}" + post;
    var t := "{" + inner;
    assert SkipSpace(t) == t && t[1..] == inner;
    if members == [] {
      assert inner == "}" + post && inner[1..] == post;
    } else {
      assert DumpMember(members[0])[0] == '"' && inner[0] == '"';
      assert SkipSpace(inner) == inner;
    }
  }

  lemma {:induction false} ItemsRoundTrip(items: seq<Json>, post: string)
    requires items != [] && forall i :: 0 <= i < |items| ==> Printable(items[i]) && CleanKeys(items[i])
    ensures ParseItems(DumpItems(items) + "]" + post) == Ok(NormalItems(items), post)
    decreases items, 0
  {
    var last := |items| == 1;
    var tail := if last then post else DumpItems(items[1..]) + "]" + post;
    var after := (if last then "]" else ",") + tail;
    assert DumpItems(items) + "]" + post == Dump(items[0]) + after;
    ValueRoundTrip(items[0], after);
    ItemsTurn(Dump(items[0]) + after, Normal(items[0]), last, tail);
    if last {
      assert NormalItems(items) == [Normal(items[0])];
    } else {
      ItemsRoundTrip(items[1..], post);
    }
  }

  lemma {:induction false} MemberRoundTrip(m: Member, post: string)
    requires Printable(m.value) && CleanKey(m.key) && CleanKeys(m.value) && EndsNumber(post)
    ensures ParseMember(DumpMember(m) + post) == Ok(Member(m.key, Normal(m.value)), post)
    decreases m, 1
  {
    var t := DumpMember(m) + post;
    var afterKey := ":" + Dump(m.value) + post;
    assert t[1..] == m.key + "\"" + afterKey;
    CleanKeyRoundTrip(m.key, afterKey);
    assert afterKey[1..] == Dump(m.value) + post;
    ValueRoundTrip(m.value, post);
    MemberSteps(t, m.key, afterKey, Normal(m.value), post);
  }

  lemma {:induction false} MemberSteps(t: string, key: string, afterKey: string, v: Json, post: string)
    requires t != [] && t[0] == '"' && ParseString(t[1..]) == Ok(key, afterKey)
    requires afterKey != [] && afterKey[0] == ':' && ParseValue(afterKey[1..]) == Ok(v, post)
    ensures ParseMember(t) == Ok(Member(key, v), post)
  {
    assert SkipSpace(t) == t && SkipSpace(afterKey) == afterKey;
  }

  lemma {:induction false} MembersRoundTrip(members: seq<Member>, post: string)
    requires members != []
    requires forall i :: 0 <= i < |members| ==>
               Printable(members[i].value) && CleanKey(members[i].key) && CleanKeys(members[i].value)
    ensures ParseMembers(DumpMembers(members) + "}" + post) == Ok(NormalMembers(members), post)
    decreases members, 0
  {
    var m := members[0];
    var last := |members| == 1;
    var tail := if last then post else DumpMembers(members[1..]) + "}" + post;
    var after := (if last then "}" else ",") + tail;
    assert DumpMembers(members) + "}" + post == DumpMember(m) + after;
    MemberRoundTrip(m, after);
    MembersTurn(DumpMember(m) + after, Member(m.key, Normal(m.value)), last, tail);
    if last {
      assert NormalMembers(members) == [Member(m.key, Normal(m.value))];
    } else {
      MembersRoundTrip(members[1..], post);
    }
  }

  // ---------------------------------------------------------------- unescaped keys

  /** A value with a quote or backslash in some key is never read back as it was. */
  lemma {:induction false} DirtyValueLost(v: Json, post: string)
    requires Printable(v) && !CleanKeys(v)
    ensures ParseValue(Dump(v) + post).Ok? ==> ParseValue(Dump(v) + post).value != Normal(v)
    decreases v, 1
  {
    match v
    case Array(items) => DirtyArrayLost(items, post);
    case Object(members) => DirtyObjectLost(members, post);
  }

  lemma {:induction false} DirtyArrayLost(items: seq<Json>, post: string)
    requires forall i :: 0 <= i < |items| ==> Printable(items[i])
    requires exists i :: 0 <= i < |items| && !CleanKeys(items[i])
    ensures var r := ParseValue("[" + DumpItems(items) + "]" + post);
            r.Ok? ==> r.value != Array(NormalItems(items))
    decreases items, 1
  {
    DirtyItemsLost(items, post);
    ArrayFromItems(items, post);
    Regroup("[", DumpItems(items), "]", post);
  }

  lemma {:induction false} DirtyObjectLost(members: seq<Member>, post: string)
    requires forall i :: 0 <= i < |members| ==> Printable(members[i].value)
    requires exists i :: 0 <= i < |members| && !CleanMember(members[i])
    ensures var r := ParseValue("{" + DumpMembers(members) + "}" + post);
            r.Ok? ==> r.value != Object(NormalMembers(members))
    decreases members, 1
  {
    DirtyMembersLost(members, post);
    ObjectFromMembers(members, post);
    Regroup("{", DumpMembers(members), "}", post);
  }

  lemma {:induction false} ItemsHead(t: string)
    ensures ParseItems(t).Ok? ==>
              ParseValue(t).Ok? && ParseItems(t).value != [] && ParseItems(t).value[0] == ParseValue(t).value
  {
  }

  lemma {:induction false} MembersHead(t: string)
    ensures ParseMembers(t).Ok? ==>
              ParseMember(t).Ok? && ParseMembers(t).value != [] && ParseMembers(t).value[0] == ParseMember(t).value
  {
  }

  lemma {:induction false} DirtyItemsLost(items: seq<Json>, post: string)
    requires forall i :: 0 <= i < |items| ==> Printable(items[i])
    requires exists i :: 0 <= i < |items| && !CleanKeys(items[i])
    ensures var r := ParseItems(DumpItems(items) + "]" + post);
            r.Ok? ==> r.value != NormalItems(items)
    decreases items, 0
  {
    var last := |items| == 1;
    var tail := if last then post else DumpItems(items[1..]) + "]" + post;
    var after := (if last then "]" else ",") + tail;
    assert DumpItems(items) + "]" + post == Dump(items[0]) + after;
    assert NormalItems(items)[0] == Normal(items[0]);
    if !CleanKeys(items[0]) {
      DirtyValueLost(items[0], after);
      ItemsHead(Dump(items[0]) + after);
    } else {
      ValueRoundTrip(items[0], after);
      ItemsTurn(Dump(items[0]) + after, Normal(items[0]), last, tail);
      var i :| 0 <= i < |items| && !CleanKeys(items[i]);
      assert items[1..][i - 1] == items[i];
      DirtyItemsLost(items[1..], post);
      assert NormalItems(items)[1..] == NormalItems(items[1..]);
      if ParseItems(tail).Ok? {
        assert ([Normal(items[0])] + ParseItems(tail).value)[1..] == ParseItems(tail).value;
      }
    }
  }

  predicate CleanMember(m: Member) {
    CleanKey(m.key) && CleanKeys(m.value)
  }

  lemma {:induction false} DirtyMemberLost(m: Member, post: string)
    requires Printable(m.value) && !CleanMember(m)
    ensures var r := ParseMember(DumpMember(m) + post);
            r.Ok? ==> r.value != Member(m.key, Normal(m.value))
    decreases m, 1
  {
    var t := DumpMember(m) + post;
    var afterKey := ":" + Dump(m.value) + post;
    assert SkipSpace(t) == t && t[1..] == m.key + "\"" + afterKey;
    if !CleanKey(m.key) {
      DirtyKeyLost(m.key, afterKey);
    } else {
      CleanKeyRoundTrip(m.key, afterKey);
      assert SkipSpace(afterKey) == afterKey && afterKey[1..] == Dump(m.value) + post;
      DirtyValueLost(m.value, post);
    }
  }

  lemma {:induction false} DirtyMembersLost(members: seq<Member>, post: string)
    requires forall i :: 0 <= i < |members| ==> Printable(members[i].value)
    requires exists i :: 0 <= i < |members| && !CleanMember(members[i])
    ensures var r := ParseMembers(DumpMembers(members) + "}" + post);
            r.Ok? ==> r.value != NormalMembers(members)
    decreases members, 0
  {
    var m := members[0];
    var normal := Member(m.key, Normal(m.value));
    var last := |members| == 1;
    var tail := if last then post else DumpMembers(members[1..]) + "}" + post;
    var after := (if last then "}" else ",") + tail;
    assert DumpMembers(members) + "}" + post == DumpMember(m) + after;
    assert NormalMembers(members)[0] == normal;
    if !CleanMember(m) {
      DirtyMemberLost(m, after);
      MembersHead(DumpMember(m) + after);
    } else {
      MemberRoundTrip(m, after);
      MembersTurn(DumpMember(m) + after, normal, last, tail);
      var i :| 0 <= i < |members| && !CleanMember(members[i]);
      assert members[1..][i - 1] == members[i];
      DirtyMembersLost(members[1..], post);
      assert NormalMembers(members)[1..] == NormalMembers(members[1..]);
      if ParseMembers(tail).Ok? {
        assert ([normal] + ParseMembers(tail).value)[1..] == ParseMembers(tail).value;
      }
    }
  }

  /** Main result: printing and parsing give a value back, with non-negative integers unsigned and
      discarded values null, exactly when no key anywhere in it holds a quote or a backslash. */
  lemma {:induction false} RoundTripExactly(v: Json)
    requires Printable(v)
    ensures Parse(Dump(v)) == Some(Normal(v)) <==> CleanKeys(v)
  {
    assert Dump(v) + "" == Dump(v);
    if CleanKeys(v) {
      ValueRoundTrip(v, "");
    } else {
      DirtyValueLost(v, "");
    }
  }

  // ---------------------------------------------------------------- other texts of the same value

  ghost predicate AllSpace(t: string) {
    forall i :: 0 <= i < |t| ==> IsSpace(t[i])
  }

  lemma {:induction false} SkipAllSpace(space: string, t: string)
    requires AllSpace(space)
    ensures SkipSpace(space + t) == SkipSpace(t)
    decreases |space|
  {
    if space == [] {
      assert space + t == t;
    } else {
      assert (space + t)[1..] == space[1..] + t;
      SkipAllSpace(space[1..], t);
    }
  }

  /** White space before and after a printed value changes nothing. */
  lemma {:induction false} SpaceAround(before: string, v: Json, after: string)
    requires AllSpace(before) && AllSpace(after) && Printable(v) && CleanKeys(v)
    ensures Parse(before + Dump(v) + after) == Some(Normal(v))
  {
    ValueRoundTrip(v, after);
    assert before + Dump(v) + after == before + (Dump(v) + after);
    SkipAllSpace(before, Dump(v) + after);
    SameAfterSpace(before + Dump(v) + after, Dump(v) + after);
    assert after + [] == after;
    SkipAllSpace(after, []);
  }

  lemma {:induction false} SameAfterSpace(t: string, u: string)
    requires SkipSpace(t) == SkipSpace(u)
    ensures ParseValue(t) == ParseValue(u)
  {
  }

  function HexChar(n: nat): char
    requires n < 16
  {
    if n < 10 then '0' + n as char else 'a' + (n - 10) as char
  }

  /** Four hex digits of a code point. */
  function HexText(cp: nat): string
    requires cp < 0x1_0000
  {
    [HexChar(cp / 256 / 16), HexChar(cp / 256 % 16), HexChar(cp % 256 / 16), HexChar(cp % 256 % 16)]
  }

  lemma {:induction false} HexCharDigit(n: nat)
    requires n < 16
    ensures HexDigit(HexChar(n)) == Some(n)
  {
  }

  lemma {:induction false} HexRoundTrip(cp: nat, tail: string)
    requires cp < 0x1_0000
    ensures CodePoint(HexText(cp) + tail) == Some(cp)
  {
    HexPairRoundTrip(cp / 256);
    HexPairRoundTrip(cp % 256);
    var t := HexText(cp) + tail;
    assert t[0] == HexText(cp)[0] && t[1] == HexText(cp)[1] && t[2] == HexText(cp)[2] && t[3] == HexText(cp)[3];
  }

  lemma {:induction false} HexPairRoundTrip(n: nat)
    requires n < 256
    ensures HexPair(HexChar(n / 16), HexChar(n % 16)) == Some(n)
  {
    HexCharDigit(n / 16);
    HexCharDigit(n % 16);
  }

  /** What a UTF-8 sequence of one to three bytes stands for (section 3 of RFC 3629). */
  function Utf8Value(s: string): nat
    requires 1 <= |s| <= 3
  {
    var a := s[0] as nat;
    if |s| == 1 then a
    else
      var b := s[1] as nat % 64;
      if |s| == 2 then a % 32 * 64 + b else a % 16 * 4096 + b * 64 + s[2] as nat % 64
  }

  lemma {:induction false} Utf8RoundTrip(cp: nat)
    requires cp < 0x1_0000
    ensures Utf8Value(Utf8(cp)) == cp
    ensures |Utf8(cp)| == if cp < 0x80 then 1 else if cp < 0x800 then 2 else 3
  {
    var low, mid, high := cp % 64, cp / 64 % 64, cp / 4096;
    Sixths(cp);
    if cp < 0x80 {
    } else if cp < 0x800 {
      Stripped(0xC0, cp / 64, 32);
      Stripped(0x80, low, 64);
    } else {
      Stripped(0xE0, high, 16);
      Stripped(0x80, mid, 64);
      Stripped(0x80, low, 64);
    }
  }

  lemma {:induction false} Sixths(cp: nat)
    ensures cp == cp / 4096 * 4096 + cp / 64 % 64 * 64 + cp % 64 == cp / 64 * 64 + cp % 64
  {
  }

  /** Dropping the marker bits of a byte gives its payload back. */
  lemma {:induction false} Stripped(marker: nat, payload: nat, range: nat)
    requires (range == 16 && marker == 0xE0) || (range == 32 && marker == 0xC0) || (range == 64 && marker == 0x80)
    requires payload < range
    ensures ((marker + payload) as char) as nat % range == payload
  {
  }

  /** A \u escape reads as the UTF-8 bytes of its code point, and exactly its six characters are consumed. */
  lemma {:induction false} UnicodeEscapeIsUtf8(cp: nat, tail: string)
    requires cp < 0x1_0000
    ensures ParseString("\\u" + HexText(cp) + tail) == Prepend(Utf8(cp), ParseString(tail))
    ensures Utf8Value(Utf8(cp)) == cp
  {
    var t := "\\u" + HexText(cp) + tail;
    HexRoundTrip(cp, tail);
    Utf8RoundTrip(cp);
    assert t[2..] == HexText(cp) + tail && t[6..] == tail;
  }

  // ---------------------------------------------------------------- the printer

  /** The separator still owed before element i of n. */
  ghost function Comma(i: nat, n: nat): string {
    if 0 < i < n then "," else ""
  }

  lemma {:induction false} Regroup(a: string, b: string, c: string, d: string)
    ensures a + (b + c + d) == a + b + c + d
  {
  }

  lemma {:induction false} EscapeStep(s: string, i: nat)
    requires i < |s|
    ensures Escape(s[i..]) == EscapeChar(s[i]) + Escape(s[i + 1..])
  {
    assert s[i..][1..] == s[i + 1..] && s[i..][0] == s[i];
  }

  lemma {:induction false} DumpItemsStep(items: seq<Json>, i: nat)
    requires i < |items| && forall j :: 0 <= j < |items| ==> Printable(items[j])
    ensures DumpItems(items[i..]) == Dump(items[i]) + Comma(i + 1, |items|) + DumpItems(items[i + 1..])
  {
    assert items[i..][1..] == items[i + 1..] && items[i..][0] == items[i];
  }

  lemma {:induction false} DumpMembersStep(members: seq<Member>, i: nat)
    requires i < |members| && forall j :: 0 <= j < |members| ==> Printable(members[j].value)
    ensures DumpMembers(members[i..]) ==
            DumpMember(members[i]) + Comma(i + 1, |members|) + DumpMembers(members[i + 1..])
  {
    assert members[i..][1..] == members[i + 1..] && members[i..][0] == members[i];
  }

  class TextStream {
    var text: string

    constructor ()
      ensures text == ""
    {
      text := "";
    }

    method Put(s: string)
      modifies this
      ensures text == old(text) + s
    {
      text := text + s;
    }

    method SerializeText(s: string)
      modifies this
      ensures text == old(text) + "\"" + Escape(s) + "\""
    {
      Put("\"");
      ghost var goal := text + Escape(s);
      for i := 0 to |s|
        invariant text + Escape(s[i..]) == goal
      {
        EscapeStep(s, i);
        Regroup(text, EscapeChar(s[i]), "", Escape(s[i + 1..]));
        Put(EscapeChar(s[i]));
      }
      Put("\"");
    }

    method Serialize(v: Json)
      requires Printable(v)
      modifies this
      ensures text == old(text) + Dump(v)
      decreases v, 1
    {
      match v {
        case Null => Put("null");
        case Boolean(b) => Put(if b then "true" else "false");
        case Integer(i) => Put(IntText(i));
        case Unsigned(u) => Put(NatText(u));
        case Text(s) => SerializeText(s);
        case Array(items) => SerializeArray(items);
        case Object(members) => SerializeObject(members);
        case Discarded => Put("null");
      }
    }

    method SerializeArray(items: seq<Json>)
      requires forall i :: 0 <= i < |items| ==> Printable(items[i])
      modifies this
      ensures text == old(text) + ("[" + DumpItems(items) + "]")
      decreases items, 1
    {
      Put("[");
      SerializeItems(items);
      Put("]");
    }

    method SerializeObject(members: seq<Member>)
      requires forall i :: 0 <= i < |members| ==> Printable(members[i].value)
      modifies this
      ensures text == old(text) + ("{" + DumpMembers(members) + "}")
      decreases members, 1
    {
      Put("{");
      SerializeMembers(members);
      Put("}");
    }

    method SerializeItems(items: seq<Json>)
      requires forall i :: 0 <= i < |items| ==> Printable(items[i])
      modifies this
      ensures text == old(text) + DumpItems(items)
      decreases items, 0, 1
    {
      for i := 0 to |items|
        invariant text + Comma(i, |items|) + DumpItems(items[i..]) == old(text) + DumpItems(items)
      {
        DumpItemsStep(items, i);
        Regroup(text + Comma(i, |items|), Dump(items[i]), Comma(i + 1, |items|), DumpItems(items[i + 1..]));
        SerializeItem(items, i);
      }
    }

    method SerializeItem(items: seq<Json>, i: nat)
      requires i < |items| && Printable(items[i])
      modifies this
      ensures text == old(text) + Comma(i, |items|) + Dump(items[i])
      decreases items, 0, 0
    {
      if i > 0 {
        Put(",");
      }
      Serialize(items[i]);
    }

    method SerializeMember(m: Member)
      requires Printable(m.value)
      modifies this
      ensures text == old(text) + DumpMember(m)
      decreases m, 2
    {
      Put("\"" + m.key + "\":");
      Serialize(m.value);
    }

    method SerializeMembers(members: seq<Member>)
      requires forall i :: 0 <= i < |members| ==> Printable(members[i].value)
      modifies this
      ensures text == old(text) + DumpMembers(members)
      decreases members, 0, 1
    {
      for i := 0 to |members|
        invariant text + Comma(i, |members|) + DumpMembers(members[i..]) == old(text) + DumpMembers(members)
      {
        DumpMembersStep(members, i);
        Regroup(text + Comma(i, |members|), DumpMember(members[i]), Comma(i + 1, |members|),
                DumpMembers(members[i + 1..]));
        SerializeEntry(members, i);
      }
    }

    method SerializeEntry(members: seq<Member>, i: nat)
      requires i < |members| && Printable(members[i].value)
      modifies this
      ensures text == old(text) + Comma(i, |members|) + DumpMember(members[i])
      decreases members, 0, 0
    {
      if i > 0 {
        Put(",");
      }
      SerializeMember(members[i]);
    }
  }

  // ---------------------------------------------------------------- the parser

  /** Advances `pos` over `input`; a method that returns None stands for a thrown exception. */
  class Parser {
    const input: string
    var pos: nat

    constructor (input: string)
      ensures this.input == input && pos == 0
    {
      this.input := input;
      pos := 0;
    }

    ghost predicate Valid()
      reads this
    {
      pos <= |input|
    }

    ghost function Rest(): string
      requires Valid()
      reads this
    {
      input[pos..]
    }

    /** The outcome of a parse function is what the method returned and where it stopped. */
    ghost predicate Gives<T>(expected: Parsed<T>, actual: Option<T>)
      reads this
    {
      && Valid()
      && if expected.Fail? then actual == None
         else actual == Some(expected.value) && Rest() == expected.rest
    }

    method SkipWs()
      requires Valid()
      modifies this
      ensures Valid() && Rest() == SkipSpace(old(Rest())) && old(pos) <= pos
    {
      while pos < |input| && IsSpace(input[pos])
        invariant Valid() && SkipSpace(Rest()) == SkipSpace(old(Rest())) && old(pos) <= pos
      {
        assert Rest()[1..] == input[pos + 1..];
        pos := pos + 1;
      }
    }

    method Peek() returns (c: Option<char>)
      requires Valid()
      modifies this
      ensures Valid() && Rest() == SkipSpace(old(Rest())) && old(pos) <= pos
      ensures c == if pos < |input| then Some(input[pos]) else None
    {
      SkipWs();
      c := if pos < |input| then Some(input[pos]) else None;
    }

    method Consume() returns (c: Option<char>)
      requires Valid()
      modifies this
      ensures Valid()
      ensures if old(pos) < |input| then c == Some(input[old(pos)]) && pos == old(pos) + 1
              else c == None && pos == old(pos)
    {
      if pos < |input| {
        c := Some(input[pos]);
        pos := pos + 1;
      } else {
        c := None;
      }
    }

    method ExpectWord(word: string, v: Json) returns (r: Option<Json>)
      requires Valid()
      modifies this
      ensures Gives(Expect(old(Rest()), word, v), r)
    {
      if |input| - pos < |word| {
        return None;
      }
      assert Rest()[..|word|] == input[pos..pos + |word|];
      if input[pos..pos + |word|] != word {
        return None;
      }
      pos := pos + |word|;
      return Some(v);
    }

    method ReadString() returns (r: Option<string>)
      requires Valid() && pos < |input|
      modifies this
      ensures Gives(ParseString(old(Rest())[1..]), r)
    {
      var _ := Consume();
      assert Rest() == old(Rest())[1..];
      ghost var goal := ParseString(Rest());
      var s := "";
      assert goal == Prepend(s, goal) by {
        if goal.Ok? {
          assert s + goal.value == goal.value;
        }
      }
      while pos < |input|
        invariant Valid() && Prepend(s, ParseString(Rest())) == goal
      {
        ghost var t := Rest();
        var c := input[pos];
        pos := pos + 1;
        assert Rest() == t[1..];
        if c == '"' {
          assert s + [] == s;
          return Some(s);
        }
        if c != '\\' {
          PrependTwice(s, [c], ParseString(Rest()));
          s := s + [c];
          continue;
        }
        if pos >= |input| {
          return None;
        }
        var esc := input[pos];
        pos := pos + 1;
        assert Rest() == t[2..];
        if esc != 'u' {
          PrependTwice(s, [Unescape(esc)], ParseString(Rest()));
          s := s + [Unescape(esc)];
          continue;
        }
        if pos + 4 > |input| {
          return None;
        }
        var cp := CodePoint(input[pos..]);
        if cp == None {
          return None;
        }
        pos := pos + 4;
        assert Rest() == t[6..];
        PrependTwice(s, Utf8(cp.value), ParseString(Rest()));
        s := s + Utf8(cp.value);
      }
      return None;
    }

    method SkipDigits()
      requires Valid()
      modifies this
      ensures Valid() && pos == old(pos) + DigitRun(old(Rest()))
    {
      while pos < |input| && IsDigit(input[pos])
        invariant Valid() && pos + DigitRun(Rest()) == old(pos) + DigitRun(old(Rest()))
      {
        assert Rest()[1..] == input[pos + 1..];
        pos := pos + 1;
      }
    }

    method ScanNumber() returns (e: Extent)
      requires Valid() && pos < |input|
      modifies this
      ensures Valid() && e == Measure(old(Rest())) && pos == old(pos) + e.exponent
    {
      var start := pos;
      ghost var t := Rest();
      if input[pos] == '-' {
        pos := pos + 1;
      }
      var sign := pos - start;
      Suffix(input, start, sign);
      SkipDigits();
      var whole := pos - start;
      Suffix(input, start, whole);
      SkipFraction(t, whole);
      var fraction := pos - start;
      Suffix(input, start, fraction);
      SkipExponent(t, fraction);
      e := Extent(sign, whole, fraction, pos - start);
    }

    /** From `i` in the token, over a fraction if there is one. */
    method SkipFraction(ghost token: string, ghost i: nat)
      requires Valid() && i <= |token| && Rest() == token[i..]
      modifies this
      ensures Valid() && pos - old(pos) == FractionEnd(token, i) - i
    {
      FractionShift(token, i);
      if pos < |input| && input[pos] == '.' {
        Suffix(input, pos, 1);
        pos := pos + 1;
        SkipDigits();
      }
    }

    method ReadNumber() returns (r: Option<Json>)
      requires Valid() && pos < |input| && (input[pos] == '-' || IsDigit(input[pos]))
      modifies this
      ensures Gives(ParseNumber(old(Rest())), r)
    {
      var start := pos;
      ghost var t := Rest();
      var e := ScanNumber();
      if e.exponent > e.whole {
        r := FinishFloat(start, e, t);
      } else {
        r := FinishInteger(start, e, t);
      }
    }

    method FinishFloat(start: nat, e: Extent, ghost token: string) returns (r: Option<Json>)
      requires start <= |input| && token == input[start..] && e.exponent <= |token| && pos == start + e.exponent
      requires e.sign <= e.whole
      ensures Gives(FloatToken(token, e), r)
    {
      Suffix(input, start, e.exponent);
      Slice(input, start, 0, e.exponent);
      if e.whole == e.sign && e.fraction <= e.whole + 1 {
        return None;
      }
      return Some(Float(input[start..pos]));
    }

    method FinishInteger(start: nat, e: Extent, ghost token: string) returns (r: Option<Json>)
      requires start < |input| && token == input[start..] && pos == start + e.whole
      requires e.sign <= e.whole <= |token| && AllDigits(token[e.sign..e.whole])
      ensures Gives(IntegerToken(token, e), r)
    {
      Suffix(input, start, e.whole);
      Slice(input, start, e.sign, e.whole);
      r := Convert(input[start] == '-', input[start + e.sign..start + e.whole]);
    }

    method SkipExponent(ghost token: string, ghost i: nat)
      requires Valid() && i <= |token| && Rest() == token[i..]
      modifies this
      ensures Valid() && pos - old(pos) == ExponentEnd(token, i) - i
    {
      ExponentShift(token, i);
      if pos < |input| && (input[pos] == 'e' || input[pos] == 'E') {
        ghost var t := Rest();
        pos := pos + 1;
        if pos < |input| && (input[pos] == '+' || input[pos] == '-') {
          pos := pos + 1;
        }
        assert Rest() == t[pos - old(pos)..];
        SkipDigits();
      }
    }

    method ReadValue() returns (r: Option<Json>)
      requires Valid()
      modifies this
      ensures Gives(ParseValue(old(Rest())), r)
      decreases |input| - pos, 1
    {
      var c := Peek();
      if c == None {
        return None;
      }
      match c.value {
        case '{' => r := ReadObject();
        case '[' => r := ReadArray();
        case '"' =>
          var s := ReadString();
          r := if s == None then None else Some(Text(s.value));
        case 't' => r := ExpectWord("true", Boolean(true));
        case 'f' => r := ExpectWord("false", Boolean(false));
        case 'n' => r := ExpectWord("null", Null);
        case _ =>
          if c.value == '-' || IsDigit(c.value) {
            r := ReadNumber();
          } else {
            r := None;
          }
      }
    }

    method ReadArray() returns (r: Option<Json>)
      requires Valid() && pos < |input|
      modifies this
      ensures Gives(ParseArray(old(Rest())[1..]), r)
      decreases |input| - pos, 0
    {
      var _ := Consume();
      assert Rest() == old(Rest())[1..];
      var c := Peek();
      if c == Some(']') {
        var _ := Consume();
        return Some(Array([]));
      }
      var items := ReadItems();
      r := if items == None then None else Some(Array(items.value));
    }

    method ReadItems() returns (r: Option<seq<Json>>)
      requires Valid()
      modifies this
      ensures Gives(ParseItems(old(Rest())), r)
      decreases |input| - pos, 3
    {
      var items := [];
      ghost var goal := ParseItems(Rest());
      ExtendNothing(goal);
      while true
        invariant Valid() && old(pos) <= pos
        invariant Extend(items, ParseItems(Rest())) == goal
        decreases |input| - pos
      {
        ghost var t := Rest();
        var v, sep := ReadItem();
        if v == None {
          return None;
        }
        if sep == Some(']') {
          return Some(items + [v.value]);
        }
        if sep != Some(',') {
          return None;
        }
        ExtendTwice(items, [v.value], ParseItems(Rest()));
        items := items + [v.value];
      }
    }

    /** A value and the character after it: one turn of the array loop. */
    method ReadItem() returns (v: Option<Json>, sep: Option<char>)
      requires Valid()
      modifies this
      ensures Valid() && (v == None ==> ParseItems(old(Rest())).Fail?)
      ensures v != None ==> old(pos) < pos
      ensures v != None ==> ParseItems(old(Rest())) == AfterItem(v.value, sep, ']', Rest(), ParseItems(Rest()))
      decreases |input| - pos, 2
    {
      v := ReadValue();
      if v == None {
        return v, None;
      }
      SkipWs();
      ghost var u := Rest();
      sep := Consume();
      assert u != [] ==> Rest() == u[1..];
    }

    method ReadMember() returns (r: Option<Member>)
      requires Valid()
      modifies this
      ensures Gives(ParseMember(old(Rest())), r)
      decreases |input| - pos, 2
    {
      var c := Peek();
      if c != Some('"') {
        return None;
      }
      var key := ReadString();
      if key == None {
        return None;
      }
      SkipWs();
      ghost var w := Rest();
      var colon := Consume();
      assert w != [] ==> Rest() == w[1..];
      if colon != Some(':') {
        return None;
      }
      var v := ReadValue();
      r := if v == None then None else Some(Member(key.value, v.value));
    }

    method ReadObject() returns (r: Option<Json>)
      requires Valid() && pos < |input|
      modifies this
      ensures Gives(ParseObject(old(Rest())[1..]), r)
      decreases |input| - pos, 0
    {
      var _ := Consume();
      assert Rest() == old(Rest())[1..];
      var c := Peek();
      if c == Some('}') {
        var _ := Consume();
        return Some(Object([]));
      }
      var members := ReadMembers();
      r := if members == None then None else Some(Object(members.value));
    }

    method ReadMembers() returns (r: Option<seq<Member>>)
      requires Valid()
      modifies this
      ensures Gives(ParseMembers(old(Rest())), r)
      decreases |input| - pos, 4
    {
      var members := [];
      ghost var goal := ParseMembers(Rest());
      ExtendNothing(goal);
      while true
        invariant Valid() && old(pos) <= pos
        invariant Extend(members, ParseMembers(Rest())) == goal
        decreases |input| - pos
      {
        ghost var t := Rest();
        var m, sep := ReadEntry();
        if m == None {
          return None;
        }
        if sep == Some('}') {
          return Some(members + [m.value]);
        }
        if sep != Some(',') {
          return None;
        }
        ExtendTwice(members, [m.value], ParseMembers(Rest()));
        members := members + [m.value];
      }
    }

    /** A member and the character after it: one turn of the object loop. */
    method ReadEntry() returns (m: Option<Member>, sep: Option<char>)
      requires Valid()
      modifies this
      ensures Valid() && (m == None ==> ParseMembers(old(Rest())).Fail?)
      ensures m != None ==> old(pos) < pos
      ensures m != None ==> ParseMembers(old(Rest())) == AfterItem(m.value, sep, '}', Rest(), ParseMembers(Rest()))
      decreases |input| - pos, 3
    {
      m := ReadMember();
      if m == None {
        return m, None;
      }
      SkipWs();
      ghost var u := Rest();
      sep := Consume();
      assert u != [] ==> Rest() == u[1..];
    }
  }

  /** What a loop makes of an item, the character after it and what the rest parses to. */
  ghost function AfterItem<T>(item: T, sep: Option<char>, close: char, rest: string, tail: Parsed<seq<T>>): Parsed<seq<T>> {
    if sep == Some(close) then Ok([item], rest)
    else if sep == Some(',') then Extend([item], tail)
    else Fail
  }

  lemma {:induction false} ExtendNothing<T>(r: Parsed<seq<T>>)
    ensures Extend([], r) == r
  {
    if r.Ok? { assert [] + r.value == r.value; }
  }

  lemma {:induction false} Suffix(s: string, i: nat, k: nat)
    requires i + k <= |s|
    ensures s[i..][k..] == s[i + k..]
  {
  }

  lemma {:induction false} Slice(s: string, i: nat, j: nat, k: nat)
    requires j <= k && i + k <= |s|
    ensures s[i..][j..k] == s[i + j..i + k]
  {
  }

  lemma {:induction false} FractionShift(t: string, i: nat)
    requires i <= |t|
    ensures FractionEnd(t, i) == i + FractionEnd(t[i..], 0)
  {
    if i < |t| { Suffix(t, i, 1); }
  }

  lemma {:induction false} ExponentShift(t: string, j: nat)
    requires j <= |t|
    ensures ExponentEnd(t, j) == j + ExponentEnd(t[j..], 0)
  {
    var u := t[j..];
    if u != [] && (u[0] == 'e' || u[0] == 'E') {
      assert u[1..] == t[j + 1..];
      if |u| > 1 {
        assert u[2..] == t[j + 2..];
      }
    }
  }

  ghost function Extend<T>(a: seq<T>, r: Parsed<seq<T>>): Parsed<seq<T>> {
    if r.Fail? then Fail else Ok(a + r.value, r.rest)
  }

  lemma {:induction false} ExtendTwice<T>(a: seq<T>, b: seq<T>, r: Parsed<seq<T>>)
    ensures Extend(a, Extend(b, r)) == Extend(a + b, r)
  {
    if r.Ok? {
      assert a + (b + r.value) == a + b + r.value;
    }
  }

  lemma {:induction false} PrependTwice(a: string, b: string, r: Parsed<string>)
    ensures Prepend(a, Prepend(b, r)) == Prepend(a + b, r)
  {
    if r.Ok? {
      assert a + (b + r.value) == a + b + r.value;
    }
  }

  /** The whole of json::parse with exceptions off: None stands for a discarded value. */
  method ParseText(s: string) returns (r: Option<Json>)
    ensures r == Parse(s)
  {
    var parser := new Parser(s);
    assert parser.Rest() == s;
    r := parser.ReadValue();
    if r == None {
      return;
    }
    parser.SkipWs();
    if parser.pos != |s| {
      return None;
    }
  }

  /** Print into a stream, parse the text: the value comes back exactly when its keys are clean. */
  method PrintAndParse(v: Json) returns (r: Option<Json>)
    requires Printable(v)
    ensures r == Some(Normal(v)) <==> CleanKeys(v)
  {
    var stream := new TextStream();
    stream.Serialize(v);
    assert stream.text == Dump(v);
    r := ParseText(stream.text);
    RoundTripExactly(v);
  }
}
