/** The JSON grammar of RFC 8259, sections 2 to 7, as derivation trees, and the printer and parser against
    it: every integer-valued text of the grammar is read as what it says, and exactly the values without
    stray control characters print to a text of the grammar that says them. */
module JsonGrammar {
  import opened Common
  import opened JsonText

  // ---------------------------------------------------------------- the grammar

  /** One character of a string: itself, a two-character escape, or a four-digit escape (section 7), which
      stands for the bytes of its code point, a surrogate for its own three. */
  datatype Piece = Plain(c: char) | Short(letter: char) | Unicode(a: char, b: char, c: char, d: char)

  /** A derivation of a value. Every `pad`, `before`, `after`, `afterKey` and `beforeValue` is white space. */
  datatype Tree =
    | NullTree
    | BoolTree(flag: bool)
    | NumTree(negative: bool, digits: string)
    | StrTree(pieces: seq<Piece>)
    | ArrTree(items: seq<Item>, pad: string)
    | ObjTree(entries: seq<Entry>, pad: string)

  datatype Item = Item(before: string, value: Tree, after: string)

  datatype Entry = Entry(
    before: string, key: seq<Piece>, afterKey: string, beforeValue: string, value: Tree, after: string)

  predicate Unescaped(c: char) {
    c >= ' ' && c != '"' && c != '\\'
  }

  /** What the parser takes besides: a control character as itself, and a backslash before any letter but `u`,
      which stands for the letter unless it has a meaning of its own. */
  predicate PieceReads(p: Piece) {
    match p
    case Plain(c) => c != '"' && c != '\\'
    case Short(c) => c != 'u'
    case Unicode(a, b, c, d) => CodePoint([a, b, c, d]).Some?
  }

  predicate PiecesRead(ps: seq<Piece>) {
    forall i :: 0 <= i < |ps| ==> PieceReads(ps[i])
  }

  predicate PieceOk(p: Piece) {
    match p
    case Plain(c) => Unescaped(c)
    case Short(c) => c in {'"', '\\', '/', 'b', 'f', 'n', 'r', 't'}
    case Unicode(a, b, c, d) => CodePoint([a, b, c, d]).Some?
  }

  predicate PiecesOk(ps: seq<Piece>) {
    forall i :: 0 <= i < |ps| ==> PieceOk(ps[i])
  }

  function PieceText(p: Piece): string {
    match p
    case Plain(c) => [c]
    case Short(c) => ['\\', c]
    case Unicode(a, b, c, d) => ['\\', 'u', a, b, c, d]
  }

  /** The bytes a piece stands for. */
  function PieceValue(p: Piece): string {
    match p
    case Plain(c) => [c]
    case Short(c) => [Unescape(c)]
    case Unicode(a, b, c, d) =>
      var cp := CodePoint([a, b, c, d]);
      if cp.Some? then Utf8(cp.value) else []
  }

  function StrText(ps: seq<Piece>): string {
    if ps == [] then [] else PieceText(ps[0]) + StrText(ps[1..])
  }

  function StrValue(ps: seq<Piece>): string {
    if ps == [] then [] else PieceValue(ps[0]) + StrValue(ps[1..])
  }

  /** Some digits, within 64 bits: the sign takes the number to the signed range. The parser takes leading
      zeros. */
  predicate NumReads(negative: bool, digits: string) {
    && digits != [] && AllDigits(digits)
    && if negative then NatValue(digits) <= TWO_63 else NatValue(digits) < TWO_64
  }

  /** No leading zero (section 6). */
  predicate NumOk(negative: bool, digits: string) {
    NumReads(negative, digits) && (|digits| > 1 ==> digits[0] != '0')
  }

  /** A derivation by the grammar with the parser's three leniencies: stray control characters and escapes in
      strings, and leading zeros. */
  ghost predicate Readable(t: Tree) {
    match t
    case NumTree(negative, digits) => NumReads(negative, digits)
    case StrTree(ps) => PiecesRead(ps)
    case ArrTree(items, pad) => AllSpace(pad) && forall i :: 0 <= i < |items| ==> ItemReads(items[i])
    case ObjTree(entries, pad) => AllSpace(pad) && forall i :: 0 <= i < |entries| ==> EntryReads(entries[i])
    case _ => true
  }

  ghost predicate ItemReads(i: Item) {
    AllSpace(i.before) && Readable(i.value) && AllSpace(i.after)
  }

  ghost predicate EntryReads(e: Entry) {
    && AllSpace(e.before) && PiecesRead(e.key) && AllSpace(e.afterKey) && AllSpace(e.beforeValue)
    && Readable(e.value) && AllSpace(e.after)
  }

  ghost predicate WellFormed(t: Tree): (r: bool)
    ensures r ==> Readable(t)
  {
    match t
    case NumTree(negative, digits) => NumOk(negative, digits)
    case StrTree(ps) => PiecesOk(ps)
    case ArrTree(items, pad) => AllSpace(pad) && forall i :: 0 <= i < |items| ==> ItemOk(items[i])
    case ObjTree(entries, pad) => AllSpace(pad) && forall i :: 0 <= i < |entries| ==> EntryOk(entries[i])
    case _ => true
  }

  ghost predicate ItemOk(i: Item): (r: bool)
    ensures r ==> ItemReads(i)
  {
    AllSpace(i.before) && WellFormed(i.value) && AllSpace(i.after)
  }

  ghost predicate EntryOk(e: Entry): (r: bool)
    ensures r ==> EntryReads(e)
  {
    && AllSpace(e.before) && PiecesOk(e.key) && AllSpace(e.afterKey) && AllSpace(e.beforeValue)
    && WellFormed(e.value) && AllSpace(e.after)
  }

  /** The text a derivation derives. */
  function Yield(t: Tree): string
    decreases t, 1
  {
    match t
    case NullTree => "null"
    case BoolTree(b) => if b then "true" else "false"
    case NumTree(negative, digits) => (if negative then "-" else "") + digits
    case StrTree(ps) => "\"" + StrText(ps) + "\""
    case ArrTree(items, pad) => "[" + (if items == [] then pad else YieldItems(items)) + "]"
    case ObjTree(entries, pad) => "{" + (if entries == [] then pad else YieldEntries(entries)) + "}"
  }

  function YieldItems(items: seq<Item>): string
    decreases items, 0
  {
    if items == [] then []
    else if |items| == 1 then YieldItem(items[0])
    else YieldItem(items[0]) + "," + YieldItems(items[1..])
  }

  function YieldItem(i: Item): string
    decreases i, 2
  {
    i.before + Yield(i.value) + i.after
  }

  function YieldEntries(entries: seq<Entry>): string
    decreases entries, 0
  {
    if entries == [] then []
    else if |entries| == 1 then YieldEntry(entries[0])
    else YieldEntry(entries[0]) + "," + YieldEntries(entries[1..])
  }

  function YieldEntry(e: Entry): string
    decreases e, 2
  {
    e.before + ("\"" + StrText(e.key) + "\"") + e.afterKey + ":" + e.beforeValue + Yield(e.value) + e.after
  }

  function NumValue(negative: bool, digits: string): Json
    requires NumReads(negative, digits)
  {
    var n: int := NatValue(digits);
    if negative then Integer(-n) else Unsigned(n)
  }

  /** What a derivation says. */
  function Says(t: Tree): Json
    requires Readable(t)
    decreases t, 1
  {
    match t
    case NullTree => Null
    case BoolTree(b) => Boolean(b)
    case NumTree(negative, digits) => NumValue(negative, digits)
    case StrTree(ps) => Text(StrValue(ps))
    case ArrTree(items, _) => Array(SayItems(items))
    case ObjTree(entries, _) => Object(SayEntries(entries))
  }

  function SayItems(items: seq<Item>): (r: seq<Json>)
    requires forall i :: 0 <= i < |items| ==> ItemReads(items[i])
    ensures |r| == |items|
    decreases items, 0
  {
    if items == [] then []
    else
      assert ItemReads(items[0]);
      [Says(items[0].value)] + SayItems(items[1..])
  }

  function SayEntries(entries: seq<Entry>): (r: seq<Member>)
    requires forall i :: 0 <= i < |entries| ==> EntryReads(entries[i])
    ensures |r| == |entries|
    decreases entries, 0
  {
    if entries == [] then []
    else
      assert EntryReads(entries[0]);
      [Member(StrValue(entries[0].key), Says(entries[0].value))] + SayEntries(entries[1..])
  }

  // ---------------------------------------------------------------- the parser reads the grammar

  lemma {:induction false} PieceParses(p: Piece, tail: string)
    requires PieceReads(p)
    ensures ParseString(PieceText(p) + tail) == Prepend(PieceValue(p), ParseString(tail))
  {
    match p
    case Plain(c) =>
      assert ([c] + tail)[1..] == tail;
    case Short(c) => PairStep(c, tail);
    case Unicode(a, b, c, d) =>
      var t := PieceText(p) + tail;
      assert t[2..][..4] == [a, b, c, d] && t[6..] == tail;
      assert t[2..][0] == a && t[2..][1] == b && t[2..][2] == c && t[2..][3] == d;
  }

  lemma {:induction false} StringParses(ps: seq<Piece>, post: string)
    requires PiecesRead(ps)
    ensures ParseString(StrText(ps) + "\"" + post) == Ok(StrValue(ps), post)
    decreases |ps|
  {
    if ps == [] {
      assert StrText(ps) + "\"" + post == "\"" + post && ("\"" + post)[1..] == post;
    } else {
      var tail := StrText(ps[1..]) + "\"" + post;
      StringParses(ps[1..], post);
      assert StrText(ps) + "\"" + post == PieceText(ps[0]) + tail;
      PieceParses(ps[0], tail);
    }
  }

  lemma {:induction false} NumberParses(negative: bool, digits: string, post: string)
    requires NumReads(negative, digits) && EndsNumber(post)
    ensures ParseValue((if negative then "-" else "") + digits + post) ==
            Ok(NumValue(negative, digits), post)
  {
    MeasureDigits(negative, digits, post);
    NumberDispatch((if negative then "-" else "") + digits + post);
  }

  /** A derived text is not empty and starts with neither white space nor a closing bracket. */
  lemma {:induction false} YieldStarts(t: Tree)
    requires Readable(t)
    ensures Yield(t) != [] && !IsSpace(Yield(t)[0]) && Yield(t)[0] != ']'
  {
  }

  lemma {:induction false} SpaceThenValue(space: string, t: string)
    requires AllSpace(space)
    ensures ParseValue(space + t) == ParseValue(t) && SkipSpace(space + t) == SkipSpace(t)
  {
    SkipAllSpace(space, t);
    SameAfterSpace(space + t, t);
  }

  lemma {:induction false} SpaceEndsNumber(space: string, c: char, tail: string)
    requires AllSpace(space) && c in {',', ']', '}'}
    ensures EndsNumber(space + [c] + tail) && SkipSpace(space + [c] + tail) == [c] + tail
  {
    assert space + [c] + tail == space + ([c] + tail);
    SkipAllSpace(space, [c] + tail);
    if space != [] {
      assert IsSpace(space[0]) && (space + [c] + tail)[0] == space[0];
    }
  }

  /** Parsing a derived text gives what it says and stops exactly at its end. */
  lemma {:induction false} TreeParses(t: Tree, post: string)
    requires Readable(t) && EndsNumber(post)
    ensures ParseValue(Yield(t) + post) == Ok(Says(t), post)
    decreases t, 1
  {
    match t
    case NullTree => LiteralRoundTrip("null", Null, post);
    case BoolTree(b) => LiteralRoundTrip(if b then "true" else "false", Boolean(b), post);
    case NumTree(negative, digits) => NumberParses(negative, digits, post);
    case StrTree(ps) => StrTreeParses(ps, post);
    case ArrTree(items, pad) =>
      if items == [] { EmptyArrayParses(pad, post); } else { ArrTreeParses(items, post); }
    case ObjTree(entries, pad) =>
      if entries == [] { EmptyObjectParses(pad, post); } else { ObjTreeParses(entries, post); }
  }

  lemma {:induction false} StrTreeParses(ps: seq<Piece>, post: string)
    requires PiecesRead(ps)
    ensures ParseValue("\"" + StrText(ps) + "\"" + post) == Ok(Text(StrValue(ps)), post)
  {
    var t := "\"" + StrText(ps) + "\"" + post;
    assert t[1..] == StrText(ps) + "\"" + post;
    ScalarDispatch(t);
    StringParses(ps, post);
  }

  lemma {:induction false} EmptyArrayParses(pad: string, post: string)
    requires AllSpace(pad)
    ensures ParseValue("[" + pad + "]" + post) == Ok(Array([]), post)
  {
    var t := "[" + pad + "]" + post;
    SpaceEndsNumber(pad, ']', post);
    assert t[1..] == pad + [']'] + post && SkipSpace(t) == t && ([']'] + post)[1..] == post;
  }

  lemma {:induction false} EmptyObjectParses(pad: string, post: string)
    requires AllSpace(pad)
    ensures ParseValue("{" + pad + "}" + post) == Ok(Object([]), post)
  {
    var t := "{" + pad + "}" + post;
    SpaceEndsNumber(pad, '}', post);
    assert t[1..] == pad + ['}'] + post && SkipSpace(t) == t && (['}'] + post)[1..] == post;
  }

  /** An opening bracket and a text that starts no empty array. */
  lemma {:induction false} ArrayOpens(inner: string)
    requires SkipSpace(inner) != [] && SkipSpace(inner)[0] != ']'
    ensures ParseValue("[" + inner) ==
            var r := ParseItems(SkipSpace(inner)); if r.Fail? then Fail else Ok(Array(r.value), r.rest)
  {
    var t := "[" + inner;
    assert SkipSpace(t) == t && t[1..] == inner;
  }

  lemma {:induction false} ObjectOpens(inner: string)
    requires SkipSpace(inner) != [] && SkipSpace(inner)[0] != '}'
    ensures ParseValue("{" + inner) ==
            var r := ParseMembers(SkipSpace(inner)); if r.Fail? then Fail else Ok(Object(r.value), r.rest)
  {
    var t := "{" + inner;
    assert SkipSpace(t) == t && t[1..] == inner;
  }

  /** What is left of a list after its first item, and what follows that item. */
  function ItemsTail(items: seq<Item>, post: string): string
    requires items != []
  {
    if |items| == 1 then post else YieldItems(items[1..]) + "]" + post
  }

  lemma {:induction false} ItemSplit(i: Item, sep: char, tail: string)
    ensures YieldItem(i) + [sep] + tail == i.before + (Yield(i.value) + (i.after + [sep] + tail))
  {
    var v := Yield(i.value);
    assert i.before + v + i.after + [sep] + tail == i.before + (v + (i.after + [sep] + tail));
  }

  lemma {:induction false} ItemsSplit(items: seq<Item>, post: string)
    requires items != []
    ensures YieldItems(items) + "]" + post ==
            items[0].before + (Yield(items[0].value) +
            (items[0].after + [if |items| == 1 then ']' else ','] + ItemsTail(items, post)))
  {
    var sep := if |items| == 1 then ']' else ',';
    var tail := ItemsTail(items, post);
    ItemSplit(items[0], sep, tail);
    if |items| > 1 { ListSplit(YieldItem(items[0]), YieldItems(items[1..]), "]", post); }
  }

  lemma {:induction false} ListSplit(first: string, rest: string, close: string, post: string)
    ensures first + "," + rest + close + post == first + [','] + (rest + close + post)
  {
  }

  lemma {:induction false} ArrTreeParses(items: seq<Item>, post: string)
    requires items != [] && forall i :: 0 <= i < |items| ==> ItemReads(items[i])
    ensures ParseValue("[" + YieldItems(items) + "]" + post) == Ok(Array(SayItems(items)), post)
    decreases items, 1
  {
    var inner := YieldItems(items) + "]" + post;
    assert "[" + YieldItems(items) + "]" + post == "[" + inner;
    ItemsParse(items, post);
    ItemsSplit(items, post);
    assert ItemReads(items[0]);
    YieldStarts(items[0].value);
    var rest := Yield(items[0].value) + (items[0].after + [if |items| == 1 then ']' else ','] + ItemsTail(items, post));
    SkipAllSpace(items[0].before, rest);
    assert rest[0] == Yield(items[0].value)[0];
    assert SkipSpace(rest) == rest;
    ArrayOpens(inner);
    ItemsFromSpace(items[0].before, rest);
  }

  /** The item loop does not care about white space before its first item. */
  lemma {:induction false} ItemsFromSpace(space: string, t: string)
    requires AllSpace(space)
    ensures ParseItems(space + t) == ParseItems(t)
  {
    SpaceThenValue(space, t);
  }

  lemma {:induction false} ItemsParse(items: seq<Item>, post: string)
    requires items != [] && forall i :: 0 <= i < |items| ==> ItemReads(items[i])
    ensures ParseItems(YieldItems(items) + "]" + post) == Ok(SayItems(items), post)
    decreases items, 0
  {
    var i := items[0];
    assert ItemReads(i);
    var last := |items| == 1;
    var sep := if last then ']' else ',';
    var tail := ItemsTail(items, post);
    var after := i.after + [sep] + tail;
    ItemsSplit(items, post);
    SpaceEndsNumber(i.after, sep, tail);
    TreeParses(i.value, after);
    ItemsFromSpace(i.before, Yield(i.value) + after);
    SpacedItemsTurn(Yield(i.value) + after, Says(i.value), last, after, tail);
    if !last { ItemsParse(items[1..], post); } else { assert SayItems(items) == [Says(i.value)]; }
  }

  lemma {:induction false} SpacedItemsTurn(t: string, v: Json, last: bool, after: string, tail: string)
    requires ParseValue(t) == Ok(v, after) && SkipSpace(after) == [if last then ']' else ','] + tail
    ensures ParseItems(t) ==
            if last then Ok([v], tail)
            else if ParseItems(tail).Fail? then Fail
            else Ok([v] + ParseItems(tail).value, ParseItems(tail).rest)
  {
    var u := [if last then ']' else ','] + tail;
    assert u[1..] == tail;
  }

  function EntriesTail(entries: seq<Entry>, post: string): string
    requires entries != []
  {
    if |entries| == 1 then post else YieldEntries(entries[1..]) + "}" + post
  }

  /** An entry from its key's opening quote on, with what follows it. */
  function KeyOn(e: Entry, after: string): string {
    ['"'] + (StrText(e.key) + "\"" + (e.afterKey + ([':'] + (e.beforeValue + (Yield(e.value) + after)))))
  }

  lemma {:induction false} EntrySplit(e: Entry, sep: char, tail: string)
    ensures YieldEntry(e) + [sep] + tail == e.before + KeyOn(e, e.after + [sep] + tail)
  {
    var s, v := StrText(e.key), Yield(e.value);
    var key := ['"'] + (s + "\"");
    assert "\"" + s + "\"" == key;
    var rest := e.after + [sep] + tail;
    var fromValue := e.beforeValue + (v + rest);
    RegroupEntry(e.before, key, e.afterKey, e.beforeValue, v, e.after, [sep], tail);
    RegroupKey(s, e.afterKey + ([':'] + fromValue));
  }

  lemma {:induction false} RegroupEntry(a: string, b: string, c: string, d: string, e: string, f: string,
                                        g: string, h: string)
    ensures a + b + c + ":" + d + e + f + g + h == a + (b + (c + ([':'] + (d + (e + (f + g + h))))))
  {
  }

  lemma {:induction false} RegroupKey(s: string, rest: string)
    ensures (['"'] + (s + "\"")) + rest == ['"'] + (s + "\"" + rest)
  {
  }

  lemma {:induction false} EntriesSplit(entries: seq<Entry>, post: string)
    requires entries != []
    ensures var e := entries[0];
            YieldEntries(entries) + "}" + post ==
            e.before + KeyOn(e, e.after + [if |entries| == 1 then '}' else ','] + EntriesTail(entries, post))
  {
    var e := entries[0];
    var sep := if |entries| == 1 then '}' else ',';
    var tail := EntriesTail(entries, post);
    EntrySplit(e, sep, tail);
    if |entries| > 1 { ListSplit(YieldEntry(e), YieldEntries(entries[1..]), "}", post); }
  }

  lemma {:induction false} MembersFromSpace(space: string, t: string)
    requires AllSpace(space)
    ensures ParseMembers(space + t) == ParseMembers(t)
  {
    SkipAllSpace(space, t);
    MemberFromSpace(space + t, t);
  }

  lemma {:induction false} MemberFromSpace(t: string, u: string)
    requires SkipSpace(t) == SkipSpace(u)
    ensures ParseMember(t) == ParseMember(u)
  {
  }

  /** One entry from its key on: key, colon and value, spaced as they may be. */
  lemma {:induction false} EntryParses(e: Entry, after: string)
    requires EntryReads(e) && EndsNumber(after)
    requires ParseValue(Yield(e.value) + after) == Ok(Says(e.value), after)
    ensures ParseMember(KeyOn(e, after)) == Ok(Member(StrValue(e.key), Says(e.value)), after)
  {
    var fromValue := Yield(e.value) + after;
    var fromColon := [':'] + (e.beforeValue + fromValue);
    StringParses(e.key, e.afterKey + fromColon);
    SkipAllSpace(e.afterKey, fromColon);
    SpaceThenValue(e.beforeValue, fromValue);
    assert KeyOn(e, after)[1..] == StrText(e.key) + "\"" + (e.afterKey + fromColon);
    assert fromColon[1..] == e.beforeValue + fromValue;
    SpacedMemberSteps(KeyOn(e, after), StrValue(e.key), e.afterKey + fromColon, fromColon, Says(e.value), after);
  }

  lemma {:induction false} SpacedMemberSteps(t: string, key: string, afterKey: string, w: string, v: Json, post: string)
    requires t != [] && t[0] == '"' && ParseString(t[1..]) == Ok(key, afterKey)
    requires w != [] && w[0] == ':' && SkipSpace(afterKey) == w && ParseValue(w[1..]) == Ok(v, post)
    ensures ParseMember(t) == Ok(Member(key, v), post)
  {
    assert SkipSpace(t) == t;
  }

  lemma {:induction false} ObjTreeParses(entries: seq<Entry>, post: string)
    requires entries != [] && forall i :: 0 <= i < |entries| ==> EntryReads(entries[i])
    ensures ParseValue("{" + YieldEntries(entries) + "}" + post) == Ok(Object(SayEntries(entries)), post)
    decreases entries, 1
  {
    var inner := YieldEntries(entries) + "}" + post;
    var e := entries[0];
    assert "{" + YieldEntries(entries) + "}" + post == "{" + inner;
    EntriesParse(entries, post);
    EntriesSplit(entries, post);
    assert EntryReads(e);
    var rest := KeyOn(e, e.after + [if |entries| == 1 then '}' else ','] + EntriesTail(entries, post));
    SkipAllSpace(e.before, rest);
    assert SkipSpace(rest) == rest;
    ObjectOpens(inner);
    MembersFromSpace(e.before, rest);
  }

  lemma {:induction false} EntriesParse(entries: seq<Entry>, post: string)
    requires entries != [] && forall i :: 0 <= i < |entries| ==> EntryReads(entries[i])
    ensures ParseMembers(YieldEntries(entries) + "}" + post) == Ok(SayEntries(entries), post)
    decreases entries, 0
  {
    var e := entries[0];
    assert EntryReads(e);
    var last := |entries| == 1;
    var sep := if last then '}' else ',';
    var tail := EntriesTail(entries, post);
    var after := e.after + [sep] + tail;
    EntriesSplit(entries, post);
    SpaceEndsNumber(e.after, sep, tail);
    TreeParses(e.value, after);
    EntryParses(e, after);
    MembersFromSpace(e.before, KeyOn(e, after));
    SpacedMembersTurn(KeyOn(e, after), Member(StrValue(e.key), Says(e.value)), last, after, tail);
    if !last {
      EntriesParse(entries[1..], post);
    } else {
      assert SayEntries(entries) == [Member(StrValue(e.key), Says(e.value))];
    }
  }

  lemma {:induction false} SpacedMembersTurn(t: string, m: Member, last: bool, after: string, tail: string)
    requires ParseMember(t) == Ok(m, after) && SkipSpace(after) == [if last then '}' else ','] + tail
    ensures ParseMembers(t) ==
            if last then Ok([m], tail)
            else if ParseMembers(tail).Fail? then Fail
            else Ok([m] + ParseMembers(tail).value, ParseMembers(tail).rest)
  {
    var u := [if last then '}' else ','] + tail;
    assert u[1..] == tail;
  }

  /** Main result on reading: every text of the grammar whose numbers are integers of 64 bits, with white space
      before and after it, is accepted with exactly the value it says; so is one with leading zeros, stray
      control characters and stray escapes. */
  lemma {:induction false} GrammarIsRead(before: string, t: Tree, after: string)
    requires AllSpace(before) && Readable(t) && AllSpace(after)
    ensures Parse(before + Yield(t) + after) == Some(Says(t))
  {
    assert before + Yield(t) + after == before + (Yield(t) + after);
    SpaceThenValue(before, Yield(t) + after);
    TreeParses(t, after);
    assert after + [] == after;
    SkipAllSpace(after, []);
  }

  // ---------------------------------------------------------------- which values print to the grammar

  predicate PlainText(s: string) {
    forall i :: 0 <= i < |s| ==> s[i] >= ' ' || HasShort(s[i])
  }

  predicate HasShort(c: char) {
    c == '\U{8}' || c == '\U{C}' || c == '\n' || c == '\r' || c == '\t'
  }

  predicate PlainKey(key: string) {
    forall i :: 0 <= i < |key| ==> Unescaped(key[i])
  }

  /** No string holds a control character without an escape of its own, and no key any character that
      needs one. */
  predicate Conforming(v: Json) {
    match v
    case Text(s) => PlainText(s)
    case Array(items) => forall i :: 0 <= i < |items| ==> Conforming(items[i])
    case Object(members) => forall i :: 0 <= i < |members| ==> PlainKey(members[i].key) && Conforming(members[i].value)
    case _ => true
  }

  // A conforming value's own derivation.

  function PieceOf(c: char): Piece {
    if c == '\U{8}' then Short('b')
    else if c == '\U{C}' then Short('f')
    else if c == '\n' then Short('n')
    else if c == '\r' then Short('r')
    else if c == '\t' then Short('t')
    else if c == '"' || c == '\\' then Short(c)
    else Plain(c)
  }

  function PiecesOf(s: string): seq<Piece> {
    if s == [] then [] else [PieceOf(s[0])] + PiecesOf(s[1..])
  }

  function KeyPieces(key: string): seq<Piece> {
    if key == [] then [] else [Plain(key[0])] + KeyPieces(key[1..])
  }

  function TreeOf(v: Json): Tree
    decreases v, 1
  {
    match v
    case Boolean(b) => BoolTree(b)
    case Integer(i) =>
      var n: int := i;
      NumTree(n < 0, NatText(if n < 0 then -n else n))
    case Unsigned(u) => NumTree(false, NatText(u))
    case Text(s) => StrTree(PiecesOf(s))
    case Array(items) => ArrTree(TreeItems(items), "")
    case Object(members) => ObjTree(TreeEntries(members), "")
    case _ => NullTree
  }

  function TreeItems(items: seq<Json>): (r: seq<Item>)
    ensures |r| == |items|
    decreases items, 0
  {
    if items == [] then [] else [Item("", TreeOf(items[0]), "")] + TreeItems(items[1..])
  }

  function TreeEntries(members: seq<Member>): (r: seq<Entry>)
    ensures |r| == |members|
    decreases members, 0
  {
    if members == [] then []
    else [Entry("", KeyPieces(members[0].key), "", "", TreeOf(members[0].value), "")] + TreeEntries(members[1..])
  }

  lemma {:induction false} PiecesOfText(s: string)
    requires PlainText(s)
    ensures PiecesOk(PiecesOf(s)) && StrText(PiecesOf(s)) == Escape(s) && StrValue(PiecesOf(s)) == s
    decreases |s|
  {
    if s != [] {
      PiecesOfText(s[1..]);
      assert s[0] >= ' ' || HasShort(s[0]);
      PieceOfChar(s[0]);
      assert PiecesOf(s) == [PieceOf(s[0])] + PiecesOf(s[1..]);
      assert PiecesOf(s)[1..] == PiecesOf(s[1..]);
    }
  }

  lemma {:induction false} PieceOfChar(c: char)
    requires c >= ' ' || HasShort(c)
    ensures PieceOk(PieceOf(c)) && PieceText(PieceOf(c)) == EscapeChar(c) && PieceValue(PieceOf(c)) == [c]
  {
  }

  lemma {:induction false} KeyPiecesText(key: string)
    requires PlainKey(key)
    ensures PiecesOk(KeyPieces(key)) && StrText(KeyPieces(key)) == key && StrValue(KeyPieces(key)) == key
    decreases |key|
  {
    if key != [] {
      KeyPiecesText(key[1..]);
      assert KeyPieces(key)[1..] == KeyPieces(key[1..]);
    }
  }

  lemma {:induction false} NatTextCanonical(n: nat)
    ensures NatText(n) != [] && (n > 0 ==> NatText(n)[0] != '0') && (n == 0 ==> NatText(n) == "0")
  {
    if n >= 10 { NatTextCanonical(n / 10); }
  }

  lemma {:induction false} NatTextOk(negative: bool, n: nat)
    requires if negative then n <= TWO_63 else n < TWO_64
    ensures NumOk(negative, NatText(n)) && NatValue(NatText(n)) == n
  {
    NatTextValue(n);
    NatTextCanonical(n);
  }

  ghost predicate Derives(t: Tree, text: string, v: Json) {
    WellFormed(t) && Yield(t) == text && Says(t) == v
  }

  /** The text is in the grammar and says the value. */
  ghost predicate InGrammar(text: string, v: Json) {
    exists t :: Derives(t, text, v)
  }

  lemma {:induction false} TreeOfDerives(v: Json)
    requires Printable(v) && Conforming(v)
    ensures Derives(TreeOf(v), Dump(v), Normal(v))
    decreases v, 1
  {
    match v
    case Integer(i) => IntegerDerives(i);
    case Unsigned(u) => NatTextOk(false, u);
    case Text(s) => PiecesOfText(s);
    case Array(items) =>
      TreeItemsDerive(items);
    case Object(members) =>
      TreeEntriesDerive(members);
    case _ =>
  }

  lemma {:induction false} IntegerDerives(i: Int64)
    ensures Derives(TreeOf(Integer(i)), IntText(i), Normal(Integer(i)))
  {
    var n: int := i;
    NatTextOk(n < 0, if n < 0 then -n else n);
  }

  lemma {:induction false} TreeItemsDerive(items: seq<Json>)
    requires forall i :: 0 <= i < |items| ==> Printable(items[i]) && Conforming(items[i])
    ensures forall i :: 0 <= i < |items| ==> ItemOk(TreeItems(items)[i]) && ItemReads(TreeItems(items)[i])
    ensures YieldItems(TreeItems(items)) == DumpItems(items) && SayItems(TreeItems(items)) == NormalItems(items)
    decreases items, 0
  {
    if items != [] {
      TreeOfDerives(items[0]);
      TreeItemsDerive(items[1..]);
      var trees := TreeItems(items);
      assert trees[0] == Item("", TreeOf(items[0]), "") && trees[1..] == TreeItems(items[1..]);
      assert YieldItem(trees[0]) == Dump(items[0]);
      forall i | 0 <= i < |trees| ensures ItemOk(trees[i]) && ItemReads(trees[i]) {
        if i > 0 { assert trees[i] == trees[1..][i - 1]; }
      }
    }
  }

  lemma {:induction false} EntriesOkLonger(entries: seq<Entry>)
    requires entries != [] && EntryOk(entries[0])
    requires forall i :: 0 <= i < |entries| - 1 ==> EntryOk(entries[1..][i])
    ensures forall i :: 0 <= i < |entries| ==> EntryOk(entries[i]) && EntryReads(entries[i])
  {
    forall i | 0 <= i < |entries| ensures EntryOk(entries[i]) && EntryReads(entries[i]) {
      if i > 0 { assert entries[i] == entries[1..][i - 1]; }
    }
  }

  lemma {:induction false} TreeEntriesDerive(members: seq<Member>)
    requires forall i :: 0 <= i < |members| ==>
               Printable(members[i].value) && PlainKey(members[i].key) && Conforming(members[i].value)
    ensures forall i :: 0 <= i < |members| ==> EntryOk(TreeEntries(members)[i]) && EntryReads(TreeEntries(members)[i])
    ensures YieldEntries(TreeEntries(members)) == DumpMembers(members)
    ensures SayEntries(TreeEntries(members)) == NormalMembers(members)
    decreases members, 0
  {
    if members != [] {
      var m := members[0];
      TreeOfDerives(m.value);
      KeyPiecesText(m.key);
      TreeEntriesDerive(members[1..]);
      var trees := TreeEntries(members);
      assert trees[1..] == TreeEntries(members[1..]);
      EntryOfMember(trees[0], m);
      EntriesOkLonger(trees);
    }
  }

  lemma {:induction false} EntryOfMember(e: Entry, m: Member)
    requires e.before == e.afterKey == e.beforeValue == e.after == ""
    requires StrText(e.key) == m.key && Printable(m.value) && Yield(e.value) == Dump(m.value)
    ensures YieldEntry(e) == DumpMember(m)
  {
  }

  // ---------------------------------------------------------------- and which do not

  /** How long a character is at least in a string of the grammar. */
  function CharCost(c: char): nat {
    if Unescaped(c) then 1 else if c == '"' || c == '\\' || HasShort(c) then 2 else 6
  }

  function StrCost(s: string): nat {
    if s == [] then 0 else CharCost(s[0]) + StrCost(s[1..])
  }

  /** How long a text of the grammar that says this value is at least. */
  function Cost(v: Json): nat
    decreases v, 1
  {
    match v
    case Null => 4
    case Boolean(b) => if b then 4 else 5
    case Integer(i) => |IntText(i)|
    case Unsigned(u) => |NatText(u)|
    case Text(s) => 2 + StrCost(s)
    case Array(items) => 2 + ItemsCost(items)
    case Object(members) => 2 + MembersCost(members)
    case _ => 4
  }

  function ItemsCost(items: seq<Json>): nat
    decreases items, 0
  {
    if items == [] then 0
    else if |items| == 1 then Cost(items[0])
    else Cost(items[0]) + 1 + ItemsCost(items[1..])
  }

  function MembersCost(members: seq<Member>): nat
    decreases members, 0
  {
    if members == [] then 0
    else
      var m := members[0];
      3 + StrCost(m.key) + Cost(m.value) + if |members| == 1 then 0 else 1 + MembersCost(members[1..])
  }

  lemma {:induction false} StrCostSplit(a: string, b: string)
    ensures StrCost(a + b) == StrCost(a) + StrCost(b)
    decreases |a|
  {
    if a == [] {
      assert a + b == b;
    } else {
      assert (a + b)[1..] == a[1..] + b;
      StrCostSplit(a[1..], b);
    }
  }

  lemma {:induction false} Utf8Cost(cp: nat)
    requires cp < 0x1_0000
    ensures StrCost(Utf8(cp)) <= 6
  {
    var s := Utf8(cp);
    if cp < 0x80 {
      assert s[1..] == [];
    } else if cp < 0x800 {
      HighByte(0xC0, cp / 64, 64);
      HighByte(0x80, cp % 64, 64);
      assert s == [s[0], s[1]];
      TwoCost(s[0], s[1]);
    } else {
      HighByte(0xE0, cp / 4096, 64);
      HighByte(0x80, cp / 64 % 64, 64);
      HighByte(0x80, cp % 64, 64);
      assert s == [s[0]] + [s[1], s[2]];
      StrCostSplit([s[0]], [s[1], s[2]]);
      TwoCost(s[1], s[2]);
      assert [s[0]][1..] == [];
    }
  }

  lemma {:induction false} HighByte(marker: nat, payload: nat, range: nat)
    requires 0x80 <= marker <= 0xE0 && payload < range <= 64
    ensures Unescaped((marker + payload) as char)
  {
    var c := (marker + payload) as char;
    assert c as int == marker + payload;
    assert ' ' as int == 32 && '"' as int == 34 && '\\' as int == 92;
  }

  lemma {:induction false} OneCost(c: char)
    ensures StrCost([c]) == CharCost(c)
  {
    assert [c][1..] == [];
  }

  lemma {:induction false} TwoCost(a: char, b: char)
    requires Unescaped(a) && Unescaped(b)
    ensures StrCost([a, b]) == 2
  {
    assert [a, b] == [a] + [b];
    StrCostSplit([a], [b]);
    OneCost(a);
    OneCost(b);
  }

  lemma {:induction false} PieceCost(p: Piece)
    requires PieceOk(p)
    ensures |PieceText(p)| >= StrCost(PieceValue(p))
  {
    match p
    case Plain(c) => OneCost(c);
    case Short(c) =>
      OneCost(Unescape(c));
      assert CharCost(Unescape(c)) <= 2;
    case Unicode(a, b, c, d) =>
      var cp := CodePoint([a, b, c, d]).value;
      Utf8Cost(cp);
      assert PieceValue(p) == Utf8(cp) && |PieceText(p)| == 6;
  }

  lemma {:induction false} PiecesCost(ps: seq<Piece>)
    requires PiecesOk(ps)
    ensures |StrText(ps)| >= StrCost(StrValue(ps))
    decreases |ps|
  {
    if ps != [] {
      PieceCost(ps[0]);
      PiecesCost(ps[1..]);
      StrCostSplit(PieceValue(ps[0]), StrValue(ps[1..]));
    }
  }

  lemma {:induction false} DigitsCost(digits: string)
    requires digits != [] && AllDigits(digits)
    ensures |NatText(NatValue(digits))| <= |digits|
    decreases |digits|
  {
    var init, d := digits[..|digits| - 1], DigitValue(digits[|digits| - 1]);
    if NatValue(init) > 0 {
      DigitsCost(init);
      assert (NatValue(init) * 10 + d) / 10 == NatValue(init);
    }
  }

  lemma {:induction false} NumberCost(negative: bool, digits: string)
    requires NumOk(negative, digits)
    ensures |Yield(NumTree(negative, digits))| >= Cost(NumValue(negative, digits))
  {
    DigitsCost(digits);
  }

  /** A text of the grammar is no shorter than the cost of what it says. */
  lemma {:induction false} YieldCost(t: Tree)
    requires WellFormed(t)
    ensures |Yield(t)| >= Cost(Says(t))
    decreases t, 1
  {
    match t
    case NumTree(negative, digits) => NumberCost(negative, digits);
    case StrTree(ps) => PiecesCost(ps);
    case ArrTree(items, _) => YieldItemsCost(items);
    case ObjTree(entries, _) => YieldEntriesCost(entries);
    case _ =>
  }

  lemma {:induction false} YieldItemsCost(items: seq<Item>)
    requires forall i :: 0 <= i < |items| ==> ItemOk(items[i]) && ItemReads(items[i])
    ensures |YieldItems(items)| >= ItemsCost(SayItems(items))
    decreases items, 0
  {
    if items != [] {
      assert ItemOk(items[0]);
      YieldCost(items[0].value);
      YieldItemsCost(items[1..]);
      assert SayItems(items)[1..] == SayItems(items[1..]);
    }
  }

  lemma {:induction false} YieldEntriesCost(entries: seq<Entry>)
    requires forall i :: 0 <= i < |entries| ==> EntryOk(entries[i]) && EntryReads(entries[i])
    ensures |YieldEntries(entries)| >= MembersCost(SayEntries(entries))
    decreases entries, 0
  {
    if entries != [] {
      assert EntryOk(entries[0]);
      PiecesCost(entries[0].key);
      YieldCost(entries[0].value);
      YieldEntriesCost(entries[1..]);
      assert SayEntries(entries)[1..] == SayEntries(entries[1..]);
    }
  }

  lemma {:induction false} EscapeCost(s: string)
    ensures |Escape(s)| <= StrCost(s) && (|Escape(s)| == StrCost(s) <==> PlainText(s))
    decreases |s|
  {
    if s != [] {
      EscapeCost(s[1..]);
      assert PlainText(s) <==> (s[0] >= ' ' || HasShort(s[0])) && PlainText(s[1..]) by { SplitPlain(s); }
    }
  }

  lemma {:induction false} SplitPlain(s: string)
    requires s != []
    ensures PlainText(s) <==> (s[0] >= ' ' || HasShort(s[0])) && PlainText(s[1..])
    ensures PlainKey(s) <==> Unescaped(s[0]) && PlainKey(s[1..])
  {
    assert s == [s[0]] + s[1..];
  }

  lemma {:induction false} KeyCost(key: string)
    ensures |key| <= StrCost(key) && (|key| == StrCost(key) <==> PlainKey(key))
    decreases |key|
  {
    if key != [] {
      KeyCost(key[1..]);
      SplitPlain(key);
    }
  }

  /** What is printed is no longer than the cost of the value, and as long only if it conforms. */
  lemma {:induction false} DumpCost(v: Json)
    requires Printable(v)
    ensures |Dump(v)| <= Cost(Normal(v)) && (|Dump(v)| == Cost(Normal(v)) <==> Conforming(v))
    decreases v, 1
  {
    match v
    case Text(s) => EscapeCost(s);
    case Array(items) => DumpItemsCost(items);
    case Object(members) => DumpMembersCost(members);
    case _ =>
  }

  ghost predicate AllConform(items: seq<Json>) {
    forall i :: 0 <= i < |items| ==> Conforming(items[i])
  }

  ghost predicate MembersConform(members: seq<Member>) {
    forall i :: 0 <= i < |members| ==> PlainKey(members[i].key) && Conforming(members[i].value)
  }

  lemma {:induction false} DumpItemsCost(items: seq<Json>)
    requires forall i :: 0 <= i < |items| ==> Printable(items[i])
    ensures |DumpItems(items)| <= ItemsCost(NormalItems(items))
    ensures |DumpItems(items)| == ItemsCost(NormalItems(items)) <==> AllConform(items)
    decreases items, 0
  {
    if items != [] {
      DumpCost(items[0]);
      DumpItemsCost(items[1..]);
      assert NormalItems(items)[1..] == NormalItems(items[1..]);
      assert items == [items[0]] + items[1..];
    }
  }

  lemma {:induction false} DumpMembersCost(members: seq<Member>)
    requires forall i :: 0 <= i < |members| ==> Printable(members[i].value)
    ensures |DumpMembers(members)| <= MembersCost(NormalMembers(members))
    ensures |DumpMembers(members)| == MembersCost(NormalMembers(members)) <==> MembersConform(members)
    decreases members, 0
  {
    if members != [] {
      DumpMemberCost(members[0]);
      DumpMembersCost(members[1..]);
      assert NormalMembers(members)[1..] == NormalMembers(members[1..]);
      SplitConform(members);
    }
  }

  lemma {:induction false} SplitConform(members: seq<Member>)
    requires members != []
    ensures MembersConform(members) <==>
            PlainKey(members[0].key) && Conforming(members[0].value) && MembersConform(members[1..])
  {
    assert members == [members[0]] + members[1..];
  }

  lemma {:induction false} DumpMemberCost(m: Member)
    requires Printable(m.value)
    ensures |DumpMember(m)| <= 3 + StrCost(m.key) + Cost(Normal(m.value))
    ensures |DumpMember(m)| == 3 + StrCost(m.key) + Cost(Normal(m.value)) <==> PlainKey(m.key) && Conforming(m.value)
    decreases m, 2
  {
    KeyCost(m.key);
    DumpCost(m.value);
  }

  /** Main result on printing: a value prints to a text of the grammar that says it if and only if its strings
      hold no control character without a two-character escape, and its keys none that needs an escape.
      For any other, what is printed is shorter than every text that says it. */
  lemma {:induction false} PrintsGrammarExactly(v: Json)
    requires Printable(v)
    ensures InGrammar(Dump(v), Normal(v)) <==> Conforming(v)
  {
    if Conforming(v) {
      TreeOfDerives(v);
    } else {
      DumpCost(v);
      TooShort(Dump(v), Normal(v));
    }
  }

  lemma {:induction false} TooShort(text: string, v: Json)
    requires |text| < Cost(v)
    ensures !InGrammar(text, v)
  {
    if t :| Derives(t, text, v) {
      YieldCost(t);
    }
  }
}
