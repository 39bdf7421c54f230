/** The parser accepts nothing but its grammar: whatever it reads without a float is white space, a text some
    derivation yields, and white space, and the value is the one that derivation says. */
module JsonReader {
  import opened Common
  import opened JsonText
  import opened JsonGrammar

  lemma {:induction false} SpaceSplits(t: string) returns (space: string)
    ensures AllSpace(space) && t == space + SkipSpace(t)
    decreases |t|
  {
    if t != [] && IsSpace(t[0]) {
      var rest := SpaceSplits(t[1..]);
      space := [t[0]] + rest;
    } else {
      space := [];
    }
  }

  lemma {:induction false} SkipAgain(t: string)
    ensures SkipSpace(SkipSpace(t)) == SkipSpace(t)
    decreases |t|
  {
    if t != [] && IsSpace(t[0]) { SkipAgain(t[1..]); }
  }

  // ---------------------------------------------------------------- strings and numbers

  /** One piece off the front of a string that is read. */
  lemma {:induction false} FirstPiece(t: string) returns (p: Piece, rest: string)
    requires ParseString(t).Ok? && t[0] != '"'
    ensures PieceReads(p) && t == PieceText(p) + rest && |rest| < |t|
    ensures ParseString(rest).Ok? && ParseString(t) == Prepend(PieceValue(p), ParseString(rest))
  {
    if t[0] != '\\' {
      p, rest := Plain(t[0]), t[1..];
    } else if t[1] != 'u' {
      p, rest := Short(t[1]), t[2..];
    } else {
      var four := t[2..];
      p, rest := Unicode(four[0], four[1], four[2], four[3]), t[6..];
      FourDigits(four);
      assert t == ['\\', 'u', four[0], four[1], four[2], four[3]] + rest;
    }
  }

  lemma {:induction false} FourDigits(t: string)
    requires |t| >= 4
    ensures CodePoint([t[0], t[1], t[2], t[3]]) == CodePoint(t)
  {
  }

  /** A string that is read is its pieces and the closing quote. */
  lemma {:induction false} StringPieces(t: string) returns (ps: seq<Piece>)
    requires ParseString(t).Ok?
    ensures PiecesRead(ps) && StrValue(ps) == ParseString(t).value
    ensures t == StrText(ps) + "\"" + ParseString(t).rest
    decreases |t|
  {
    if t[0] == '"' {
      ps := [];
    } else {
      var p, rest := FirstPiece(t);
      var more := StringPieces(rest);
      ps := [p] + more;
      PieceJoined(p, more, t, rest, ParseString(rest).rest);
    }
  }

  lemma {:induction false} PieceJoined(p: Piece, more: seq<Piece>, t: string, rest: string, post: string)
    requires PieceReads(p) && PiecesRead(more) && t == PieceText(p) + rest && rest == StrText(more) + "\"" + post
    ensures PiecesRead([p] + more) && StrValue([p] + more) == PieceValue(p) + StrValue(more)
    ensures t == StrText([p] + more) + "\"" + post
  {
    assert ([p] + more)[1..] == more;
    Regroup(PieceText(p), StrText(more), "\"", post);
  }

  lemma {:induction false} Regroup(a: string, b: string, c: string, d: string)
    ensures a + (b + c + d) == (a + b) + c + d
  {
  }

  lemma {:induction false} NumberTree(t: string) returns (negative: bool, digits: string)
    requires t != [] && (t[0] == '-' || IsDigit(t[0])) && ParseNumber(t).Ok? && Printable(ParseNumber(t).value)
    ensures NumReads(negative, digits) && NumValue(negative, digits) == ParseNumber(t).value
    ensures t == (if negative then "-" else "") + digits + ParseNumber(t).rest
  {
    var e := Measure(t);
    negative, digits := t[0] == '-', t[e.sign..e.whole];
    assert e.exponent == e.whole;
    assert ParseNumber(t) == IntegerToken(t, e);
    assert t == t[..e.sign] + t[e.sign..e.whole] + t[e.whole..];
  }

  // ---------------------------------------------------------------- values

  /** A value that is read is white space and a tree. */
  lemma {:induction false} ValueTree(t: string) returns (before: string, tree: Tree)
    requires ParseValue(t).Ok? && Printable(ParseValue(t).value)
    ensures AllSpace(before) && Readable(tree) && Says(tree) == ParseValue(t).value
    ensures t == before + Yield(tree) + ParseValue(t).rest
    decreases |t|, 1
  {
    var u := SkipSpace(t);
    before := SpaceSplits(t);
    if u[0] == '{' {
      tree := ObjectTree(u[1..]);
      Joined(before, Yield(tree), ParseValue(t).rest, t, u);
    } else if u[0] == '[' {
      tree := ArrayTree(u[1..]);
      Joined(before, Yield(tree), ParseValue(t).rest, t, u);
    } else {
      tree := ScalarTree(u);
      Joined(before, Yield(tree), ParseValue(t).rest, t, u);
    }
  }

  lemma {:induction false} Joined(before: string, yield_: string, rest: string, t: string, u: string)
    requires t == before + u && u == yield_ + rest
    ensures t == before + yield_ + rest
  {
  }

  lemma {:induction false} WordSplits(u: string, word: string, v: Json)
    requires Expect(u, word, v).Ok?
    ensures u == word + Expect(u, word, v).rest && Expect(u, word, v).value == v
  {
  }

  lemma {:induction false} QuotedTree(u: string) returns (tree: Tree)
    requires u != [] && u[0] == '"' && ParseString(u[1..]).Ok?
    ensures Readable(tree) && Says(tree) == Text(ParseString(u[1..]).value)
    ensures u == Yield(tree) + ParseString(u[1..]).rest
  {
    var ps := StringPieces(u[1..]);
    tree := StrTree(ps);
    Quoted(StrText(ps), ParseString(u[1..]).rest, u);
  }

  lemma {:induction false} Quoted(text: string, rest: string, u: string)
    requires u != [] && u[0] == '"' && u[1..] == text + "\"" + rest
    ensures u == "\"" + text + "\"" + rest
  {
    assert u == "\"" + u[1..];
  }

  lemma {:induction false} WordTree(u: string) returns (tree: Tree)
    requires u != [] && u[0] in {'t', 'f', 'n'} && ParseScalar(u).Ok?
    ensures Readable(tree) && Says(tree) == ParseScalar(u).value && u == Yield(tree) + ParseScalar(u).rest
  {
    if u[0] == 't' {
      WordSplits(u, "true", Boolean(true));
      tree := BoolTree(true);
    } else if u[0] == 'f' {
      WordSplits(u, "false", Boolean(false));
      tree := BoolTree(false);
    } else {
      WordSplits(u, "null", Null);
      tree := NullTree;
    }
  }

  lemma {:induction false} ScalarTree(u: string) returns (tree: Tree)
    requires u != [] && ParseScalar(u).Ok? && Printable(ParseScalar(u).value)
    ensures Readable(tree) && Says(tree) == ParseScalar(u).value && u == Yield(tree) + ParseScalar(u).rest
  {
    if u[0] == '"' {
      tree := QuotedTree(u);
    } else if u[0] in {'t', 'f', 'n'} {
      tree := WordTree(u);
    } else {
      var negative, digits := NumberTree(u);
      tree := NumTree(negative, digits);
    }
  }

  // ---------------------------------------------------------------- arrays

  lemma {:induction false} ArrayTree(t: string) returns (tree: Tree)
    requires ParseArray(t).Ok? && Printable(ParseArray(t).value)
    ensures Readable(tree) && Says(tree) == ParseArray(t).value && ['['] + t == Yield(tree) + ParseArray(t).rest
    decreases |t|, 4
  {
    var u := SkipSpace(t);
    if u != [] && u[0] == ']' {
      var pad := SpaceSplits(t);
      tree := ArrTree([], pad);
      EmptyArray(pad, t, u);
    } else {
      SkipAgain(t);
      SameItems(t, u);
      var items := ItemTrees(t);
      tree := ArrTree(items, "");
      FullArray(items, t, ParseItems(t).rest);
    }
  }

  lemma {:induction false} EmptyArray(pad: string, t: string, u: string)
    requires AllSpace(pad) && t == pad + u && u != [] && u[0] == ']'
    ensures var tree := ArrTree([], pad);
            Readable(tree) && Says(tree) == Array([]) && ['['] + t == Yield(tree) + u[1..]
  {
    assert u == "]" + u[1..];
    assert ['['] + t == "[" + pad + "]" + u[1..];
  }

  lemma {:induction false} FullArray(items: seq<Item>, t: string, rest: string)
    requires items != [] && (forall i :: 0 <= i < |items| ==> ItemReads(items[i])) && t == YieldItems(items) + "]" + rest
    ensures var tree := ArrTree(items, "");
            Readable(tree) && Says(tree) == Array(SayItems(items)) && ['['] + t == Yield(tree) + rest
  {
    assert ['['] + t == "[" + YieldItems(items) + "]" + rest;
  }

  lemma {:induction false} SameItems(t: string, u: string)
    requires SkipSpace(t) == SkipSpace(u)
    ensures ParseItems(t) == ParseItems(u)
  {
    SameAfterSpace(t, u);
  }

  /** The item loop from one item on: the item, the white space after it, and what follows its separator. */
  lemma {:induction false} FirstItem(t: string) returns (item: Item, u: string)
    requires ParseItems(t).Ok? && Printable(ParseItems(t).value[0])
    ensures ItemReads(item) && [Says(item.value)] <= ParseItems(t).value
    ensures u != [] && u[0] in {']', ','} && |u| < |t| && t == YieldItem(item) + u
    ensures u[0] == ']' ==> ParseItems(t) == Ok([Says(item.value)], u[1..])
    ensures u[0] == ',' ==> ParseItems(u[1..]).Ok?
                            && ParseItems(t) == Ok([Says(item.value)] + ParseItems(u[1..]).value, ParseItems(u[1..]).rest)
    decreases |t|, 2
  {
    var head := ParseValue(t);
    var before, tree := ValueTree(t);
    u := SkipSpace(head.rest);
    var after := SpaceSplits(head.rest);
    item := Item(before, tree, after);
    assert t == before + Yield(tree) + (after + u);
    assert t == (before + Yield(tree) + after) + u;
  }

  ghost predicate AllPrintable(vs: seq<Json>) {
    forall i :: 0 <= i < |vs| ==> Printable(vs[i])
  }

  lemma {:induction false} LongerItems(item: Item, more: seq<Item>)
    requires ItemReads(item) && more != [] && forall i :: 0 <= i < |more| ==> ItemReads(more[i])
    ensures var items := [item] + more;
            && (forall i :: 0 <= i < |items| ==> ItemReads(items[i]))
            && SayItems(items) == [Says(item.value)] + SayItems(more)
            && YieldItems(items) == YieldItem(item) + "," + YieldItems(more)
  {
    assert ([item] + more)[1..] == more;
  }

  lemma {:induction false} ItemTrees(t: string) returns (items: seq<Item>)
    requires ParseItems(t).Ok? && AllPrintable(ParseItems(t).value)
    ensures items != [] && (forall i :: 0 <= i < |items| ==> ItemReads(items[i]))
    ensures SayItems(items) == ParseItems(t).value && t == YieldItems(items) + "]" + ParseItems(t).rest
    decreases |t|, 3
  {
    var item, u := FirstItem(t);
    if u[0] == ']' {
      items := [item];
      assert u == "]" + u[1..];
    } else {
      var tail := ParseItems(u[1..]);
      assert AllPrintable(tail.value) by {
        forall i | 0 <= i < |tail.value| ensures Printable(tail.value[i]) {
          assert ParseItems(t).value[i + 1] == tail.value[i];
        }
      }
      var more := ItemTrees(u[1..]);
      items := [item] + more;
      assert u == "," + u[1..];
      LongerItems(item, more);
      ItemsJoined(YieldItem(item), YieldItems(more), tail.rest, t, u);
    }
  }

  lemma {:induction false} ItemsJoined(first: string, more: string, rest: string, t: string, u: string)
    requires t == first + u && u == "," + (more + "]" + rest)
    ensures t == (first + "," + more) + "]" + rest
  {
  }

  // ---------------------------------------------------------------- objects

  lemma {:induction false} ObjectTree(t: string) returns (tree: Tree)
    requires ParseObject(t).Ok? && Printable(ParseObject(t).value)
    ensures Readable(tree) && Says(tree) == ParseObject(t).value && ['{'] + t == Yield(tree) + ParseObject(t).rest
    decreases |t|, 5
  {
    var u := SkipSpace(t);
    if u != [] && u[0] == '}' {
      var pad := SpaceSplits(t);
      tree := ObjTree([], pad);
      EmptyObject(pad, t, u);
    } else {
      SkipAgain(t);
      MemberFromSpace(t, u);
      assert ParseMembers(t) == ParseMembers(u);
      var entries := EntryTrees(t);
      tree := ObjTree(entries, "");
      FullObject(entries, t, ParseMembers(t).rest);
    }
  }

  lemma {:induction false} EmptyObject(pad: string, t: string, u: string)
    requires AllSpace(pad) && t == pad + u && u != [] && u[0] == '}'
    ensures var tree := ObjTree([], pad);
            Readable(tree) && Says(tree) == Object([]) && ['{'] + t == Yield(tree) + u[1..]
  {
    assert u == "}" + u[1..];
    assert ['{'] + t == "{" + pad + "}" + u[1..];
  }

  lemma {:induction false} FullObject(entries: seq<Entry>, t: string, rest: string)
    requires entries != [] && (forall i :: 0 <= i < |entries| ==> EntryReads(entries[i]))
    requires t == YieldEntries(entries) + "}" + rest
    ensures var tree := ObjTree(entries, "");
            Readable(tree) && Says(tree) == Object(SayEntries(entries)) && ['{'] + t == Yield(tree) + rest
  {
    assert ['{'] + t == "{" + YieldEntries(entries) + "}" + rest;
  }

  ghost predicate AllMembersPrintable(ms: seq<Member>) {
    forall i :: 0 <= i < |ms| ==> Printable(ms[i].value)
  }

  /** A member that is read, with the white space around its parts. */
  lemma {:induction false} MemberParts(t: string) returns (e: Entry)
    requires ParseMember(t).Ok? && Printable(ParseMember(t).value.value)
    ensures EntryReads(e) && e.after == "" && Member(StrValue(e.key), Says(e.value)) == ParseMember(t).value
    ensures t == YieldEntry(e) + ParseMember(t).rest
    decreases |t|, 2
  {
    var u := SkipSpace(t);
    var before := SpaceSplits(t);
    var key := ParseString(u[1..]);
    var ps := StringPieces(u[1..]);
    var w := SkipSpace(key.rest);
    var afterKey := SpaceSplits(key.rest);
    var beforeValue, tree := ValueTree(w[1..]);
    e := Entry(before, ps, afterKey, beforeValue, tree, "");
    var rest := ParseMember(t).rest;
    MemberJoined(before, StrText(ps), afterKey, beforeValue, Yield(tree), rest, t, u, key.rest, w);
  }

  lemma {:induction false} MemberJoined(before: string, key: string, afterKey: string, beforeValue: string, value: string,
                                        rest: string, t: string, u: string, keyRest: string, w: string)
    requires t == before + u && u != [] && u[0] == '"' && u[1..] == key + "\"" + keyRest
    requires keyRest == afterKey + w && w != [] && w[0] == ':' && w[1..] == beforeValue + value + rest
    ensures t == before + ("\"" + key + "\"") + afterKey + ":" + beforeValue + value + "" + rest
  {
    assert w == ":" + (beforeValue + value + rest);
    assert u == "\"" + (key + "\"" + keyRest);
  }

  lemma {:induction false} FirstEntry(t: string) returns (e: Entry, u: string)
    requires ParseMembers(t).Ok? && Printable(ParseMembers(t).value[0].value)
    ensures EntryReads(e)
    ensures u != [] && u[0] in {'}', ','} && |u| < |t| && t == YieldEntry(e) + u
    ensures var m := Member(StrValue(e.key), Says(e.value));
            && (u[0] == '}' ==> ParseMembers(t) == Ok([m], u[1..]))
            && (u[0] == ',' ==> ParseMembers(u[1..]).Ok?
                                && ParseMembers(t) == Ok([m] + ParseMembers(u[1..]).value, ParseMembers(u[1..]).rest))
    decreases |t|, 3
  {
    var head := ParseMember(t);
    var bare := MemberParts(t);
    u := SkipSpace(head.rest);
    var after := SpaceSplits(head.rest);
    e := bare.(after := after);
    AfterAdded(bare, after, u);
  }

  lemma {:induction false} AfterAdded(bare: Entry, after: string, u: string)
    requires bare.after == ""
    ensures YieldEntry(bare) + (after + u) == YieldEntry(bare.(after := after)) + u
  {
    var stem := bare.before + ("\"" + StrText(bare.key) + "\"") + bare.afterKey + ":" + bare.beforeValue + Yield(bare.value);
    assert YieldEntry(bare) == stem + "";
    assert YieldEntry(bare.(after := after)) == stem + after;
    assert stem + "" + (after + u) == stem + after + u;
  }

  lemma {:induction false} LongerEntries(e: Entry, more: seq<Entry>)
    requires EntryReads(e) && more != [] && forall i :: 0 <= i < |more| ==> EntryReads(more[i])
    ensures var entries := [e] + more;
            && (forall i :: 0 <= i < |entries| ==> EntryReads(entries[i]))
            && SayEntries(entries) == [Member(StrValue(e.key), Says(e.value))] + SayEntries(more)
            && YieldEntries(entries) == YieldEntry(e) + "," + YieldEntries(more)
  {
    assert ([e] + more)[1..] == more;
  }

  lemma {:induction false} EntryTrees(t: string) returns (entries: seq<Entry>)
    requires ParseMembers(t).Ok? && AllMembersPrintable(ParseMembers(t).value)
    ensures entries != [] && (forall i :: 0 <= i < |entries| ==> EntryReads(entries[i]))
    ensures SayEntries(entries) == ParseMembers(t).value && t == YieldEntries(entries) + "}" + ParseMembers(t).rest
    decreases |t|, 4
  {
    var e, u := FirstEntry(t);
    if u[0] == '}' {
      entries := [e];
      assert u == "}" + u[1..];
    } else {
      var tail := ParseMembers(u[1..]);
      assert AllMembersPrintable(tail.value) by {
        forall i | 0 <= i < |tail.value| ensures Printable(tail.value[i].value) {
          assert ParseMembers(t).value[i + 1] == tail.value[i];
        }
      }
      var more := EntryTrees(u[1..]);
      entries := [e] + more;
      assert u == "," + u[1..];
      LongerEntries(e, more);
      EntriesJoined(YieldEntry(e), YieldEntries(more), tail.rest, t, u);
    }
  }

  lemma {:induction false} EntriesJoined(first: string, more: string, rest: string, t: string, u: string)
    requires t == first + u && u == "," + (more + "}" + rest)
    ensures t == (first + "," + more) + "}" + rest
  {
  }

  // ---------------------------------------------------------------- texts

  /** The text is white space, what a derivation that says the value yields, and white space. */
  ghost predicate Spells(text: string, v: Json, before: string, tree: Tree, after: string) {
    AllSpace(before) && Readable(tree) && AllSpace(after) && text == before + Yield(tree) + after && Says(tree) == v
  }

  ghost predicate InLanguage(text: string, v: Json) {
    exists before, tree, after :: Spells(text, v, before, tree, after)
  }

  /** Main result on accepting: the parser reads a text as a value without floats exactly if the text derives
      from the grammar, with its three leniencies and white space around it, and says that value; it accepts
      nothing more. */
  lemma {:induction false} AcceptsExactly(text: string, v: Json)
    requires Printable(v)
    ensures Parse(text) == Some(v) <==> InLanguage(text, v)
  {
    if Parse(text) == Some(v) {
      var before, tree := ValueTree(text);
      var after := SpaceSplits(ParseValue(text).rest);
      assert Spells(text, v, before, tree, after);
    }
    if InLanguage(text, v) {
      var before, tree, after :| Spells(text, v, before, tree, after);
      GrammarIsRead(before, tree, after);
    }
  }

  /** Whatever follows a value but white space is refused: a text with trailing characters, which do not go on
      with its last number, is not read at all. */
  lemma {:induction false} TrailingRefused(before: string, t: Tree, after: string)
    requires AllSpace(before) && Readable(t) && !AllSpace(after) && EndsNumber(after)
    ensures Parse(before + Yield(t) + after) == None
  {
    assert before + Yield(t) + after == before + (Yield(t) + after);
    SpaceThenValue(before, Yield(t) + after);
    TreeParses(t, after);
    var space := SpaceSplits(after);
    assert SkipSpace(after) == [] ==> after == space;
  }
}
