/** The bitwise CRC-32 both checksum-carrying feeds compute: it agrees with the table-driven form of
    section 8 of RFC 1952 and tells apart any two payloads that differ within four adjacent bytes. */
module Crc32 {

  type Bytes = seq<bv8>

  const POLYNOMIAL: bv32 := 0xEDB88320

  function Iterate<C>(f: C -> C, c: C, n: nat): C
    decreases n
  {
    if n == 0 then c else Iterate(f, f(c), n - 1)
  }

  function Fold<C, B>(step: (C, B) -> C, c: C, data: seq<B>): C
    decreases |data|
  {
    if data == [] then c else Fold(step, step(c, data[0]), data[1..])
  }

  /** One shift of the register. */
  function Shift(c: bv32): bv32 {
    (c >> 1) ^ (if c & 1 == 1 then POLYNOMIAL else 0)
  }

  function Add(c: bv32, d: bv32): bv32 {
    c ^ d
  }

  function Widen(b: bv8): bv32 {
    b as bv32
  }

  function Absorb(c: bv32, b: bv8): bv32 {
    Iterate(Shift, Add(c, Widen(b)), 8)
  }

  function Complement(c: bv32): bv32 {
    !c
  }

  function Register(data: Bytes): bv32 {
    Fold(Absorb, 0xFFFF_FFFF, data)
  }

  function Crc(data: Bytes): bv32 {
    Complement(Register(data))
  }

  // ---------------------------------------------------------------- folds and iterations

  ghost predicate Injective<C(!new)>(f: C -> C) {
    forall a, b :: f(a) == f(b) ==> a == b
  }

  lemma {:induction false} IterateInjective<C(!new)>(f: C -> C, a: C, b: C, n: nat)
    requires Injective(f) && Iterate(f, a, n) == Iterate(f, b, n)
    ensures a == b
    decreases n
  {
    if n > 0 { IterateInjective(f, f(a), f(b), n - 1); }
  }

  lemma {:induction false} IterateAdd<C>(f: C -> C, c: C, m: nat, n: nat)
    ensures Iterate(f, c, m + n) == Iterate(f, Iterate(f, c, m), n)
    decreases m
  {
    if m > 0 { IterateAdd(f, f(c), m - 1, n); }
  }

  ghost predicate Linear<C(!new)>(f: C -> C, plus: (C, C) -> C) {
    forall a, b :: f(plus(a, b)) == plus(f(a), f(b))
  }

  lemma {:induction false} IterateLinear<C(!new)>(f: C -> C, plus: (C, C) -> C, a: C, b: C, n: nat)
    requires Linear(f, plus)
    ensures Iterate(f, plus(a, b), n) == plus(Iterate(f, a, n), Iterate(f, b, n))
    decreases n
  {
    if n > 0 { IterateLinear(f, plus, f(a), f(b), n - 1); }
  }

  lemma {:induction false} FoldInjective<C(!new), B(!new)>(step: (C, B) -> C, a: C, b: C, data: seq<B>)
    requires forall c, d, x :: step(c, x) == step(d, x) ==> c == d
    requires Fold(step, a, data) == Fold(step, b, data)
    ensures a == b
    decreases |data|
  {
    if data != [] { FoldInjective(step, step(a, data[0]), step(b, data[0]), data[1..]); }
  }

  lemma {:induction false} FoldSplit<C, B>(step: (C, B) -> C, c: C, first: seq<B>, second: seq<B>)
    ensures Fold(step, c, first + second) == Fold(step, Fold(step, c, first), second)
    decreases |first|
  {
    if first == [] {
      assert first + second == second;
    } else {
      FoldSplit(step, step(c, first[0]), first[1..], second);
      assert (first + second)[1..] == first[1..] + second;
    }
  }

  lemma {:induction false} FoldSame<C(!new), B(!new)>(f: (C, B) -> C, g: (C, B) -> C, c: C, data: seq<B>)
    requires forall c, x :: f(c, x) == g(c, x)
    ensures Fold(f, c, data) == Fold(g, c, data)
    decreases |data|
  {
    if data != [] { FoldSame(f, g, f(c, data[0]), data[1..]); }
  }

  lemma {:induction false} IterateFour<C>(f: C -> C, c0: C, c1: C, c2: C, c3: C, c4: C)
    requires f(c0) == c1 && f(c1) == c2 && f(c2) == c3 && f(c3) == c4
    ensures Iterate(f, c0, 4) == c4
  {
    assert Iterate(f, c2, 2) == c4;
  }

  // ---------------------------------------------------------------- the register's bits

  lemma {:induction false} LinearOddOdd(a: bv32, b: bv32)
    requires a & 1 == 1 && b & 1 == 1
    ensures Shift(a ^ b) == Shift(a) ^ Shift(b)
  {
  }

  lemma {:induction false} LinearOddEven(a: bv32, b: bv32)
    requires a & 1 == 1 && b & 1 != 1
    ensures Shift(a ^ b) == Shift(a) ^ Shift(b) == Shift(b) ^ Shift(a) == Shift(b ^ a)
  {
  }

  lemma {:induction false} LinearEvenEven(a: bv32, b: bv32)
    requires a & 1 != 1 && b & 1 != 1
    ensures Shift(a ^ b) == Shift(a) ^ Shift(b)
  {
  }

  lemma {:induction false} ShiftLinear(a: bv32, b: bv32)
    ensures Shift(Add(a, b)) == Add(Shift(a), Shift(b))
  {
    if a & 1 == 1 {
      if b & 1 == 1 { LinearOddOdd(a, b); } else { LinearOddEven(a, b); }
    } else {
      if b & 1 == 1 { LinearOddEven(b, a); } else { LinearEvenEven(a, b); }
    }
  }

  /** The polynomial's top bit says which way a register was shifted, so no two come out alike. */
  lemma {:induction false} ShiftInjective(a: bv32, b: bv32)
    requires Shift(a) == Shift(b)
    ensures a == b
  {
  }

  lemma {:induction false} AddInjective(a: bv32, b: bv32, x: bv32)
    requires Add(a, x) == Add(b, x)
    ensures a == b
  {
  }

  lemma {:induction false} ShiftIsGood()
    ensures Injective(Shift) && Linear(Shift, Add)
  {
    forall a, b | Shift(a) == Shift(b) ensures a == b { ShiftInjective(a, b); }
    forall a, b ensures Shift(Add(a, b)) == Add(Shift(a), Shift(b)) { ShiftLinear(a, b); }
  }

  lemma {:induction false} ZeroStep(c: bv32, mask: bv32)
    requires c & mask == 0 && mask & 1 == 1
    ensures Shift(c) == c >> 1 && (c >> 1) & (mask >> 1) == 0
  {
  }

  lemma {:induction false} FourHalves(c: bv32)
    ensures (((c >> 1) >> 1) >> 1) >> 1 == c >> 4 && (c >> 4) >> 4 == c >> 8
  {
  }

  lemma {:induction false} ShiftFourZeros(c: bv32)
    requires c & 0xF == 0
    ensures Iterate(Shift, c, 4) == c >> 4
  {
    var c1 := c >> 1;
    var c2 := c1 >> 1;
    var c3 := c2 >> 1;
    ZeroStep(c, 0xF);
    ZeroStep(c1, 0x7);
    ZeroStep(c2, 0x3);
    ZeroStep(c3, 0x1);
    FourHalves(c);
    IterateFour(Shift, c, c1, c2, c3, c3 >> 1);
  }

  lemma {:induction false} LowNibbles(c: bv32)
    requires c & 0xFF == 0
    ensures c & 0xF == 0 && (c >> 4) & 0xF == 0
  {
  }

  /** Shifting out eight zero bits is a plain shift. */
  lemma {:induction false} ShiftZeros(c: bv32)
    requires c & 0xFF == 0
    ensures Iterate(Shift, c, 8) == c >> 8
  {
    LowNibbles(c);
    ShiftFourZeros(c);
    ShiftFourZeros(c >> 4);
    FourHalves(c);
    IterateAdd(Shift, c, 4, 4);
  }

  // ---------------------------------------------------------------- the standard's form

  /** Entry `n` of the table of one-byte registers. */
  function Table(n: bv8): bv32 {
    Iterate(Shift, Widen(n), 8)
  }

  function Low(c: bv32): bv8 {
    (c & 0xFF) as bv8
  }

  function TableStep(c: bv32, b: bv8): bv32 {
    Add(Table(Low(Add(c, Widen(b)))), c >> 8)
  }

  lemma {:induction false} SplitLow(z: bv32)
    ensures Add(Widen(Low(z)), z & 0xFFFF_FF00) == z
    ensures (z & 0xFFFF_FF00) & 0xFF == 0 && (z & 0xFFFF_FF00) >> 8 == z >> 8
  {
  }

  lemma {:induction false} SameHigh(c: bv32, b: bv8)
    ensures Add(c, Widen(b)) >> 8 == c >> 8
  {
  }

  /** Eight shifts of a register whose high part has eight zero bits below it. */
  lemma {:induction false} ShiftParts(low: bv32, high: bv32, down: bv32)
    requires high & 0xFF == 0 && high >> 8 == down
    ensures Iterate(Shift, Add(low, high), 8) == Add(Iterate(Shift, low, 8), down)
  {
    ShiftZeros(high);
    ShiftIsGood();
    IterateLinear(Shift, Add, low, high, 8);
  }

  lemma {:induction false} HighOf(z: bv32) returns (high: bv32)
    ensures high & 0xFF == 0 && high >> 8 == z >> 8 && Add(Widen(Low(z)), high) == z
  {
    high := z & 0xFFFF_FF00;
    SplitLow(z);
  }

  lemma {:induction false} ShiftsByTable(z: bv32)
    ensures Iterate(Shift, z, 8) == Add(Table(Low(z)), z >> 8)
  {
    var high := HighOf(z);
    ShiftParts(Widen(Low(z)), high, z >> 8);
  }

  lemma {:induction false} AbsorbIsTableStep(c: bv32, b: bv8)
    ensures Absorb(c, b) == TableStep(c, b)
  {
    ShiftsByTable(Add(c, Widen(b)));
    SameHigh(c, b);
  }

  /** The bit-by-bit CRC is the standard's table-driven one on every payload. */
  lemma {:induction false} BitwiseIsTableDriven(data: Bytes)
    ensures Crc(data) == Complement(Fold(TableStep, 0xFFFF_FFFF, data))
  {
    forall c, b ensures Absorb(c, b) == TableStep(c, b) { AbsorbIsTableStep(c, b); }
    FoldSame(Absorb, TableStep, 0xFFFF_FFFF, data);
  }

  // ---------------------------------------------------------------- what it detects

  lemma {:induction false} AbsorbInjective(c: bv32, d: bv32, b: bv8)
    requires Absorb(c, b) == Absorb(d, b)
    ensures c == d
  {
    ShiftIsGood();
    IterateInjective(Shift, Add(c, Widen(b)), Add(d, Widen(b)), 8);
    AddInjective(c, d, Widen(b));
  }

  lemma {:induction false} RegisterInjective(a: bv32, b: bv32, data: Bytes)
    requires Fold(Absorb, a, data) == Fold(Absorb, b, data)
    ensures a == b
  {
    forall c, d, x | Absorb(c, x) == Absorb(d, x) ensures c == d { AbsorbInjective(c, d, x); }
    FoldInjective(Absorb, a, b, data);
  }

  function Up(c: bv32): bv32 {
    c << 8
  }

  /** Up to four bytes as the register meets them, the first lowest. */
  function Word(data: Bytes): bv32
    decreases |data|
  {
    if data == [] then 0 else Add(Widen(data[0]), Up(Word(data[1..])))
  }

  /** The bits `n` bytes take. */
  function Mask(n: nat): bv32 {
    if n == 0 then 0 else if n == 1 then 0xFF else if n == 2 then 0xFFFF else if n == 3 then 0xFF_FFFF else 0xFFFF_FFFF
  }

  ghost predicate Fits(w: bv32, n: nat) {
    w & Mask(n) == w
  }

  lemma {:induction false} FitsUp(b: bv8, w: bv32, n: nat)
    requires n < 4 && Fits(w, n)
    ensures Fits(Add(Widen(b), Up(w)), n + 1)
  {
  }

  lemma {:induction false} WordFits(data: Bytes)
    requires |data| <= 4
    ensures Fits(Word(data), |data|)
    decreases |data|
  {
    if data == [] {
      ZeroFits();
    } else {
      WordFits(data[1..]);
      FitsUp(data[0], Word(data[1..]), |data| - 1);
    }
  }

  lemma {:induction false} ZeroFits()
    ensures Fits(0, 0)
  {
  }

  lemma {:induction false} UpAndDown(w: bv32, n: nat)
    requires n < 4 && Fits(w, n)
    ensures Up(w) & 0xFF == 0 && Up(w) >> 8 == w
  {
  }

  lemma {:induction false} AddAssociates(a: bv32, b: bv32, c: bv32)
    ensures Add(Add(a, b), c) == Add(a, Add(b, c))
  {
  }

  lemma {:induction false} AddZero(a: bv32)
    ensures Add(a, 0) == a
  {
  }

  /** Absorbing up to four bytes is shifting the register with all of them added at once. */
  lemma {:induction false} AbsorbAtOnce(c: bv32, data: Bytes)
    requires |data| <= 4
    ensures Fold(Absorb, c, data) == Iterate(Shift, Add(c, Word(data)), 8 * |data|)
    decreases |data|
  {
    if data == [] {
      AddZero(c);
    } else {
      var b, w := Widen(data[0]), Word(data[1..]);
      AbsorbAtOnce(Absorb(c, data[0]), data[1..]);
      AbsorbShifted(c, data[0], data[1..]);
      IterateAdd(Shift, Add(c, Word(data)), 8, 8 * (|data| - 1));
    }
  }

  lemma {:induction false} AbsorbShifted(c: bv32, b: bv8, rest: Bytes)
    requires |rest| < 4
    ensures Add(Absorb(c, b), Word(rest)) == Iterate(Shift, Add(c, Add(Widen(b), Up(Word(rest)))), 8)
  {
    var w := Word(rest);
    WordFits(rest);
    UpAndDown(w, |rest|);
    AddAssociates(c, Widen(b), Up(w));
    ShiftParts(Add(c, Widen(b)), Up(w), w);
  }

  lemma {:induction false} SameWordStep(a: bv8, b: bv8, v: bv32, w: bv32, n: nat)
    requires n < 4 && Fits(v, n) && Fits(w, n)
    requires Add(Widen(a), Up(v)) == Add(Widen(b), Up(w))
    ensures a == b && v == w
  {
  }

  lemma {:induction false} WordInjective(x: Bytes, y: Bytes)
    requires |x| == |y| <= 4 && Word(x) == Word(y)
    ensures x == y
    decreases |x|
  {
    if x != [] {
      WordFits(x[1..]);
      WordFits(y[1..]);
      SameWordStep(x[0], y[0], Word(x[1..]), Word(y[1..]), |x| - 1);
      WordInjective(x[1..], y[1..]);
      assert x == [x[0]] + x[1..] && y == [y[0]] + y[1..];
    }
  }

  lemma {:induction false} AddCommutes(a: bv32, b: bv32)
    ensures Add(a, b) == Add(b, a)
  {
  }

  lemma {:induction false} BurstRegister(c: bv32, x: Bytes, y: Bytes)
    requires |x| == |y| <= 4 && Fold(Absorb, c, x) == Fold(Absorb, c, y)
    ensures x == y
  {
    AbsorbAtOnce(c, x);
    AbsorbAtOnce(c, y);
    ShiftIsGood();
    IterateInjective(Shift, Add(c, Word(x)), Add(c, Word(y)), 8 * |x|);
    AddCommutes(c, Word(x));
    AddCommutes(c, Word(y));
    AddInjective(Word(x), Word(y), c);
    WordInjective(x, y);
  }

  lemma {:induction false} ComplementInjective(a: bv32, b: bv32)
    requires Complement(a) == Complement(b)
    ensures a == b
  {
  }

  lemma {:induction false} SameCrc(p: Bytes, q: Bytes)
    requires Crc(p) == Crc(q)
    ensures Register(p) == Register(q)
  {
    ComplementInjective(Register(p), Register(q));
  }

  /** Main result: two payloads that differ only within up to four adjacent bytes never share a CRC. */
  lemma {:induction false} BurstDetected(before: Bytes, x: Bytes, y: Bytes, after: Bytes)
    requires |x| == |y| <= 4 && x != y
    ensures Crc(before + x + after) != Crc(before + y + after)
  {
    var start: bv32 := 0xFFFF_FFFF;
    if Crc(before + x + after) == Crc(before + y + after) {
      SameCrc(before + x + after, before + y + after);
      BurstSeparates(start, before, x, y, after);
    }
  }

  lemma {:induction false} BurstSeparates(start: bv32, before: Bytes, x: Bytes, y: Bytes, after: Bytes)
    requires |x| == |y| <= 4
    requires Fold(Absorb, start, before + x + after) == Fold(Absorb, start, before + y + after)
    ensures x == y
  {
    FoldSplit(Absorb, start, before + x, after);
    FoldSplit(Absorb, start, before, x);
    FoldSplit(Absorb, start, before + y, after);
    FoldSplit(Absorb, start, before, y);
    var c := Fold(Absorb, start, before);
    RegisterInjective(Fold(Absorb, c, x), Fold(Absorb, c, y), after);
    BurstRegister(c, x, y);
  }

  /** In particular, payloads of one length that differ in exactly one byte have different CRCs. */
  lemma {:induction false} OneByteDetected(x: Bytes, y: Bytes, i: nat)
    requires |x| == |y| && i < |x| && x[i] != y[i]
    requires forall j :: 0 <= j < |x| && j != i ==> x[j] == y[j]
    ensures Crc(x) != Crc(y)
  {
    assert x == x[..i] + [x[i]] + x[i + 1..];
    assert y == x[..i] + [y[i]] + x[i + 1..];
    BurstDetected(x[..i], [x[i]], [y[i]], x[i + 1..]);
  }

  // ---------------------------------------------------------------- the loop

  lemma {:induction false} MaskSelects(c: bv32)
    ensures (c >> 1) ^ (POLYNOMIAL & (0 - (c & 1))) == Shift(c)
  {
  }

  /** The eight shifts of one byte. */
  method ShiftByte(start: bv32) returns (crc: bv32)
    ensures crc == Iterate(Shift, start, 8)
  {
    crc := start;
    for i := 0 to 8
      invariant Iterate(Shift, crc, 8 - i) == Iterate(Shift, start, 8)
    {
      MaskSelects(crc);
      var mask: bv32 := 0 - (crc & 1);
      crc := (crc >> 1) ^ (POLYNOMIAL & mask);
    }
  }

  method Crc32Bytes(data: Bytes) returns (crc: bv32)
    ensures crc == Crc(data)
  {
    crc := 0xFFFF_FFFF;
    for k := 0 to |data|
      invariant Fold(Absorb, crc, data[k..]) == Register(data)
    {
      assert data[k..][1..] == data[k + 1..];
      crc := ShiftByte(Add(crc, Widen(data[k])));
    }
    assert data[|data|..] == [];
    crc := Complement(crc);
  }
}
