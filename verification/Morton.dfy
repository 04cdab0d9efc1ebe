/** The geocode of GEOADD and GEOPOS: two grid numbers interleaved into one score. Coordinates
    are reals; the words are bit-vectors of the widths the program uses. */
module Morton {

  // ---------------------------------------------------------------------------------------
  // Bits
  // ---------------------------------------------------------------------------------------

  function SpreadBits(v: bv32): bv64 {
    var r0 := v as bv64;
    var r1 := (r0 | (r0 << 16)) & 0x0000FFFF0000FFFF;
    var r2 := (r1 | (r1 << 8)) & 0x00FF00FF00FF00FF;
    var r3 := (r2 | (r2 << 4)) & 0x0F0F0F0F0F0F0F0F;
    var r4 := (r3 | (r3 << 2)) & 0x3333333333333333;
    (r4 | (r4 << 1)) & 0x5555555555555555
  }

  function Interleave(x: bv32, y: bv32): bv64 {
    SpreadBits(x) | (SpreadBits(y) << 1)
  }

  function Compact(v: bv64): bv32 {
    var r0 := v & 0x5555555555555555;
    var r1 := (r0 | (r0 >> 1)) & 0x3333333333333333;
    var r2 := (r1 | (r1 >> 2)) & 0x0F0F0F0F0F0F0F0F;
    var r3 := (r2 | (r2 >> 4)) & 0x00FF00FF00FF00FF;
    var r4 := (r3 | (r3 >> 8)) & 0x0000FFFF0000FFFF;
    var r5 := (r4 | (r4 >> 16)) & 0x00000000FFFFFFFF;
    r5 as bv32
  }

  /** Compacting the code and its shift gives back both numbers. */
  lemma CompactInverts(x: bv32, y: bv32)
    ensures Compact(Interleave(x, y)) == x
    ensures Compact(Interleave(x, y) >> 1) == y
  {
  }

  predicate Low64(v: bv64) { v & 1 == 1 }
  predicate Low32(v: bv32) { v & 1 == 1 }

  /** The low `k` bits of `x` sit on the even bits of `v`, with zeros between them. */
  predicate Spreads(v: bv64, x: bv32, k: nat) {
    k == 0 || (Low64(v) == Low32(x) && !Low64(v >> 1) && Spreads((v >> 1) >> 1, x >> 1, k - 1))
  }

  const TWO_26: bv32 := 0x4000000
  const TWO_27: bv32 := 0x8000000
  const ODD_BITS: bv64 := 0xAAAAAAAAAAAAAAAA

  lemma SpreadHalf(x: bv32, v: bv64, v': bv64)
    requires v == SpreadBits(x) && v' == (v >> 1) >> 1
    ensures v' == SpreadBits(x >> 1)
  {
  }

  lemma SpreadLow(x: bv32, v: bv64)
    requires v == SpreadBits(x)
    ensures Low64(v) == Low32(x) && !Low64(v >> 1)
  {
  }

  lemma SpreadOdd(x: bv32)
    ensures SpreadBits(x) & ODD_BITS == 0
  {
  }

  lemma FoldSpreads(x: bv32, v: bv64, v': bv64, k: nat)
    requires k > 0 && v' == (v >> 1) >> 1 && Spreads(v', x >> 1, k - 1)
    requires Low64(v) == Low32(x) && !Low64(v >> 1)
    ensures Spreads(v, x, k)
  {
  }

  /** The shift-and-mask rounds spread every bit. */
  lemma {:induction false} SpreadBitsSpreads(x: bv32, v: bv64, k: nat)
    requires v == SpreadBits(x)
    ensures Spreads(v, x, k)
  {
    if k > 0 {
      var v' := (v >> 1) >> 1;
      SpreadHalf(x, v, v');
      SpreadBitsSpreads(x >> 1, v', k - 1);
      SpreadLow(x, v);
      FoldSpreads(x, v, v', k);
    }
  }

  // ---------------------------------------------------------------------------------------
  // Words as numbers
  // ---------------------------------------------------------------------------------------

  /** The number held by the low `k` bits. */
  function Value64(v: bv64, k: nat): nat {
    if k == 0 then 0 else (if Low64(v) then 1 else 0) + 2 * Value64(v >> 1, k - 1)
  }

  function Value32(v: bv32, k: nat): nat {
    if k == 0 then 0 else (if Low32(v) then 1 else 0) + 2 * Value32(v >> 1, k - 1)
  }

  /** The Morton code bit by bit: bit i of `x` weighs 4^i, bit i of `y` weighs 2 * 4^i. */
  function MortonSum(x: nat, y: nat, k: nat): nat {
    if k == 0 then 0 else x % 2 + 2 * (y % 2) + 4 * MortonSum(x / 2, y / 2, k - 1)
  }

  lemma ValueOfPair(v: bv64, k: nat)
    ensures Value64(v, 2 * k + 2) ==
            (if Low64(v) then 1 else 0) + 2 * (if Low64(v >> 1) then 1 else 0) + 4 * Value64((v >> 1) >> 1, 2 * k)
  {
  }

  /** The low `k` bits of `x` and `y` alternate in `v`. */
  predicate Alternates(v: bv64, x: bv32, y: bv32, k: nat) {
    k == 0 ||
    (Low64(v) == Low32(x) && Low64(v >> 1) == Low32(y) && Alternates((v >> 1) >> 1, x >> 1, y >> 1, k - 1))
  }

  lemma MergeLow(a: bv64, b: bv64, v: bv64)
    requires !Low64(a >> 1) && v == a | (b << 1)
    ensures Low64(v) == Low64(a) && Low64(v >> 1) == Low64(b)
  {
  }

  lemma MergeHalf(a: bv64, b: bv64)
    requires b & ODD_BITS == 0
    ensures ((a | (b << 1)) >> 1) >> 1 == ((a >> 1) >> 1) | (((b >> 1) >> 1) << 1)
  {
  }

  lemma OddHalf(b: bv64)
    requires b & ODD_BITS == 0
    ensures ((b >> 1) >> 1) & ODD_BITS == 0
  {
  }

  lemma MergeStep(a: bv64, b: bv64, v: bv64, a': bv64, b': bv64) returns (v': bv64)
    requires b & ODD_BITS == 0 && v == a | (b << 1)
    requires a' == (a >> 1) >> 1 && b' == (b >> 1) >> 1
    ensures v' == (v >> 1) >> 1 && v' == a' | (b' << 1)
  {
    v' := (v >> 1) >> 1;
    MergeHalf(a, b);
  }

  lemma AlternatesStep(v: bv64, v': bv64, x: bv32, y: bv32, k: nat)
    requires k > 0 && v' == (v >> 1) >> 1 && Alternates(v', x >> 1, y >> 1, k - 1)
    requires Low64(v) == Low32(x) && Low64(v >> 1) == Low32(y)
    ensures Alternates(v, x, y, k)
  {
  }

  lemma SpreadsStep(v: bv64, x: bv32, k: nat) returns (v': bv64)
    requires k > 0 && Spreads(v, x, k)
    ensures v' == (v >> 1) >> 1 && Spreads(v', x >> 1, k - 1) && Low64(v) == Low32(x) && !Low64(v >> 1)
  {
    v' := (v >> 1) >> 1;
  }

  lemma {:induction false} MergeAlternates(a: bv64, b: bv64, v: bv64, x: bv32, y: bv32, k: nat)
    requires Spreads(a, x, k) && Spreads(b, y, k) && b & ODD_BITS == 0 && v == a | (b << 1)
    ensures Alternates(v, x, y, k)
  {
    if k > 0 {
      var a' := SpreadsStep(a, x, k);
      var b' := SpreadsStep(b, y, k);
      var v' := MergeStep(a, b, v, a', b');
      MergeLow(a, b, v);
      OddHalf(b);
      MergeAlternates(a', b', v', x >> 1, y >> 1, k - 1);
      AlternatesStep(v, v', x, y, k);
    }
  }

  lemma HalveNumber(n: nat, bit: bool, half: nat)
    requires n == (if bit then 1 else 0) + 2 * half
    ensures n % 2 == (if bit then 1 else 0) && n / 2 == half
  {
  }

  lemma {:induction false} AlternatesSum(v: bv64, x: bv32, y: bv32, k: nat)
    requires Alternates(v, x, y, k)
    ensures Value64(v, 2 * k) == MortonSum(Value32(x, k), Value32(y, k), k)
  {
    if k > 0 {
      ValueOfPair(v, k - 1);
      AlternatesSum((v >> 1) >> 1, x >> 1, y >> 1, k - 1);
      HalveNumber(Value32(x, k), Low32(x), Value32(x >> 1, k - 1));
      HalveNumber(Value32(y, k), Low32(y), Value32(y >> 1, k - 1));
    }
  }

  /** `interleave` is the bit-by-bit sum, on the whole words. */
  lemma InterleaveIsMortonSum(x: bv32, y: bv32)
    ensures Value64(Interleave(x, y), 64) == MortonSum(Value32(x, 32), Value32(y, 32), 32)
  {
    SpreadBitsSpreads(x, SpreadBits(x), 32);
    SpreadBitsSpreads(y, SpreadBits(y), 32);
    SpreadOdd(y);
    MergeAlternates(SpreadBits(x), SpreadBits(y), Interleave(x, y), x, y, 32);
    AlternatesSum(Interleave(x, y), x, y, 32);
  }

  // ---------------------------------------------------------------------------------------
  // Comparing words is comparing the numbers they hold
  // ---------------------------------------------------------------------------------------

  function Shift(w: bv32, j: nat): bv32 { if j == 0 then w else Shift(w >> 1, j - 1) }

  lemma Shift2(w: bv32, v: bv32, j: nat)
    requires v == w >> 2
    ensures Shift(w, j + 2) == Shift(v, j)
  {
    Add1And1(w, v);
    assert Shift(w, j + 2) == Shift(w >> 1, j + 1);
    assert Shift(w >> 1, j + 1) == Shift((w >> 1) >> 1, j);
  }

  lemma Shift4(w: bv32, v: bv32, j: nat)
    requires v == w >> 4
    ensures Shift(w, j + 4) == Shift(v, j)
  {
    Add2And2(w, v);
    Shift2(w, w >> 2, j + 2);
    Shift2(w >> 2, v, j);
  }

  lemma Shift8(w: bv32, v: bv32, j: nat)
    requires v == w >> 8
    ensures Shift(w, j + 8) == Shift(v, j)
  {
    Add4And4(w, v);
    Shift4(w, w >> 4, j + 4);
    Shift4(w >> 4, v, j);
  }

  lemma Shift16(w: bv32, v: bv32, j: nat)
    requires v == w >> 16
    ensures Shift(w, j + 16) == Shift(v, j)
  {
    Add8And8(w, v);
    Shift8(w, w >> 8, j + 8);
    Shift8(w >> 8, v, j);
  }

  lemma Shift24(w: bv32, v: bv32, j: nat)
    requires v == w >> 24
    ensures Shift(w, j + 24) == Shift(v, j)
  {
    Add16And8(w, v);
    Shift16(w, w >> 16, j + 8);
    Shift8(w >> 16, v, j);
  }

  lemma Shift26(w: bv32, v: bv32)
    requires v == w >> 26
    ensures Shift(w, 26) == v
  {
    Add24And2(w, v);
    Shift24(w, w >> 24, 2);
    Shift2(w >> 24, v, 0);
  }

  lemma Shift32(w: bv32, v: bv32)
    requires v == (w >> 16) >> 16
    ensures Shift(w, 32) == v
  {
    Shift16(w, w >> 16, 16);
    Shift16(w >> 16, v, 0);
  }

  lemma Add1And1(w: bv32, v: bv32) requires v == w >> 2 ensures v == (w >> 1) >> 1 { }
  lemma Add2And2(w: bv32, v: bv32) requires v == w >> 4 ensures v == (w >> 2) >> 2 { }
  lemma Add4And4(w: bv32, v: bv32) requires v == w >> 8 ensures v == (w >> 4) >> 4 { }
  lemma Add8And8(w: bv32, v: bv32) requires v == w >> 16 ensures v == (w >> 8) >> 8 { }
  lemma Add16And8(w: bv32, v: bv32) requires v == w >> 24 ensures v == (w >> 16) >> 8 { }
  lemma Add24And2(w: bv32, v: bv32) requires v == w >> 26 ensures v == (w >> 24) >> 2 { }
  lemma ShiftedOut(w: bv32) ensures (w >> 16) >> 16 == 0 { }
  lemma HighBits(w: bv32) ensures w >> 26 == 0 <==> w < TWO_26 { }

  lemma ZeroHalves(t: bv32)
    requires !Low32(t) && t >> 1 == 0
    ensures t == 0
  {
  }

  function Pow2(k: nat): nat { if k == 0 then 1 else 2 * Pow2(k - 1) }

  lemma {:induction false} ValueBound(w: bv32, k: nat)
    ensures Value32(w, k) < Pow2(k)
  {
    if k > 0 {
      ValueBound(w >> 1, k - 1);
    }
  }

  lemma {:induction false} ValueOfZero(k: nat)
    ensures Value32(0, k) == 0
  {
    if k > 0 {
      ValueOfZero(k - 1);
    }
  }

  lemma {:induction false} ValueSplit(w: bv32, j: nat, k: nat)
    ensures Value32(w, j + k) == Value32(w, j) + Pow2(j) * Value32(Shift(w, j), k)
  {
    if j > 0 {
      ValueSplit(w >> 1, j - 1, k);
      Regroup(Pow2(j - 1), Value32(Shift(w, j), k));
    }
  }

  lemma Regroup(p: nat, v: nat)
    ensures 2 * (p * v) == (2 * p) * v
  {
  }

  lemma {:induction false} ShiftTwice(w: bv32, j: nat, k: nat)
    ensures Shift(Shift(w, j), k) == Shift(w, j + k)
  {
    if j > 0 {
      ShiftTwice(w >> 1, j - 1, k);
    }
  }

  lemma {:induction false} ZeroValue(t: bv32, k: nat)
    requires Value32(t, k) == 0 && Shift(t, k) == 0
    ensures t == 0
  {
    if k > 0 {
      ZeroValue(t >> 1, k - 1);
      ZeroHalves(t);
    }
  }

  lemma PowOf26()
    ensures Pow2(26) == 0x4000000
  {
    assert Pow2(2) == 4;
    assert Pow2(4) == 16;
    assert Pow2(6) == 64;
    assert Pow2(8) == 256;
    assert Pow2(10) == 1024;
    assert Pow2(12) == 4096;
    assert Pow2(14) == 16384;
    assert Pow2(16) == 65536;
    assert Pow2(18) == 262144;
    assert Pow2(20) == 1048576;
    assert Pow2(22) == 4194304;
    assert Pow2(24) == 16777216;
  }

  lemma SplitAt26(w: bv32, t: bv32)
    requires t == w >> 26
    ensures Value32(w, 32) == Value32(w, 26) + 0x4000000 * Value32(t, 6) && Value32(w, 26) < 0x4000000
  {
    Shift26(w, t);
    ValueSplit(w, 26, 6);
    ValueBound(w, 26);
    PowOf26();
  }

  lemma HighPartIsZero(w: bv32, t: bv32)
    requires t == w >> 26
    ensures Value32(t, 6) == 0 <==> t == 0
  {
    Shift26(w, t);
    ShiftTwice(w, 26, 6);
    Shift32(w, (w >> 16) >> 16);
    ShiftedOut(w);
    ValueOfZero(6);
    if Value32(t, 6) == 0 {
      ZeroValue(t, 6);
    }
  }

  /** A cell number below 2^26, as a number and as a word. */
  lemma CellBelow(w: bv32)
    ensures Value32(w, 32) < 0x4000000 <==> w < TWO_26
  {
    SplitAt26(w, w >> 26);
    HighPartIsZero(w, w >> 26);
    HighBits(w);
  }

  lemma HighBit(w: bv32) ensures (w >> 26) >> 1 == 0 <==> w < TWO_27 { }

  lemma CellAtMost(w: bv32)
    requires Value32(w, 32) <= 0x4000000
    ensures w < TWO_27
  {
    var t := w >> 26;
    SplitAt26(w, t);
    Shift26(w, t);
    ShiftTwice(w, 26, 6);
    Shift32(w, (w >> 16) >> 16);
    ShiftedOut(w);
    ZeroValue(t >> 1, 5);
    HighBit(w);
  }

  // ---------------------------------------------------------------------------------------
  // Every number has its word
  // ---------------------------------------------------------------------------------------

  lemma TopBit(w: bv32)
    requires ((((w >> 16) >> 8) >> 4) >> 2) >> 1 == 0
    ensures w < 0x8000_0000
  {
  }

  lemma Shift31(w: bv32, v: bv32)
    requires v == ((((w >> 16) >> 8) >> 4) >> 2) >> 1
    ensures Shift(w, 31) == v
  {
    Shift16(w, w >> 16, 15);
    Shift8(w >> 16, (w >> 16) >> 8, 7);
    Shift4((w >> 16) >> 8, ((w >> 16) >> 8) >> 4, 3);
    Shift2(((w >> 16) >> 8) >> 4, (((w >> 16) >> 8) >> 4) >> 2, 1);
    ShiftOnce((((w >> 16) >> 8) >> 4) >> 2, v);
  }

  lemma ShiftOnce(w: bv32, v: bv32)
    requires v == w >> 1
    ensures Shift(w, 1) == v
  {
    assert Shift(w, 1) == Shift(w >> 1, 0);
  }

  lemma {:induction false} ShiftOfZero(k: nat)
    ensures Shift(0, k) == 0
  {
    if k > 0 {
      ShiftOfZero(k - 1);
    }
  }

  /** A word of fewer than 32 bits has no top bit. */
  lemma NoTopBit(w: bv32, k: nat)
    requires k <= 31 && Shift(w, k) == 0
    ensures w < 0x8000_0000
  {
    ShiftTwice(w, k, 31 - k);
    ShiftOfZero(31 - k);
    Shift31(w, ((((w >> 16) >> 8) >> 4) >> 2) >> 1);
    TopBit(w);
  }

  function Doubled(v: bv32, bit: bool): bv32 { if bit then (v << 1) | 1 else v << 1 }

  lemma DoubledOdd(v: bv32, w: bv32)
    requires v < 0x8000_0000 && w == (v << 1) | 1
    ensures w >> 1 == v && w & 1 == 1
  {
  }

  lemma DoubledEven(v: bv32, w: bv32)
    requires v < 0x8000_0000 && w == v << 1
    ensures w >> 1 == v && w & 1 == 0
  {
  }

  lemma DoubledHalves(v: bv32, bit: bool, w: bv32)
    requires v < 0x8000_0000 && w == Doubled(v, bit)
    ensures w >> 1 == v && Low32(w) == bit
  {
    if bit {
      DoubledOdd(v, w);
    } else {
      DoubledEven(v, w);
    }
  }

  lemma DoubledValue(v: bv32, bit: bool, w: bv32, k: nat)
    requires w >> 1 == v && Low32(w) == bit
    ensures Value32(w, k + 1) == (if bit then 1 else 0) + 2 * Value32(v, k) && Shift(w, k + 1) == Shift(v, k)
  {
  }

  lemma {:induction false} WordOf(n: nat, k: nat) returns (w: bv32)
    requires k <= 32 && n < Pow2(k)
    ensures Value32(w, k) == n && Shift(w, k) == 0
  {
    if k == 0 {
      w := 0;
    } else {
      var v := WordOf(n / 2, k - 1);
      w := OneMoreBit(v, n % 2 == 1, k - 1);
    }
  }

  lemma OneMoreBit(v: bv32, bit: bool, k: nat) returns (w: bv32)
    requires k <= 31 && Shift(v, k) == 0
    ensures Value32(w, k + 1) == (if bit then 1 else 0) + 2 * Value32(v, k) && Shift(w, k + 1) == 0
  {
    NoTopBit(v, k);
    w := Doubled(v, bit);
    DoubledHalves(v, bit, w);
    DoubledValue(v, bit, w, k);
  }

  lemma PowOf32()
    ensures Pow2(32) == 0x1_0000_0000
  {
    PowOf26();
    assert Pow2(28) == 0x1000_0000;
    assert Pow2(30) == 0x4000_0000;
  }

  // ---------------------------------------------------------------------------------------
  // Coordinates
  // ---------------------------------------------------------------------------------------

  datatype Coordinates = Coordinates(latitude: real, longitude: real)

  const MIN_LATITUDE := -85.05112878
  const MAX_LATITUDE := 85.05112878
  const MIN_LONGITUDE := -180.0
  const MAX_LONGITUDE := 180.0
  const LATITUDE_RANGE := 170.10225756
  const LONGITUDE_RANGE := 360.0
  const CELLS := 67108864.0

  predicate ValidCoordinates(c: Coordinates) {
    MIN_LONGITUDE <= c.longitude <= MAX_LONGITUDE && MIN_LATITUDE <= c.latitude <= MAX_LATITUDE
  }

  function NormalizedLatitude(c: Coordinates): real { CELLS * (c.latitude - MIN_LATITUDE) / LATITUDE_RANGE }
  function NormalizedLongitude(c: Coordinates): real { CELLS * (c.longitude - MIN_LONGITUDE) / LONGITUDE_RANGE }

  /** `x` is the word that the conversion of `f` to uint32 gives: its integer part. */
  predicate IsTruncation(x: bv32, f: real) {
    Value32(x, 32) as real <= f < Value32(x, 32) as real + 1.0
  }

  /** `code` is what `Encode` gives for `c`, from its grid cells `x` and `y`. */
  predicate EncodesAs(code: bv64, c: Coordinates, x: bv32, y: bv32) {
    && IsTruncation(x, NormalizedLatitude(c))
    && IsTruncation(y, NormalizedLongitude(c))
    && code == Interleave(x, y)
  }

  /** Every valid position has its grid cells: `Encode` gives it a code. */
  lemma PositionHasCells(c: Coordinates) returns (x: bv32, y: bv32)
    requires ValidCoordinates(c)
    ensures EncodesAs(Interleave(x, y), c, x, y)
  {
    x := TruncationOf(NormalizedLatitude(c));
    y := TruncationOf(NormalizedLongitude(c));
  }

  lemma TruncationOf(f: real) returns (x: bv32)
    requires 0.0 <= f <= CELLS
    ensures IsTruncation(x, f)
  {
    PowOf32();
    x := WordOf(f.Floor, 32);
  }

  /** The centre of a grid cell. */
  function CellCentre(latitudeCell: nat, longitudeCell: nat): Coordinates {
    var latMin := MIN_LATITUDE + LATITUDE_RANGE * (latitudeCell as real / CELLS);
    var latMax := MIN_LATITUDE + LATITUDE_RANGE * ((latitudeCell + 1) as real / CELLS);
    var lonMin := MIN_LONGITUDE + LONGITUDE_RANGE * (longitudeCell as real / CELLS);
    var lonMax := MIN_LONGITUDE + LONGITUDE_RANGE * ((longitudeCell + 1) as real / CELLS);
    Coordinates((latMin + latMax) / 2.0, (lonMin + lonMax) / 2.0)
  }

  /** `decode`. A cell number of 2^32 - 1 would wrap; the codes of GEOADD stay far below it. */
  function Decode(code: bv64): Coordinates {
    CellCentre(Value32(Compact(code), 32), Value32(Compact(code >> 1), 32))
  }

  function Abs(r: real): real { if r < 0.0 then -r else r }

  ghost predicate WithinHalfACell(c: Coordinates, d: Coordinates) {
    && Abs(d.latitude - c.latitude) <= LATITUDE_RANGE / CELLS / 2.0
    && Abs(d.longitude - c.longitude) <= LONGITUDE_RANGE / CELLS / 2.0
  }

  lemma CentreIsClose(c: Coordinates, i: nat, j: nat)
    requires i as real <= NormalizedLatitude(c) <= i as real + 1.0
    requires j as real <= NormalizedLongitude(c) <= j as real + 1.0
    ensures WithinHalfACell(c, CellCentre(i, j))
  {
  }

  /** Decoding an exact code gives a point within half a grid cell on both axes. */
  lemma DecodeIsClose(code: bv64, c: Coordinates, x: bv32, y: bv32)
    requires EncodesAs(code, c, x, y)
    ensures WithinHalfACell(c, Decode(code))
  {
    CompactInverts(x, y);
    CentreIsClose(c, Value32(x, 32), Value32(y, 32));
  }

  // ---------------------------------------------------------------------------------------
  // The score is a float64
  // ---------------------------------------------------------------------------------------

  const TWO_53: bv64 := 0x20000000000000

  /** The conversion of a code below 2^54 to float64, which rounds to nearest and ties to even:
      from 2^53 on, only even numbers exist. */
  function ToFloat(code: bv64): bv64 {
    if code < TWO_53 || code & 1 == 0 then code
    else if code & 3 == 1 then code - 1
    else code + 1
  }

  /** The score keeps the code exactly when the longitude cell is below 2^26 or the latitude
      cell is even. */
  lemma ScoreIsExact(x: bv32, y: bv32, code: bv64)
    requires x < TWO_27 && y < TWO_27 && code == Interleave(x, y)
    ensures y < TWO_26 ==> code < TWO_53
    ensures ToFloat(code) == code <==> y < TWO_26 || x & 1 == 0
  {
  }

  /** Otherwise the latitude cell read back is the one below. */
  lemma ScoreLosesABit(x: bv32, y: bv32, code: bv64)
    requires x < TWO_27 && TWO_26 <= y < TWO_27 && x & 1 == 1 && y & 1 == 0 && code == Interleave(x, y)
    ensures Compact(ToFloat(code)) == x - 1
    ensures Compact(ToFloat(code) >> 1) == y
  {
  }

  lemma Parity(x: bv32)
    ensures Value32(x, 32) % 2 == 0 <==> x & 1 == 0
    ensures x & 1 == 0 || x & 1 == 1
  {
    LowBitCases(x);
    HalveNumber(Value32(x, 32), Low32(x), Value32(x >> 1, 31));
  }

  lemma LowBitCases(x: bv32)
    ensures Low32(x) <==> x & 1 != 0
    ensures x & 1 == 0 || x & 1 == 1
  {
  }

  lemma EvenBit(x: bv32)
    ensures Low32(x) <==> x & 1 != 0
    ensures Low32(x) ==> x >= 1 && (x - 1) >> 1 == x >> 1 && !Low32(x - 1)
  {
  }

  lemma ValueOfPredecessor(x: bv32)
    requires Low32(x)
    ensures Value32(x - 1, 32) == Value32(x, 32) - 1
  {
    EvenBit(x);
  }

  lemma CellsOf(c: Coordinates, x: bv32, y: bv32)
    requires ValidCoordinates(c)
    requires IsTruncation(x, NormalizedLatitude(c)) && IsTruncation(y, NormalizedLongitude(c))
    ensures x < TWO_27 && y < TWO_27
    ensures y < TWO_26 <==> c.longitude < MAX_LONGITUDE
    ensures c.longitude == MAX_LONGITUDE ==> Value32(y, 32) == 0x4000000
  {
    assert NormalizedLatitude(c) <= CELLS && NormalizedLongitude(c) <= CELLS;
    assert NormalizedLongitude(c) < CELLS <==> c.longitude < MAX_LONGITUDE;
    CellAtMost(x);
    CellAtMost(y);
    CellBelow(y);
  }

  /** Over the whole valid range, the float64 score holds the code exactly when the longitude is
      below its maximum or the latitude cell is even; below the maximum it is under 2^53. */
  lemma ScoreOfPosition(code: bv64, c: Coordinates, x: bv32, y: bv32)
    requires ValidCoordinates(c) && EncodesAs(code, c, x, y)
    ensures c.longitude < MAX_LONGITUDE ==> code < TWO_53
    ensures ToFloat(code) == code <==> c.longitude < MAX_LONGITUDE || Value32(x, 32) % 2 == 0
  {
    CellsOf(c, x, y);
    Parity(x);
    ScoreIsExact(x, y, code);
  }

  lemma CellBelowIsFar(c: Coordinates, i: nat, j: nat)
    requires 1 <= i && i as real <= NormalizedLatitude(c) < i as real + 1.0
    requires j as real <= NormalizedLongitude(c) <= j as real + 1.0
    ensures WithinHalfACell(c, CellCentre(i - 1, j)) <==> NormalizedLatitude(c) == i as real
  {
  }

  /** GEOPOS after GEOADD: the point read back from the stored score is within half a grid cell on
      both axes, except at the maximum longitude in an odd latitude cell, off its lower edge. */
  lemma PositionRoundTrip(code: bv64, c: Coordinates, x: bv32, y: bv32)
    requires ValidCoordinates(c) && EncodesAs(code, c, x, y)
    ensures WithinHalfACell(c, Decode(ToFloat(code))) <==>
            || c.longitude < MAX_LONGITUDE
            || Value32(x, 32) % 2 == 0
            || NormalizedLatitude(c) == Value32(x, 32) as real
  {
    ScoreOfPosition(code, c, x, y);
    if ToFloat(code) == code {
      DecodeIsClose(code, c, x, y);
    } else {
      LostPosition(code, c, x, y);
    }
  }

  lemma LostPosition(code: bv64, c: Coordinates, x: bv32, y: bv32)
    requires ValidCoordinates(c) && EncodesAs(code, c, x, y)
    requires c.longitude == MAX_LONGITUDE && Value32(x, 32) % 2 == 1
    ensures WithinHalfACell(c, Decode(ToFloat(code))) <==> NormalizedLatitude(c) == Value32(x, 32) as real
  {
    CellsOf(c, x, y);
    Parity(x);
    Parity(y);
    EvenBit(x);
    ScoreLosesABit(x, y, code);
    ValueOfPredecessor(x);
    CellBelowIsFar(c, Value32(x, 32), Value32(y, 32));
  }

  /** An input that is off by a whole cell: longitude 180, half-way up latitude cell 1. */
  lemma MaximumLongitudeIsOff() returns (y: bv32)
    ensures var c := Coordinates(MIN_LATITUDE + 1.5 * LATITUDE_RANGE / CELLS, MAX_LONGITUDE);
            && ValidCoordinates(c) && EncodesAs(Interleave(1, y), c, 1, y)
            && !WithinHalfACell(c, Decode(ToFloat(Interleave(1, y))))
  {
    var c := Coordinates(MIN_LATITUDE + 1.5 * LATITUDE_RANGE / CELLS, MAX_LONGITUDE);
    PowOf32();
    y := WordOf(0x4000000, 32);
    ValueOfOne();
    PositionRoundTrip(Interleave(1, y), c, 1, y);
  }

  lemma ValueOfOne()
    ensures Value32(1, 32) == 1
  {
    assert Low32(1) && (1 as bv32) >> 1 == 0;
    ValueOfZero(31);
  }
}
