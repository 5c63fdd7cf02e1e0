/** Arithmetic of any length built from the byte instructions: ADC and SBB chains
    compute exactly, with true carry, borrow and signed overflow; ADC;DAA chains
    add decimal numbers; DSUB is the two-byte subtract. */
module CpuMultiByte {
  import opened CpuArith

  function Pow(base: nat, n: nat): (r: nat)
    requires base > 0
    ensures r > 0
  {
    if n == 0 then 1 else base * Pow(base, n - 1)
  }

  /** Little-endian value of a byte string. */
  function Value(xs: seq<byte>): nat {
    if |xs| == 0 then 0 else Value(xs[..|xs|-1]) + Pow(0x100, |xs| - 1) * xs[|xs|-1]
  }

  /** Its two's-complement value. */
  function SignedValue(xs: seq<byte>): int {
    if |xs| == 0 then 0 else Value(xs[..|xs|-1]) + Pow(0x100, |xs| - 1) * Signed(xs[|xs|-1])
  }

  lemma {:induction false} ValueBelow(xs: seq<byte>)
    ensures Value(xs) < Pow(0x100, |xs|)
  {
    if |xs| != 0 {
      var p, top := Pow(0x100, |xs| - 1), xs[|xs|-1];
      ValueBelow(xs[..|xs|-1]);
      ScaleUp(p, top, 0xFF);
    }
  }

  datatype Chain = Chain(bytes: seq<byte>, cc: Flags)

  /** ADC over two strings of the same length, least significant byte first. */
  function AddChain(cc: Flags, xs: seq<byte>, ys: seq<byte>): (r: Chain)
    requires |xs| == |ys|
    ensures |r.bytes| == |xs|
  {
    if |xs| == 0 then Chain([], cc)
    else
      var n := |xs| - 1;
      var low := AddChain(cc, xs[..n], ys[..n]);
      var top := Add(low.cc, xs[n], ys[n], low.cc.cy);
      Chain(low.bytes + [top.value], top.cc)
  }

  /** SBB likewise. */
  function SubChain(cc: Flags, xs: seq<byte>, ys: seq<byte>): (r: Chain)
    requires |xs| == |ys|
    ensures |r.bytes| == |xs|
  {
    if |xs| == 0 then Chain([], cc)
    else
      var n := |xs| - 1;
      var low := SubChain(cc, xs[..n], ys[..n]);
      var top := Sub(low.cc, xs[n], ys[n], low.cc.cy);
      Chain(low.bytes + [top.value], top.cc)
  }

  // ----- one byte of a chain

  lemma AddByteExact(cc: Flags, x: byte, y: byte, carry: bool)
    ensures var r := Add(cc, x, y, carry);
      && r.value + 0x100 * Bit(r.cc.cy) == x + y + Bit(carry)
      && (r.cc.v <==> !FitsSigned(Signed(x) + Signed(y) + Bit(carry)))
  {
    hide EvenParity;
  }

  lemma SubByteExact(cc: Flags, x: byte, y: byte, borrow: bool)
    ensures var r := Sub(cc, x, y, borrow);
      && r.value - 0x100 * Bit(r.cc.cy) == x - y - Bit(borrow)
      && (r.cc.v <==> !FitsSigned(Signed(x) - Signed(y) - Bit(borrow)))
  {
    hide EvenParity;
  }

  lemma SubByteFlags(cc: Flags, x: byte, y: byte, borrow: bool)
    ensures var r := Sub(cc, x, y, borrow);
      && r.cc.z == (r.value == 0) && r.cc.s == (r.value >= 0x80) && r.cc.p == EvenParity(r.value)
      && r.cc.ac == (x % 0x10 < y % 0x10 + Bit(borrow))
      && r.cc.v == ((x >= 0x80) != (y >= 0x80) && (r.value >= 0x80) != (x >= 0x80))
  {
    hide EvenParity;
  }

  // ----- chains compute exactly

  lemma ScaleUp(p: nat, x: int, y: int)
    requires x <= y
    ensures p * x <= p * y
  {
  }

  /** One more byte on top of an exact chain, scaled by its weight p. */
  lemma Scale(p: nat, r: int, base: int, carry: int, x: int, y: int, c: int)
    requires r + base * carry == x + y + c
    ensures p * r + (base * p) * carry == p * x + p * y + p * c
  {
    calc {
      p * r + (base * p) * carry;
      p * r + p * (base * carry);
      p * (r + base * carry);
      p * (x + y + c);
      p * x + p * y + p * c;
    }
  }

  lemma {:induction false} AddChainExact(cc: Flags, xs: seq<byte>, ys: seq<byte>)
    requires |xs| == |ys|
    ensures var r := AddChain(cc, xs, ys);
      Value(r.bytes) + Pow(0x100, |xs|) * Bit(r.cc.cy) == Value(xs) + Value(ys) + Bit(cc.cy)
  {
    hide Add;
    if |xs| != 0 {
      var n := |xs| - 1;
      AddChainExact(cc, xs[..n], ys[..n]);
      var low := AddChain(cc, xs[..n], ys[..n]);
      var top := Add(low.cc, xs[n], ys[n], low.cc.cy);
      assert (low.bytes + [top.value])[..n] == low.bytes;
      AddByteExact(low.cc, xs[n], ys[n], low.cc.cy);
      Scale(Pow(0x100, n), top.value, 0x100, Bit(top.cc.cy), xs[n], ys[n], Bit(low.cc.cy));
    }
  }

  lemma {:induction false} SubChainExact(cc: Flags, xs: seq<byte>, ys: seq<byte>)
    requires |xs| == |ys|
    ensures var r := SubChain(cc, xs, ys);
      Value(xs) + Pow(0x100, |xs|) * Bit(r.cc.cy) == Value(r.bytes) + Value(ys) + Bit(cc.cy)
  {
    hide Sub;
    if |xs| != 0 {
      var n := |xs| - 1;
      SubChainExact(cc, xs[..n], ys[..n]);
      var low := SubChain(cc, xs[..n], ys[..n]);
      var top := Sub(low.cc, xs[n], ys[n], low.cc.cy);
      assert (low.bytes + [top.value])[..n] == low.bytes;
      SubByteExact(low.cc, xs[n], ys[n], low.cc.cy);
      Scale(Pow(0x100, n), xs[n], 0x100, Bit(top.cc.cy), top.value, ys[n], Bit(low.cc.cy));
    }
  }

  /** low + p * s lies in [-128 p, 128 p) exactly when s lies in [-128, 128). */
  lemma TopDecidesSign(p: nat, low: nat, s: int)
    requires low < p
    ensures -0x80 * p <= low + p * s < 0x80 * p <==> FitsSigned(s)
  {
    if s < -0x80 {
      ScaleUp(p, s, -0x81);
    } else if s >= 0x80 {
      ScaleUp(p, 0x80, s);
    } else {
      ScaleUp(p, -0x80, s);
      ScaleUp(p, s, 0x7F);
    }
  }

  /** Signed n-byte range and top byte: low parts a, b with carry in i leave r and
      carry c into top bytes x and y. */
  lemma SignedTop(p: nat, a: int, b: int, i: int, r: nat, c: int, x: int, y: int)
    requires r < p && a + b + i == r + p * c
    ensures -0x80 * p <= (a + p * x) + (b + p * y) + i < 0x80 * p <==> FitsSigned(x + y + c)
  {
    TopDecidesSign(p, r, x + y + c);
    Scale(p, x + y + c, 0, 0, x, y, c);
  }

  lemma SignedTopDifference(p: nat, a: int, b: int, i: int, r: nat, c: int, x: int, y: int)
    requires r < p && a + p * c == r + b + i
    ensures -0x80 * p <= (a + p * x) - (b + p * y) - i < 0x80 * p <==> FitsSigned(x - y - c)
  {
    TopDecidesSign(p, r, x - y - c);
    Scale(p, x, 0, 0, x - y - c, y, c);
  }

  /** The carry c1 out of a total is decided by comparing it with the weight q. */
  lemma CarryIsComparison(q: nat, total: nat, rest: nat, c1: bool)
    requires rest < q && total == rest + q * Bit(c1)
    ensures c1 <==> total >= q
  {
  }

  lemma BorrowIsComparison(q: nat, x: nat, rest: nat, y: int, borrow: bool)
    requires x < q && 0 <= rest < q && x + q * Bit(borrow) == rest + y
    ensures borrow <==> x < y
  {
  }

  lemma AddChainOverflow(cc: Flags, xs: seq<byte>, ys: seq<byte>)
    requires |xs| == |ys| > 0
    ensures var r := AddChain(cc, xs, ys);
      var half := 0x80 * Pow(0x100, |xs| - 1);
      && (r.cc.cy <==> Value(xs) + Value(ys) + Bit(cc.cy) >= Pow(0x100, |xs|))
      && (r.cc.v <==> !(-half <= SignedValue(xs) + SignedValue(ys) + Bit(cc.cy) < half))
  {
    hide Add;
    var n := |xs| - 1;
    var p, low, r := Pow(0x100, n), AddChain(cc, xs[..n], ys[..n]), AddChain(cc, xs, ys);
    assert r.cc.cy <==> Value(xs) + Value(ys) + Bit(cc.cy) >= Pow(0x100, |xs|) by {
      AddChainExact(cc, xs, ys);
      ValueBelow(r.bytes);
      CarryIsComparison(Pow(0x100, |xs|), Value(xs) + Value(ys) + Bit(cc.cy), Value(r.bytes), r.cc.cy);
    }
    assert r.cc.v <==> !FitsSigned(Signed(xs[n]) + Signed(ys[n]) + Bit(low.cc.cy)) by {
      AddByteExact(low.cc, xs[n], ys[n], low.cc.cy);
    }
    AddChainExact(cc, xs[..n], ys[..n]);
    ValueBelow(low.bytes);
    SignedTop(p, Value(xs[..n]), Value(ys[..n]), Bit(cc.cy), Value(low.bytes), Bit(low.cc.cy), Signed(xs[n]), Signed(ys[n]));
  }

  lemma SubChainBorrow(cc: Flags, xs: seq<byte>, ys: seq<byte>)
    requires |xs| == |ys|
    ensures SubChain(cc, xs, ys).cc.cy <==> Value(xs) < Value(ys) + Bit(cc.cy)
  {
    hide *;
    var r := SubChain(cc, xs, ys);
    SubChainExact(cc, xs, ys);
    ValueBelow(r.bytes);
    ValueBelow(xs);
    BorrowIsComparison(Pow(0x100, |xs|), Value(xs), Value(r.bytes), Value(ys) + Bit(cc.cy), r.cc.cy);
  }

  lemma SubChainOverflow(cc: Flags, xs: seq<byte>, ys: seq<byte>)
    requires |xs| == |ys| > 0
    ensures var half := 0x80 * Pow(0x100, |xs| - 1);
      SubChain(cc, xs, ys).cc.v <==> !(-half <= SignedValue(xs) - SignedValue(ys) - Bit(cc.cy) < half)
  {
    var n := |xs| - 1;
    var p, low := Pow(0x100, n), SubChain(cc, xs[..n], ys[..n]);
    var x, y := Signed(xs[n]), Signed(ys[n]);
    SubChainTop(cc, xs, ys);
    hide *;
    SubChainExact(cc, xs[..n], ys[..n]);
    ValueBelow(low.bytes);
    SignedTopDifference(p, Value(xs[..n]), Value(ys[..n]), Bit(cc.cy), Value(low.bytes), Bit(low.cc.cy), x, y);
  }

  lemma SubChainTop(cc: Flags, xs: seq<byte>, ys: seq<byte>)
    requires |xs| == |ys| > 0
    ensures var n := |xs| - 1;
      var low, x, y := SubChain(cc, xs[..n], ys[..n]), Signed(xs[n]), Signed(ys[n]);
      && (SubChain(cc, xs, ys).cc.v <==> !FitsSigned(x - y - Bit(low.cc.cy)))
      && SignedValue(xs) == Value(xs[..n]) + Pow(0x100, n) * x
      && SignedValue(ys) == Value(ys[..n]) + Pow(0x100, n) * y
  {
    hide Sub, Signed;
    var n := |xs| - 1;
    var low := SubChain(cc, xs[..n], ys[..n]);
    SubByteExact(low.cc, xs[n], ys[n], low.cc.cy);
  }

  /** The top byte of a string decides whether it reaches half its range. */
  lemma TopBit(xs: seq<byte>)
    requires |xs| > 0
    ensures xs[|xs|-1] >= 0x80 <==> Value(xs) >= 0x80 * Pow(0x100, |xs| - 1)
  {
    var p, top := Pow(0x100, |xs| - 1), xs[|xs|-1];
    ValueBelow(xs[..|xs|-1]);
    hide Value, Pow;
    if top >= 0x80 {
      ScaleUp(p, 0x80, top);
    } else {
      ScaleUp(p, top, 0x7F);
    }
  }

  lemma SubChainSign(cc: Flags, xs: seq<byte>, ys: seq<byte>)
    requires |xs| == |ys| > 0
    ensures var r := SubChain(cc, xs, ys);
      r.cc.s <==> Value(r.bytes) >= 0x80 * Pow(0x100, |xs| - 1)
  {
    var n := |xs| - 1;
    var low := SubChain(cc, xs[..n], ys[..n]);
    SubByteFlags(low.cc, xs[n], ys[n], low.cc.cy);
    hide Sub, Value, Pow;
    TopBit(SubChain(cc, xs, ys).bytes);
  }

  lemma AddChainSign(cc: Flags, xs: seq<byte>, ys: seq<byte>)
    requires |xs| == |ys| > 0
    ensures var r := AddChain(cc, xs, ys);
      r.cc.s <==> Value(r.bytes) >= 0x80 * Pow(0x100, |xs| - 1)
  {
    var n := |xs| - 1;
    var low := AddChain(cc, xs[..n], ys[..n]);
    AddSign(low.cc, xs[n], ys[n], low.cc.cy);
    hide Add, Value, Pow;
    TopBit(AddChain(cc, xs, ys).bytes);
  }

  lemma AddSign(cc: Flags, x: byte, y: byte, carry: bool)
    ensures var r := Add(cc, x, y, carry); r.cc.s == (r.value >= 0x80)
  {
    hide EvenParity;
  }

  /** After an ADC chain CY is the true carry out of n bytes and V is set exactly
      when the two's-complement sum does not fit n bytes. S is the
      sign of the n-byte result. */
  lemma AddChainFlags(cc: Flags, xs: seq<byte>, ys: seq<byte>)
    requires |xs| == |ys| > 0
    ensures var r := AddChain(cc, xs, ys);
      var half := 0x80 * Pow(0x100, |xs| - 1);
      && (r.cc.cy <==> Value(xs) + Value(ys) + Bit(cc.cy) >= Pow(0x100, |xs|))
      && (r.cc.v <==> !(-half <= SignedValue(xs) + SignedValue(ys) + Bit(cc.cy) < half))
      && (r.cc.s <==> Value(r.bytes) >= half)
  {
    hide *;
    AddChainSign(cc, xs, ys);
    AddChainOverflow(cc, xs, ys);
  }

  /** After an SBB chain CY is the true borrow, V the true signed overflow and S
      the sign of the n-byte result. */
  lemma SubChainFlags(cc: Flags, xs: seq<byte>, ys: seq<byte>)
    requires |xs| == |ys| > 0
    ensures var r := SubChain(cc, xs, ys);
      var half := 0x80 * Pow(0x100, |xs| - 1);
      && (r.cc.cy <==> Value(xs) < Value(ys) + Bit(cc.cy))
      && (r.cc.v <==> !(-half <= SignedValue(xs) - SignedValue(ys) - Bit(cc.cy) < half))
      && (r.cc.s <==> Value(r.bytes) >= half)
  {
    hide *;
    SubChainSign(cc, xs, ys);
    SubChainBorrow(cc, xs, ys);
    SubChainOverflow(cc, xs, ys);
  }

  /** DSUB is SUB C on L and SBB B on H: same HL, CY, S and V; P and AC are those
      of the low byte, and Z covers both bytes. */
  lemma DoubleSubIsTwoByteChain(cc: Flags, h: byte, l: byte, b: byte, c: byte)
    ensures var (r, flags) := DoubleSub(cc, Word(h, l), Word(b, c));
      var low := Sub(cc, l, c, false);
      var high := Sub(low.cc, h, b, low.cc.cy);
      && r == Word(high.value, low.value)
      && flags.cy == high.cc.cy && flags.s == high.cc.s && flags.v == high.cc.v
      && flags.p == low.cc.p && flags.ac == low.cc.ac && flags.z == (low.cc.z && high.cc.z)
  {
    DoubleSubValue(cc, h, l, b, c);
    var low := Sub(cc, l, c, false);
    var high := Sub(low.cc, h, b, low.cc.cy);
    WordParts(h, l);
    WordParts(b, c);
    WordParts(high.value, low.value);
    hide Sub, EvenParity, Word, Lo, Wrap;
    SubByteFlags(cc, l, c, false);
    SubByteFlags(low.cc, h, b, low.cc.cy);
  }

  lemma DoubleSubValue(cc: Flags, h: byte, l: byte, b: byte, c: byte)
    ensures var low := Sub(cc, l, c, false);
      var high := Sub(low.cc, h, b, low.cc.cy);
      && Wrap(Word(h, l) - Word(b, c)) == Word(high.value, low.value)
      && (Word(h, l) < Word(b, c) <==> high.cc.cy)
  {
    hide Sub;
    var low := Sub(cc, l, c, false);
    SubByteExact(cc, l, c, false);
    SubByteExact(low.cc, h, b, low.cc.cy);
  }

  lemma WordParts(h: byte, l: byte)
    ensures var w := Word(h, l);
      (w >= 0x8000 <==> h >= 0x80) && w % 0x10 == l % 0x10 && Lo(w) == l && (w == 0 <==> h == 0 && l == 0)
  {
  }

  // ----- decimal chains

  predicate IsBcd(x: byte) {
    x / 0x10 <= 9 && x % 0x10 <= 9
  }

  /** The two-digit number a packed byte stands for. */
  function Digits(x: byte): nat {
    10 * (x / 0x10) + x % 0x10
  }

  function Decimal(xs: seq<byte>): nat {
    if |xs| == 0 then 0 else Decimal(xs[..|xs|-1]) + Pow(100, |xs| - 1) * Digits(xs[|xs|-1])
  }

  /** ADC followed by DAA. */
  function DecimalAdd(cc: Flags, x: byte, y: byte): Alu {
    var s := Add(cc, x, y, cc.cy);
    DecimalAdjust(s.cc, s.value)
  }

  lemma SplitDigits(w: nat, h: nat, l: nat)
    requires w == 0x10 * h + l && l < 0x10
    ensures w / 0x10 == h && w % 0x10 == l
  {
  }

  lemma Reduced(total: nat, r: nat, q: nat)
    requires total == r + 0x100 * q && r < 0x100
    ensures total % 0x100 == r
  {
  }

  lemma AddByteHalfCarry(cc: Flags, x: byte, y: byte, carry: bool)
    ensures Add(cc, x, y, carry).cc.ac == (x % 0x10 + y % 0x10 + Bit(carry) >= 0x10)
  {
    hide EvenParity;
  }

  /** The sum before adjustment, digit by digit: k is the carry between digits. */
  lemma NibbleSums(cc: Flags, x: byte, y: byte)
    requires IsBcd(x) && IsBcd(y)
    ensures var s := Add(cc, x, y, cc.cy);
      var low, high := x % 0x10 + y % 0x10 + Bit(cc.cy), x / 0x10 + y / 0x10;
      var k := Bit(s.cc.ac);
      && s.cc.ac == (low >= 0x10)
      && s.value % 0x10 == low - 0x10 * k
      && s.value / 0x10 == high + k - 0x10 * Bit(s.cc.cy)
  {
    hide Add;
    var s := Add(cc, x, y, cc.cy);
    AddByteExact(cc, x, y, cc.cy);
    AddByteHalfCarry(cc, x, y, cc.cy);
    var low: int, high: int := x % 0x10 + y % 0x10 + Bit(cc.cy), x / 0x10 + y / 0x10;
    var k: int, c: int := Bit(s.cc.ac), Bit(s.cc.cy);
    assert s.value + 0x100 * c == 0x10 * high + low;
    SplitDigits(s.value, high + k - 0x10 * c, low - 0x10 * k);
  }

  /** What DAA does to the digits h, l of a byte. */
  lemma AdjustDigits(cc: Flags, a: byte)
    ensures var r := DecimalAdjust(cc, a);
      var l, h := a % 0x10, a / 0x10;
      var low, high := l > 9 || cc.ac, h > 9 || (h == 9 && l > 9) || cc.cy;
      && r.cc.cy == high
      && r.value == (0x10 * h + l + (if low then 6 else 0) + (if high then 0x60 else 0)) % 0x100
  {
    hide EvenParity;
  }

  lemma DecimalAddExact(cc: Flags, x: byte, y: byte)
    requires IsBcd(x) && IsBcd(y)
    ensures var r := DecimalAdd(cc, x, y);
      && IsBcd(r.value)
      && Digits(r.value) + 100 * Bit(r.cc.cy) == Digits(x) + Digits(y) + Bit(cc.cy)
  {
    hide Add, DecimalAdjust;
    var s := Add(cc, x, y, cc.cy);
    NibbleSums(cc, x, y);
    AdjustDigits(s.cc, s.value);
    AdjustedSum(x % 0x10 + y % 0x10 + Bit(cc.cy), x / 0x10 + y / 0x10, s.value, s.cc.ac, s.cc.cy);
  }

  /** The digit arithmetic behind DAA: low and high are the true digit sums. */
  lemma AdjustedSum(low: nat, high: nat, a: byte, ac: bool, cy: bool)
    requires low <= 19 && high <= 18 && ac == (low >= 0x10)
    requires a % 0x10 == low - 0x10 * Bit(ac) && a / 0x10 == high + Bit(ac) - 0x10 * Bit(cy)
    ensures var l, h := a % 0x10, a / 0x10;
      var fixLow, fixHigh := l > 9 || ac, h > 9 || (h == 9 && l > 9) || cy;
      var r := (0x10 * h + l + (if fixLow then 6 else 0) + (if fixHigh then 0x60 else 0)) % 0x100;
      && r / 0x10 <= 9 && r % 0x10 <= 9
      && 10 * (r / 0x10) + r % 0x10 + 100 * Bit(fixHigh) == 10 * high + low
  {
    var l: int, h: int := a % 0x10, a / 0x10;
    var k: int, c: int := Bit(low >= 10), Bit(high + Bit(low >= 10) >= 10);
    assert (l > 9 || ac) == (low >= 10);
    assert (h > 9 || (h == 9 && l > 9) || cy) == (high + k >= 10);
    var total := 0x10 * h + l + 6 * k + 0x60 * c;
    var r: int := 0x10 * (high + k - 10 * c) + (low - 10 * k);
    assert total == r + 0x100 * (c - Bit(cy));
    Reduced(total, r, c - Bit(cy));
    SplitDigits(r, high + k - 10 * c, low - 10 * k);
  }

  function DecimalChain(cc: Flags, xs: seq<byte>, ys: seq<byte>): (r: Chain)
    requires |xs| == |ys|
    ensures |r.bytes| == |xs|
  {
    if |xs| == 0 then Chain([], cc)
    else
      var n := |xs| - 1;
      var low := DecimalChain(cc, xs[..n], ys[..n]);
      var top := DecimalAdd(low.cc, xs[n], ys[n]);
      Chain(low.bytes + [top.value], top.cc)
  }

  /** Adding two packed decimal strings of any length byte by byte with ADC;DAA
      gives a packed decimal string, and with the final carry the exact sum. */
  lemma {:induction false} DecimalChainExact(cc: Flags, xs: seq<byte>, ys: seq<byte>)
    requires |xs| == |ys| && forall i | 0 <= i < |xs| :: IsBcd(xs[i]) && IsBcd(ys[i])
    ensures var r := DecimalChain(cc, xs, ys);
      && (forall i | 0 <= i < |xs| :: IsBcd(r.bytes[i]))
      && Decimal(r.bytes) + Pow(100, |xs|) * Bit(r.cc.cy) == Decimal(xs) + Decimal(ys) + Bit(cc.cy)
  {
    hide DecimalAdd, Digits, IsBcd;
    if |xs| != 0 {
      var n := |xs| - 1;
      DecimalChainExact(cc, xs[..n], ys[..n]);
      var low := DecimalChain(cc, xs[..n], ys[..n]);
      var top := DecimalAdd(low.cc, xs[n], ys[n]);
      DecimalAddExact(low.cc, xs[n], ys[n]);
      assert (low.bytes + [top.value])[..n] == low.bytes;
      Scale(Pow(100, n), Digits(top.value), 100, Bit(top.cc.cy), Digits(xs[n]), Digits(ys[n]), Bit(low.cc.cy));
    }
  }
}
