/** Byte and word arithmetic of the 8085 with its flags, stated by meaning:
    carries as comparisons, V as signed overflow, parity as a count of ones. */
module CpuArith {

  type byte = x: int | 0 <= x < 0x100
  type word = x: int | 0 <= x < 0x1_0000

  function Hi(w: word): byte { w / 0x100 }
  function Lo(w: word): byte { w % 0x100 }

  /** A word from its bytes. (The case of a zero high byte is apart so that the
      solver does not build words out of words without end.) */
  function Word(h: byte, l: byte): word {
    if h == 0 then l else 0x100 * h + l
  }

  function Wrap(x: int): word { x % 0x1_0000 }

  /** Is the bit of this weight (a power of two) set? */
  predicate BitOf(x: byte, weight: nat)
    requires weight > 0
  {
    x % (2 * weight) >= weight
  }

  // Each bit by remainder is the same bit by quotient.

  lemma BitOne(a: byte)
    ensures BitOf(a, 1) == (a % 2 == 1)
  {
  }

  lemma BitTwo(a: byte)
    ensures BitOf(a, 2) == (a / 2 % 2 == 1)
  {
    assert a / 2 == 2 * (a / 4) + if a % 4 >= 2 then 1 else 0;
  }

  lemma BitFour(a: byte)
    ensures BitOf(a, 4) == (a / 4 % 2 == 1)
  {
    assert a / 4 == 2 * (a / 8) + if a % 8 >= 4 then 1 else 0;
  }

  lemma BitEight(a: byte)
    ensures BitOf(a, 8) == (a / 8 % 2 == 1)
  {
    assert a / 8 == 2 * (a / 16) + if a % 16 >= 8 then 1 else 0;
  }

  lemma BitSixteen(a: byte)
    ensures BitOf(a, 16) == (a / 16 % 2 == 1)
  {
    assert a / 16 == 2 * (a / 32) + if a % 32 >= 16 then 1 else 0;
  }

  lemma BitThirtyTwo(a: byte)
    ensures BitOf(a, 32) == (a / 32 % 2 == 1)
  {
    assert a / 32 == 2 * (a / 64) + if a % 64 >= 32 then 1 else 0;
  }

  lemma BitSixtyFour(a: byte)
    ensures BitOf(a, 64) == (a / 64 % 2 == 1)
  {
    assert a / 64 == 2 * (a / 128) + if a % 128 >= 64 then 1 else 0;
  }

  function Bit(b: bool): (r: int)
    ensures 0 <= r <= 1
  {
    if b then 1 else 0
  }

  /** Two's-complement value of a byte. */
  function Signed(x: byte): int {
    if x < 0x80 then x else x - 0x100
  }

  function Ones(x: nat): nat {
    if x == 0 then 0 else x % 2 + Ones(x / 2)
  }

  function Pow2(k: nat): (r: nat)
    ensures r > 0
  {
    if k == 0 then 1 else 2 * Pow2(k - 1)
  }

  /** The low `size` bits. */
  function LowBits(x: nat, size: nat): (r: nat)
    ensures r < Pow2(size)
  {
    x % Pow2(size)
  }

  predicate EvenParity(x: byte) {
    Ones(x) % 2 == 0
  }

  // ----- bitwise operations, bit by bit from the lowest

  function BitAnd(x: nat, y: nat): (r: nat)
    ensures r <= x && r <= y
  {
    if x == 0 || y == 0 then 0 else Bit(x % 2 == 1 && y % 2 == 1) + 2 * BitAnd(x / 2, y / 2)
  }

  function BitOr(x: nat, y: nat): nat {
    if x == 0 then y else if y == 0 then x else Bit(x % 2 == 1 || y % 2 == 1) + 2 * BitOr(x / 2, y / 2)
  }

  function BitXor(x: nat, y: nat): nat {
    if x == 0 then y else if y == 0 then x else Bit(x % 2 != y % 2) + 2 * BitXor(x / 2, y / 2)
  }

  /** They need no more bits than their operands. */
  lemma {:induction false} BitsWithin(x: nat, y: nat, size: nat)
    requires x < Pow2(size) && y < Pow2(size)
    ensures BitOr(x, y) < Pow2(size) && BitXor(x, y) < Pow2(size)
  {
    if x != 0 && y != 0 {
      BitsWithin(x / 2, y / 2, size - 1);
    }
  }

  lemma ByteWithin(x: byte, y: byte)
    ensures BitOr(x, y) < 0x100 && BitXor(x, y) < 0x100
  {
    assert Pow2(8) == 0x100;
    BitsWithin(x, y, 8);
  }

  function And(x: byte, y: byte): byte {
    BitAnd(x, y)
  }

  function Or(x: byte, y: byte): byte {
    ByteWithin(x, y);
    BitOr(x, y)
  }

  function Xor(x: byte, y: byte): byte {
    ByteWithin(x, y);
    BitXor(x, y)
  }

  datatype Flags = Flags(z: bool, s: bool, p: bool, cy: bool, ac: bool, v: bool, x5: bool)

  /** A result byte together with the flags it leaves. */
  datatype Alu = Alu(value: byte, cc: Flags)

  predicate FitsSigned(x: int) {
    -0x80 <= x < 0x80
  }

  /** Zero, sign and parity of a result. */
  function ResultFlags(cc: Flags, r: byte): Flags {
    cc.(z := r == 0, s := r >= 0x80, p := EvenParity(r))
  }

  function Add(cc: Flags, x: byte, y: byte, carry: bool): Alu {
    var total := x + y + Bit(carry);
    var r: byte := total % 0x100;
    Alu(r, ResultFlags(cc, r).(
      cy := total >= 0x100,
      ac := x % 0x10 + y % 0x10 + Bit(carry) >= 0x10,
      v := !FitsSigned(Signed(x) + Signed(y) + Bit(carry))))
  }

  function Sub(cc: Flags, x: byte, y: byte, borrow: bool): Alu {
    var r: byte := (x - y - Bit(borrow)) % 0x100;
    Alu(r, ResultFlags(cc, r).(
      cy := x < y + Bit(borrow),
      ac := x % 0x10 < y % 0x10 + Bit(borrow),
      v := !FitsSigned(Signed(x) - Signed(y) - Bit(borrow))))
  }

  /** V by the program's sign-bit rule is signed overflow: equal operand signs and
      another result sign for a sum, the converse for a difference. */
  lemma SumOverflowBySigns(x: byte, y: byte, c: byte)
    requires c <= 1
    ensures var r := (x + y + c) % 0x100;
      !FitsSigned(Signed(x) + Signed(y) + c) <==> (x >= 0x80) == (y >= 0x80) && (x >= 0x80) != (r >= 0x80)
  {
  }

  lemma DifferenceOverflowBySigns(x: byte, y: byte, b: byte)
    requires b <= 1
    ensures var r := (x - y - b) % 0x100;
      !FitsSigned(Signed(x) - Signed(y) - b) <==> (x >= 0x80) != (y >= 0x80) && (x >= 0x80) != (r >= 0x80)
  {
  }

  /** The PRESERVE_CARRY forms behind INR and DCR. */
  function Increment(cc: Flags, x: byte): Alu {
    var r := Add(cc, x, 1, false);
    r.(cc := r.cc.(cy := cc.cy))
  }

  function Decrement(cc: Flags, x: byte): Alu {
    var r := Sub(cc, x, 1, false);
    r.(cc := r.cc.(cy := cc.cy))
  }

  function LogicFlags(cc: Flags, r: byte, ac: bool): Flags {
    ResultFlags(cc, r).(cy := false, ac := ac)
  }

  /** RLC RRC RAL RAR: the bit shifted out goes to CY. */
  function Rotate(cc: Flags, x: byte, kind: nat): Alu
    requires kind < 4
  {
    match kind
    case 0 => Alu((2 * x + x / 0x80) % 0x100, cc.(cy := x >= 0x80))
    case 1 => Alu(0x80 * (x % 2) + x / 2, cc.(cy := x % 2 == 1))
    case 2 => Alu((2 * x + Bit(cc.cy)) % 0x100, cc.(cy := x >= 0x80))
    case _ => Alu(x / 2 + 0x80 * Bit(cc.cy), cc.(cy := x % 2 == 1))
  }

  /** RDEL's rotation of a word through carry; V when the sign changes. */
  function RotateWord(cc: Flags, w: word): (word, Flags) {
    var r := Wrap(2 * w + Bit(cc.cy));
    (r, cc.(cy := w >= 0x8000, v := (w >= 0x8000) != (r >= 0x8000)))
  }

  function DecimalAdjust(cc: Flags, a: byte): Alu {
    var low := if a % 0x10 > 9 || cc.ac then 6 else 0;
    var high := if a > 0x99 || cc.cy then 0x60 else 0;
    var r: byte := (a + low + high) % 0x100;
    Alu(r, ResultFlags(cc, r).(cy := a > 0x99 || cc.cy, ac := a % 0x10 + low >= 0x10))
  }

  /** The 16-bit subtraction HL - BC of the undocumented DSUB. */
  function DoubleSub(cc: Flags, hl: word, bc: word): (word, Flags) {
    var r := Wrap(hl - bc);
    (r, cc.(
      cy := hl < bc, z := r == 0, s := r >= 0x8000, p := EvenParity(Lo(r)),
      ac := hl % 0x10 < bc % 0x10,
      v := (hl >= 0x8000) != (bc >= 0x8000) && (r >= 0x8000) != (hl >= 0x8000)))
  }

  // ----- the program status word

  /** High half: S Z X5 AC. Low half: a zero, P V CY. */
  function PswHigh(cc: Flags): (r: byte)
    ensures r < 0x10
  {
    8 * Bit(cc.s) + 4 * Bit(cc.z) + 2 * Bit(cc.x5) + Bit(cc.ac)
  }

  function PswLow(cc: Flags): (r: byte)
    ensures r < 8
  {
    4 * Bit(cc.p) + 2 * Bit(cc.v) + Bit(cc.cy)
  }

  function Psw(cc: Flags): byte {
    0x10 * PswHigh(cc) + PswLow(cc)
  }

  function FlagsOf(psw: byte): Flags {
    Flags(BitOf(psw, 0x40), BitOf(psw, 0x80), BitOf(psw, 4), BitOf(psw, 1), BitOf(psw, 0x10), BitOf(psw, 2), BitOf(psw, 0x20))
  }

  lemma HighNibble(w: byte, h: byte, l: byte)
    requires w == 0x10 * h + l && h < 0x10 && l < 0x10
    ensures BitOf(w, 0x80) == BitOf(h, 8) && BitOf(w, 0x40) == BitOf(h, 4)
    ensures BitOf(w, 0x20) == BitOf(h, 2) && BitOf(w, 0x10) == BitOf(h, 1)
  {
    assert w / 0x10 == h;
    assert w / 0x20 == h / 2 && w / 0x40 == h / 4 && w / 0x80 == h / 8;
  }

  lemma LowNibble(w: byte, h: byte, l: byte)
    requires w == 0x10 * h + l && h < 0x10 && l < 0x10
    ensures BitOf(w, 8) == BitOf(l, 8) && BitOf(w, 4) == BitOf(l, 4) && BitOf(w, 2) == BitOf(l, 2) && BitOf(w, 1) == BitOf(l, 1)
  {
    assert w / 2 == 8 * h + l / 2;
    assert w / 4 == 4 * h + l / 4;
    assert w / 8 == 2 * h + l / 8;
  }

  lemma PswHighBits(cc: Flags)
    ensures var h := PswHigh(cc);
      BitOf(h, 8) == cc.s && BitOf(h, 4) == cc.z && BitOf(h, 2) == cc.x5 && BitOf(h, 1) == cc.ac
  {
  }

  lemma PswLowBits(cc: Flags)
    ensures var l := PswLow(cc); BitOf(l, 4) == cc.p && BitOf(l, 2) == cc.v && BitOf(l, 1) == cc.cy
  {
  }

  /** All seven flags survive the trip through the status byte. */
  lemma PswRoundTrip(cc: Flags)
    ensures FlagsOf(Psw(cc)) == cc
  {
    hide BitOf, PswHigh, PswLow;
    LowNibble(Psw(cc), PswHigh(cc), PswLow(cc));
    HighNibble(Psw(cc), PswHigh(cc), PswLow(cc));
    PswHighBits(cc);
    PswLowBits(cc);
  }

  lemma WordSplit(w: word)
    ensures Word(Hi(w), Lo(w)) == w
  {
  }
}
