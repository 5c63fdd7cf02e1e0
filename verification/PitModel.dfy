/** The 8254 timer: its counters, its port protocol and its clock divider as
    functions of values, and what any number of ticks does to a counter. */
module PitModel {
  import opened CpuArith

  const FULL := 0x1_0000
  const TICK_CAP := 0x4_0000
  const U64 := 0x1_0000_0000_0000_0000

  /** One counter. An initial count of 0 stands for 65536. */
  datatype Counter = Counter(
    initial: word, count: nat, mode: nat, rw: nat, bcd: bool, out: bool, running: bool,
    writeMsbNext: bool, writeLsb: byte, latched: bool, latchVal: word, readMsbNext: bool)

  const RESET_COUNTER := Counter(0, 0, 0, 3, false, false, false, false, 0, false, 0, false)

  function FullCount(k: Counter): (n: nat)
    ensures 1 <= n <= FULL
  {
    if k.initial == 0 then FULL else k.initial
  }

  /** One clock tick. */
  function Tick(k: Counter): Counter {
    if !k.running then k
    else match k.mode
      case 2 =>
        if k.count <= 1 then k.(count := FullCount(k), out := true)
        else k.(count := k.count - 1, out := k.count - 1 != 1)
      case 3 =>
        if k.count <= 2 then k.(count := FullCount(k), out := !k.out) else k.(count := k.count - 2)
      case _ =>
        var next := if k.count == 0 then 0xFFFF else k.count - 1;
        k.(count := next, out := k.out || next == 0)
  }

  function Ticks(k: Counter, n: nat): Counter {
    if n == 0 then k else Tick(Ticks(k, n - 1))
  }

  function Load(k: Counter, initial: nat): Counter {
    var loaded := k.(initial := initial % FULL);
    loaded.(count := FullCount(loaded), running := true, out := k.mode != 0)
  }

  /** The counter-latch command: a pending latch is kept. */
  function Latch(k: Counter): Counter {
    if k.latched then k else k.(latchVal := k.count % FULL, latched := true, readMsbNext := false)
  }

  /** Modes 6 and 7 alias 2 and 3. */
  function ModeOf(val: byte): (mode: nat)
    ensures mode <= 5
  {
    var m := val / 2 % 8;
    if m > 5 then m - 4 else m
  }

  function Program(k: Counter, val: byte): Counter {
    k.(rw := val / 0x10 % 4, mode := ModeOf(val), bcd := val % 2 == 1, running := false,
       writeMsbNext := false, readMsbNext := false, latched := false, out := ModeOf(val) != 0)
  }

  /** A control word addressed to this counter. */
  function Control(k: Counter, val: byte): Counter {
    if val / 0x10 % 4 == 0 then Latch(k) else Program(k, val)
  }

  function WriteCount(k: Counter, val: byte): Counter {
    match k.rw
    case 1 => Load(k, val)
    case 2 => Load(k, 0x100 * val)
    case 3 =>
      if !k.writeMsbNext then k.(writeLsb := val, writeMsbNext := true)
      else Load(k, 0x100 * val + k.writeLsb).(writeMsbNext := false)
    case _ => k
  }

  /** The byte a read of the counter port returns. */
  function ReadByte(k: Counter): byte {
    var v := if k.latched then k.latchVal else k.count % FULL;
    if k.rw == 2 || (k.rw == 3 && k.readMsbNext) then Hi(v) else Lo(v)
  }

  /** What that read changes. */
  function AdvanceRead(k: Counter): Counter {
    if k.rw == 3 && !k.readMsbNext then k.(readMsbNext := true)
    else k.(readMsbNext := if k.rw == 3 then false else k.readMsbNext, latched := false)
  }

  // ----- closed forms for any number of ticks after a load

  lemma ProductGap(q: int, p: int, d: int)
    requires q > p && d > 0
    ensures q * d >= p * d + d
  {
    NotNegative(q - p - 1, d);
    assert q * d == p * d + d + (q - p - 1) * d;
  }

  lemma {:induction false} NotNegative(k: nat, d: nat)
    ensures k * d >= 0
  {
    if k != 0 {
      NotNegative(k - 1, d);
      assert k * d == (k - 1) * d + d;
    }
  }

  lemma DivModUnique(n: nat, d: nat, q: nat, r: nat)
    requires d > 0 && n == q * d + r && r < d
    ensures n / d == q && n % d == r
  {
    var p := n / d;
    assert n == p * d + n % d;
    if q > p {
      ProductGap(q, p, d);
    } else if q < p {
      ProductGap(p, q, d);
    }
  }

  lemma ModStep(n: nat, d: nat)
    requires d > 0
    ensures n % d == d - 1 ==> (n + 1) % d == 0 && (n + 1) / d == n / d + 1
    ensures n % d < d - 1 ==> (n + 1) % d == n % d + 1 && (n + 1) / d == n / d
  {
    var q, r := n / d, n % d;
    assert n == q * d + r;
    if r == d - 1 {
      assert n + 1 == (q + 1) * d;
      DivModUnique(n + 1, d, q + 1, 0);
    } else {
      DivModUnique(n + 1, d, q, r + 1);
    }
  }

  lemma TickFrame(k: Counter)
    ensures Tick(k) == k.(count := Tick(k).count, out := Tick(k).out)
  {
  }

  // Quotient and remainder by a half period, named so that proofs can keep
  // their definitions out of sight.
  function Quotient(n: nat, d: nat): nat
    requires d > 0
  {
    n / d
  }

  function Remainder(n: nat, d: nat): (r: nat)
    requires d > 0
    ensures r < d
  {
    n % d
  }

  lemma Divided(n: nat, d: nat)
    requires d > 0
    ensures n == Quotient(n, d) * d + Remainder(n, d)
  {
  }

  lemma DividedOnlySo(n: nat, d: nat, q: nat, r: nat)
    requires d > 0 && n == q * d + r && r < d
    ensures Quotient(n, d) == q && Remainder(n, d) == r
  {
    DivModUnique(n, d, q, r);
  }

  lemma NextRemainder(n: nat, d: nat)
    requires d > 0
    ensures if Remainder(n, d) == d - 1
      then Remainder(n + 1, d) == 0 && Quotient(n + 1, d) == Quotient(n, d) + 1
      else Remainder(n + 1, d) == Remainder(n, d) + 1 && Quotient(n + 1, d) == Quotient(n, d)
    ensures Remainder(0, d) == 0 && Quotient(0, d) == 0
    ensures Remainder(n + 2 * d, d) == Remainder(n, d) && Quotient(n + 2 * d, d) == Quotient(n, d) + 2
  {
    ModStep(n, d);
    DivModUnique(0, d, 0, 0);
    TwoHalves(n, d);
  }

  /** Ticks touch the count and OUT only. */
  lemma {:induction false} TicksFrame(k: Counter, n: nat)
    ensures Ticks(k, n) == k.(count := Ticks(k, n).count, out := Ticks(k, n).out)
  {
    hide Tick;
    if n != 0 {
      TicksFrame(k, n - 1);
      TickFrame(Ticks(k, n - 1));
    }
  }

  lemma {:induction false} TicksAdd(k: Counter, m: nat, n: nat)
    ensures Ticks(Ticks(k, m), n) == Ticks(k, m + n)
  {
    hide Tick;
    if n != 0 {
      TicksAdd(k, m, n - 1);
    }
  }

  lemma DecrementMod(a: int)
    ensures (a - 1) % FULL == if a % FULL == 0 then FULL - 1 else a % FULL - 1
  {
  }

  /** One tick of a plain down-counter whose count stands for a. */
  lemma TickDown(k: Counter, a: int)
    requires k.running && k.mode != 2 && k.mode != 3 && k.count % FULL == a % FULL && k.count <= FULL
    ensures var r := Tick(k);
      && r.count == (if k.count == FULL then FULL - 1 else (a - 1) % FULL) && r.count < FULL
      && r.count % FULL == (a - 1) % FULL
      && r.out == (k.out || r.count == 0)
  {
    hide FullCount;
    DecrementMod(a);
  }

  /** Modes 0, 1, 4 and 5: n ticks after loading N the 16-bit count is N - n mod
      65536; OUT of mode 0 is high exactly from tick N on, and stays high in the
      other modes. */
  lemma {:induction false} CountDownForm(k: Counter, initial: nat, n: nat)
    requires k.mode != 2 && k.mode != 3
    ensures var s := Load(k, initial); var r := Ticks(s, n);
      && r.count % FULL == (FullCount(s) - n) % FULL && (if n == 0 then r.count == FullCount(s) else r.count < FULL)
      && (r.out <==> k.mode != 0 || n >= FullCount(s))
  {
    if n != 0 {
      hide Tick;
      var s := Load(k, initial);
      CountDownForm(k, initial, n - 1);
      TicksFrame(s, n - 1);
      TickDown(Ticks(s, n - 1), FullCount(s) - (n - 1));
      ZeroOnce(FullCount(s), n, Ticks(s, n).count);
    }
  }

  /** Before tick N the count N - n is not 0; at tick N it is. */
  lemma ZeroOnce(full: nat, n: nat, count: nat)
    requires 0 < n && full <= FULL && count < FULL && count % FULL == (full - n) % FULL
    ensures n < full ==> count != 0
    ensures n == full ==> count == 0
  {
  }

  /** Mode 2, the rate generator: the count runs N, N-1 .. 1 round and round, and
      OUT is low exactly while it is 1 (never, for N = 1). */
  lemma {:induction false} RateGeneratorForm(k: Counter, initial: nat, n: nat)
    requires k.mode == 2
    ensures var s := Load(k, initial); var r := Ticks(s, n); var period := FullCount(s);
      && r.count == period - Remainder(n, period)
      && (r.out <==> period == 1 || r.count != 1)
  {
    hide Tick, Remainder, Quotient, FullCount;
    var s := Load(k, initial);
    NextRemainder(if n == 0 then 0 else n - 1, FullCount(s));
    LoadedFull(k, initial);
    if n != 0 {
      RateGeneratorForm(k, initial, n - 1);
      TicksFrame(s, n - 1);
      SameFull(s, Ticks(s, n - 1));
      TickRate(Ticks(s, n - 1));
    }
  }

  lemma TickRate(k: Counter)
    requires k.running && k.mode == 2
    ensures Tick(k) == if k.count <= 1 then k.(count := FullCount(k), out := true)
                       else k.(count := k.count - 1, out := k.count != 2)
  {
    hide FullCount;
  }

  /** One tick of a square wave, r ticks into a half period. */
  lemma TickSquare(k: Counter, r: nat)
    requires k.running && k.mode == 3 && k.count == FullCount(k) - 2 * r && r < HalfPeriod(k)
    ensures var half := HalfPeriod(k);
      Tick(k) == if r == half - 1 then k.(count := FullCount(k), out := !k.out) else k.(count := k.count - 2)
  {
    hide FullCount;
  }

  function HalfPeriod(k: Counter): (h: nat)
    ensures h > 0
  {
    (FullCount(k) + 1) / 2
  }

  /** Mode 3, the square wave: the count goes down by two and OUT toggles every
      half = ceil(N/2) ticks. */
  lemma {:induction false} SquareWaveForm(k: Counter, initial: nat, n: nat)
    requires k.mode == 3
    ensures var s := Load(k, initial); var r := Ticks(s, n); var half := HalfPeriod(s);
      && r.count == FullCount(s) - 2 * Remainder(n, half)
      && (r.out <==> Quotient(n, half) % 2 == 0)
  {
    hide Tick, Remainder, Quotient, HalfPeriod, FullCount;
    var s := Load(k, initial);
    if n == 0 {
      NextRemainder(0, HalfPeriod(s));
      LoadedFull(k, initial);
    } else {
      SquareWaveForm(k, initial, n - 1);
      TicksFrame(s, n - 1);
      NextRemainder(n - 1, HalfPeriod(s));
      SameFull(s, Ticks(s, n - 1));
      TickSquare(Ticks(s, n - 1), Remainder(n - 1, HalfPeriod(s)));
    }
  }

  lemma LoadedFull(k: Counter, initial: nat)
    ensures Load(k, initial).count == FullCount(Load(k, initial))
  {
  }

  lemma SameFull(k: Counter, r: Counter)
    requires r.initial == k.initial
    ensures FullCount(r) == FullCount(k) && HalfPeriod(r) == HalfPeriod(k)
  {
  }

  /** The square wave repeats after N ticks when N is even and after N + 1, not N,
      when it is odd. */
  lemma SquareWavePeriod(k: Counter, initial: nat, n: nat)
    requires k.mode == 3
    ensures var s := Load(k, initial); var period := FullCount(s) + FullCount(s) % 2;
      Ticks(s, n + period) == Ticks(s, n)
  {
    hide Ticks, Load, Remainder, Quotient;
    var s := Load(k, initial);
    var half := HalfPeriod(s);
    assert 2 * half == FullCount(s) + FullCount(s) % 2;
    SquareWaveForm(k, initial, n);
    SquareWaveForm(k, initial, n + 2 * half);
    TicksFrame(s, n);
    TicksFrame(s, n + 2 * half);
    NextRemainder(n, half);
  }

  lemma TwoHalves(n: nat, half: nat)
    requires half > 0
    ensures (n + 2 * half) % half == n % half && (n + 2 * half) / half == n / half + 2
  {
    var q, r := n / half, n % half;
    assert n == q * half + r;
    assert n + 2 * half == (q + 2) * half + r;
    DivModUnique(n + 2 * half, half, q + 2, r);
  }

  /** For odd N the wave is not back after N ticks: OUT has toggled once only. */
  lemma OddSquareWaveIsLonger(k: Counter, initial: nat)
    requires k.mode == 3 && FullCount(Load(k, initial)) % 2 == 1
    ensures var s := Load(k, initial); Ticks(s, FullCount(s)) != s
  {
    hide Ticks;
    var s := Load(k, initial);
    var half := HalfPeriod(s);
    SquareWaveForm(k, initial, FullCount(s));
    DivModUnique(FullCount(s), half, 1, if half == 1 then 0 else half - 1);
  }
}
