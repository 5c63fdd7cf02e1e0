/** Programming the timer through its ports: what a program writes is what a
    counter then counts, and what it reads is the count. */
module PitPorts {
  import opened CpuArith
  import opened PitModel
  import opened PitChip

  // ----- control words

  /** The mode a control word names, by its low four bits; 6 and 7 are 2 and 3. */
  function NamedMode(word: byte): nat {
    var low := word % 16;
    if low in {0, 1} then 0 else if low in {2, 3} then 1 else if low in {4, 5, 12, 13} then 2
    else if low in {6, 7, 14, 15} then 3 else if low in {8, 9} then 4 else 5
  }

  datatype Access = LatchNow | LowOnly | HighOnly | LowThenHigh

  /** What its bits 5 and 4 ask for. */
  function NamedAccess(word: byte): Access {
    var low := word % 64;
    if low < 16 then LatchNow else if low < 32 then LowOnly else if low < 48 then HighOnly else LowThenHigh
  }

  /** The counter it is addressed to; 3 is none. */
  function NamedCounter(word: byte): nat {
    if word < 64 then 0 else if word < 128 then 1 else if word < 192 then 2 else 3
  }

  lemma ModeBits(word: byte)
    ensures ModeOf(word) == NamedMode(word)
  {
    assert word / 2 % 8 == word % 16 / 2;
  }

  lemma AccessBits(word: byte)
    ensures word / 0x40 == NamedCounter(word)
    ensures word / 0x10 % 4 == (match NamedAccess(word) case LatchNow => 0 case LowOnly => 1 case HighOnly => 2 case LowThenHigh => 3)
  {
    assert word / 0x10 % 4 == word % 64 / 0x10;
  }

  /** A counter that was given a control word and waits for its count. */
  predicate Awaits(k: Counter, word: byte) {
    && !k.running && k.mode == NamedMode(word) && k.out == (k.mode != 0)
    && k.rw == (match NamedAccess(word) case LatchNow => 0 case LowOnly => 1 case HighOnly => 2 case LowThenHigh => 3)
  }

  lemma ControlWord(p: Pit, word: byte, i: nat)
    requires p.Valid() && NamedCounter(word) == i < 3 && NamedAccess(word) != LatchNow
    ensures var r := WritePort(p, 3, word);
      && Awaits(r.counters[i], word) && !r.counters[i].writeMsbNext && !r.counters[i].latched && !r.counters[i].readMsbNext
      && forall j | 0 <= j < 3 && j != i :: r.counters[j] == p.counters[j]
  {
    ModeBits(word);
    AccessBits(word);
    hide ModeOf, NamedMode;
  }

  // ----- other traffic

  /** Events that neither write a count to counter i nor program it anew; reading and
      latching it are among them. */
  predicate LeavesCountAlone(e: Event, i: nat) {
    match e
    case Clock(_) => true
    case Read(_) => true
    case Write(port, val) => port != i && (port == 3 && NamedCounter(val) == i ==> NamedAccess(val) == LatchNow)
  }

  /** What a waiting counter's programming depends on. */
  predicate StillWaits(k: Counter, r: Counter) {
    && !k.running && !r.running && r.mode == k.mode && r.out == k.out && r.rw == k.rw
    && r.writeMsbNext == k.writeMsbNext && r.writeLsb == k.writeLsb
  }

  lemma {:induction false} NoTicksYet(k: Counter, n: nat)
    requires !k.running
    ensures Ticks(k, n) == k
  {
    if n != 0 {
      NoTicksYet(k, n - 1);
    }
  }

  lemma EventWaits(p: Pit, e: Event, i: nat)
    requires p.Valid() && Legal(e) && i < 3 && LeavesCountAlone(e, i) && !p.counters[i].running
    ensures StillWaits(p.counters[i], Apply(p, e).counters[i])
  {
    match e
    case Clock(t) => NoTicksYet(p.counters[i], Capped(Quotient(Accumulated(p, t), p.clkdiv)));
    case Read(port) =>
    case Write(port, val) => AccessBits(val);
  }

  lemma {:induction false} EventsWait(p: Pit, es: seq<Event>, i: nat)
    requires p.Valid() && i < 3 && !p.counters[i].running
    requires forall j | 0 <= j < |es| :: Legal(es[j]) && LeavesCountAlone(es[j], i)
    ensures StillWaits(p.counters[i], ApplyAll(p, es).counters[i])
  {
    if |es| != 0 {
      hide Apply, LeavesCountAlone;
      var n := |es| - 1;
      EventsWait(p, es[..n], i);
      EventWaits(ApplyAll(p, es[..n]), es[n], i);
    }
  }

  // ----- loading a count

  /** Counter k runs from the count n, 0 standing for 65536, in the mode word names. */
  predicate LoadedWith(k: Counter, word: byte, n: nat) {
    && k.running && k.mode == NamedMode(word) && k.out == (k.mode != 0)
    && k.initial == n && k.count == (if n == 0 then 65536 else n)
  }

  predicate Quiet(es: seq<Event>, i: nat) {
    forall j | 0 <= j < |es| :: Legal(es[j]) && LeavesCountAlone(es[j], i)
  }

  /** What a count byte does to a waiting counter, by the access asked for. */
  lemma CountByte(k: Counter, word: byte, b: byte)
    requires Awaits(k, word) && !k.writeMsbNext
    ensures NamedAccess(word) == LowOnly ==> LoadedWith(WriteCount(k, b), word, b)
    ensures NamedAccess(word) == HighOnly ==> LoadedWith(WriteCount(k, b), word, 256 * b)
    ensures NamedAccess(word) == LowThenHigh ==>
      var r := WriteCount(k, b); Awaits(r, word) && r.writeMsbNext && r.writeLsb == b
  {
    hide NamedMode, NamedAccess;
  }

  lemma SecondCountByte(k: Counter, word: byte, low: byte, high: byte)
    requires Awaits(k, word) && NamedAccess(word) == LowThenHigh && k.writeMsbNext && k.writeLsb == low
    ensures LoadedWith(WriteCount(k, high), word, 256 * high + low)
  {
    hide NamedMode, NamedAccess;
  }

  lemma StillAwaits(k: Counter, r: Counter, word: byte)
    requires Awaits(k, word) && StillWaits(k, r)
    ensures Awaits(r, word)
  {
    hide NamedMode, NamedAccess;
  }

  /** One count byte, for access 1 or 2, after a control word and any traffic. */
  lemma OneByteLoads(p: Pit, word: byte, i: nat, es: seq<Event>, b: byte)
    requires p.Valid() && NamedCounter(word) == i < 3 && NamedAccess(word) in {LowOnly, HighOnly} && Quiet(es, i)
    ensures var ready := ApplyAll(WritePort(p, 3, word), es);
      LoadedWith(WritePort(ready, i, b).counters[i], word, if NamedAccess(word) == LowOnly then b else 256 * b)
  {
    hide NamedMode, NamedAccess, NamedCounter, ApplyAll, WriteCount, Awaits, LoadedWith, Control;
    ControlWord(p, word, i);
    var first := WritePort(p, 3, word);
    WaitsMeans(first.counters[i], word);
    EventsWait(first, es, i);
    var ready := ApplyAll(first, es);
    StillAwaits(first.counters[i], ready.counters[i], word);
    CountByte(ready.counters[i], word, b);
  }

  lemma WaitsMeans(k: Counter, word: byte)
    requires Awaits(k, word)
    ensures !k.running
  {
  }

  /** Main result: a control word for both bytes, then the low and then the high
      byte, with any clocking, reads, latches and other counters' traffic in
      between, leave counter i counting from 256 * high + low. */
  lemma TwoBytesLoad(p: Pit, word: byte, i: nat, es: seq<Event>, fs: seq<Event>, low: byte, high: byte)
    requires p.Valid() && NamedCounter(word) == i < 3 && NamedAccess(word) == LowThenHigh && Quiet(es, i) && Quiet(fs, i)
    ensures var ready := ApplyAll(WritePort(p, 3, word), es);
      var half := ApplyAll(WritePort(ready, i, low), fs);
      LoadedWith(WritePort(half, i, high).counters[i], word, 256 * high + low)
  {
    hide NamedMode, NamedAccess, NamedCounter, ApplyAll, WriteCount, Awaits, LoadedWith, Control;
    ControlWord(p, word, i);
    var first := WritePort(p, 3, word);
    WaitsMeans(first.counters[i], word);
    EventsWait(first, es, i);
    var ready := ApplyAll(first, es);
    StillAwaits(first.counters[i], ready.counters[i], word);
    CountByte(ready.counters[i], word, low);
    var second := WritePort(ready, i, low);
    WaitsMeans(second.counters[i], word);
    EventsWait(second, fs, i);
    var half := ApplyAll(second, fs);
    StillAwaits(second.counters[i], half.counters[i], word);
    SecondCountByte(half.counters[i], word, low, high);
  }

  /** The rest of a loaded counter does not matter to ticking. */
  lemma LoadedIsLoad(k: Counter, word: byte, n: nat)
    requires LoadedWith(k, word, n) && n < 65536
    ensures k == Load(k, n)
  {
    hide NamedMode;
  }

  /** Programmed through the ports and ticked n times: the count and OUT from the
      bytes the program wrote. */
  lemma ProgrammedCounts(k: Counter, word: byte, initial: nat, n: nat)
    requires LoadedWith(k, word, initial) && initial < 65536
    ensures var r, full := Ticks(k, n), if initial == 0 then 65536 else initial;
      && (NamedMode(word) in {0, 1, 4, 5} ==> r.count % 65536 == (full - n) % 65536)
      && (NamedMode(word) == 0 ==> (r.out <==> n >= full)) && (NamedMode(word) in {1, 4, 5} ==> r.out)
      && (NamedMode(word) == 2 ==> r.count == full - Remainder(n, full) && (r.out <==> full == 1 || r.count != 1))
      && (NamedMode(word) == 3 ==> var half := (full + 1) / 2;
            r.count == full - 2 * Remainder(n, half) && (r.out <==> Quotient(n, half) % 2 == 0))
  {
    hide NamedMode, Ticks, Remainder, Quotient;
    LoadedIsLoad(k, word, initial);
    if k.mode == 2 {
      RateGeneratorForm(k, initial, n);
    } else if k.mode == 3 {
      SquareWaveForm(k, initial, n);
      HalfOf(k);
    } else {
      CountDownForm(k, initial, n);
    }
  }

  lemma HalfOf(k: Counter)
    ensures HalfPeriod(k) == (FullCount(k) + 1) / 2
  {
  }

  /** A low gate freezes its counter over any run of the clock; a high one lets it see
      every tick of the elapsed time. */
  lemma GatesFreeze(p: Pit, ts: seq<u64>, i: nat)
    requires p.Valid() && p.clkdiv < U64 / 2 && Paced(p.clkdiv, p.lastTstates, ts) && i < 3
    ensures p.lastTstates <= Last(p.lastTstates, ts)
    ensures !p.gates[i] ==> Steps(p, ts).counters[i] == p.counters[i]
    ensures var ticks := Quotient(p.clkAccum + (Last(p.lastTstates, ts) - p.lastTstates), p.clkdiv);
      p.gates[i] ==> Steps(p, ts).counters[i] == Ticks(p.counters[i], ticks)
  {
    ClockConserved(p, ts);
    hide Steps, Ticks, Quotient, Remainder;
  }

  // ----- reading a running counter

  /** Without a latch a read returns the count as it is then: its low byte, its high
      byte, or one and then the other, by the access in force. */
  lemma LiveReads(p: Pit, i: nat)
    requires p.Valid() && i < 3 && !p.counters[i].latched && !p.counters[i].readMsbNext
    ensures var k := p.counters[i];
      && (k.rw == 1 ==> ReadByte(k) == k.count % 256)
      && (k.rw == 2 ==> ReadByte(k) == k.count / 256 % 256)
      && (k.rw == 3 ==> ReadByte(k) == k.count % 256)
      && (k.rw == 3 ==> forall t: u64 ::
            var later := OnStep(AfterRead(p, i), t).counters[i];
            ReadByte(later) == later.count / 256 % 256 && !AdvanceRead(later).readMsbNext)
  {
    var k := p.counters[i];
    CountBytes(k.count);
    forall t: u64 | k.rw == 3
      ensures var later := OnStep(AfterRead(p, i), t).counters[i];
        ReadByte(later) == later.count / 256 % 256 && !AdvanceRead(later).readMsbNext
    {
      var q := AfterRead(p, i);
      var ticks := Capped(Quotient(Accumulated(q, t), q.clkdiv));
      TicksFrame(q.counters[i], ticks);
      CountBytes(OnStep(q, t).counters[i].count);
    }
  }

  lemma CountBytes(n: nat)
    ensures Lo(n % 65536) == n % 256 && Hi(n % 65536) == n / 256 % 256
  {
  }
}
