/** The whole timer chip as values: three counters behind a clock divider and
    four ports. Conservation of clock ticks over whole runs, independence of how
    elapsed time is split into steps, and the coherent latched read. */
module PitChip {
  import opened CpuArith
  import opened PitModel

  type u64 = x: int | 0 <= x < U64

  datatype Pit = Pit(clkdiv: u64, gates: seq<bool>, lastTstates: u64, clkAccum: u64, counters: seq<Counter>) {
    predicate Valid() {
      0 < clkdiv && |gates| == 3 && |counters| == 3 && clkAccum < clkdiv
    }
  }

  // ----- the clock

  /** The 64-bit accumulator after the clock has moved to tstates. */
  function Accumulated(p: Pit, tstates: u64): u64 {
    (p.clkAccum + (tstates - p.lastTstates) % U64) % U64
  }

  function Capped(ticks: nat): nat {
    if ticks > TICK_CAP then TICK_CAP else ticks
  }

  /** A low gate freezes its counter. */
  function GatedTicks(p: Pit, n: nat): (r: seq<Counter>)
    requires p.Valid()
    ensures |r| == 3
    ensures forall i | 0 <= i < 3 :: r[i] == if p.gates[i] then Ticks(p.counters[i], n) else p.counters[i]
  {
    seq(3, i requires 0 <= i < 3 => if p.gates[i] then Ticks(p.counters[i], n) else p.counters[i])
  }

  function OnStep(p: Pit, tstates: u64): (r: Pit)
    requires p.Valid()
    ensures r.Valid()
  {
    var accum := Accumulated(p, tstates);
    p.(lastTstates := tstates, clkAccum := Remainder(accum, p.clkdiv),
       counters := GatedTicks(p, Capped(Quotient(accum, p.clkdiv))))
  }

  function Steps(p: Pit, ts: seq<u64>): (r: Pit)
    requires p.Valid()
    ensures r.Valid()
  {
    if |ts| == 0 then p else OnStep(Steps(p, ts[..|ts|-1]), ts[|ts|-1])
  }

  function Last(from: u64, ts: seq<u64>): u64 {
    if |ts| == 0 then from else ts[|ts|-1]
  }

  /** Clock readings that never go back, move by no more than the capped number of
      ticks in one step, and stay in the lower half of the 64-bit range. */
  predicate Paced(clkdiv: u64, from: u64, ts: seq<u64>) {
    if |ts| == 0 then from < U64 / 2
    else
      var n := |ts| - 1;
      && Paced(clkdiv, from, ts[..n])
      && Last(from, ts[..n]) <= ts[n] <= Last(from, ts[..n]) + Scaled(clkdiv) && ts[n] < U64 / 2
  }

  /** The T-states of a full cap of ticks. */
  function Scaled(clkdiv: nat): nat {
    TICK_CAP * clkdiv
  }

  lemma {:induction false} PacedForward(clkdiv: u64, from: u64, ts: seq<u64>)
    requires Paced(clkdiv, from, ts)
    ensures from <= Last(from, ts) < U64 / 2
  {
    if |ts| != 0 {
      PacedForward(clkdiv, from, ts[..|ts|-1]);
    }
  }

  /** A step that moves the clock forward by at most the cap: no tick is lost to
      the cap or to wrap-around. */
  lemma StepExact(p: Pit, t: u64)
    requires p.Valid() && p.clkdiv < U64 / 2 && p.lastTstates <= t <= p.lastTstates + Scaled(p.clkdiv) && t < U64 / 2
    ensures var accum := p.clkAccum + (t - p.lastTstates);
      Accumulated(p, t) == accum && Capped(Quotient(accum, p.clkdiv)) == Quotient(accum, p.clkdiv)
  {
    hide Quotient;
    QuotientBelow(p.clkAccum + (t - p.lastTstates), p.clkdiv, TICK_CAP);
  }

  lemma QuotientBelow(accum: nat, d: nat, bound: nat)
    requires d > 0 && accum < d + bound * d
    ensures Quotient(accum, d) <= bound
  {
    hide Quotient, Remainder;
    Divided(accum, d);
    var q := Quotient(accum, d);
    if q > bound {
      ProductGap(q, bound, d);
    }
  }

  /** Two divisions in a row: what the first step leaves over the second uses. */
  lemma CarriedOver(a: nat, b: nat, d: nat)
    requires d > 0
    ensures Quotient(Remainder(a, d) + b, d) + Quotient(a, d) == Quotient(a + b, d)
    ensures Remainder(Remainder(a, d) + b, d) == Remainder(a + b, d)
  {
    hide Quotient, Remainder;
    var q, r := Quotient(a, d), Remainder(a, d);
    var q2, r2 := Quotient(r + b, d), Remainder(r + b, d);
    Divided(a, d);
    Divided(r + b, d);
    assert (q + q2) * d == q * d + q2 * d;
    DividedOnlySo(a + b, d, q + q2, r2);
  }

  /** The chip as a single jump of its clock to t would leave it, had the clock no
      cap and no width. */
  function Jump(p: Pit, t: u64): (r: Pit)
    requires p.Valid() && p.lastTstates <= t
    ensures r.Valid()
  {
    var total := p.clkAccum + (t - p.lastTstates);
    p.(lastTstates := t, clkAccum := Remainder(total, p.clkdiv), counters := GatedTicks(p, Quotient(total, p.clkdiv)))
  }

  lemma GatedTicksAdd(p: Pit, q: Pit, m: nat, n: nat)
    requires p.Valid() && q.Valid() && q.gates == p.gates && q.counters == GatedTicks(p, m)
    ensures GatedTicks(q, n) == GatedTicks(p, m + n)
  {
    hide Ticks;
    forall i | 0 <= i < 3
      ensures GatedTicks(q, n)[i] == GatedTicks(p, m + n)[i]
    {
      TicksAdd(p.counters[i], m, n);
    }
  }

  /** A jump followed by a step is a jump to the later time. */
  lemma JumpAndStep(p: Pit, before: u64, t: u64)
    requires p.Valid() && p.clkdiv < U64 / 2 && p.lastTstates <= before <= t <= before + Scaled(p.clkdiv) && t < U64 / 2
    ensures OnStep(Jump(p, before), t) == Jump(p, t)
  {
    hide Quotient, Remainder, Accumulated, Capped, GatedTicks;
    var a, d := p.clkAccum + (before - p.lastTstates), t - before;
    var q := Jump(p, before);
    StepExact(q, t);
    CarriedOver(a, d, p.clkdiv);
    GatedTicksAdd(p, q, Quotient(a, p.clkdiv), Quotient(Remainder(a, p.clkdiv) + d, p.clkdiv));
  }

  lemma JumpNowhere(p: Pit)
    requires p.Valid()
    ensures Jump(p, p.lastTstates) == p
  {
    DividedOnlySo(p.clkAccum, p.clkdiv, 0, p.clkAccum);
    assert GatedTicks(p, 0) == p.counters;
  }

  /** Main result. Over any paced run of the clock, however it is cut into steps,
      each ungated counter has seen exactly floor((leftover + elapsed) / clkdiv)
      ticks and the accumulator holds the remainder. */
  lemma {:induction false} ClockConserved(p: Pit, ts: seq<u64>)
    requires p.Valid() && p.clkdiv < U64 / 2 && Paced(p.clkdiv, p.lastTstates, ts)
    ensures p.lastTstates <= Last(p.lastTstates, ts) && Steps(p, ts) == Jump(p, Last(p.lastTstates, ts))
  {
    hide Jump, OnStep;
    PacedForward(p.clkdiv, p.lastTstates, ts);
    if |ts| == 0 {
      JumpNowhere(p);
    } else {
      var n := |ts| - 1;
      PacedForward(p.clkdiv, p.lastTstates, ts[..n]);
      ClockConserved(p, ts[..n]);
      JumpAndStep(p, Last(p.lastTstates, ts[..n]), ts[n]);
    }
  }

  /** Nothing is created or lost: ticks times clkdiv plus what is left over is the
      old leftover plus the elapsed time. */
  lemma TicksConserved(p: Pit, ts: seq<u64>)
    requires p.Valid() && p.clkdiv < U64 / 2 && Paced(p.clkdiv, p.lastTstates, ts)
    ensures var elapsed := Last(p.lastTstates, ts) - p.lastTstates;
      elapsed >= 0 &&
      var ticks := Quotient(p.clkAccum + elapsed, p.clkdiv);
      && ticks * p.clkdiv + Steps(p, ts).clkAccum == p.clkAccum + elapsed
      && Steps(p, ts).counters == GatedTicks(p, ticks)
  {
    hide Quotient, Remainder, GatedTicks, Steps;
    ClockConserved(p, ts);
    Divided(p.clkAccum + (Last(p.lastTstates, ts) - p.lastTstates), p.clkdiv);
  }

  /** So two paced runs that end at the same time leave the chip in the same state. */
  lemma StepSplitIrrelevant(p: Pit, ts: seq<u64>, us: seq<u64>)
    requires p.Valid() && p.clkdiv < U64 / 2
    requires Paced(p.clkdiv, p.lastTstates, ts) && Paced(p.clkdiv, p.lastTstates, us)
    requires Last(p.lastTstates, ts) == Last(p.lastTstates, us)
    ensures Steps(p, ts) == Steps(p, us)
  {
    ClockConserved(p, ts);
    ClockConserved(p, us);
    hide Jump, Steps;
  }

  // ----- the ports

  /** Port 3 is the control register; its top two bits choose the counter. */
  function WritePort(p: Pit, port: nat, val: byte): (r: Pit)
    requires p.Valid() && port < 4
    ensures r.Valid()
  {
    if port < 3 then p.(counters := p.counters[port := WriteCount(p.counters[port], val)])
    else if val / 0x40 == 3 then p
    else p.(counters := p.counters[val / 0x40 := Control(p.counters[val / 0x40], val)])
  }

  function AfterRead(p: Pit, port: nat): (r: Pit)
    requires p.Valid() && port < 3
    ensures r.Valid()
  {
    p.(counters := p.counters[port := AdvanceRead(p.counters[port])])
  }

  datatype Event = Clock(tstates: u64) | Write(port: nat, val: byte) | Read(port: nat)

  predicate Legal(e: Event) {
    match e
    case Clock(_) => true
    case Write(port, _) => port < 4
    case Read(port) => port < 3
  }

  function Apply(p: Pit, e: Event): (r: Pit)
    requires p.Valid() && Legal(e)
    ensures r.Valid()
  {
    match e
    case Clock(t) => OnStep(p, t)
    case Write(port, val) => WritePort(p, port, val)
    case Read(port) => AfterRead(p, port)
  }

  function ApplyAll(p: Pit, es: seq<Event>): (r: Pit)
    requires p.Valid() && forall i | 0 <= i < |es| :: Legal(es[i])
    ensures r.Valid()
  {
    if |es| == 0 then p else Apply(ApplyAll(p, es[..|es|-1]), es[|es|-1])
  }

  /** Events that neither read counter i nor program it anew. */
  predicate LeavesReadAlone(e: Event, i: nat) {
    match e
    case Clock(_) => true
    case Read(port) => port != i
    case Write(port, val) => port == 3 && val / 0x40 == i ==> val / 0x10 % 4 == 0
  }

  /** The part of a counter a latched read depends on. */
  predicate SameRead(k: Counter, r: Counter) {
    r.rw == k.rw && r.latched == k.latched && r.latchVal == k.latchVal && r.readMsbNext == k.readMsbNext
  }

  lemma EventKeepsRead(p: Pit, e: Event, i: nat)
    requires p.Valid() && Legal(e) && i < 3 && LeavesReadAlone(e, i) && p.counters[i].latched
    ensures SameRead(p.counters[i], Apply(p, e).counters[i])
  {
    match e
    case Clock(t) => TicksFrame(p.counters[i], Capped(Quotient(Accumulated(p, t), p.clkdiv)));
    case Write(port, val) =>
    case Read(port) =>
  }

  lemma {:induction false} EventsKeepRead(p: Pit, es: seq<Event>, i: nat)
    requires p.Valid() && i < 3 && p.counters[i].latched
    requires forall j | 0 <= j < |es| :: Legal(es[j]) && LeavesReadAlone(es[j], i)
    ensures SameRead(p.counters[i], ApplyAll(p, es).counters[i])
  {
    if |es| != 0 {
      var n := |es| - 1;
      EventsKeepRead(p, es[..n], i);
      EventKeepsRead(ApplyAll(p, es[..n]), es[n], i);
    }
  }

  /** Main result. In LSB-then-MSB mode, a latch command followed by two reads of
      the counter returns the low and the high byte of the count as it was when
      latched, whatever clocking, further latch commands, count writes and
      traffic on the other counters comes in between; then the latch is free. */
  lemma LatchedReadIsCoherent(p: Pit, i: nat, latch: byte, es: seq<Event>, fs: seq<Event>)
    requires p.Valid() && i < 3 && p.counters[i].rw == 3 && !p.counters[i].latched
    requires latch / 0x40 == i && latch / 0x10 % 4 == 0
    requires forall j | 0 <= j < |es| :: Legal(es[j]) && LeavesReadAlone(es[j], i)
    requires forall j | 0 <= j < |fs| :: Legal(fs[j]) && LeavesReadAlone(fs[j], i)
    ensures var atLatch := p.counters[i].count % FULL;
      var first := ApplyAll(Apply(p, Write(3, latch)), es);
      var second := ApplyAll(Apply(first, Read(i)), fs);
      && ReadByte(first.counters[i]) == Lo(atLatch)
      && ReadByte(second.counters[i]) == Hi(atLatch)
      && !Apply(second, Read(i)).counters[i].latched
      && !Apply(second, Read(i)).counters[i].readMsbNext
  {
    var latched := Apply(p, Write(3, latch));
    EventsKeepRead(latched, es, i);
    var first := ApplyAll(latched, es);
    var between := Apply(first, Read(i));
    EventsKeepRead(between, fs, i);
  }
}
