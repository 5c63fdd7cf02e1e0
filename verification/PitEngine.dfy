/** The timer as the plugin keeps it: three counter objects inside a chip object,
    updated in place, proved against PitModel.dfy and PitChip.dfy. */
module PitEngine {
  import opened CpuArith
  import M = PitModel
  import C = PitChip

  class Counter {
    var initial: word
    var count: nat
    var mode: nat
    var rw: nat
    var bcd: bool
    var out: bool
    var running: bool
    var writeMsbNext: bool
    var writeLsb: byte
    var latched: bool
    var latchVal: word
    var readMsbNext: bool

    ghost function View(): M.Counter
      reads this
    {
      M.Counter(initial, count, mode, rw, bcd, out, running, writeMsbNext, writeLsb, latched, latchVal, readMsbNext)
    }

    constructor ()
      ensures View() == M.RESET_COUNTER
    {
      initial, count, mode, rw := 0, 0, 0, 3;
      bcd, out, running := false, false, false;
      writeMsbNext, writeLsb := false, 0;
      latched, latchVal, readMsbNext := false, 0, false;
    }

    function FullCount(): (n: nat)
      reads this
      ensures n == M.FullCount(View())
    {
      if initial == 0 then M.FULL else initial
    }

    /** One clock tick: a mode-specific reload or a plain decrement. */
    method Tick()
      modifies this`count, this`out
      ensures View() == M.Tick(old(View()))
    {
      if !running { return; }
      match mode {
        case 2 =>
          if count <= 1 {
            count, out := FullCount(), true;
          } else {
            count := count - 1;
            out := count != 1;
          }
        case 3 =>
          if count <= 2 {
            count, out := FullCount(), !out;
          } else {
            count := count - 2;
          }
        case _ =>
          count := if count == 0 then 0xFFFF else count - 1;
          if count == 0 { out := true; }
      }
    }

    method Load(value: nat)
      modifies this`initial, this`count, this`running, this`out
      ensures View() == M.Load(old(View()), value)
    {
      initial := value % M.FULL;
      count := FullCount();
      running := true;
      out := mode != 0;
    }

    /** A control word for this counter: latch the count, or program it anew. */
    method WriteControl(val: byte)
      modifies this
      ensures View() == M.Control(old(View()), val)
    {
      if val / 0x10 % 4 == 0 {
        if !latched {
          latchVal, latched, readMsbNext := count % M.FULL, true, false;
        }
        return;
      }
      rw := val / 0x10 % 4;
      mode := val / 2 % 8;
      if mode > 5 { mode := mode - 4; }
      bcd := val % 2 == 1;
      running, writeMsbNext, readMsbNext, latched := false, false, false, false;
      out := mode != 0;
    }

    method WriteCounter(val: byte)
      modifies this
      ensures View() == M.WriteCount(old(View()), val)
    {
      match rw {
        case 1 => Load(val);
        case 2 => Load(0x100 * val);
        case 3 =>
          if !writeMsbNext {
            writeLsb, writeMsbNext := val, true;
          } else {
            Load(0x100 * val + writeLsb);
            writeMsbNext := false;
          }
        case _ =>
      }
    }

    /** The byte the processor reads; sequencing advances only afterwards. */
    method ReadByte() returns (r: byte)
      ensures r == M.ReadByte(View())
    {
      var v := if latched then latchVal else count % M.FULL;
      match rw {
        case 1 => r := v % 0x100;
        case 2 => r := v / 0x100;
        case 3 => r := if readMsbNext then v / 0x100 else v % 0x100;
        case _ => r := v % 0x100;
      }
    }

    method AdvanceRead()
      modifies this`readMsbNext, this`latched
      ensures View() == M.AdvanceRead(old(View()))
    {
      if rw == 3 {
        if !readMsbNext {
          readMsbNext := true;
          return;
        }
        readMsbNext := false;
      }
      latched := false;
    }
  }

  class Pit8254 {
    var clkdiv: C.u64
    var lastTstates: C.u64
    var clkAccum: C.u64
    const gates: seq<bool>
    const c: seq<Counter>

    ghost predicate Valid()
      reads this
    {
      0 < clkdiv && |gates| == 3 && |c| == 3 && clkAccum < clkdiv && Distinct()
    }

    ghost predicate Distinct() {
      forall i, j | 0 <= i < j < |c| :: c[i] != c[j]
    }

    ghost function CounterViews(): (r: seq<M.Counter>)
      reads c
      ensures |r| == |c|
      ensures forall i | 0 <= i < |c| :: r[i] == c[i].View()
    {
      seq(|c|, i requires 0 <= i < |c| reads c => c[i].View())
    }

    ghost function View(): (p: C.Pit)
      requires Valid()
      reads this, c
      ensures p.Valid()
    {
      C.Pit(clkdiv, gates, lastTstates, clkAccum, CounterViews())
    }

    constructor (divider: C.u64, gateMask: seq<bool>)
      requires |gateMask| == 3
      ensures Valid() && fresh(this) && fresh(c)
      ensures View() == C.Pit(if divider == 0 then 1 else divider, gateMask, 0, 0,
                              [M.RESET_COUNTER, M.RESET_COUNTER, M.RESET_COUNTER])
    {
      clkdiv, lastTstates, clkAccum, gates := if divider == 0 then 1 else divider, 0, 0, gateMask;
      var c0 := new Counter();
      var c1 := new Counter();
      var c2 := new Counter();
      c := [c0, c1, c2];
      new;
      assert CounterViews() == [M.RESET_COUNTER, M.RESET_COUNTER, M.RESET_COUNTER];
    }

    /** Deliver one tick to every counter whose gate is high. */
    method TickAll(ghost start: seq<M.Counter>, ghost t: nat)
      requires Valid() && |start| == 3
      requires forall i | 0 <= i < 3 :: c[i].View() == if gates[i] then M.Ticks(start[i], t) else start[i]
      modifies c
      ensures forall i | 0 <= i < 3 :: c[i].View() == if gates[i] then M.Ticks(start[i], t + 1) else start[i]
    {
      hide M.Tick;
      for i := 0 to 3
        invariant forall j | 0 <= j < i :: c[j].View() == if gates[j] then M.Ticks(start[j], t + 1) else start[j]
        invariant forall j | i <= j < 3 :: c[j].View() == if gates[j] then M.Ticks(start[j], t) else start[j]
      {
        if gates[i] {
          c[i].Tick();
        }
      }
    }

    method RunTicks(ticks: nat)
      requires Valid()
      modifies c
      ensures Valid()
      ensures CounterViews() == C.GatedTicks(old(View()), ticks)
    {
      ghost var start := CounterViews();
      for t := 0 to ticks
        invariant Valid()
        invariant forall i | 0 <= i < 3 :: c[i].View() == if gates[i] then M.Ticks(start[i], t) else start[i]
      {
        TickAll(start, t);
      }
    }

    /** Turn elapsed T-states into ticks; keep the remainder; cap the work. */
    method OnStep(tstates: C.u64)
      requires Valid()
      modifies this, c
      ensures Valid() && View() == C.OnStep(old(View()), tstates)
    {
      hide M.Quotient, M.Remainder, C.GatedTicks;
      var delta := (tstates - lastTstates) % M.U64;
      var accum := (clkAccum + delta) % M.U64;
      var ticks := M.Quotient(accum, clkdiv);
      M.Divided(accum, clkdiv);
      ghost var before := View();
      lastTstates := tstates;
      clkAccum := accum - ticks * clkdiv;
      var capped := if ticks > M.TICK_CAP then M.TICK_CAP else ticks;
      RunTicks(capped);
      assert CounterViews() == C.GatedTicks(before, capped);
    }

    method WritePort(port: nat, val: byte)
      requires Valid() && port < 4
      modifies c
      ensures Valid() && View() == C.WritePort(old(View()), port, val)
    {
      ghost var before := CounterViews();
      if port < 3 {
        c[port].WriteCounter(val);
        assert CounterViews() == before[port := c[port].View()];
      } else if val / 0x40 != 3 {
        c[val / 0x40].WriteControl(val);
        assert CounterViews() == before[val / 0x40 := c[val / 0x40].View()];
      }
    }

    /** A processor read of a counter port: the byte, then the sequencing. */
    method ReadPort(port: nat) returns (r: byte)
      requires Valid() && port < 3
      modifies c
      ensures Valid() && r == M.ReadByte(old(View()).counters[port]) && View() == C.AfterRead(old(View()), port)
    {
      ghost var before := CounterViews();
      r := c[port].ReadByte();
      c[port].AdvanceRead();
      assert CounterViews() == before[port := c[port].View()];
    }
  }
}
