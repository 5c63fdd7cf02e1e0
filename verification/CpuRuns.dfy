/** Whole runs of the processor: external interrupt signals, sequences of steps,
    and what every run keeps. First of all write protection. */
module CpuRuns {
  import opened CpuArith
  import opened CpuModel

  // ----- signals from outside

  /** The interrupt trigger. Codes 0 to 7 are 8080-style INT with a vector, 45 to
      75 are TRAP and RST 5.5 to 7.5; other codes do nothing. RST 7.5 is a latch:
      an inactive signal does not clear it. */
  function Triggered(lines: Lines, code: int, active: bool): Lines {
    if 0 <= code < 8 then lines.(intr := active, intNumber := code)
    else if code == 45 then lines.(trap := active)
    else if code == 55 then lines.(r5 := active)
    else if code == 65 then lines.(r6 := active)
    else if code == 75 && active then lines.(r7 := true)
    else lines
  }

  function Trigger(c: Cpu, code: int, active: bool): Cpu {
    c.(lines := Triggered(c.lines, code, active))
  }

  datatype Signal = Interrupt(code: int, active: bool) | SerialIn(level: bool)

  function Signalled(c: Cpu, signals: seq<Signal>): Cpu {
    if |signals| == 0 then c
    else
      var d := Signalled(c, signals[..|signals|-1]);
      match signals[|signals|-1]
      case Interrupt(code, active) => Trigger(d, code, active)
      case SerialIn(level) => d.(lines := d.lines.(sid := level))
  }

  /** Signals touch pending lines only. */
  lemma {:induction false} SignalsTouchLinesOnly(c: Cpu, signals: seq<Signal>)
    ensures Signalled(c, signals) == c.(lines := Signalled(c, signals).lines)
  {
    if |signals| != 0 {
      SignalsTouchLinesOnly(c, signals[..|signals|-1]);
    }
  }

  /** Everything outside the processor during one step: signals, then the call. */
  datatype Input = Input(signals: seq<Signal>, env: Env)

  function Run(c: Cpu, inputs: seq<Input>): Cpu {
    if |inputs| == 0 then c
    else
      var last := inputs[|inputs|-1];
      Step(last.env, Signalled(Run(c, inputs[..|inputs|-1]), last.signals)).cpu
  }

  // ----- write protection

  ghost predicate Protected(regions: seq<Region>, a: word) {
    exists r :: r in regions && r.Protects(a)
  }

  /** The answer of the plugin chain in one line: the old byte where any region
      protects the address, the processor's byte elsewhere. So the order in
      which the plugins were loaded does not matter. */
  lemma {:induction false} ChainIsVeto(regions: seq<Region>, mem: Memory, a: word, val: byte)
    ensures ChainWrite(regions, mem, a, val) == if Protected(regions, a) then mem[a] else val
  {
    if |regions| != 0 {
      var n := |regions| - 1;
      ChainIsVeto(regions[..n], mem, a, val);
      assert regions == regions[..n] + [regions[n]];
      assert Protected(regions, a) <==> Protected(regions[..n], a) || regions[n].Protects(a);
    }
  }

  lemma LoadOrderIrrelevant(xs: seq<Region>, ys: seq<Region>, mem: Memory, a: word, val: byte)
    requires forall r :: r in xs <==> r in ys
    ensures ChainWrite(xs, mem, a, val) == ChainWrite(ys, mem, a, val)
  {
    ChainIsVeto(xs, mem, a, val);
    ChainIsVeto(ys, mem, a, val);
    assert Protected(xs, a) <==> Protected(ys, a);
  }

  /** What one memory plugin means: a ROM keeps all its bytes; an EEPROM keeps them
      while writing is off and takes every byte while it is on; outside its
      addresses, `end` excluded, a plugin does nothing. */
  lemma RegionMeans(env: Env, mem: Memory, region: Region, a: word, val: byte)
    requires env.regions == [region]
    ensures Store(env, mem, a, val) ==
      if a < region.base || a >= region.end then mem[a := val]
      else if !region.eeprom then mem
      else if region.writeEnabled then mem[a := val] else mem
  {
    StoreExact(env, mem, a, val);
    assert Protected(env.regions, a) <==> region.Protects(a) by {
      assert region in env.regions;
    }
    hide Store;
  }

  ghost predicate Guarded(regions: seq<Region>, before: Memory, after: Memory) {
    forall a: word | Protected(regions, a) :: after[a] == before[a]
  }

  /** A write changes at most its own byte, to exactly the processor's value, and
      changes it exactly where nothing protects it. */
  lemma StoreExact(env: Env, mem: Memory, addr: int, val: byte)
    ensures Store(env, mem, addr, val)
      == if Protected(env.regions, Wrap(addr)) then mem else mem[Wrap(addr) := val]
  {
    ChainIsVeto(env.regions, mem, Wrap(addr), val);
  }

  lemma StoreGuarded(env: Env, mem: Memory, addr: int, val: byte)
    ensures Guarded(env.regions, mem, Store(env, mem, addr, val))
  {
    StoreExact(env, mem, addr, val);
  }

  lemma StoreTwiceGuarded(env: Env, mem: Memory, a1: int, v1: byte, a2: int, v2: byte)
    ensures Guarded(env.regions, mem, Store(env, Store(env, mem, a1, v1), a2, v2))
  {
    StoreGuarded(env, mem, a1, v1);
    StoreGuarded(env, Store(env, mem, a1, v1), a2, v2);
  }

  lemma PushGuarded(env: Env, c: Cpu, w: word)
    ensures Guarded(env.regions, c.mem, PushWord(env, c, w).mem)
  {
    StoreTwiceGuarded(env, c.mem, c.sp - 1, Hi(w), c.sp - 2, Lo(w));
  }

  lemma SetRegGuarded(env: Env, c: Cpu, r: nat, v: byte)
    requires r < 8
    ensures Guarded(env.regions, c.mem, SetReg(env, c, r, v).mem)
  {
    StoreGuarded(env, c.mem, HL(c), v);
  }

  lemma ExecLowGuarded(env: Env, c: Cpu, row: nat, column: nat, imm1: byte, imm2: byte)
    requires row < 8 && column < 8
    ensures Guarded(env.regions, c.mem, ExecLow(env, c, row, column, imm1, imm2).cpu.mem)
  {
    hide Store, Guarded;
    NoWriteGuarded(env, c.mem);
    var addr: int := Word(imm2, imm1);
    match column
    case 2 =>
      StoreGuarded(env, c.mem, BC(c), c.regs.a);
      StoreGuarded(env, c.mem, DE(c), c.regs.a);
      StoreGuarded(env, c.mem, addr, c.regs.a);
      StoreTwiceGuarded(env, c.mem, addr, c.regs.l, addr + 1, c.regs.h);
    case 4 => SetRegGuarded(env, c, row, Increment(c.cc, Reg(c, row)).value);
    case 5 => SetRegGuarded(env, c, row, Decrement(c.cc, Reg(c, row)).value);
    case 6 => SetRegGuarded(env, c, row, imm1);
    case _ =>
  }

  lemma NoWriteGuarded(env: Env, mem: Memory)
    ensures Guarded(env.regions, mem, mem)
  {
  }

  lemma ExecSystemGuarded(env: Env, c: Cpu, row: nat, imm1: byte, imm2: byte)
    requires row < 8
    ensures Guarded(env.regions, c.mem, ExecSystem(env, c, row, imm1, imm2).cpu.mem)
  {
    hide Store, Guarded, PushWord;
    NoWriteGuarded(env, c.mem);
    PushGuarded(env, c, c.pc);
    StoreTwiceGuarded(env, c.mem, c.sp, c.regs.l, c.sp + 1, c.regs.h);
  }

  lemma ExecPushGuarded(env: Env, c: Cpu, row: nat, imm1: byte, imm2: byte)
    requires row < 8
    ensures Guarded(env.regions, c.mem, ExecPush(env, c, row, imm1, imm2).cpu.mem)
  {
    hide Store, Guarded, PushWord;
    NoWriteGuarded(env, c.mem);
    PushGuarded(env, c, Wrap(c.pc + 2));
    if row % 2 == 0 {
      PushGuarded(env, c, PushPair(c, row / 2));
    }
  }

  lemma ExecPopGuarded(env: Env, c: Cpu, row: nat)
    requires row < 8
    ensures Guarded(env.regions, c.mem, ExecPop(env, c, row).cpu.mem)
  {
    hide Store, Guarded, FlagsOf;
    NoWriteGuarded(env, c.mem);
    StoreTwiceGuarded(env, c.mem, DE(c), c.regs.l, DE(c) + 1, c.regs.h);
  }

  lemma ExecConditionalGuarded(env: Env, c: Cpu, row: nat, column: nat, imm1: byte, imm2: byte)
    requires row < 8 && column in {0, 2, 4}
    ensures Guarded(env.regions, c.mem, ExecConditional(env, c, row, column, imm1, imm2).cpu.mem)
  {
    hide Guarded, PushWord, Holds;
    NoWriteGuarded(env, c.mem);
    PushGuarded(env, c, Wrap(c.pc + 2));
  }

  lemma ExecHighGuarded(env: Env, c: Cpu, row: nat, column: nat, imm1: byte, imm2: byte)
    requires row < 8 && column < 8
    ensures Guarded(env.regions, c.mem, ExecHigh(env, c, row, column, imm1, imm2).cpu.mem)
  {
    hide Guarded, PushWord, ExecPop, ExecSystem, ExecPush, ExecConditional;
    NoWriteGuarded(env, c.mem);
    match column
    case 1 => ExecPopGuarded(env, c, row);
    case 3 => ExecSystemGuarded(env, c, row, imm1, imm2);
    case 5 => ExecPushGuarded(env, c, row, imm1, imm2);
    case 6 =>
    case 7 => PushGuarded(env, c, c.pc);
    case _ => ExecConditionalGuarded(env, c, row, column, imm1, imm2);
  }

  lemma ExecGuarded(env: Env, c: Cpu, op: byte, imm1: byte, imm2: byte)
    ensures Guarded(env.regions, c.mem, Exec(env, c, op, imm1, imm2).cpu.mem)
  {
    hide Guarded, ExecLow, ExecHigh, SetReg, Reg;
    var row, column := op / 8 % 8, op % 8;
    NoWriteGuarded(env, c.mem);
    ExecLowGuarded(env, c, row, column, imm1, imm2);
    ExecHighGuarded(env, c, row, column, imm1, imm2);
    SetRegGuarded(env, c, row, Reg(c, column));
  }

  lemma AcceptPushes(env: Env, c: Cpu, s: Source)
    ensures Accept(env, c, s).mem == PushWord(env, c, c.pc).mem && Accept(env, c, s).sp == PushWord(env, c, c.pc).sp
  {
    hide Store;
    match s
    case Trap => case Rst75 => case Rst65 => case Rst55 => case Intr =>
  }

  lemma EnteredGuarded(env: Env, c: Cpu)
    ensures Guarded(env.regions, c.mem, Entered(env, c).mem)
  {
    hide PushWord, Guarded, Chosen, Accept;
    match Chosen(c)
    case None => NoWriteGuarded(env, c.mem);
    case Some(s) =>
      AcceptPushes(env, c, s);
      PushGuarded(env, c, c.pc);
  }

  lemma GuardedTwice(regions: seq<Region>, m1: Memory, m2: Memory, m3: Memory)
    requires Guarded(regions, m1, m2) && Guarded(regions, m2, m3)
    ensures Guarded(regions, m1, m3)
  {
  }

  lemma StepGuarded(env: Env, c: Cpu)
    ensures Guarded(env.regions, c.mem, Step(env, c).cpu.mem)
  {
    hide Entered, Exec, Guarded;
    var d := Entered(env, c);
    EnteredGuarded(env, c);
    var r := Exec(env, d.(pc := Wrap(d.pc + 1)), d.mem[d.pc], Load(env, d.mem, d.pc + 1), Load(env, d.mem, d.pc + 2));
    ExecGuarded(env, d.(pc := Wrap(d.pc + 1)), d.mem[d.pc], Load(env, d.mem, d.pc + 1), Load(env, d.mem, d.pc + 2));
    GuardedTwice(env.regions, c.mem, d.mem, r.cpu.mem);
  }

  /** Main result. Whatever the program, the interrupts, the port inputs and the
      unmasked reads, no byte of a protected region ever changes. */
  lemma {:induction false} ProtectedBytesNeverChange(regions: seq<Region>, c: Cpu, inputs: seq<Input>)
    requires forall i | 0 <= i < |inputs| :: inputs[i].env.regions == regions
    ensures Guarded(regions, c.mem, Run(c, inputs).mem)
  {
    if |inputs| != 0 {
      hide Step;
      var n := |inputs| - 1;
      ProtectedBytesNeverChange(regions, c, inputs[..n]);
      var d := Run(c, inputs[..n]);
      SignalsTouchLinesOnly(d, inputs[n].signals);
      StepGuarded(inputs[n].env, Signalled(d, inputs[n].signals));
    }
  }

  // ----- T-states

  /** Every executed instruction is charged 4 to 18 states; a halted step none. */
  lemma StatesBounded(env: Env, c: Cpu)
    ensures var r := Step(env, c);
      if Entered(env, c).halted then r.states == 0 && r.cpu == c else 4 <= r.states <= 18
  {
    hide SetReg, SetPair, Store, PushWord, Add, Sub, DecimalAdjust, DoubleSub;
  }
}
