/** The interrupt machine: what every reachable instruction boundary satisfies,
    which source an acceptance takes, and how far EI and a handler stay closed. */
module CpuInterrupts {
  import opened Wrappers
  import opened CpuArith
  import opened CpuModel
  import opened CpuRuns

  const EI: byte := 0xFB
  const DI: byte := 0xF3
  const HLT: byte := 0x76
  const SIM: byte := 0x30

  /** Power-on reset keeps memory and ports and clears everything else. */
  function Reset(c: Cpu, pc: word, sp: word): Cpu {
    Cpu(Regs(0, 0, 0, 0, 0, 0, 0), sp, pc, Flags(false, false, false, false, false, false, false),
        false, 0, Masks(false, false, false), Lines(false, false, false, false, false, 0, false),
        false, false, c.mem, c.io)
  }

  /** What instructions do to the interrupt state: EI, DI and HLT their one field
      each, SIM the RST 7.5 latch under bit 4 of the accumulator and the masks under
      bit 3, all other opcodes nothing. */
  ghost predicate InterruptFrame(c: Cpu, op: byte, r: Cpu) {
    && r.enabled == (c.enabled && op != DI)
    && r.delay == (if op == DI then 0 else if op == EI then 2 else c.delay)
    && r.halted == (c.halted || op == HLT)
    && (op != SIM ==> r.masks == c.masks && r.lines == c.lines)
    && (op == SIM ==>
          && r.lines == (if BitOf(c.regs.a, 0x10) then c.lines.(r7 := false) else c.lines)
          && r.masks == (if BitOf(c.regs.a, 8) then Masks(BitOf(c.regs.a, 1), BitOf(c.regs.a, 2), BitOf(c.regs.a, 4)) else c.masks))
  }

  /** The parts of the state that only the instructions above touch. */
  ghost predicate Aside(c: Cpu, r: Cpu) {
    r.enabled == c.enabled && r.delay == c.delay && r.halted == c.halted && r.masks == c.masks && r.lines == c.lines
  }

  lemma SetRegAside(env: Env, c: Cpu, r: nat, v: byte)
    requires r < 8
    ensures Aside(c, SetReg(env, c, r, v))
  {
  }

  lemma SetPairAside(c: Cpu, p: nat, w: word)
    requires p < 4
    ensures Aside(c, SetPair(c, p, w))
  {
  }

  lemma ExecMiscFrame(c: Cpu, row: nat, imm1: byte)
    requires row < 8
    ensures InterruptFrame(c, 8 * row, ExecMisc(c, row, imm1).cpu)
  {
    hide DoubleSub, RotateWord, RimByte, BitOf, Wrap;
  }

  lemma ExecAccumulatorFrame(c: Cpu, row: nat)
    requires row < 8
    ensures Aside(c, ExecAccumulator(c, row).cpu)
  {
    hide DecimalAdjust, Rotate;
  }

  lemma ExecIncDecMoveFrame(env: Env, c: Cpu, row: nat, column: nat, imm1: byte)
    requires row < 8 && 4 <= column < 7
    ensures Aside(c, ExecIncDecMove(env, c, row, column, imm1).cpu)
  {
    hide SetReg, Increment, Decrement, Reg;
    SetRegAside(env, c, row, imm1);
    SetRegAside(env, c, row, Increment(c.cc, Reg(c, row)).value);
    SetRegAside(env, c, row, Decrement(c.cc, Reg(c, row)).value);
  }

  lemma ExecLowFrame(env: Env, c: Cpu, row: nat, column: nat, imm1: byte, imm2: byte)
    requires row < 8 && column < 8
    ensures InterruptFrame(c, 8 * row + column, ExecLow(env, c, row, column, imm1, imm2).cpu)
  {
    hide Store, Wrap, Word, ExecMisc, ExecAccumulator, ExecIncDecMove, Pair, SetPair;
    match column
    case 0 => ExecMiscFrame(c, row, imm1);
    case 1 =>
      SetPairAside(c, row / 2, Word(imm2, imm1));
      SetPairAside(c, 2, Wrap(HL(c) + Pair(c, row / 2)));
    case 2 =>
    case 3 =>
      SetPairAside(c, row / 2, Wrap(Pair(c, row / 2) + 1));
      SetPairAside(c, row / 2, Wrap(Pair(c, row / 2) - 1));
    case 7 => ExecAccumulatorFrame(c, row);
    case _ => ExecIncDecMoveFrame(env, c, row, column, imm1);
  }

  lemma PushAside(env: Env, c: Cpu, w: word)
    ensures Aside(c, PushWord(env, c, w))
  {
  }

  lemma ExecPopFrame(env: Env, c: Cpu, row: nat)
    requires row < 8
    ensures Aside(c, ExecPop(env, c, row).cpu)
  {
    hide Store, FlagsOf;
  }

  lemma ExecPushFrame(env: Env, c: Cpu, row: nat, imm1: byte, imm2: byte)
    requires row < 8
    ensures Aside(c, ExecPush(env, c, row, imm1, imm2).cpu)
  {
    hide PushWord, PushPair;
    PushAside(env, c, Wrap(c.pc + 2));
    if row % 2 == 0 {
      PushAside(env, c, PushPair(c, row / 2));
    }
  }

  lemma ExecSystemFrame(env: Env, c: Cpu, row: nat, imm1: byte, imm2: byte)
    requires row < 8
    ensures InterruptFrame(c, 0xC0 + 8 * row + 3, ExecSystem(env, c, row, imm1, imm2).cpu)
  {
    hide Store, PushWord;
    PushAside(env, c, c.pc);
  }

  lemma ExecConditionalFrame(env: Env, c: Cpu, row: nat, column: nat, imm1: byte, imm2: byte)
    requires row < 8 && column in {0, 2, 4}
    ensures Aside(c, ExecConditional(env, c, row, column, imm1, imm2).cpu)
  {
    hide PushWord, Holds, TopWord;
    PushAside(env, c, Wrap(c.pc + 2));
  }

  lemma AluImmediateFrame(c: Cpu, op: nat, y: byte)
    requires op < 8
    ensures Aside(c, AluImmediate(c, op, y).cpu)
  {
    hide Add, Sub, LogicFlags, And, Or, Xor;
  }

  lemma ExecHighFrame(env: Env, c: Cpu, row: nat, column: nat, imm1: byte, imm2: byte)
    requires row < 8 && column < 8
    ensures InterruptFrame(c, 0xC0 + 8 * row + column, ExecHigh(env, c, row, column, imm1, imm2).cpu)
  {
    hide PushWord, AluImmediate, ExecConditional, ExecPop, ExecPush, ExecSystem;
    match column
    case 1 => ExecPopFrame(env, c, row);
    case 3 => ExecSystemFrame(env, c, row, imm1, imm2);
    case 5 => ExecPushFrame(env, c, row, imm1, imm2);
    case 6 => AluImmediateFrame(c, row, imm1);
    case 7 => PushAside(env, c, c.pc);
    case _ => ExecConditionalFrame(env, c, row, column, imm1, imm2);
  }

  lemma ExecFrame(env: Env, c: Cpu, op: byte, imm1: byte, imm2: byte)
    ensures InterruptFrame(c, op, Exec(env, c, op, imm1, imm2).cpu)
  {
    hide Store, Add, Sub, LogicFlags, And, Or, Xor, ExecLow, ExecHigh, SetReg;
    var row, column := op / 8 % 8, op % 8;
    if op < 0x40 {
      ExecLowFrame(env, c, row, column, imm1, imm2);
    } else if op < 0x80 {
      SetRegAside(env, c, row, Reg(c, column));
    } else if op >= 0xC0 {
      ExecHighFrame(env, c, row, column, imm1, imm2);
    }
  }

  // ----- RIM and SIM

  lemma Nibble(b3: bool, b2: bool, b1: bool, b0: bool)
    ensures var x := 8 * Bit(b3) + 4 * Bit(b2) + 2 * Bit(b1) + Bit(b0);
      x < 0x10 && BitOf(x, 8) == b3 && BitOf(x, 4) == b2 && BitOf(x, 2) == b1 && BitOf(x, 1) == b0
  {
  }

  /** What RIM answers, bit by bit: serial input, the three pending lines, the
      enable flip-flop and the three masks. */
  lemma RimBits(lines: Lines, enabled: bool, masks: Masks)
    ensures var a := RimByte(lines, enabled, masks);
      && BitOf(a, 0x80) == lines.sid && BitOf(a, 0x40) == lines.r7 && BitOf(a, 0x20) == lines.r6 && BitOf(a, 0x10) == lines.r5
      && BitOf(a, 8) == enabled && BitOf(a, 4) == masks.r7 && BitOf(a, 2) == masks.r6 && BitOf(a, 1) == masks.r5
  {
    hide BitOf;
    Nibble(lines.sid, lines.r7, lines.r6, lines.r5);
    Nibble(enabled, masks.r7, masks.r6, masks.r5);
    var h := 8 * Bit(lines.sid) + 4 * Bit(lines.r7) + 2 * Bit(lines.r6) + Bit(lines.r5);
    var l := 8 * Bit(enabled) + 4 * Bit(masks.r7) + 2 * Bit(masks.r6) + Bit(masks.r5);
    HighNibble(RimByte(lines, enabled, masks), h, l);
    LowNibble(RimByte(lines, enabled, masks), h, l);
  }

  /** RIM after SIM: with mask set enabled the masks read back are those just
      written, otherwise the old ones; a pending RST 7.5 reads back unless SIM
      reset it. */
  lemma RimAfterSim(c: Cpu)
    ensures var a, r := c.regs.a, Rim(Sim(c)).regs.a;
      && BitOf(r, 4) == (if BitOf(a, 8) then BitOf(a, 4) else c.masks.r7)
      && BitOf(r, 2) == (if BitOf(a, 8) then BitOf(a, 2) else c.masks.r6)
      && BitOf(r, 1) == (if BitOf(a, 8) then BitOf(a, 1) else c.masks.r5)
      && BitOf(r, 0x40) == (c.lines.r7 && !BitOf(a, 0x10))
      && BitOf(r, 0x20) == c.lines.r6 && BitOf(r, 0x10) == c.lines.r5
  {
    hide BitOf, RimByte;
    var d := Sim(c);
    RimBits(d.lines, d.enabled, d.masks);
  }

  // ----- every reachable boundary

  ghost predicate Settled(c: Cpu) {
    c.delay <= 1 && (c.halted ==> c.delay == 0)
  }

  /** The opcode the next step executes, if it executes one. */
  function NextOpcode(env: Env, c: Cpu): byte {
    var d := Entered(env, c);
    d.mem[d.pc]
  }

  predicate Sleeps(env: Env, c: Cpu) {
    Entered(env, c).halted
  }

  /** The enable flip-flop and its delay after one step. */
  lemma StepEnables(env: Env, c: Cpu)
    requires c.delay <= 1 && !Sleeps(env, c)
    ensures var op, before := NextOpcode(env, c), Entered(env, c).enabled;
      var r := Step(env, c).cpu;
      && r.enabled == (op != DI && (before || (c.delay == 1 && op != EI)))
      && r.delay == (if op == EI then 1 else 0)
      && r.halted == (op == HLT)
  {
    var d := Entered(env, c);
    EnteredFrame(env, c);
    var e := d.(pc := Wrap(d.pc + 1));
    ExecFrame(env, e, d.mem[d.pc], Load(env, d.mem, d.pc + 1), Load(env, d.mem, d.pc + 2));
    hide Exec, Entered;
  }

  lemma AcceptFrame(env: Env, c: Cpu, s: Source)
    ensures var d := Accept(env, c, s);
      && d.delay == c.delay && d.masks == c.masks && d.regs == c.regs && d.cc == c.cc && !d.enabled
  {
    hide Store;
    match s
    case Trap => case Rst75 => case Rst65 => case Rst55 => case Intr =>
  }

  lemma EnteredFrame(env: Env, c: Cpu)
    ensures var d := Entered(env, c);
      && d.delay == c.delay && d.masks == c.masks && d.regs == c.regs && d.cc == c.cc
      && d.enabled == (c.enabled && Chosen(c).None?)
      && d.halted == (c.halted && Chosen(c).None?)
  {
    hide Accept, Chosen;
    if Chosen(c).Some? {
      AcceptFrame(env, c, Chosen(c).value);
    }
  }

  /** From reset, under any program and any signals: the delay is 0 or 1 at every
      instruction boundary, and a halted processor has no enable pending. */
  lemma {:induction false} ReachableIsSettled(c: Cpu, pc: word, sp: word, inputs: seq<Input>)
    ensures Settled(Run(Reset(c, pc, sp), inputs))
  {
    if |inputs| != 0 {
      var n := |inputs| - 1;
      ReachableIsSettled(c, pc, sp, inputs[..n]);
      var d := Run(Reset(c, pc, sp), inputs[..n]);
      SignalsTouchLinesOnly(d, inputs[n].signals);
      var e := Signalled(d, inputs[n].signals);
      EnteredFrame(inputs[n].env, e);
      if !Sleeps(inputs[n].env, e) {
        StepEnables(inputs[n].env, e);
      }
      hide Executed, Signalled;
    }
  }

  // ----- which interrupt is accepted

  function Priority(s: Source): nat {
    match s case Trap => 0 case Rst75 => 1 case Rst65 => 2 case Rst55 => 3 case Intr => 4
  }

  function Vector(c: Cpu, s: Source): word {
    match s case Trap => 0x24 case Rst75 => 0x3C case Rst65 => 0x34 case Rst55 => 0x2C case Intr => 8 * c.lines.intNumber
  }

  predicate Pending(lines: Lines, s: Source) {
    match s
    case Trap => lines.trap case Rst75 => lines.r7 case Rst65 => lines.r6 case Rst55 => lines.r5 case Intr => lines.intr
  }

  /** An interrupt is taken exactly when some source is eligible; the one taken
      is the eligible source of highest priority. */
  lemma ChoosesHighestPriority(c: Cpu, s: Source)
    ensures Chosen(c) == Some(s) <==> Eligible(c, s) && forall t | Eligible(c, t) :: Priority(s) <= Priority(t)
  {
    assert forall t | t != s :: Priority(s) != Priority(t);
    match Chosen(c)
    case Some(t) => assert Eligible(c, t);
    case None =>
  }

  /** Accepting s clears s and no other line, turns interrupts off, ends a halt,
      and goes to the vector of s with the interrupted pc on the stack. */
  lemma AcceptanceIsExact(env: Env, c: Cpu, s: Source)
    requires Chosen(c) == Some(s)
    ensures var d := Entered(env, c);
      && (forall t :: Pending(d.lines, t) == (Pending(c.lines, t) && t != s))
      && d.lines.sid == c.lines.sid && d.lines.intNumber == c.lines.intNumber
      && d == PushWord(env, c, c.pc).(lines := d.lines, pc := Vector(c, s), enabled := false, halted := false)
  {
    hide Store;
  }

  // ----- the shadow of EI

  /** EI executed with interrupts off: whatever is signalled before the next
      step, only TRAP can be accepted there; after that step interrupts are on,
      unless it ran DI or another EI. */
  lemma EiShadow(env: Env, c: Cpu, signals: seq<Signal>, env': Env)
    requires c.delay <= 1 && !Sleeps(env, c) && NextOpcode(env, c) == EI
    requires !c.enabled || Chosen(c).Some?
    ensures var d := Signalled(Step(env, c).cpu, signals);
      && Chosen(d) == (if d.lines.trap then Some(Trap) else None)
      && (Step(env', d).cpu.enabled <==> NextOpcode(env', d) != EI && NextOpcode(env', d) != DI)
  {
    EnteredFrame(env, c);
    StepEnables(env, c);
    SignalsTouchLinesOnly(Step(env, c).cpu, signals);
    var d := Signalled(Step(env, c).cpu, signals);
    hide Step, Signalled;
    EnteredFrame(env', d);
    StepEnables(env', d);
  }

  // ----- handlers

  /** The processor when step i of a run begins, signals delivered. */
  function At(c: Cpu, inputs: seq<Input>, i: nat): Cpu
    requires i < |inputs|
  {
    Signalled(Run(c, inputs[..i]), inputs[i].signals)
  }

  lemma RunOneMore(c: Cpu, inputs: seq<Input>, i: nat)
    requires i < |inputs|
    ensures Run(c, inputs[..i + 1]) == Step(inputs[i].env, At(c, inputs, i)).cpu
  {
    var prefix := inputs[..i + 1];
    assert prefix[..i] == inputs[..i];
  }

  /** Step i of the run executes op. */
  predicate Runs(c: Cpu, inputs: seq<Input>, i: nat, op: byte)
    requires i < |inputs|
  {
    !Sleeps(inputs[i].env, At(c, inputs, i)) && NextOpcode(inputs[i].env, At(c, inputs, i)) == op
  }

  /** With interrupts off and no enable pending, nothing but TRAP is accepted at
      step i unless an EI ran before step i - 1. */
  lemma {:induction false} ClosedUntilAfterEi(c: Cpu, inputs: seq<Input>, i: nat)
    requires !c.enabled && c.delay == 0 && i < |inputs|
    requires forall j | 0 <= j <= i :: !At(c, inputs, j).lines.trap
    requires forall j | 0 <= j < i - 1 :: !Runs(c, inputs, j, EI)
    ensures var d := At(c, inputs, i);
      && Chosen(d) == None && !d.enabled && d.delay <= 1
      && (d.delay == 1 ==> i > 0 && Runs(c, inputs, i - 1, EI))
  {
    hide Run, Runs, Step, Chosen;
    SignalsTouchLinesOnly(Run(c, inputs[..i]), inputs[i].signals);
    if i == 0 {
      assert Run(c, inputs[..0]) == c by { NoSteps(c, inputs); }
    } else {
      ClosedUntilAfterEi(c, inputs, i - 1);
      RunOneMore(c, inputs, i - 1);
      StepWhileClosed(c, inputs, i - 1);
    }
    EnabledToBeChosen(At(c, inputs, i));
  }

  lemma NoSteps(c: Cpu, inputs: seq<Input>)
    ensures Run(c, inputs[..0]) == c
  {
  }

  lemma StepWhileClosed(c: Cpu, inputs: seq<Input>, i: nat)
    requires i < |inputs|
    requires var d := At(c, inputs, i); !d.enabled && d.delay == 0 && Chosen(d) == None
    ensures var r := Step(inputs[i].env, At(c, inputs, i)).cpu;
      !r.enabled && r.delay == if Runs(c, inputs, i, EI) then 1 else 0
  {
    hide At, Executed;
    var env, d := inputs[i].env, At(c, inputs, i);
    EnteredFrame(env, d);
    if !Sleeps(env, d) {
      StepEnables(env, d);
    }
  }

  /** An acceptance that finds an enable pending (EI ran just before) leaves the
      handler open after its first instruction, unless that is DI or EI; an
      acceptance that finds none leaves it closed. */
  lemma HandlerStartsClosed(env: Env, c: Cpu)
    requires c.delay <= 1 && Chosen(c).Some?
    ensures Step(env, c).cpu.enabled <==>
      c.delay == 1 && NextOpcode(env, c) != EI && NextOpcode(env, c) != DI
    ensures Step(env, c).cpu.delay == if NextOpcode(env, c) == EI then 1 else 0
  {
    EnteredFrame(env, c);
    StepEnables(env, c);
  }

  lemma FirstStepCloses(c: Cpu, inputs: seq<Input>)
    requires |inputs| > 0 && c.delay == 0 && Chosen(At(c, inputs, 0)).Some?
    ensures !Run(c, inputs[..1]).enabled
    ensures Run(c, inputs[..1]).delay == if Runs(c, inputs, 0, EI) then 1 else 0
  {
    SignalsTouchLinesOnly(Run(c, inputs[..0]), inputs[0].signals);
    var d := At(c, inputs, 0);
    EnteredFrame(inputs[0].env, d);
    HandlerStartsClosed(inputs[0].env, d);
    RunOneMore(c, inputs, 0);
  }

  /** Handlers do not nest. Step 0 accepts an interrupt with no enable pending;
      TRAP stays quiet; the first EI of the handler runs no earlier than step
      i - 1. Then step i accepts nothing: in a handler that ends EI; RET the RET
      runs before the next acceptance. */
  lemma HandlerDoesNotNest(c: Cpu, inputs: seq<Input>, i: nat)
    requires 1 <= i < |inputs| && c.delay == 0 && Chosen(At(c, inputs, 0)).Some?
    requires forall j | 1 <= j <= i :: !At(c, inputs, j).lines.trap
    requires forall j | 0 <= j < i - 1 :: !Runs(c, inputs, j, EI)
    ensures Chosen(At(c, inputs, i)) == None
  {
    FirstStepCloses(c, inputs);
    hide At, Run, Runs, Chosen;
    if i > 1 {
      ClosedRest(c, inputs, i);
    } else {
      SignalledKeepsEnable(c, inputs);
      EnabledToBeChosen(At(c, inputs, 1));
    }
  }

  lemma SignalledKeepsEnable(c: Cpu, inputs: seq<Input>)
    requires |inputs| > 1
    ensures At(c, inputs, 1).enabled == Run(c, inputs[..1]).enabled
  {
    SignalsTouchLinesOnly(Run(c, inputs[..1]), inputs[1].signals);
  }

  lemma EnabledToBeChosen(c: Cpu)
    ensures !c.enabled && !c.lines.trap ==> Chosen(c) == None
  {
  }

  /** A run seen from its second step. */
  lemma {:induction false} RunFromSecond(c: Cpu, inputs: seq<Input>, k: nat)
    requires 1 <= k <= |inputs|
    ensures Run(c, inputs[..k]) == Run(Run(c, inputs[..1]), inputs[1..][..k - 1])
  {
    if k > 1 {
      RunFromSecond(c, inputs, k - 1);
      RunOneMore(c, inputs, k - 1);
      RunOneMore(Run(c, inputs[..1]), inputs[1..], k - 2);
    }
  }

  lemma ShiftAt(c: Cpu, inputs: seq<Input>, j: nat)
    requires 1 <= j < |inputs|
    ensures At(c, inputs, j) == At(Run(c, inputs[..1]), inputs[1..], j - 1)
    ensures Runs(c, inputs, j, EI) == Runs(Run(c, inputs[..1]), inputs[1..], j - 1, EI)
  {
    RunFromSecond(c, inputs, j);
  }

  lemma ClosedRest(c: Cpu, inputs: seq<Input>, i: nat)
    requires 2 <= i < |inputs|
    requires !Run(c, inputs[..1]).enabled && Run(c, inputs[..1]).delay == 0
    requires forall j | 1 <= j <= i :: !At(c, inputs, j).lines.trap
    requires forall j | 0 <= j < i - 1 :: !Runs(c, inputs, j, EI)
    ensures Chosen(At(c, inputs, i)) == None
  {
    hide At, Run, Runs, Chosen;
    var e, rest := Run(c, inputs[..1]), inputs[1..];
    forall j | 0 <= j <= i - 1
      ensures !At(e, rest, j).lines.trap
    {
      ShiftAt(c, inputs, j + 1);
    }
    forall j | 0 <= j < i - 2
      ensures !Runs(e, rest, j, EI)
    {
      ShiftAt(c, inputs, j + 1);
    }
    ShiftAt(c, inputs, i);
    ClosedUntilAfterEi(e, rest, i - 1);
  }

  // ----- the redundant EI

  /** An enable is pending while interrupts are on exactly when the last step ran
      an EI with interrupts on. */
  lemma PendingWhileOn(env: Env, c: Cpu)
    requires c.delay <= 1 && !Sleeps(env, c)
    ensures var r := Step(env, c).cpu;
      r.enabled && r.delay == 1 <==> NextOpcode(env, c) == EI && Entered(env, c).enabled
  {
    StepEnables(env, c);
    hide Step, Entered;
  }

  /** The enable pending at a boundary of a run from reset: exactly when the step
      before it ran EI, and with interrupts on exactly when that EI did. */
  lemma PendingAtBoundary(c: Cpu, inputs: seq<Input>, i: nat)
    requires i < |inputs| && Settled(c) && (i == 0 ==> c.delay == 0)
    requires i > 0 ==> Settled(Run(c, inputs[..i - 1]))
    ensures var d := At(c, inputs, i);
      && d.delay == (if i > 0 && Runs(c, inputs, i - 1, EI) then 1 else 0)
      && (d.enabled && d.delay == 1 <==>
            i > 0 && Runs(c, inputs, i - 1, EI) && Entered(inputs[i - 1].env, At(c, inputs, i - 1)).enabled)
  {
    hide Step, Entered, Settled, Run;
    SignalsTouchLinesOnly(Run(c, inputs[..i]), inputs[i].signals);
    if i == 0 {
      NoSteps(c, inputs);
    } else {
      RunOneMore(c, inputs, i - 1);
      var e, env := At(c, inputs, i - 1), inputs[i - 1].env;
      SignalsTouchLinesOnly(Run(c, inputs[..i - 1]), inputs[i - 1].signals);
      SettledFacts(Run(c, inputs[..i - 1]), e);
      if Sleeps(env, e) {
        SleepKeeps(env, e);
      } else {
        StepEnables(env, e);
        PendingWhileOn(env, e);
      }
    }
  }

  lemma SettledFacts(c: Cpu, d: Cpu)
    requires Settled(c) && d == c.(lines := d.lines)
    ensures d.delay <= 1 && (d.halted ==> d.delay == 0)
  {
  }

  lemma SleepKeeps(env: Env, c: Cpu)
    requires Sleeps(env, c)
    ensures Step(env, c).cpu == c && c.halted
  {
    EnteredFrame(env, c);
    hide Accept, Chosen;
  }

  /** Main result on nesting, for every run from reset and every accepted maskable
      interrupt: interrupts are on again after the first handler instruction, so
      that the handler can be interrupted there, if and only if the step before
      the acceptance ran EI with interrupts on and that instruction is neither
      EI nor DI. */
  lemma NestingExactly(c: Cpu, pc: word, sp: word, inputs: seq<Input>, i: nat)
    requires i < |inputs|
    requires var d := At(Reset(c, pc, sp), inputs, i); Chosen(d).Some? && !d.lines.trap
    ensures var start := Reset(c, pc, sp);
      var op := NextOpcode(inputs[i].env, At(start, inputs, i));
      Run(start, inputs[..i + 1]).enabled <==>
        && op != EI && op != DI
        && i > 0 && Runs(start, inputs, i - 1, EI) && Entered(inputs[i - 1].env, At(start, inputs, i - 1)).enabled
  {
    hide Step, Entered, Run, At, Reset;
    var start := Reset(c, pc, sp);
    ResetSettled(c, pc, sp);
    ReachableIsSettled(c, pc, sp, inputs[..i]);
    if i > 0 {
      ReachableIsSettled(c, pc, sp, inputs[..i - 1]);
    }
    PendingAtBoundary(start, inputs, i);
    RunOneMore(start, inputs, i);
    HandlerStartsClosed(inputs[i].env, At(start, inputs, i));
  }

  lemma ResetSettled(c: Cpu, pc: word, sp: word)
    ensures Settled(Reset(c, pc, sp)) && Reset(c, pc, sp).delay == 0
  {
  }

  const NOP: byte := 0

  lemma EiExec(env: Env, c: Cpu, imm1: byte, imm2: byte)
    ensures Exec(env, c, EI, imm1, imm2).cpu == c.(delay := 2)
  {
    hide ExecPop, ExecPush, ExecConditional, AluImmediate, ExecMove, AluOp, ExecLow, PushWord, Store, TopWord, Skip;
  }

  lemma EiExecuted(env: Env, d: Cpu)
    requires d.mem[d.pc] == EI
    ensures Executed(env, d).cpu == Tick(d.(pc := Wrap(d.pc + 1), delay := 2))
  {
    hide Load, Exec;
    EiExec(env, d.(pc := Wrap(d.pc + 1)), Load(env, d.mem, d.pc + 1), Load(env, d.mem, d.pc + 2));
  }

  /** EI and NOP with nothing to accept. */
  lemma QuietStep(env: Env, c: Cpu)
    requires Chosen(c).None? && !c.halted && c.mem[c.pc] in {EI, NOP}
    ensures Step(env, c).cpu == Tick(c.(pc := Wrap(c.pc + 1), delay := if c.mem[c.pc] == EI then 2 else c.delay))
  {
    hide Executed, Chosen, Accept;
    if c.mem[c.pc] == EI {
      EiExecuted(env, c);
    } else {
      NopExecuted(env, c);
    }
  }

  /** The step that accepts RST 7.5 and runs a NOP as first handler instruction. */
  lemma AcceptThenNop(env: Env, c: Cpu)
    requires Chosen(c) == Some(Rst75) && c.sp >= 0x42 && c.mem[0x3C] == NOP
    ensures var r := Step(env, c).cpu;
      && r.pc == 0x3D && r.enabled == (c.delay == 1) && !r.halted
      && r.lines == c.lines.(r7 := false) && r.masks == c.masks
  {
    AcceptanceIsExact(env, c, Rst75);
    AcceptFrame(env, c, Rst75);
    PushAbove(env, c);
    var d := Entered(env, c);
    assert d.lines == c.lines.(r7 := false);
    hide Chosen, Accept, Entered, PushWord, Store;
    assert Chosen(d).None? && !d.halted by {
      EnabledToBeChosen(d);
      NoTrapWhenMasked(c);
    }
    NopExecuted(env, d);
  }

  lemma NoTrapWhenMasked(c: Cpu)
    ensures Chosen(c) == Some(Rst75) ==> !c.lines.trap && c.enabled
  {
  }

  lemma NopExecuted(env: Env, d: Cpu)
    requires d.mem[d.pc] == NOP
    ensures Executed(env, d).cpu == Tick(d.(pc := Wrap(d.pc + 1)))
  {
    hide Load;
  }

  lemma PushAbove(env: Env, c: Cpu)
    requires c.sp >= 0x42
    ensures PushWord(env, c, c.pc).mem[0x3C] == c.mem[0x3C]
  {
    StoreExact(env, c.mem, c.sp - 1, Hi(c.pc));
    StoreExact(env, Store(env, c.mem, c.sp - 1, Hi(c.pc)), c.sp - 2, Lo(c.pc));
    hide Store;
  }

  /** A processor fresh from reset whose program reads EI; NOP; EI, and whose RST
      7.5 handler begins with a NOP. */
  predicate RedundantEiProgram(mem: Memory) {
    mem[0] == EI && mem[1] == NOP && mem[2] == EI && mem[0x3C] == NOP
  }

  /** Three quiet boundaries, then RST 7.5, then RST 6.5. */
  predicate NestingInputs(inputs: seq<Input>) {
    && |inputs| == 5 && (forall i | 0 <= i < 3 :: inputs[i].signals == [])
    && inputs[3].signals == [Interrupt(75, true)] && inputs[4].signals == [Interrupt(65, true)]
  }

  lemma OneSignal(c: Cpu, code: int)
    ensures Signalled(c, [Interrupt(code, true)]) == Trigger(c, code, true)
  {
    assert [Interrupt(code, true)][..0] == [];
  }

  lemma QuietAt(c: Cpu, inputs: seq<Input>, i: nat)
    requires i < |inputs| && inputs[i].signals == []
    ensures At(c, inputs, i) == Run(c, inputs[..i])
    ensures Run(c, inputs[..i + 1]) == Step(inputs[i].env, Run(c, inputs[..i])).cpu
  {
    RunOneMore(c, inputs, i);
  }

  /** A reset processor some quiet steps on. */
  function Onward(c: Cpu, pc: word, enabled: bool, delay: byte): Cpu {
    Reset(c, pc, 0x8000).(enabled := enabled, delay := delay)
  }

  lemma OnwardFromReset(c: Cpu)
    ensures Reset(c, 0, 0x8000) == Onward(c, 0, false, 0)
  {
  }

  lemma QuietOnward(env: Env, c: Cpu, pc: word, enabled: bool, delay: byte)
    requires c.mem[pc] in {EI, NOP} && pc < 3 && delay <= 1
    ensures Step(env, Onward(c, pc, enabled, delay)).cpu ==
      if c.mem[pc] == EI then Onward(c, pc + 1, enabled, 1) else Onward(c, pc + 1, enabled || delay == 1, 0)
  {
    var d := Onward(c, pc, enabled, delay);
    assert Chosen(d).None?;
    QuietStep(env, d);
    hide Step, Chosen;
  }

  /** The first three steps. */
  lemma NestingStart(c: Cpu, inputs: seq<Input>)
    requires NestingInputs(inputs) && RedundantEiProgram(c.mem)
    ensures Run(Reset(c, 0, 0x8000), inputs[..3]) == Onward(c, 3, true, 1)
  {
    hide Run, Step, At, Onward, Reset;
    var start := Reset(c, 0, 0x8000);
    OnwardFromReset(c);
    NoSteps(start, inputs);
    QuietAt(start, inputs, 0);
    QuietOnward(inputs[0].env, c, 0, false, 0);
    QuietAt(start, inputs, 1);
    QuietOnward(inputs[1].env, c, 1, false, 1);
    QuietAt(start, inputs, 2);
    QuietOnward(inputs[2].env, c, 2, true, 0);
  }

  /** The handler of RST 7.5, one instruction in. */
  lemma NestingAccept(env: Env, c: Cpu)
    requires RedundantEiProgram(c.mem)
    ensures var d := Trigger(Onward(c, 3, true, 1), 75, true);
      && d.enabled && d.delay == 1 && Chosen(d) == Some(Rst75)
      && var e := Step(env, d).cpu; e.pc == 0x3D && e.enabled && !e.masks.r6 && !e.lines.trap && !e.lines.r7
  {
    AcceptThenNop(env, Trigger(Onward(c, 3, true, 1), 75, true));
    hide Step;
  }

  lemma NestingAgain(e: Cpu)
    requires e.enabled && !e.masks.r6 && !e.lines.trap && !e.lines.r7
    ensures Chosen(Trigger(e, 65, true)) == Some(Rst65) && Trigger(e, 65, true).pc == e.pc
  {
  }

  /** A run from reset in which a handler is interrupted after its first
      instruction: the EI at address 2 runs with interrupts on, so an enable is
      pending when RST 7.5 is accepted, and RST 6.5 is accepted one instruction
      into the handler, long before any RET. */
  lemma RedundantEiNests(c: Cpu, inputs: seq<Input>)
    requires NestingInputs(inputs) && RedundantEiProgram(c.mem)
    ensures var third, fourth := At(Reset(c, 0, 0x8000), inputs, 3), At(Reset(c, 0, 0x8000), inputs, 4);
      && third.enabled && third.delay == 1 && Chosen(third) == Some(Rst75)
      && fourth.pc == 0x3D && Chosen(fourth) == Some(Rst65)
  {
    hide Run, Step, Onward, Reset, Trigger, Signalled, Chosen;
    var start := Reset(c, 0, 0x8000);
    NestingStart(c, inputs);
    OneSignal(Run(start, inputs[..3]), 75);
    NestingAccept(inputs[3].env, c);
    RunOneMore(start, inputs, 3);
    OneSignal(Run(start, inputs[..4]), 65);
    NestingAgain(Run(start, inputs[..4]));
  }
}
