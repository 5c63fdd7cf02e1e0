/** The stack in memory refines a last-in first-out sequence of words, under
    pushes, pops, calls, returns, restarts and interrupt acceptances in any
    order, so every return goes back to its caller. */
module CpuStack {
  import opened CpuArith
  import opened CpuModel
  import opened CpuRuns
  import opened CpuLayout

  /** An address, or the end of memory: a stack that starts at sp 0 has its first
      word at the very top. */
  type bound = x: int | 0 <= x <= MEMORY_SIZE

  /** Where the words ws end when they lie downward from base. */
  function Top(base: bound, ws: seq<word>): int {
    base - 2 * |ws|
  }

  /** The words ws lie downward from base, the last one at sp. */
  ghost predicate StackAt(c: Cpu, base: bound, ws: seq<word>) {
    && Top(base, ws) >= 0 && c.sp == Wrap(Top(base, ws))
    && forall i | 0 <= i < |ws| :: WordAt(c.mem, base - 2 * i - 2, ws[i])
  }

  ghost predicate WordAt(mem: Memory, a: int, w: word) {
    0 <= a < MEMORY_SIZE - 1 && mem[a] == Lo(w) && mem[a + 1] == Hi(w)
  }

  ghost predicate Writable(regions: seq<Region>, lo: int, hi: int) {
    forall a: word | lo <= a < hi :: !Protected(regions, a)
  }

  ghost predicate SameOutside(before: Memory, after: Memory, lo: int, hi: int) {
    forall a: word | a < lo || hi <= a :: after[a] == before[a]
  }

  // ----- the two stack primitives

  lemma PushStores(env: Env, c: Cpu, top: bound, w: word)
    requires c.sp == Wrap(top) && top >= 2 && Writable(env.regions, top - 2, top)
    ensures PushWord(env, c, w).mem == c.mem[top - 1 := Hi(w)][top - 2 := Lo(w)]
    ensures PushWord(env, c, w).sp == top - 2
  {
    StoreExact(env, c.mem, c.sp - 1, Hi(w));
    StoreExact(env, c.mem[top - 1 := Hi(w)], c.sp - 2, Lo(w));
    hide Store;
  }

  lemma PushRefines(env: Env, c: Cpu, base: bound, ws: seq<word>, w: word)
    requires StackAt(c, base, ws) && Top(base, ws) >= 2 && Writable(env.regions, Top(base, ws) - 2, Top(base, ws))
    ensures StackAt(PushWord(env, c, w), base, ws + [w])
    ensures SameOutside(c.mem, PushWord(env, c, w).mem, Top(base, ws) - 2, Top(base, ws))
  {
    PushStores(env, c, Top(base, ws), w);
    hide PushWord;
    var d := PushWord(env, c, w);
    forall i | 0 <= i < |ws|
      ensures WordAt(d.mem, base - 2 * i - 2, ws[i])
    {
      assert WordAt(c.mem, base - 2 * i - 2, ws[i]);
    }
    assert WordAt(d.mem, base - 2 * |ws| - 2, w);
  }

  lemma PopRefines(env: Env, c: Cpu, base: bound, ws: seq<word>)
    requires StackAt(c, base, ws) && |ws| > 0
    ensures TopWord(env, c) == ws[|ws|-1] && c.sp == Top(base, ws) <= 0xFFFE
    ensures StackAt(Popped(c), base, ws[..|ws|-1])
  {
    assert WordAt(c.mem, base - 2 * (|ws| - 1) - 2, ws[|ws|-1]);
  }

  /** Why a stack must not wrap in the middle of a word: with sp at 1 the high byte
      of a push goes to address 0 and is then read, unmasked, from past the end of
      memory. That is the only stack pointer at which a pop can miss its push. */
  lemma PushPopExact(env: Env, c: Cpu, w: word)
    requires forall a: word :: !Protected(env.regions, a)
    ensures TopWord(env, PushWord(env, c, w)) == if c.sp == 1 then Word(env.beyond0, Lo(w)) else w
  {
    StoreExact(env, c.mem, c.sp - 1, Hi(w));
    StoreExact(env, c.mem[Wrap(c.sp - 1) := Hi(w)], c.sp - 2, Lo(w));
    hide Store;
    WordSplit(w);
  }

  /** Only sp and the bytes from sp up to base matter. */
  lemma StackUntouched(c: Cpu, d: Cpu, base: bound, ws: seq<word>)
    requires StackAt(c, base, ws) && d.sp == c.sp
    requires forall a: word | Top(base, ws) <= a < base :: d.mem[a] == c.mem[a]
    ensures StackAt(d, base, ws)
  {
    forall i | 0 <= i < |ws|
      ensures WordAt(d.mem, base - 2 * i - 2, ws[i])
    {
      assert WordAt(c.mem, base - 2 * i - 2, ws[i]);
    }
  }

  // ----- instructions

  datatype StackOp = Push(w: word) | Pop | Exchange(w: word) | Keep

  const PUSHES: set<byte> := {0xC5, 0xD5, 0xE5, 0xF5}
  const POPS: set<byte> := {0xC1, 0xD1, 0xE1, 0xF1}
  const XTHL: byte := 0xE3

  /** What the instruction at c.pc does to the abstract stack. */
  function StackOpOf(c: Cpu): StackOp {
    var op := c.mem[c.pc];
    if op in PUSHES then Push(PushPair(c, op / 0x10 % 4))
    else if op in POPS then Pop
    else if op == XTHL then Exchange(HL(c))
    else match FlowOf(op, c.cc)
      case CallTo => Push(Wrap(c.pc + Length(op)))
      case Return => Pop
      case _ => Keep
  }

  function Applied(op: StackOp, ws: seq<word>): seq<word> {
    match op
    case Push(w) => ws + [w]
    case Pop => if |ws| == 0 then ws else ws[..|ws|-1]
    case Exchange(w) => if |ws| == 0 then ws else ws[..|ws|-1] + [w]
    case Keep => ws
  }

  /** Where the popped word w went. */
  ghost predicate Delivered(op: byte, r: Cpu, w: word) {
    if op == 0xF1 then r.regs.a == Hi(w) && r.cc == FlagsOf(Lo(w))
    else if op in POPS then Pair(r, op / 0x10 % 4) == w
    else if op == XTHL then HL(r) == w
    else r.pc == w
  }

  /** The next instruction has room to push above floor, something to pop or
      exchange, and otherwise neither sets sp nor writes among the stacked bytes. */
  ghost predicate InBounds(env: Env, c: Cpu, floor: bound, base: bound, ws: seq<word>) {
    match StackOpOf(c)
    case Push(_) => Top(base, ws) >= floor + 2
    case Pop => |ws| > 0
    case Exchange(_) => |ws| > 0 && Top(base, ws) >= floor
    case Keep =>
      !SetsSp(c.mem[c.pc]) && forall a: word | Top(base, ws) <= a < base :: Executed(env, c).cpu.mem[a] == c.mem[a]
  }

  lemma PushDispatch(env: Env, c: Cpu, op: byte, imm1: byte, imm2: byte)
    requires op in PUSHES
    ensures Exec(env, c, op, imm1, imm2) == Plain(PushWord(env, c, PushPair(c, op / 0x10 % 4)), 13)
  {
    hide PushWord, PushPair, ExecLow, ExecMove, AluOp, ExecPop, ExecSystem, AluImmediate, Restart, ExecConditional;
  }

  lemma PopDispatch(env: Env, c: Cpu, op: byte, imm1: byte, imm2: byte)
    requires op in POPS
    ensures Exec(env, c, op, imm1, imm2) == ExecPop(env, c, op / 8 % 8)
    ensures op / 8 % 8 == 2 * (op / 0x10 % 4)
  {
    hide ExecLow, ExecMove, AluOp, ExecPop, ExecSystem, ExecPush, AluImmediate, Restart, ExecConditional;
  }

  lemma PushExecuted(env: Env, c: Cpu)
    requires c.mem[c.pc] in PUSHES
    ensures var r, w := Executed(env, c).cpu, PushPair(c, c.mem[c.pc] / 0x10 % 4);
      r.mem == PushWord(env, c, w).mem && r.sp == PushWord(env, c, w).sp
  {
    hide Store, Psw, Exec;
    PushDispatch(env, c.(pc := Wrap(c.pc + 1)), c.mem[c.pc], Load(env, c.mem, c.pc + 1), Load(env, c.mem, c.pc + 2));
  }

  lemma PopDelivers(env: Env, c: Cpu, p: nat)
    requires p < 4 && c.sp <= 0xFFFE
    ensures var r, w := ExecPop(env, c, 2 * p).cpu, TopWord(env, c);
      && r.mem == c.mem && r.sp == Wrap(c.sp + 2)
      && if p == 3 then r.regs.a == Hi(w) && r.cc == FlagsOf(Lo(w)) else Pair(r, p) == w
  {
    hide FlagsOf;
  }

  lemma PopDelivered(op: byte, r: Cpu, w: word)
    requires op in POPS
    requires var p := op / 0x10 % 4; if p == 3 then r.regs.a == Hi(w) && r.cc == FlagsOf(Lo(w)) else Pair(r, p) == w
    ensures Delivered(op, r, w)
  {
    hide FlagsOf, Pair;
  }

  lemma DeliveredOnTick(op: byte, c: Cpu, w: word)
    requires Delivered(op, c, w)
    ensures Delivered(op, Tick(c), w) && Tick(c).mem == c.mem && Tick(c).sp == c.sp
  {
  }

  lemma PopExecuted(env: Env, c: Cpu)
    requires c.mem[c.pc] in POPS && c.sp <= 0xFFFE
    ensures var r := Executed(env, c).cpu;
      r.mem == c.mem && r.sp == Wrap(c.sp + 2) && Delivered(c.mem[c.pc], r, TopWord(env, c))
  {
    var e, op := c.(pc := Wrap(c.pc + 1)), c.mem[c.pc];
    assert TopWord(env, e) == TopWord(env, c);
    hide FlagsOf, Exec, ExecPop, Tick, Load, TopWord, Delivered;
    PopDispatch(env, e, op, Load(env, c.mem, c.pc + 1), Load(env, c.mem, c.pc + 2));
    PopDelivers(env, e, op / 0x10 % 4);
    PopDelivered(op, ExecPop(env, e, op / 8 % 8).cpu, TopWord(env, c));
    DeliveredOnTick(op, ExecPop(env, e, op / 8 % 8).cpu, TopWord(env, c));
  }

  lemma ExchangeDispatch(env: Env, c: Cpu, imm1: byte, imm2: byte)
    ensures Exec(env, c, XTHL, imm1, imm2) == ExecSystem(env, c, 4, imm1, imm2)
  {
    hide ExecLow, ExecMove, AluOp, ExecPop, ExecPush, ExecSystem, AluImmediate, Restart, ExecConditional;
  }

  lemma ExchangeStores(env: Env, c: Cpu, imm1: byte, imm2: byte)
    requires c.sp <= 0xFFFE && Writable(env.regions, c.sp, c.sp + 2)
    ensures var r := Tick(ExecSystem(env, c, 4, imm1, imm2).cpu);
      r.mem == c.mem[c.sp := c.regs.l][c.sp + 1 := c.regs.h] && r.sp == c.sp && HL(r) == TopWord(env, c)
  {
    StoreExact(env, c.mem, c.sp, c.regs.l);
    StoreExact(env, c.mem[c.sp := c.regs.l], c.sp + 1, c.regs.h);
    hide Store, TopWord, PushWord;
    WordSplit(TopWord(env, c));
  }

  lemma ExchangeExecuted(env: Env, c: Cpu)
    requires c.mem[c.pc] == XTHL && c.sp <= 0xFFFE && Writable(env.regions, c.sp, c.sp + 2)
    ensures var r := Executed(env, c).cpu;
      r.mem == c.mem[c.sp := c.regs.l][c.sp + 1 := c.regs.h] && r.sp == c.sp && HL(r) == TopWord(env, c)
  {
    var e := c.(pc := Wrap(c.pc + 1));
    assert TopWord(env, e) == TopWord(env, c);
    hide Exec, ExecSystem, TopWord, Tick, Load;
    var imm1, imm2 := Load(env, c.mem, c.pc + 1), Load(env, c.mem, c.pc + 2);
    ExchangeDispatch(env, e, imm1, imm2);
    ExchangeStores(env, e, imm1, imm2);
  }

  lemma ExchangeRefines(env: Env, c: Cpu, floor: bound, base: bound, ws: seq<word>)
    requires StackAt(c, base, ws) && Writable(env.regions, floor, base) && Top(base, ws) >= floor
    requires |ws| > 0 && c.mem[c.pc] == XTHL
    ensures var r := Executed(env, c).cpu;
      && StackAt(r, base, ws[..|ws|-1] + [HL(c)]) && Delivered(XTHL, r, ws[|ws|-1])
      && SameOutside(c.mem, r.mem, Top(base, ws), Top(base, ws) + 2)
  {
    hide Executed, TopWord, Word;
    PopRefines(env, c, base, ws);
    ExchangeExecuted(env, c);
    var r, n := Executed(env, c).cpu, |ws| - 1;
    forall i | 0 <= i < n
      ensures WordAt(r.mem, base - 2 * i - 2, ws[i])
    {
      assert WordAt(c.mem, base - 2 * i - 2, ws[i]);
    }
    WordParts(c.regs.h, c.regs.l);
    assert WordAt(r.mem, base - 2 * n - 2, HL(c));
  }

  lemma WordParts(h: byte, l: byte)
    ensures Hi(Word(h, l)) == h && Lo(Word(h, l)) == l
  {
  }

  lemma KeepsSp(env: Env, c: Cpu)
    requires StackOpOf(c).Keep? && !SetsSp(c.mem[c.pc])
    ensures Executed(env, c).cpu.sp == c.sp
  {
    hide Executed, Length, Target, TopWord, PushWord;
    DisassemblerAgrees(env, c);
  }

  lemma PushLowers(env: Env, c: Cpu, w: word)
    ensures PushWord(env, c, w).sp == Wrap(c.sp - 2)
  {
  }

  lemma PushInstructionRefines(env: Env, c: Cpu, floor: bound, base: bound, ws: seq<word>, w: word)
    requires StackAt(c, base, ws) && Writable(env.regions, floor, base) && Top(base, ws) >= floor + 2
    requires StackOpOf(c) == Push(w)
    ensures var r := Executed(env, c).cpu;
      StackAt(r, base, ws + [w]) && SameOutside(c.mem, r.mem, Top(base, ws) - 2, Top(base, ws))
  {
    hide Executed, PushWord, PushPair, StackAt, Writable, TopWord, SameOutside;
    DisassemblerAgrees(env, c);
    if c.mem[c.pc] in PUSHES {
      PushExecuted(env, c);
    }
    WritablePart(env.regions, floor, base, c, ws);
    PushRefines(env, c, base, ws, w);
    PushLowers(env, c, w);
    SameStack(PushWord(env, c, w), Executed(env, c).cpu, base, ws + [w]);
  }

  lemma PopOrReturn(c: Cpu)
    requires StackOpOf(c) == Pop
    ensures c.mem[c.pc] in POPS || (FlowOf(c.mem[c.pc], c.cc).Return? && c.mem[c.pc] != XTHL)
  {
  }

  lemma PopInstructionRefines(env: Env, c: Cpu, base: bound, ws: seq<word>)
    requires StackAt(c, base, ws) && |ws| > 0 && StackOpOf(c) == Pop
    ensures var r := Executed(env, c).cpu;
      StackAt(r, base, ws[..|ws|-1]) && r.mem == c.mem && Delivered(c.mem[c.pc], r, ws[|ws|-1])
  {
    PopRefines(env, c, base, ws);
    PopOrReturn(c);
    hide Executed, StackAt, TopWord, Target, PushWord, StackOpOf, FlowOf;
    var op := c.mem[c.pc];
    if op in POPS {
      PopExecuted(env, c);
    } else {
      DisassemblerAgrees(env, c);
      hide Length;
    }
    SameStack(Popped(c), Executed(env, c).cpu, base, ws[..|ws|-1]);
  }

  lemma ExchangeIsXthl(c: Cpu)
    ensures StackOpOf(c).Exchange? ==> c.mem[c.pc] == XTHL && StackOpOf(c) == Exchange(HL(c))
  {
  }

  lemma InstructionRefines(env: Env, c: Cpu, floor: bound, base: bound, ws: seq<word>)
    requires StackAt(c, base, ws) && Writable(env.regions, floor, base) && InBounds(env, c, floor, base, ws)
    ensures var r := Executed(env, c).cpu;
      && StackAt(r, base, Applied(StackOpOf(c), ws))
      && (StackOpOf(c).Push? ==> SameOutside(c.mem, r.mem, Top(base, ws) - 2, Top(base, ws)))
      && (StackOpOf(c).Pop? ==> r.mem == c.mem && Delivered(c.mem[c.pc], r, ws[|ws|-1]))
      && (StackOpOf(c).Exchange? ==> SameOutside(c.mem, r.mem, Top(base, ws), Top(base, ws) + 2) && Delivered(XTHL, r, ws[|ws|-1]))
  {
    hide Executed, StackAt, Writable, StackOpOf, SameOutside, Delivered;
    match StackOpOf(c)
    case Push(w) => PushInstructionRefines(env, c, floor, base, ws, w);
    case Pop => PopInstructionRefines(env, c, base, ws);
    case Exchange(w) =>
      ExchangeIsXthl(c);
      ExchangeRefines(env, c, floor, base, ws);
    case Keep =>
      KeepsSp(env, c);
      StackUntouched(c, Executed(env, c).cpu, base, ws);
  }

  lemma SameStack(c: Cpu, r: Cpu, base: bound, ws: seq<word>)
    requires StackAt(c, base, ws) && r.sp == c.sp && r.mem == c.mem
    ensures StackAt(r, base, ws)
  {
  }

  lemma WritablePart(regions: seq<Region>, floor: bound, base: bound, c: Cpu, ws: seq<word>)
    requires StackAt(c, base, ws) && Writable(regions, floor, base) && Top(base, ws) >= floor + 2
    ensures Writable(regions, Top(base, ws) - 2, Top(base, ws))
  {
  }

  // ----- whole runs, interrupts included

  function AfterAcceptance(c: Cpu, ws: seq<word>): seq<word> {
    if Chosen(c).Some? then ws + [c.pc] else ws
  }

  /** The abstract stack after one call of the step function. */
  function AbstractStep(env: Env, c: Cpu, ws: seq<word>): seq<word> {
    var d := Entered(env, c);
    if d.halted then ws else Applied(StackOpOf(d), AfterAcceptance(c, ws))
  }

  ghost predicate StepInBounds(env: Env, c: Cpu, floor: bound, base: bound, ws: seq<word>) {
    var d := Entered(env, c);
    && Writable(env.regions, floor, base)
    && (Chosen(c).Some? ==> Top(base, ws) >= floor + 2)
    && (!d.halted ==> InBounds(env, d, floor, base, AfterAcceptance(c, ws)))
  }

  lemma AcceptanceRefines(env: Env, c: Cpu, floor: bound, base: bound, ws: seq<word>)
    requires StackAt(c, base, ws) && Writable(env.regions, floor, base)
    requires Chosen(c).Some? ==> Top(base, ws) >= floor + 2
    ensures StackAt(Entered(env, c), base, AfterAcceptance(c, ws))
  {
    if Chosen(c).Some? {
      hide PushWord, StackAt, Writable, Accept, Chosen;
      AcceptPushes(env, c, Chosen(c).value);
      WritablePart(env.regions, floor, base, c, ws);
      PushRefines(env, c, base, ws, c.pc);
      SameStack(PushWord(env, c, c.pc), Entered(env, c), base, ws + [c.pc]);
    }
  }

  lemma StepRefines(env: Env, c: Cpu, floor: bound, base: bound, ws: seq<word>)
    requires StackAt(c, base, ws) && StepInBounds(env, c, floor, base, ws)
    ensures StackAt(Step(env, c).cpu, base, AbstractStep(env, c, ws))
  {
    AcceptanceRefines(env, c, floor, base, ws);
    var d := Entered(env, c);
    if d.halted {
      assert Chosen(c).None?;
    } else {
      hide Entered, Executed, StackAt, StackOpOf;
      InstructionRefines(env, d, floor, base, AfterAcceptance(c, ws));
    }
  }

  function AbstractRun(c: Cpu, inputs: seq<Input>, ws: seq<word>): seq<word> {
    if |inputs| == 0 then ws
    else
      var n := |inputs| - 1;
      AbstractStep(inputs[n].env, Signalled(Run(c, inputs[..n]), inputs[n].signals), AbstractRun(c, inputs[..n], ws))
  }

  ghost predicate RunInBounds(c: Cpu, inputs: seq<Input>, floor: bound, base: bound, ws: seq<word>) {
    forall i | 0 <= i < |inputs| ::
      StepInBounds(inputs[i].env, Signalled(Run(c, inputs[..i]), inputs[i].signals), floor, base, AbstractRun(c, inputs[..i], ws))
  }

  /** Main result: a run that stays in writable stack memory refines the abstract
      stack at every step, whatever else the program does. */
  lemma {:induction false} RunRefines(c: Cpu, inputs: seq<Input>, floor: bound, base: bound, ws: seq<word>)
    requires StackAt(c, base, ws) && RunInBounds(c, inputs, floor, base, ws)
    ensures StackAt(Run(c, inputs), base, AbstractRun(c, inputs, ws))
  {
    if |inputs| != 0 {
      hide StackAt, Step, StepInBounds, AbstractStep;
      var n := |inputs| - 1;
      forall i | 0 <= i < n
        ensures StepInBounds(inputs[..n][i].env, Signalled(Run(c, inputs[..n][..i]), inputs[..n][i].signals), floor, base,
                             AbstractRun(c, inputs[..n][..i], ws))
      {
        assert inputs[..n][..i] == inputs[..i];
      }
      RunRefines(c, inputs[..n], floor, base, ws);
      var d := Signalled(Run(c, inputs[..n]), inputs[n].signals);
      SignalsTouchLinesOnly(Run(c, inputs[..n]), inputs[n].signals);
      SignalsKeepStack(Run(c, inputs[..n]), d, base, AbstractRun(c, inputs[..n], ws));
      StepRefines(inputs[n].env, d, floor, base, AbstractRun(c, inputs[..n], ws));
    }
  }

  lemma SignalsKeepStack(c: Cpu, d: Cpu, base: bound, ws: seq<word>)
    requires StackAt(c, base, ws) && d == c.(lines := d.lines)
    ensures StackAt(d, base, ws)
  {
  }

  /** The word w is on top of ws when the run starts and again, with ws below it,
      when n steps later an instruction pops without an interrupt coming first:
      that instruction delivers w. So a callee that balances its stack returns to
      its caller, and what was pushed is what is popped. */
  lemma PushedIsPopped(c: Cpu, inputs: seq<Input>, floor: bound, base: bound, ws: seq<word>, w: word, last: Input)
    requires StackAt(c, base, ws + [w]) && RunInBounds(c, inputs, floor, base, ws + [w])
    requires AbstractRun(c, inputs, ws + [w]) == ws + [w]
    requires var d := Signalled(Run(c, inputs), last.signals);
      !d.halted && Chosen(d).None? && StackOpOf(d).Pop? && Writable(last.env.regions, floor, base)
    ensures var d := Signalled(Run(c, inputs), last.signals);
      var r := Step(last.env, d).cpu;
      Delivered(d.mem[d.pc], r, w) && StackAt(r, base, ws)
  {
    RunRefines(c, inputs, floor, base, ws + [w]);
    var e := Run(c, inputs);
    var d := Signalled(e, last.signals);
    SignalsTouchLinesOnly(e, last.signals);
    hide StackAt, Run, AbstractRun, Signalled, Executed, StackOpOf, RunInBounds;
    SignalsKeepStack(e, d, base, ws + [w]);
    InstructionRefines(last.env, d, floor, base, ws + [w]);
    assert (ws + [w])[..|ws|] == ws;
  }

  // ----- from a push to the pop that matches it

  /** The processor when the pushing instruction runs, after it, and when the
      popping one runs. */
  function AtPush(c: Cpu, first: Input): Cpu {
    Signalled(c, first.signals)
  }

  function AfterPush(c: Cpu, first: Input): Cpu {
    Step(first.env, AtPush(c, first)).cpu
  }

  function AtPop(c: Cpu, first: Input, inputs: seq<Input>, last: Input): Cpu {
    Signalled(Run(AfterPush(c, first), inputs), last.signals)
  }

  predicate Undisturbed(c: Cpu) {
    !c.halted && Chosen(c).None?
  }

  /** A first step that pushes w, a run that leaves the stack as it found it, and a
      last step that pops. The run in between may take interrupts. */
  ghost predicate Trip(c: Cpu, first: Input, inputs: seq<Input>, last: Input, floor: bound, base: bound, ws: seq<word>, w: word) {
    var d, e, f := AtPush(c, first), AfterPush(c, first), AtPop(c, first, inputs, last);
    && Undisturbed(d) && StackOpOf(d) == Push(w) && Top(base, ws) >= floor + 2 && Writable(first.env.regions, floor, base)
    && RunInBounds(e, inputs, floor, base, ws + [w]) && AbstractRun(e, inputs, ws + [w]) == ws + [w]
    && Undisturbed(f) && StackOpOf(f).Pop? && Writable(last.env.regions, floor, base)
  }

  /** Main result: the trip pops what it pushed and restores the stack. */
  lemma TripDelivers(c: Cpu, first: Input, inputs: seq<Input>, last: Input, floor: bound, base: bound, ws: seq<word>, w: word)
    requires StackAt(c, base, ws) && Trip(c, first, inputs, last, floor, base, ws, w)
    ensures var f := AtPop(c, first, inputs, last);
      var r := Step(last.env, f).cpu;
      Delivered(f.mem[f.pc], r, w) && StackAt(r, base, ws)
  {
    SignalsTouchLinesOnly(c, first.signals);
    hide StackAt, Run, AbstractRun, Signalled, Executed, StackOpOf, RunInBounds, Chosen;
    var d := AtPush(c, first);
    SignalsKeepStack(c, d, base, ws);
    InstructionRefines(first.env, d, floor, base, ws);
    PushedIsPopped(AfterPush(c, first), inputs, floor, base, ws, w, last);
  }

  const PUSH_PSW: byte := 0xF5
  const POP_PSW: byte := 0xF1

  /** PUSH PSW, balanced code, POP PSW: the accumulator and all seven flags are
      those at the push. */
  lemma StatusWordRestored(c: Cpu, first: Input, inputs: seq<Input>, last: Input, floor: bound, base: bound, ws: seq<word>)
    requires var d := AtPush(c, first); d.mem[d.pc] == PUSH_PSW && StackAt(c, base, ws) && Trip(c, first, inputs, last, floor, base, ws, PushPair(d, 3))
    requires var f := AtPop(c, first, inputs, last); f.mem[f.pc] == POP_PSW
    ensures var r := Step(last.env, AtPop(c, first, inputs, last)).cpu;
      r.regs.a == c.regs.a && r.cc == c.cc && StackAt(r, base, ws)
  {
    var d := AtPush(c, first);
    SignalsTouchLinesOnly(c, first.signals);
    TripDelivers(c, first, inputs, last, floor, base, ws, PushPair(d, 3));
    hide Step, Signalled, Trip, StackAt, AtPop, FlagsOf, Psw;
    PswRoundTrip(c.cc);
    WordParts(c.regs.a, Psw(c.cc));
  }

  /** CALL, a taken conditional call, RST or RSTV; a callee that leaves the stack
      balanced; a return. The caller goes on right after the call instruction. */
  lemma CallReturns(c: Cpu, first: Input, inputs: seq<Input>, last: Input, floor: bound, base: bound, ws: seq<word>)
    requires var d := AtPush(c, first);
      var next := Wrap(d.pc + Length(d.mem[d.pc]));
      FlowOf(d.mem[d.pc], d.cc).CallTo? && StackAt(c, base, ws) && Trip(c, first, inputs, last, floor, base, ws, next)
    requires var f := AtPop(c, first, inputs, last); FlowOf(f.mem[f.pc], f.cc).Return?
    ensures var d := AtPush(c, first);
      var r := Step(last.env, AtPop(c, first, inputs, last)).cpu;
      r.pc == Wrap(d.pc + Length(d.mem[d.pc])) && StackAt(r, base, ws)
  {
    var d, f := AtPush(c, first), AtPop(c, first, inputs, last);
    ReturnIsNoPop(f.mem[f.pc], f.cc);
    TripDelivers(c, first, inputs, last, floor, base, ws, Wrap(d.pc + Length(d.mem[d.pc])));
    hide Step, Signalled, Trip, StackAt, AtPop, Length, FlowOf;
  }

  lemma ReturnIsNoPop(op: byte, cc: Flags)
    ensures FlowOf(op, cc).Return? ==> op !in POPS && op != XTHL
  {
  }
}
