/** The disassembler and the executor agree on instruction layout. The length
    table below is the disassembler's, opcode by opcode; the executor's own
    advance is a consequence of its instructions. */
module CpuLayout {
  import opened CpuArith
  import opened CpuModel

  /** The length the disassembler returns for an opcode. */
  function Length(op: byte): (n: nat)
    ensures 1 <= n <= 3
  {
    if op in {0x01, 0x11, 0x21, 0x31, 0x22, 0x2A, 0x32, 0x3A,
              0xC2, 0xC3, 0xC4, 0xCA, 0xCC, 0xCD, 0xD2, 0xD4, 0xDA, 0xDC, 0xDD,
              0xE2, 0xE4, 0xEA, 0xEC, 0xF2, 0xF4, 0xFA, 0xFC, 0xFD} then 3
    else if op in {0x06, 0x0E, 0x16, 0x1E, 0x26, 0x2E, 0x36, 0x3E, 0x28, 0x38,
                   0xC6, 0xCE, 0xD3, 0xD6, 0xDB, 0xDE, 0xE6, 0xEE, 0xF6, 0xFE} then 2
    else 1
  }

  datatype Flow = Next | Jump | CallTo | Return

  /** What an opcode does to control, given the flags. */
  function FlowOf(op: byte, cc: Flags): Flow {
    match op
    case 0xC3 => Jump case 0xE9 => Jump case 0xC9 => Return case 0xCD => CallTo
    case 0xCB => if cc.v then CallTo else Next
    case 0xDD => if cc.x5 then Next else Jump
    case 0xFD => if cc.x5 then Jump else Next
    case _ =>
      if op < 0xC0 then Next
      else if op % 8 == 7 then CallTo
      else if op % 8 in {0, 2, 4} && Holds(cc, op / 8 % 8)
        then if op % 8 == 0 then Return else if op % 8 == 2 then Jump else CallTo
      else Next
  }

  /** Where jumps and calls go. */
  function Target(c: Cpu, op: byte, imm1: byte, imm2: byte): word {
    if op == 0xE9 then HL(c) else if op == 0xCB then 0x40
    else if op >= 0xC0 && op % 8 == 7 then op - 0xC7 else Word(imm2, imm1)
  }

  /** LXI SP, INX SP, DCX SP and SPHL. */
  predicate SetsSp(op: byte) {
    op == 0x31 || op == 0x33 || op == 0x3B || op == 0xF9
  }

  /** Control has gone on to the next instruction, and sp is where it was unless
      the instruction sets it, pushes or pops. */
  predicate Past(c: Cpu, at: word, op: byte, r: Cpu) {
    && r.pc == Wrap(at + Length(op))
    && (SetsSp(op) || (op >= 0xC0 && (op % 0x10 == 1 || op % 0x10 == 5)) || r.sp == c.sp)
  }

  /** The effect of an opcode on pc, and on the stack where control is
      transferred through it; `at` is the address of the opcode, c the processor
      with pc already past it. */
  ghost predicate Follows(env: Env, c: Cpu, at: word, op: byte, imm1: byte, imm2: byte, r: Cpu) {
    var next := Wrap(at + Length(op));
    match FlowOf(op, c.cc)
    case Next => Past(c, at, op, r)
    case Jump => r.pc == Target(c, op, imm1, imm2) && r.sp == c.sp
    case CallTo =>
      r.pc == Target(c, op, imm1, imm2) && r.sp == Wrap(c.sp - 2) && r.mem == PushWord(env, c, next).mem
    case Return => r.pc == TopWord(env, c) && r.sp == Wrap(c.sp + 2) && r.mem == c.mem
  }

  lemma SkipFrom(c: Cpu, at: word)
    requires c.pc == Wrap(at + 1)
    ensures Wrap(c.pc + 1) == Wrap(at + 2) && Wrap(c.pc + 2) == Wrap(at + 3)
  {
  }

  lemma SettersKeepPc(env: Env, c: Cpu, r: nat, v: byte, p: nat, w: word)
    requires r < 8 && p < 4
    ensures SetReg(env, c, r, v).pc == SetPair(c, p, w).pc == c.pc
    ensures SetReg(env, c, r, v).sp == c.sp && (p < 3 ==> SetPair(c, p, w).sp == c.sp)
  {
  }

  lemma MiscFollows(c: Cpu, at: word, row: nat, imm1: byte)
    requires row < 8 && c.pc == Wrap(at + 1)
    ensures Past(c, at, 8 * row, ExecMisc(c, row, imm1).cpu)
  {
    hide DoubleSub;
    SkipFrom(c, at);
    hide Wrap;
  }

  lemma DirectFollows(env: Env, c: Cpu, at: word, row: nat, imm1: byte, imm2: byte)
    requires row < 8 && c.pc == Wrap(at + 1)
    ensures Past(c, at, 8 * row + 2, ExecDirect(env, c, row, imm1, imm2).cpu)
  {
    hide Store, Load;
    SkipFrom(c, at);
    hide Wrap;
  }

  lemma IncDecMoveFollows(env: Env, c: Cpu, at: word, row: nat, column: nat, imm1: byte)
    requires row < 8 && 4 <= column < 7 && c.pc == Wrap(at + 1)
    ensures Past(c, at, 8 * row + column, ExecIncDecMove(env, c, row, column, imm1).cpu)
  {
    hide Increment, Decrement, SetReg;
    SkipFrom(c, at);
    SettersKeepPc(env, c, row, imm1, 0, 0);
    SettersKeepPc(env, c, row, Increment(c.cc, Reg(c, row)).value, 0, 0);
    SettersKeepPc(env, c, row, Decrement(c.cc, Reg(c, row)).value, 0, 0);
    hide Wrap;
  }

  lemma LxiDadFollows(c: Cpu, at: word, row: nat, imm1: byte, imm2: byte)
    requires row < 8 && c.pc == Wrap(at + 1)
    ensures Past(c, at, 8 * row + 1, ExecLxiDad(c, row, imm1, imm2).cpu)
  {
    SkipFrom(c, at);
    hide Wrap;
  }

  lemma InxDcxFollows(c: Cpu, at: word, row: nat)
    requires row < 8 && c.pc == Wrap(at + 1)
    ensures Past(c, at, 8 * row + 3, ExecInxDcx(c, row).cpu)
  {
    hide Wrap;
  }

  lemma AccumulatorFollows(c: Cpu, at: word, row: nat)
    requires row < 8 && c.pc == Wrap(at + 1)
    ensures Past(c, at, 8 * row + 7, ExecAccumulator(c, row).cpu)
  {
    hide DecimalAdjust, Rotate, Wrap;
  }

  lemma LowFollows(env: Env, c: Cpu, at: word, row: nat, column: nat, imm1: byte, imm2: byte)
    requires row < 8 && column < 8 && c.pc == Wrap(at + 1)
    ensures Past(c, at, 8 * row + column, ExecLow(env, c, row, column, imm1, imm2).cpu)
  {
    hide ExecMisc, ExecLxiDad, ExecDirect, ExecInxDcx, ExecIncDecMove, ExecAccumulator, Length, Wrap, Past;
    MiscFollows(c, at, row, imm1);
    DirectFollows(env, c, at, row, imm1, imm2);
    LxiDadFollows(c, at, row, imm1, imm2);
    InxDcxFollows(c, at, row);
    AccumulatorFollows(c, at, row);
    if 4 <= column < 7 {
      IncDecMoveFollows(env, c, at, row, column, imm1);
    }
  }

  lemma ConditionalFollows(env: Env, c: Cpu, at: word, row: nat, column: nat, imm1: byte, imm2: byte)
    requires row < 8 && column in {0, 2, 4} && c.pc == Wrap(at + 1)
    ensures Follows(env, c, at, 0xC0 + 8 * row + column, imm1, imm2, ExecConditional(env, c, row, column, imm1, imm2).cpu)
  {
    hide Store, TopWord, Holds;
    SkipFrom(c, at);
    hide Wrap;
  }

  lemma PopFollows(env: Env, c: Cpu, at: word, row: nat, imm1: byte, imm2: byte)
    requires row < 8 && c.pc == Wrap(at + 1)
    ensures Follows(env, c, at, 0xC0 + 8 * row + 1, imm1, imm2, ExecPop(env, c, row).cpu)
  {
    hide Store, FlagsOf, TopWord, SetPair, Wrap;
    SettersKeepPc(env, Popped(c), 0, 0, row / 2, TopWord(env, c));
  }

  lemma SystemFollows(env: Env, c: Cpu, at: word, row: nat, imm1: byte, imm2: byte)
    requires row < 8 && c.pc == Wrap(at + 1)
    ensures Follows(env, c, at, 0xC0 + 8 * row + 3, imm1, imm2, ExecSystem(env, c, row, imm1, imm2).cpu)
  {
    hide Store, TopWord;
    SkipFrom(c, at);
    hide Wrap;
  }

  lemma PushFollows(env: Env, c: Cpu, at: word, row: nat, imm1: byte, imm2: byte)
    requires row < 8 && c.pc == Wrap(at + 1)
    ensures Follows(env, c, at, 0xC0 + 8 * row + 5, imm1, imm2, ExecPush(env, c, row, imm1, imm2).cpu)
  {
    hide Store, Load, PushPair;
    SkipFrom(c, at);
    hide Wrap;
  }

  lemma ImmediateFollows(env: Env, c: Cpu, at: word, row: nat, imm1: byte, imm2: byte)
    requires row < 8 && c.pc == Wrap(at + 1)
    ensures Follows(env, c, at, 0xC0 + 8 * row + 6, imm1, imm2, AluImmediate(c, row, imm1).cpu)
  {
    hide Add, Sub, LogicFlags, And, Or, Xor;
    SkipFrom(c, at);
    hide Wrap;
  }

  lemma RestartFollows(env: Env, c: Cpu, at: word, row: nat, imm1: byte, imm2: byte)
    requires row < 8 && c.pc == Wrap(at + 1)
    ensures Follows(env, c, at, 0xC0 + 8 * row + 7, imm1, imm2, Restart(env, c, row, false))
  {
    hide Store;
  }

  lemma HighFollows(env: Env, c: Cpu, at: word, row: nat, column: nat, imm1: byte, imm2: byte)
    requires row < 8 && column < 8 && c.pc == Wrap(at + 1)
    ensures Follows(env, c, at, 0xC0 + 8 * row + column, imm1, imm2, ExecHigh(env, c, row, column, imm1, imm2).cpu)
  {
    hide ExecPop, ExecSystem, ExecPush, AluImmediate, Restart, ExecConditional, Follows;
    match column
    case 1 => PopFollows(env, c, at, row, imm1, imm2);
    case 3 => SystemFollows(env, c, at, row, imm1, imm2);
    case 5 => PushFollows(env, c, at, row, imm1, imm2);
    case 6 => ImmediateFollows(env, c, at, row, imm1, imm2);
    case 7 => RestartFollows(env, c, at, row, imm1, imm2);
    case _ => ConditionalFollows(env, c, at, row, column, imm1, imm2);
  }

  lemma MiddleFollows(env: Env, c: Cpu, at: word, op: byte, imm1: byte, imm2: byte)
    requires c.pc == Wrap(at + 1) && 0x40 <= op < 0xC0
    ensures Past(c, at, op, Exec(env, c, op, imm1, imm2).cpu)
  {
    hide SetReg, Reg, Add, Sub, LogicFlags, And, Or, Xor, Wrap;
    SettersKeepPc(env, c, op / 8 % 8, Reg(c, op % 8), 0, 0);
  }

  lemma ExecFollows(env: Env, c: Cpu, at: word, op: byte, imm1: byte, imm2: byte)
    requires c.pc == Wrap(at + 1)
    ensures Follows(env, c, at, op, imm1, imm2, Exec(env, c, op, imm1, imm2).cpu)
  {
    hide ExecLow, ExecHigh, ExecMove, AluOp, Length, Wrap, Past;
    var row, column := op / 8 % 8, op % 8;
    if op < 0x40 {
      LowFollows(env, c, at, row, column, imm1, imm2);
    } else if op < 0xC0 {
      MiddleFollows(env, c, at, op, imm1, imm2);
    } else {
      HighFollows(env, c, at, row, column, imm1, imm2);
    }
  }

  /** The delayed enable at the end of an instruction changes nothing here. */
  lemma FollowsAfterTick(env: Env, c: Cpu, at: word, op: byte, imm1: byte, imm2: byte, r: Cpu)
    requires Follows(env, c.(pc := Wrap(c.pc + 1)), at, op, imm1, imm2, r)
    ensures Follows(env, c, at, op, imm1, imm2, Tick(r))
  {
    hide Length, Store, Wrap, Load, Word;
  }

  /** Main result, for all 256 opcodes and every processor state: unless control
      is transferred, pc advances by exactly the disassembled length and only the
      opcodes that should move sp do; and every
      call, conditional call, RST and RSTV pushes the address of the following
      instruction as disassembled. */
  lemma DisassemblerAgrees(env: Env, c: Cpu)
    ensures Follows(env, c, c.pc, c.mem[c.pc], Load(env, c.mem, c.pc + 1), Load(env, c.mem, c.pc + 2), Executed(env, c).cpu)
  {
    hide Exec, Follows, Tick;
    var e, op := c.(pc := Wrap(c.pc + 1)), c.mem[c.pc];
    var imm1, imm2 := Load(env, c.mem, c.pc + 1), Load(env, c.mem, c.pc + 2);
    ExecFollows(env, e, c.pc, op, imm1, imm2);
    FollowsAfterTick(env, c, c.pc, op, imm1, imm2, Exec(env, e, op, imm1, imm2).cpu);
  }
}
