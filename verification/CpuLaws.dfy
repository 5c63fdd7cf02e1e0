/** What each instruction means, opcode byte by opcode byte and without the
    groupings of the model: which register, which flag, which byte order, and
    what instructions undo one another. */
module CpuLaws {
  import opened CpuArith
  import opened CpuModel
  import opened CpuRuns
  import B = CpuMultiByte
  import G = CpuPrograms

  /** The 16-bit number in two bytes. */
  function Number(h: byte, l: byte): word {
    256 * h + l
  }

  lemma WordIsNumber(h: byte, l: byte)
    ensures Word(h, l) == Number(h, l)
  {
  }

  // ----- conditional transfers of control

  const RETURNS: set<byte> := {0xC0, 0xC8, 0xD0, 0xD8, 0xE0, 0xE8, 0xF0, 0xF8}
  const JUMPS: set<byte> := {0xC2, 0xCA, 0xD2, 0xDA, 0xE2, 0xEA, 0xF2, 0xFA}
  const CALLS: set<byte> := {0xC4, 0xCC, 0xD4, 0xDC, 0xE4, 0xEC, 0xF4, 0xFC}

  /** The flag each conditional opcode names, and the value it asks for: NZ Z NC C
      PO PE P M. */
  predicate Met(op: byte, cc: Flags) {
    if op in {0xC0, 0xC2, 0xC4} then !cc.z
    else if op in {0xC8, 0xCA, 0xCC} then cc.z
    else if op in {0xD0, 0xD2, 0xD4} then !cc.cy
    else if op in {0xD8, 0xDA, 0xDC} then cc.cy
    else if op in {0xE0, 0xE2, 0xE4} then !cc.p
    else if op in {0xE8, 0xEA, 0xEC} then cc.p
    else if op in {0xF0, 0xF2, 0xF4} then !cc.s
    else cc.s
  }

  lemma MetIsHeld(op: byte, cc: Flags)
    requires op in RETURNS || op in JUMPS || op in CALLS
    ensures op >= 0xC0 && op % 8 == (if op in RETURNS then 0 else if op in JUMPS then 2 else 4)
    ensures Holds(cc, op / 8 % 8) == Met(op, cc)
  {
  }

  lemma Dispatched(env: Env, c: Cpu, op: byte, imm1: byte, imm2: byte)
    requires op >= 0xC0 && op % 8 in {0, 2, 4}
    ensures Exec(env, c, op, imm1, imm2) == ExecConditional(env, c, op / 8 % 8, op % 8, imm1, imm2)
  {
    hide ExecLow, ExecMove, AluOp, ExecPop, ExecSystem, ExecPush, AluImmediate, Restart, ExecConditional;
  }

  /** A conditional return pops pc exactly when its flag has its value. */
  lemma ReturnsConditionally(env: Env, c: Cpu, op: byte, imm1: byte, imm2: byte)
    requires op in RETURNS
    ensures Exec(env, c, op, imm1, imm2) ==
      if Met(op, c.cc) then Plain(c.(pc := TopWord(env, c), sp := Wrap(c.sp + 2)), 12) else Plain(c, 6)
  {
    hide Exec, Holds, Met, TopWord;
    MetIsHeld(op, c.cc);
    Dispatched(env, c, op, imm1, imm2);
  }

  /** A conditional jump goes to its operand exactly then. */
  lemma JumpsConditionally(env: Env, c: Cpu, op: byte, imm1: byte, imm2: byte)
    requires op in JUMPS
    ensures Exec(env, c, op, imm1, imm2) ==
      if Met(op, c.cc) then Plain(c.(pc := Number(imm2, imm1)), 10) else Plain(c.(pc := Wrap(c.pc + 2)), 7)
  {
    hide Exec, Holds, Met, Word, Number;
    MetIsHeld(op, c.cc);
    WordIsNumber(imm2, imm1);
    Dispatched(env, c, op, imm1, imm2);
  }

  /** A conditional call pushes the address after its operand and goes there exactly
      then. Nine states are charged for CNZ, taken or not. */
  lemma CallsConditionally(env: Env, c: Cpu, op: byte, imm1: byte, imm2: byte)
    requires op in CALLS
    ensures var r := Exec(env, c, op, imm1, imm2);
      && r.cpu == (if Met(op, c.cc) then PushWord(env, c, Wrap(c.pc + 2)).(pc := Number(imm2, imm1)) else c.(pc := Wrap(c.pc + 2)))
      && r.states == (if Met(op, c.cc) && op != 0xC4 then 18 else 9) && r.event == NoIo
  {
    hide Exec, Holds, Met, Word, Number, PushWord;
    MetIsHeld(op, c.cc);
    WordIsNumber(imm2, imm1);
    Dispatched(env, c, op, imm1, imm2);
  }

  // ----- comparing and branching

  /** The operand a register code names: B C D E H L M A. */
  function Operand(c: Cpu, r: nat): byte
    requires r < 8
  {
    if r == 0 then c.regs.b else if r == 1 then c.regs.c else if r == 2 then c.regs.d else if r == 3 then c.regs.e
    else if r == 4 then c.regs.h else if r == 5 then c.regs.l
    else if r == 6 then c.mem[Number(c.regs.h, c.regs.l)] else c.regs.a
  }

  lemma OperandIsReg(c: Cpu, r: nat)
    requires r < 8
    ensures Reg(c, r) == Operand(c, r)
  {
    WordIsNumber(c.regs.h, c.regs.l);
    hide Word, Number;
  }

  /** What a jump right after a comparison of a with y asks. */
  predicate Compared(op: byte, a: byte, y: byte) {
    var difference: byte := (a - y) % 0x100;
    match op
    case 0xC2 => a != y case 0xCA => a == y
    case 0xD2 => a >= y case 0xDA => a < y
    case 0xE2 => Ones(difference) % 2 == 1 case 0xEA => Ones(difference) % 2 == 0
    case 0xF2 => difference < 0x80 case _ => difference >= 0x80
  }

  lemma ComparedFlags(op: byte, cc: Flags, a: byte, y: byte, v: bool)
    requires op in JUMPS
    ensures Met(op, Sub(cc, a, y, false).cc.(v := v)) == Compared(op, a, y)
  {
    hide Ones;
  }

  /** CMP r compares A with register r, CPI with its operand; neither changes
      anything but flags. */
  lemma CompareRegister(env: Env, c: Cpu, r: nat, imm1: byte, imm2: byte)
    requires r < 8
    ensures Exec(env, c, 0xB8 + r, imm1, imm2).cpu == c.(cc := Sub(c.cc, c.regs.a, Operand(c, r), false).cc)
  {
    hide ExecLow, ExecMove, ExecHigh, Sub, Add, And, Or, Xor, LogicFlags, Reg, Operand;
    OperandIsReg(c, r);
  }

  lemma CompareImmediate(env: Env, c: Cpu, imm1: byte, imm2: byte)
    ensures Exec(env, c, 0xFE, imm1, imm2).cpu
      == c.(pc := Wrap(c.pc + 1), cc := Sub(c.cc, c.regs.a, imm1, false).cc.(v := c.cc.v))
  {
    hide ExecLow, ExecMove, ExecConditional, ExecPop, ExecPush, ExecSystem, Restart, Sub, Add, And, Or, Xor, LogicFlags, Reg;
  }

  lemma BranchAfter(env: Env, c: Cpu, op: byte)
    requires G.Quiet(c) && c.pc < MEMORY_SIZE - 2 && c.mem[c.pc] == op && op in JUMPS
    ensures Step(env, c).cpu.pc == if Met(op, c.cc) then Number(c.mem[c.pc + 2], c.mem[c.pc + 1]) else Wrap(c.pc + 3)
  {
    hide Exec, Step, Met, Number;
    JumpsConditionally(env, c.(pc := c.pc + 1), op, c.mem[c.pc + 1], c.mem[c.pc + 2]);
    G.QuietExecutes(env, c, op);
  }

  /** Two steps: CMP r and a conditional jump. The jump is taken exactly when A and
      the register compare as its condition says. */
  lemma CompareThenBranch(env: Env, env': Env, c: Cpu, r: nat, op: byte)
    requires G.Quiet(c) && c.pc < MEMORY_SIZE - 3 && r < 8 && op in JUMPS
    requires c.mem[c.pc] == 0xB8 + r && c.mem[c.pc + 1] == op
    ensures Step(env', Step(env, c).cpu).cpu.pc ==
      if Compared(op, c.regs.a, Operand(c, r)) then Number(c.mem[c.pc + 3], c.mem[c.pc + 2]) else Wrap(c.pc + 4)
  {
    hide Exec, Step, Met, Number, Sub, Compared, Operand;
    var e := c.(pc := c.pc + 1);
    CompareRegister(env, e, r, c.mem[c.pc + 1], c.mem[c.pc + 2]);
    assert Operand(e, r) == Operand(c, r) by { OperandElsewhere(c, e.pc, r); }
    G.QuietExecutes(env, c, 0xB8 + r);
    ComparedFlags(op, c.cc, c.regs.a, Operand(c, r), Sub(c.cc, c.regs.a, Operand(c, r), false).cc.v);
    BranchAfter(env', Step(env, c).cpu, op);
  }

  lemma OperandElsewhere(c: Cpu, pc: word, r: nat)
    requires r < 8
    ensures Operand(c.(pc := pc), r) == Operand(c, r)
  {
  }

  /** The same for CPI d. */
  lemma CompareImmediateThenBranch(env: Env, env': Env, c: Cpu, op: byte)
    requires G.Quiet(c) && c.pc < MEMORY_SIZE - 4 && op in JUMPS
    requires c.mem[c.pc] == 0xFE && c.mem[c.pc + 2] == op
    ensures Step(env', Step(env, c).cpu).cpu.pc ==
      if Compared(op, c.regs.a, c.mem[c.pc + 1]) then Number(c.mem[c.pc + 4], c.mem[c.pc + 3]) else Wrap(c.pc + 5)
  {
    hide Exec, Step, Met, Number, Sub, Compared;
    CompareImmediate(env, c.(pc := c.pc + 1), c.mem[c.pc + 1], c.mem[c.pc + 2]);
    G.QuietExecutes(env, c, 0xFE);
    ComparedFlags(op, c.cc, c.regs.a, c.mem[c.pc + 1], c.cc.v);
    BranchAfter(env', Step(env, c).cpu, op);
  }

  // ----- registers and moves

  /** Which register each MVI loads. */
  lemma MoveImmediateNames(env: Env, c: Cpu, x: byte, imm2: byte)
    ensures var next := c.(pc := Wrap(c.pc + 1));
      && Exec(env, c, 0x06, x, imm2).cpu == next.(regs := c.regs.(b := x))
      && Exec(env, c, 0x0E, x, imm2).cpu == next.(regs := c.regs.(c := x))
      && Exec(env, c, 0x16, x, imm2).cpu == next.(regs := c.regs.(d := x))
      && Exec(env, c, 0x1E, x, imm2).cpu == next.(regs := c.regs.(e := x))
      && Exec(env, c, 0x26, x, imm2).cpu == next.(regs := c.regs.(h := x))
      && Exec(env, c, 0x2E, x, imm2).cpu == next.(regs := c.regs.(l := x))
      && Exec(env, c, 0x3E, x, imm2).cpu == next.(regs := c.regs.(a := x))
      && Exec(env, c, 0x36, x, imm2).cpu == next.(mem := Store(env, c.mem, Number(c.regs.h, c.regs.l), x))
  {
    hide Exec, SetReg, Store, Number, Wrap;
    forall r: nat | r < 8
      ensures Exec(env, c, 0x06 + 8 * r, x, imm2).cpu == Skip(SetReg(env, c, r, x), 1)
    {
      MoveImmediateDispatch(env, c, r, x, imm2);
    }
    RegisterNames(env, c, x);
    assert Exec(env, c, 0x06 + 8 * 0, x, imm2).cpu == Skip(SetReg(env, c, 0, x), 1);
    assert Exec(env, c, 0x06 + 8 * 1, x, imm2).cpu == Skip(SetReg(env, c, 1, x), 1);
    assert Exec(env, c, 0x06 + 8 * 2, x, imm2).cpu == Skip(SetReg(env, c, 2, x), 1);
    assert Exec(env, c, 0x06 + 8 * 3, x, imm2).cpu == Skip(SetReg(env, c, 3, x), 1);
    assert Exec(env, c, 0x06 + 8 * 4, x, imm2).cpu == Skip(SetReg(env, c, 4, x), 1);
    assert Exec(env, c, 0x06 + 8 * 5, x, imm2).cpu == Skip(SetReg(env, c, 5, x), 1);
    assert Exec(env, c, 0x06 + 8 * 6, x, imm2).cpu == Skip(SetReg(env, c, 6, x), 1);
    assert Exec(env, c, 0x06 + 8 * 7, x, imm2).cpu == Skip(SetReg(env, c, 7, x), 1);
  }

  lemma MoveImmediateDispatch(env: Env, c: Cpu, r: nat, x: byte, imm2: byte)
    requires r < 8
    ensures Exec(env, c, 0x06 + 8 * r, x, imm2).cpu == Skip(SetReg(env, c, r, x), 1)
  {
    hide ExecHigh, ExecMove, AluOp, ExecMisc, ExecLxiDad, ExecInxDcx, ExecAccumulator, ExecDirect, Store, Word, Increment, Decrement, SetReg, Wrap;
    MoveCode(r, 0);
  }

  lemma RegisterNames(env: Env, c: Cpu, x: byte)
    ensures SetReg(env, c, 0, x) == c.(regs := c.regs.(b := x)) && SetReg(env, c, 1, x) == c.(regs := c.regs.(c := x))
    ensures SetReg(env, c, 2, x) == c.(regs := c.regs.(d := x)) && SetReg(env, c, 3, x) == c.(regs := c.regs.(e := x))
    ensures SetReg(env, c, 4, x) == c.(regs := c.regs.(h := x)) && SetReg(env, c, 5, x) == c.(regs := c.regs.(l := x))
    ensures SetReg(env, c, 6, x) == c.(mem := Store(env, c.mem, Number(c.regs.h, c.regs.l), x))
    ensures SetReg(env, c, 7, x) == c.(regs := c.regs.(a := x))
  {
    hide Store, Word, Number;
    WordIsNumber(c.regs.h, c.regs.l);
  }

  /** MOV A,r reads the register its code names; any MOV dst,src does to dst what
      MVI dst would do with the byte MOV A,src reads. */
  lemma MoveNames(env: Env, c: Cpu, dst: nat, src: nat, imm1: byte, imm2: byte)
    requires dst < 8 && src < 8 && (dst != 6 || src != 6)
    ensures Exec(env, c, 0x78 + src, imm1, imm2).cpu == c.(regs := c.regs.(a := Operand(c, src)))
    ensures var x := Exec(env, c, 0x78 + src, imm1, imm2).cpu.regs.a;
      Exec(env, c, 0x40 + 8 * dst + src, imm1, imm2).cpu
        == Exec(env, c, 0x06 + 8 * dst, x, imm2).cpu.(pc := c.pc)
  {
    hide ExecHigh, AluOp, ExecMisc, ExecLxiDad, ExecInxDcx, ExecAccumulator, ExecDirect, Store, Word, Operand, Reg, Increment, Decrement;
    OperandIsReg(c, src);
    MoveCode(dst, src);
  }

  lemma MoveCode(dst: nat, src: nat)
    requires dst < 8 && src < 8
    ensures var op := 0x40 + 8 * dst + src; op / 8 % 8 == dst && op % 8 == src
    ensures var op := 0x06 + 8 * dst; op < 0x40 && op / 8 % 8 == dst && op % 8 == 6
  {
  }

  /** INR and DCR: what MVI would do with the next or the previous byte, and then
      flags: zero and sign of the result, carry as before. */
  lemma IncrementNames(env: Env, c: Cpu, r: nat, imm1: byte, imm2: byte)
    requires r < 8
    ensures var up, x := Exec(env, c, 0x04 + 8 * r, imm1, imm2).cpu, (Operand(c, r) + 1) % 0x100;
      && up == Exec(env, c, 0x06 + 8 * r, x, imm2).cpu.(pc := c.pc, cc := up.cc)
      && up.cc.z == (x == 0) && up.cc.s == (x >= 0x80) && up.cc.cy == c.cc.cy && up.cc.v == (x == 0x80)
    ensures var down, x := Exec(env, c, 0x05 + 8 * r, imm1, imm2).cpu, (Operand(c, r) - 1) % 0x100;
      && down == Exec(env, c, 0x06 + 8 * r, x, imm2).cpu.(pc := c.pc, cc := down.cc)
      && down.cc.z == (x == 0) && down.cc.s == (x >= 0x80) && down.cc.cy == c.cc.cy && down.cc.v == (x == 0x7F)
  {
    hide ExecHigh, ExecMove, AluOp, ExecMisc, ExecLxiDad, ExecInxDcx, ExecAccumulator, ExecDirect, Store, Word, Operand, Reg, EvenParity, SetReg, Increment, Decrement;
    OperandIsReg(c, r);
    MoveCode(r, 0);
    NextByte(c.cc, Operand(c, r));
    PreviousByte(c.cc, Operand(c, r));
    assert (0x04 + 8 * r) / 8 % 8 == r && (0x04 + 8 * r) % 8 == 4;
    assert (0x05 + 8 * r) / 8 % 8 == r && (0x05 + 8 * r) % 8 == 5;
    SetRegAgain(env, c, r, (Operand(c, r) + 1) % 0x100);
    SetRegAgain(env, c, r, (Operand(c, r) - 1) % 0x100);
  }

  lemma SetRegAgain(env: Env, c: Cpu, r: nat, v: byte)
    requires r < 8
    ensures SetReg(env, c, r, v).pc == c.pc && SetReg(env, c, r, v).cc == c.cc
  {
    hide Store;
  }

  lemma NextByte(cc: Flags, x: byte)
    ensures var up, y := Increment(cc, x), (x + 1) % 0x100;
      up.value == y && up.cc.z == (y == 0) && up.cc.s == (y >= 0x80) && up.cc.cy == cc.cy && up.cc.v == (y == 0x80)
  {
    hide EvenParity;
    assert x == 0xFF || (x + 1) % 0x100 == x + 1;
  }

  lemma PreviousByte(cc: Flags, x: byte)
    ensures var down, y := Decrement(cc, x), (x - 1) % 0x100;
      down.value == y && down.cc.z == (y == 0) && down.cc.s == (y >= 0x80) && down.cc.cy == cc.cy && down.cc.v == (y == 0x7F)
  {
    hide Sub, EvenParity;
    B.SubByteExact(cc, x, 1, false);
    B.SubByteFlags(cc, x, 1, false);
    assert (x - 1) % 0x100 == x - 1 + 0x100 * Bit(x == 0);
  }

  // ----- the accumulator

  /** An accumulator operation on a register is the immediate one on the byte the
      register holds; only ADI and CPI leave V alone. */
  lemma RegisterIsImmediate(env: Env, c: Cpu, op: nat, r: nat, imm1: byte, imm2: byte)
    requires op < 8 && r < 8
    ensures var x, y := Exec(env, c, 0x80 + 8 * op + r, imm1, imm2).cpu, Exec(env, c, 0xC6 + 8 * op, Operand(c, r), imm2).cpu;
      x == y.(pc := c.pc, cc := y.cc.(v := if op == 0 || op == 7 then x.cc.v else y.cc.v))
  {
    hide ExecLow, ExecMove, ExecConditional, ExecPop, ExecPush, ExecSystem, Restart, AluOp, Operand, Reg;
    OperandIsReg(c, r);
    assert (0x80 + 8 * op + r) / 8 % 8 == op && (0x80 + 8 * op + r) % 8 == r;
    assert (0xC6 + 8 * op) / 8 % 8 == op && (0xC6 + 8 * op) % 8 == 6;
    AluKeepsPc(c, op, Operand(c, r));
  }

  lemma AluKeepsPc(c: Cpu, op: nat, y: byte)
    requires op < 8
    ensures AluOp(c, op, y).pc == c.pc
  {
    hide Add, Sub, And, Or, Xor, LogicFlags;
  }

  lemma ImmediateDispatch(env: Env, c: Cpu, op: nat, y: byte, imm2: byte)
    requires op < 8
    ensures Exec(env, c, 0xC6 + 8 * op, y, imm2).cpu.regs == AluOp(c, op, y).regs
    ensures op != 0 && op != 7 ==> Exec(env, c, 0xC6 + 8 * op, y, imm2).cpu.cc == AluOp(c, op, y).cc
    ensures op == 0 || op == 7 ==> Exec(env, c, 0xC6 + 8 * op, y, imm2).cpu.cc == AluOp(c, op, y).cc.(v := c.cc.v)
  {
    hide ExecLow, ExecMove, ExecConditional, ExecPop, ExecPush, ExecSystem, Restart, AluOp;
    assert (0xC6 + 8 * op) / 8 % 8 == op && (0xC6 + 8 * op) % 8 == 6;
  }

  /** ADI ACI SUI SBI: exact sums and differences with the carry or borrow. */
  lemma ImmediateArithmetic(env: Env, c: Cpu, y: byte, imm2: byte)
    ensures var r := Exec(env, c, 0xC6, y, imm2).cpu; r.regs.a + 0x100 * Bit(r.cc.cy) == c.regs.a + y
    ensures var r := Exec(env, c, 0xCE, y, imm2).cpu; r.regs.a + 0x100 * Bit(r.cc.cy) == c.regs.a + y + Bit(c.cc.cy)
    ensures var r := Exec(env, c, 0xD6, y, imm2).cpu; r.regs.a - 0x100 * Bit(r.cc.cy) == c.regs.a - y
    ensures var r := Exec(env, c, 0xDE, y, imm2).cpu; r.regs.a - 0x100 * Bit(r.cc.cy) == c.regs.a - y - Bit(c.cc.cy)
  {
    hide Exec, Add, Sub;
    ImmediateDispatch(env, c, 0, y, imm2);
    ImmediateDispatch(env, c, 1, y, imm2);
    ImmediateDispatch(env, c, 2, y, imm2);
    ImmediateDispatch(env, c, 3, y, imm2);
    B.AddByteExact(c.cc, c.regs.a, y, false);
    B.AddByteExact(c.cc, c.regs.a, y, c.cc.cy);
    B.SubByteExact(c.cc, c.regs.a, y, false);
    B.SubByteExact(c.cc, c.regs.a, y, c.cc.cy);
  }

  /** What the flags of a result say: zero, sign and parity. */
  predicate Describes(cc: Flags, r: byte) {
    cc.z == (r == 0) && cc.s == (r >= 128) && cc.p == (Ones(r) % 2 == 0)
  }

  function SignedByte(x: byte): int {
    if x < 128 then x else x - 256
  }

  /** The flags of ADI ACI SUI SBI: zero, sign and parity of the result, AC the carry
      or borrow of the low digit, and for all but ADI V on signed overflow. */
  lemma ImmediateFlags(env: Env, c: Cpu, y: byte, imm2: byte)
    ensures var r, a := Exec(env, c, 0xC6, y, imm2).cpu, c.regs.a;
      Describes(r.cc, r.regs.a) && r.cc.ac == (a % 16 + y % 16 >= 16) && r.cc.v == c.cc.v
    ensures var r, a, k := Exec(env, c, 0xCE, y, imm2).cpu, c.regs.a, Bit(c.cc.cy);
      && Describes(r.cc, r.regs.a) && r.cc.ac == (a % 16 + y % 16 + k >= 16)
      && r.cc.v == !(-128 <= SignedByte(a) + SignedByte(y) + k < 128)
    ensures var r, a := Exec(env, c, 0xD6, y, imm2).cpu, c.regs.a;
      && Describes(r.cc, r.regs.a) && r.cc.ac == (a % 16 < y % 16)
      && r.cc.v == !(-128 <= SignedByte(a) - SignedByte(y) < 128)
    ensures var r, a, k := Exec(env, c, 0xDE, y, imm2).cpu, c.regs.a, Bit(c.cc.cy);
      && Describes(r.cc, r.regs.a) && r.cc.ac == (a % 16 < y % 16 + k)
      && r.cc.v == !(-128 <= SignedByte(a) - SignedByte(y) - k < 128)
  {
    hide Exec, Add, Sub, Describes;
    ImmediateDispatch(env, c, 0, y, imm2);
    ImmediateDispatch(env, c, 1, y, imm2);
    ImmediateDispatch(env, c, 2, y, imm2);
    ImmediateDispatch(env, c, 3, y, imm2);
    AddDescribes(c.cc, c.regs.a, y, false);
    AddDescribes(c.cc, c.regs.a, y, c.cc.cy);
    SubDescribes(c.cc, c.regs.a, y, false);
    SubDescribes(c.cc, c.regs.a, y, c.cc.cy);
    DescribesApart(Add(c.cc, c.regs.a, y, false).cc, c.cc.v, Add(c.cc, c.regs.a, y, false).value);
  }

  lemma DescribesApart(cc: Flags, v: bool, r: byte)
    ensures Describes(cc.(v := v), r) == Describes(cc, r)
  {
  }

  lemma AddDescribes(cc: Flags, x: byte, y: byte, carry: bool)
    ensures var r := Add(cc, x, y, carry);
      && Describes(r.cc, r.value) && r.cc.ac == (x % 16 + y % 16 + Bit(carry) >= 16)
      && r.cc.v == !(-128 <= SignedByte(x) + SignedByte(y) + Bit(carry) < 128)
  {
    hide Ones;
  }

  lemma SubDescribes(cc: Flags, x: byte, y: byte, borrow: bool)
    ensures var r := Sub(cc, x, y, borrow);
      && Describes(r.cc, r.value) && r.cc.ac == (x % 16 < y % 16 + Bit(borrow))
      && r.cc.v == !(-128 <= SignedByte(x) - SignedByte(y) - Bit(borrow) < 128)
  {
    hide Ones;
  }

  /** DAA on any byte: each digit above nine, or with its carry set, is corrected by
      six; CY tells whether the high one was, AC whether the low correction carried. */
  lemma DaaCorrects(env: Env, c: Cpu, imm1: byte, imm2: byte)
    ensures var r, a := Exec(env, c, 0x27, imm1, imm2).cpu, c.regs.a;
      var low := a % 16 > 9 || c.cc.ac;
      var high := a > 0x99 || c.cc.cy;
      && r == c.(regs := c.regs.(a := r.regs.a), cc := r.cc) && Describes(r.cc, r.regs.a)
      && r.regs.a == (a + (if low then 6 else 0) + (if high then 0x60 else 0)) % 256
      && r.cc.cy == high && r.cc.ac == (a % 16 + (if low then 6 else 0) >= 16) && r.cc.v == c.cc.v && r.cc.x5 == c.cc.x5
  {
    hide Exec, Ones;
    AccumulatorDispatch(env, c, 4, imm1, imm2);
  }

  /** The status byte PUSH PSW stores: S Z X5 AC 0 P V CY from bit 7 down. */
  lemma StatusByte(cc: Flags)
    ensures Psw(cc) == 128 * Bit(cc.s) + 64 * Bit(cc.z) + 32 * Bit(cc.x5) + 16 * Bit(cc.ac) + 4 * Bit(cc.p) + 2 * Bit(cc.v) + Bit(cc.cy)
  {
  }

  /** And what POP PSW makes of any byte, bit 3 ignored. */
  lemma StatusByteRead(x: byte)
    ensures var cc := FlagsOf(x);
      && cc.s == (x >= 128) && cc.z == (x / 64 % 2 == 1) && cc.x5 == (x / 32 % 2 == 1) && cc.ac == (x / 16 % 2 == 1)
      && cc.p == (x / 4 % 2 == 1) && cc.v == (x / 2 % 2 == 1) && cc.cy == (x % 2 == 1)
  {
    assert BitOf(x, 128) == (x >= 128);
    hide BitOf;
    BitOne(x);
    BitTwo(x);
    BitFour(x);
    BitSixteen(x);
    BitThirtyTwo(x);
    BitSixtyFour(x);
  }

  /** Bit k of a byte, counted from the lowest. */
  predicate BitAt(x: nat, k: nat) {
    if k == 0 then x % 2 == 1 else BitAt(x / 2, k - 1)
  }

  lemma {:induction false} BitwiseAt(x: nat, y: nat, k: nat)
    ensures BitAt(BitAnd(x, y), k) == (BitAt(x, k) && BitAt(y, k))
    ensures BitAt(BitOr(x, y), k) == (BitAt(x, k) || BitAt(y, k))
    ensures BitAt(BitXor(x, y), k) == (BitAt(x, k) != BitAt(y, k))
  {
    ZeroBits(k);
    if k == 0 {
      assert BitAnd(x, y) % 2 == Bit(x % 2 == 1 && y % 2 == 1);
      assert BitOr(x, y) % 2 == Bit(x % 2 == 1 || y % 2 == 1);
      assert BitXor(x, y) % 2 == Bit(x % 2 != y % 2);
    } else {
      BitwiseAt(x / 2, y / 2, k - 1);
      assert BitAnd(x, y) / 2 == BitAnd(x / 2, y / 2);
      assert BitOr(x, y) / 2 == BitOr(x / 2, y / 2);
      assert BitXor(x, y) / 2 == BitXor(x / 2, y / 2);
    }
  }

  lemma {:induction false} ZeroBits(k: nat)
    ensures !BitAt(0, k)
  {
    if k != 0 {
      ZeroBits(k - 1);
    }
  }

  /** ANI, XRI and ORI work bit by bit, clear CY, and set AC for ANI only. */
  lemma ImmediateLogic(env: Env, c: Cpu, y: byte, imm2: byte, k: nat)
    ensures var r := Exec(env, c, 0xE6, y, imm2).cpu;
      BitAt(r.regs.a, k) == (BitAt(c.regs.a, k) && BitAt(y, k)) && !r.cc.cy && r.cc.ac && Describes(r.cc, r.regs.a)
    ensures var r := Exec(env, c, 0xEE, y, imm2).cpu;
      BitAt(r.regs.a, k) == (BitAt(c.regs.a, k) != BitAt(y, k)) && !r.cc.cy && !r.cc.ac && Describes(r.cc, r.regs.a)
    ensures var r := Exec(env, c, 0xF6, y, imm2).cpu;
      BitAt(r.regs.a, k) == (BitAt(c.regs.a, k) || BitAt(y, k)) && !r.cc.cy && !r.cc.ac && Describes(r.cc, r.regs.a)
  {
    hide Exec, Ones, BitAt, BitAnd, BitOr, BitXor;
    ImmediateDispatch(env, c, 4, y, imm2);
    ImmediateDispatch(env, c, 5, y, imm2);
    ImmediateDispatch(env, c, 6, y, imm2);
    BitwiseAt(c.regs.a, y, k);
  }

  /** RLC RRC RAL RAR as arithmetic on the nine bits of A and CY; CMA, STC, CMC. */
  lemma AccumulatorLaws(env: Env, c: Cpu, imm1: byte, imm2: byte)
    ensures var r := Exec(env, c, 0x07, imm1, imm2).cpu;
      r.regs.a + 0xFF * Bit(r.cc.cy) == 2 * c.regs.a && r.cc.cy == (c.regs.a >= 0x80)
    ensures var r := Exec(env, c, 0x0F, imm1, imm2).cpu;
      2 * r.regs.a == c.regs.a + 0xFF * Bit(r.cc.cy) && r.cc.cy == (c.regs.a % 2 == 1)
    ensures var r := Exec(env, c, 0x17, imm1, imm2).cpu; r.regs.a + 0x100 * Bit(r.cc.cy) == 2 * c.regs.a + Bit(c.cc.cy)
    ensures var r := Exec(env, c, 0x1F, imm1, imm2).cpu; 2 * r.regs.a + Bit(r.cc.cy) == c.regs.a + 0x100 * Bit(c.cc.cy)
    ensures var r := Exec(env, c, 0x2F, imm1, imm2).cpu; r.regs.a + c.regs.a == 0xFF && r.cc == c.cc
    ensures Exec(env, c, 0x37, imm1, imm2).cpu == c.(cc := c.cc.(cy := true))
    ensures Exec(env, c, 0x3F, imm1, imm2).cpu == c.(cc := c.cc.(cy := !c.cc.cy))
  {
    hide Exec, Rotate;
    AccumulatorDispatch(env, c, 0, imm1, imm2);
    AccumulatorDispatch(env, c, 1, imm1, imm2);
    AccumulatorDispatch(env, c, 2, imm1, imm2);
    AccumulatorDispatch(env, c, 3, imm1, imm2);
    AccumulatorDispatch(env, c, 5, imm1, imm2);
    AccumulatorDispatch(env, c, 6, imm1, imm2);
    AccumulatorDispatch(env, c, 7, imm1, imm2);
    Rotations(c.cc, c.regs.a);
  }

  lemma AccumulatorDispatch(env: Env, c: Cpu, row: nat, imm1: byte, imm2: byte)
    requires row < 8
    ensures Exec(env, c, 0x07 + 8 * row, imm1, imm2) == ExecAccumulator(c, row)
  {
    hide ExecHigh, ExecMove, AluOp, ExecMisc, ExecLxiDad, ExecInxDcx, ExecIncDecMove, ExecDirect, ExecAccumulator;
    assert (0x07 + 8 * row) / 8 % 8 == row && (0x07 + 8 * row) % 8 == 7;
  }

  lemma Rotations(cc: Flags, x: byte)
    ensures var r := Rotate(cc, x, 0); r.value + 0xFF * Bit(r.cc.cy) == 2 * x && r.cc.cy == (x >= 0x80)
    ensures var r := Rotate(cc, x, 1); 2 * r.value == x + 0xFF * Bit(r.cc.cy) && r.cc.cy == (x % 2 == 1)
    ensures var r := Rotate(cc, x, 2); r.value + 0x100 * Bit(r.cc.cy) == 2 * x + Bit(cc.cy)
    ensures var r := Rotate(cc, x, 3); 2 * r.value + Bit(r.cc.cy) == x + 0x100 * Bit(cc.cy)
  {
    hide Rotate;
    RotateLeft(cc, x);
    RotateRight(cc, x);
    RotateLeftThroughCarry(cc, x);
    RotateRightThroughCarry(cc, x);
  }

  lemma RotateLeft(cc: Flags, x: byte)
    ensures var r := Rotate(cc, x, 0); r.value + 0xFF * Bit(r.cc.cy) == 2 * x && r.cc.cy == (x >= 0x80)
  {
  }

  lemma RotateRight(cc: Flags, x: byte)
    ensures var r := Rotate(cc, x, 1); 2 * r.value == x + 0xFF * Bit(r.cc.cy) && r.cc.cy == (x % 2 == 1)
  {
  }

  lemma RotateLeftThroughCarry(cc: Flags, x: byte)
    ensures var r := Rotate(cc, x, 2); r.value + 0x100 * Bit(r.cc.cy) == 2 * x + Bit(cc.cy)
  {
  }

  lemma RotateRightThroughCarry(cc: Flags, x: byte)
    ensures var r := Rotate(cc, x, 3); 2 * r.value + Bit(r.cc.cy) == x + 0x100 * Bit(cc.cy)
  {
  }
}
