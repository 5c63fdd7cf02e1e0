/** The 8085 simulator's processor as values: one call of the step function,
    with interrupt acceptance, all 256 opcodes grouped by bit pattern, and every
    memory write sent through the memory plugins. */
module CpuModel {
  import opened CpuArith
  import opened Wrappers

  const MEMORY_SIZE := 0x1_0000
  const IO_SIZE := 0x100

  type Memory = m: seq<byte> | |m| == MEMORY_SIZE witness seq(MEMORY_SIZE, _ => 0)
  type Ports = m: seq<byte> | |m| == IO_SIZE witness seq(IO_SIZE, _ => 0)

  type RstNumber = x: int | 0 <= x < 8

  datatype Regs = Regs(b: byte, c: byte, d: byte, e: byte, h: byte, l: byte, a: byte)

  /** The lines that devices drive: pending interrupts and serial input. */
  datatype Lines = Lines(trap: bool, r5: bool, r6: bool, r7: bool, intr: bool, intNumber: RstNumber, sid: bool)

  datatype Masks = Masks(r5: bool, r6: bool, r7: bool)

  datatype Cpu = Cpu(
    regs: Regs, sp: word, pc: word, cc: Flags,
    enabled: bool, delay: byte, masks: Masks, lines: Lines,
    sod: bool, halted: bool, mem: Memory, io: Ports)

  /** A memory plugin: a region that is write-protected while it is a ROM, or an
      EEPROM with writing disabled. `end` is exclusive. */
  datatype Region = Region(base: nat, end: nat, eeprom: bool, writeEnabled: bool) {
    predicate Protects(addr: word) {
      base <= addr < end && (eeprom ==> !writeEnabled)
    }
  }

  /** What surrounds the processor during one step: the memory plugins in load
      order, the ports that plugins answer with their values, and the two bytes
      behind the memory buffer that unmasked reads can reach. */
  datatype Env = Env(regions: seq<Region>, portIn: map<byte, byte>, beyond0: byte, beyond1: byte)

  datatype IoEvent = NoIo | InRead(port: byte, value: byte) | OutWrite(port: byte, value: byte)
  datatype Outcome = Outcome(cpu: Cpu, states: nat, event: IoEvent)

  // ----- memory

  /** One plugin's answer: the old byte to veto, the offered byte to allow. */
  function RegionWrite(region: Region, mem: Memory, addr: word, val: byte): byte {
    if region.Protects(addr) then mem[addr] else val
  }

  /** The write hook's answer: the value chained through every plugin. */
  function ChainWrite(regions: seq<Region>, mem: Memory, addr: word, val: byte): byte {
    if |regions| == 0 then val
    else RegionWrite(regions[|regions|-1], mem, addr, ChainWrite(regions[..|regions|-1], mem, addr, val))
  }

  /** The one funnel for processor writes; the address wraps. */
  function Store(env: Env, mem: Memory, addr: int, val: byte): Memory {
    var a := Wrap(addr);
    mem[a := ChainWrite(env.regions, mem, a, val)]
  }

  /** A read at an address the program does not mask. */
  function Load(env: Env, mem: Memory, addr: nat): byte
    requires addr <= MEMORY_SIZE + 1
  {
    if addr < MEMORY_SIZE then mem[addr] else if addr == MEMORY_SIZE then env.beyond0 else env.beyond1
  }

  // ----- register access by opcode field

  function HL(c: Cpu): word { Word(c.regs.h, c.regs.l) }
  function BC(c: Cpu): word { Word(c.regs.b, c.regs.c) }
  function DE(c: Cpu): word { Word(c.regs.d, c.regs.e) }
  function SetA(c: Cpu, v: byte): Cpu { c.(regs := c.regs.(a := v)) }
  function SetAlu(c: Cpu, r: Alu): Cpu { c.(regs := c.regs.(a := r.value), cc := r.cc) }
  function SetHL(c: Cpu, h: byte, l: byte): Cpu { c.(regs := c.regs.(h := h, l := l)) }

  /** Operand r of an instruction: B C D E H L M A. */
  function Reg(c: Cpu, r: nat): byte
    requires r < 8
  {
    match r
    case 0 => c.regs.b case 1 => c.regs.c case 2 => c.regs.d case 3 => c.regs.e
    case 4 => c.regs.h case 5 => c.regs.l case 6 => c.mem[HL(c)] case _ => c.regs.a
  }

  function WithReg(r: Regs, i: nat, v: byte): Regs
    requires i < 8 && i != 6
  {
    match i
    case 0 => r.(b := v) case 1 => r.(c := v) case 2 => r.(d := v) case 3 => r.(e := v)
    case 4 => r.(h := v) case 5 => r.(l := v) case _ => r.(a := v)
  }

  function SetReg(env: Env, c: Cpu, r: nat, v: byte): Cpu
    requires r < 8
  {
    if r == 6 then c.(mem := Store(env, c.mem, HL(c), v)) else c.(regs := WithReg(c.regs, r, v))
  }

  /** Register pair p: BC DE HL SP. */
  function Pair(c: Cpu, p: nat): word
    requires p < 4
  {
    match p case 0 => BC(c) case 1 => DE(c) case 2 => HL(c) case _ => c.sp
  }

  function SetPair(c: Cpu, p: nat, w: word): Cpu
    requires p < 4
  {
    match p
    case 0 => c.(regs := c.regs.(b := Hi(w), c := Lo(w))) case 1 => c.(regs := c.regs.(d := Hi(w), e := Lo(w)))
    case 2 => SetHL(c, Hi(w), Lo(w)) case _ => c.(sp := w)
  }

  /** Condition k: NZ Z NC C PO PE P M. */
  predicate Holds(cc: Flags, k: nat)
    requires k < 8
  {
    match k
    case 0 => !cc.z case 1 => cc.z case 2 => !cc.cy case 3 => cc.cy
    case 4 => !cc.p case 5 => cc.p case 6 => !cc.s case _ => cc.s
  }

  // ----- stack

  function PushWord(env: Env, c: Cpu, w: word): Cpu {
    c.(mem := Store(env, Store(env, c.mem, c.sp - 1, Hi(w)), c.sp - 2, Lo(w)), sp := Wrap(c.sp - 2))
  }

  /** The word a pop or return reads; the second byte's address is not masked. */
  function TopWord(env: Env, c: Cpu): word {
    Word(Load(env, c.mem, c.sp + 1), c.mem[c.sp])
  }

  function Popped(c: Cpu): Cpu {
    c.(sp := Wrap(c.sp + 2))
  }

  /** Push the current pc and go to the vector of RST n, or half a slot after it. */
  function Restart(env: Env, c: Cpu, n: RstNumber, half: bool): Cpu
  {
    PushWord(env, c, c.pc).(pc := 8 * n + 4 * Bit(half))
  }

  // ----- instructions. In each, c.pc is already past the opcode byte and
  // imm1, imm2 are the two bytes that follow it.

  function Plain(c: Cpu, states: nat): Outcome { Outcome(c, states, NoIo) }
  function Skip(c: Cpu, n: nat): Cpu { c.(pc := Wrap(c.pc + n)) }

  /** DSUB: HL - BC. */
  function Dsub(c: Cpu): Cpu {
    var (r, cc) := DoubleSub(c.cc, HL(c), BC(c));
    SetHL(c, Hi(r), Lo(r)).(cc := cc)
  }

  /** ARHL: HL shifted right, sign kept, low bit to carry. */
  function Arhl(c: Cpu): Cpu {
    var w := HL(c);
    var r := w / 2 + if w >= 0x8000 then 0x8000 else 0;
    SetHL(c, Hi(r), Lo(r)).(cc := c.cc.(cy := w % 2 == 1))
  }

  /** RDEL: DE rotated left through carry. */
  function Rdel(c: Cpu): Cpu {
    var (r, cc) := RotateWord(c.cc, DE(c));
    SetPair(c, 1, r).(cc := cc)
  }

  /** RIM: serial input and pending lines in the high half, enable and masks in
      the low half. */
  function RimByte(lines: Lines, enabled: bool, masks: Masks): byte {
    var high: byte := 0x80 * Bit(lines.sid) + 0x40 * Bit(lines.r7) + 0x20 * Bit(lines.r6) + 0x10 * Bit(lines.r5);
    var low: byte := 8 * Bit(enabled) + 4 * Bit(masks.r7) + 2 * Bit(masks.r6) + Bit(masks.r5);
    high + low
  }

  function Rim(c: Cpu): Cpu {
    SetA(c, RimByte(c.lines, c.enabled, c.masks))
  }

  /** SIM, part by part: serial output under bit 6, the RST 7.5 latch reset by
      bit 4, the masks set under bit 3. */
  function SodAfterSim(a: byte, sod: bool): bool {
    if BitOf(a, 0x40) then BitOf(a, 0x80) else sod
  }

  function LinesAfterSim(a: byte, lines: Lines): Lines {
    if BitOf(a, 0x10) then lines.(r7 := false) else lines
  }

  function MasksAfterSim(a: byte, masks: Masks): Masks {
    if BitOf(a, 8) then Masks(BitOf(a, 1), BitOf(a, 2), BitOf(a, 4)) else masks
  }

  function Sim(c: Cpu): Cpu {
    var a := c.regs.a;
    c.(sod := SodAfterSim(a, c.sod), lines := LinesAfterSim(a, c.lines), masks := MasksAfterSim(a, c.masks))
  }

  /** 00-3F, column 0: NOP DSUB ARHL RDEL RIM LDHI SIM LDSI. */
  function ExecMisc(c: Cpu, row: nat, imm1: byte): Outcome
    requires row < 8
  {
    match row
    case 0 => Plain(c, 4)
    case 1 => Plain(Dsub(c), 10)
    case 2 => Plain(Arhl(c), 7)
    case 3 => Plain(Rdel(c), 10)
    case 4 => Plain(Rim(c), 4)
    case 5 => Plain(Skip(SetPair(c, 1, Wrap(HL(c) + imm1)), 1), 10)
    case 6 => Plain(Sim(c), 4)
    case _ => Plain(Skip(SetPair(c, 1, Wrap(c.sp + imm1)), 1), 10)
  }

  /** Column 1: LXI rp on even rows, DAD rp on odd ones. */
  function ExecLxiDad(c: Cpu, row: nat, imm1: byte, imm2: byte): Outcome
    requires row < 8
  {
    if row % 2 == 0 then Plain(Skip(SetPair(c, row / 2, Word(imm2, imm1)), 2), if row == 6 then 10 else 4)
    else
      var total := HL(c) + Pair(c, row / 2);
      Plain(SetPair(c, 2, Wrap(total)).(cc := c.cc.(cy := total >= 0x1_0000)), 10)
  }

  /** Column 2: STAX B, LDAX B, STAX D, LDAX D, SHLD, LHLD, STA, LDA. */
  function ExecDirect(env: Env, c: Cpu, row: nat, imm1: byte, imm2: byte): Outcome
    requires row < 8
  {
    var addr := Word(imm2, imm1);
    match row
    case 0 => Plain(c.(mem := Store(env, c.mem, BC(c), c.regs.a)), 7)
    case 1 => Plain(SetA(c, c.mem[BC(c)]), 7)
    case 2 => Plain(c.(mem := Store(env, c.mem, DE(c), c.regs.a)), 7)
    case 3 => Plain(SetA(c, c.mem[DE(c)]), 7)
    case 4 => Plain(Skip(c.(mem := Store(env, Store(env, c.mem, addr, c.regs.l), addr + 1, c.regs.h)), 2), 16)
    case 5 => Plain(Skip(SetHL(c, Load(env, c.mem, addr + 1), c.mem[addr]), 2), 16)
    case 6 => Plain(Skip(c.(mem := Store(env, c.mem, addr, c.regs.a)), 2), 13)
    case _ => Plain(Skip(SetA(c, c.mem[addr]), 2), 13)
  }

  /** Column 3: INX rp, DCX rp, with the undocumented X5 flag on wrap-around. */
  function ExecInxDcx(c: Cpu, row: nat): Outcome
    requires row < 8
  {
    var p := row / 2;
    if row % 2 == 0 then
      var w := Wrap(Pair(c, p) + 1);
      Plain(SetPair(c, p, w).(cc := c.cc.(x5 := w == 0)), 6)
    else
      var w := Wrap(Pair(c, p) - 1);
      Plain(SetPair(c, p, w).(cc := c.cc.(x5 := w == 0xFFFF)), 6)
  }

  /** Columns 4 to 6: INR r, DCR r, MVI r. */
  function ExecIncDecMove(env: Env, c: Cpu, row: nat, column: nat, imm1: byte): Outcome
    requires row < 8 && 4 <= column < 7
  {
    if column == 6 then Plain(Skip(SetReg(env, c, row, imm1), 1), 10)
    else
      var r := if column == 4 then Increment(c.cc, Reg(c, row)) else Decrement(c.cc, Reg(c, row));
      Plain(SetReg(env, c, row, r.value).(cc := r.cc), if row == 6 then 10 else 4)
  }

  /** Column 7: RLC RRC RAL RAR DAA CMA STC CMC. */
  function ExecAccumulator(c: Cpu, row: nat): Outcome
    requires row < 8
  {
    var x := c.regs.a;
    match row
    case 4 => Plain(SetAlu(c, DecimalAdjust(c.cc, x)), 4)
    case 5 => Plain(SetA(c, 0xFF - x), 4)
    case 6 => Plain(c.(cc := c.cc.(cy := true)), 4)
    case 7 => Plain(c.(cc := c.cc.(cy := !c.cc.cy)), 4)
    case _ => Plain(SetAlu(c, Rotate(c.cc, x, row)), 4)
  }

  /** 40-7F: MOV, and HLT in the place of MOV M,M. */
  function ExecMove(env: Env, c: Cpu, dst: nat, src: nat): Outcome
    requires dst < 8 && src < 8
  {
    if dst == 6 && src == 6 then Plain(c.(halted := true), 5)
    else Plain(SetReg(env, c, dst, Reg(c, src)), if dst == 6 || src == 6 then 7 else 4)
  }

  /** ADD ADC SUB SBB ANA XRA ORA CMP with operand y. */
  function AluOp(c: Cpu, op: nat, y: byte): Cpu
    requires op < 8
  {
    var a := c.regs.a;
    match op
    case 0 => SetAlu(c, Add(c.cc, a, y, false))
    case 1 => SetAlu(c, Add(c.cc, a, y, c.cc.cy))
    case 2 => SetAlu(c, Sub(c.cc, a, y, false))
    case 3 => SetAlu(c, Sub(c.cc, a, y, c.cc.cy))
    case 4 => SetAlu(c, Alu(And(a, y), LogicFlags(c.cc, And(a, y), true)))
    case 5 => SetAlu(c, Alu(Xor(a, y), LogicFlags(c.cc, Xor(a, y), false)))
    case 6 => SetAlu(c, Alu(Or(a, y), LogicFlags(c.cc, Or(a, y), false)))
    case _ => c.(cc := Sub(c.cc, a, y, false).cc)
  }

  /** C6-FE, column 6: the immediate forms; ADI and CPI leave V alone. */
  function AluImmediate(c: Cpu, op: nat, y: byte): Outcome
    requires op < 8
  {
    var r := AluOp(c, op, y);
    Plain(Skip(if op == 0 || op == 7 then r.(cc := r.cc.(v := c.cc.v)) else r, 1), 7)
  }

  /** C0-FF, columns 0, 2 and 4: Rcc, Jcc, Ccc. CNZ is charged 9 states even
      when taken. */
  function ExecConditional(env: Env, c: Cpu, row: nat, column: nat, imm1: byte, imm2: byte): Outcome
    requires row < 8 && column in {0, 2, 4}
  {
    var target := Word(imm2, imm1);
    if !Holds(c.cc, row) then
      if column == 0 then Plain(c, 6) else Plain(Skip(c, 2), if column == 2 then 7 else 9)
    else if column == 0 then Plain(Popped(c).(pc := TopWord(env, c)), 12)
    else if column == 2 then Plain(c.(pc := target), 10)
    else Plain(PushWord(env, c, Wrap(c.pc + 2)).(pc := target), if row == 0 then 9 else 18)
  }

  /** The pair that PUSH and POP of row 2p name: BC DE HL, or A with the flags. */
  function PushPair(c: Cpu, p: nat): word
    requires p < 4
  {
    if p == 3 then Word(c.regs.a, Psw(c.cc)) else Pair(c, p)
  }

  /** Column 1: POP on even rows; RET SHLX PCHL SPHL on odd ones. POP PSW masks
      both of its addresses. */
  function ExecPop(env: Env, c: Cpu, row: nat): Outcome
    requires row < 8
  {
    match row
    case 1 => Plain(Popped(c).(pc := TopWord(env, c)), 10)
    case 3 => Plain(c.(mem := Store(env, Store(env, c.mem, DE(c), c.regs.l), DE(c) + 1, c.regs.h)), 10)
    case 5 => Plain(c.(pc := HL(c)), 6)
    case 7 => Plain(c.(sp := HL(c)), 6)
    case 6 => Plain(SetA(Popped(c), c.mem[Wrap(c.sp + 1)]).(cc := FlagsOf(c.mem[c.sp])), 10)
    case _ => Plain(SetPair(Popped(c), row / 2, TopWord(env, c)), 10)
  }

  /** Column 3: JMP RSTV OUT IN XTHL XCHG DI EI. */
  function ExecSystem(env: Env, c: Cpu, row: nat, imm1: byte, imm2: byte): Outcome
    requires row < 8
  {
    match row
    case 0 => Plain(c.(pc := Word(imm2, imm1)), 10)
    case 1 => if c.cc.v then Plain(Restart(env, c, 0, false).(pc := 0x40), 12) else Plain(c, 6)
    case 2 => Outcome(Skip(c.(io := c.io[imm1 := c.regs.a]), 1), 10, OutWrite(imm1, c.regs.a))
    case 3 =>
      var io := if imm1 in env.portIn then c.io[imm1 := env.portIn[imm1]] else c.io;
      Outcome(Skip(SetA(c, io[imm1]).(io := io), 1), 10, InRead(imm1, io[imm1]))
    case 4 =>
      var w := TopWord(env, c);
      Plain(SetPair(c.(mem := Store(env, Store(env, c.mem, c.sp, c.regs.l), c.sp + 1, c.regs.h)), 2, w), 16)
    case 5 => Plain(SetPair(SetPair(c, 1, HL(c)), 2, DE(c)), 4)
    case 6 => Plain(c.(enabled := false, delay := 0), 4)
    case _ => Plain(c.(delay := 2), 4)
  }

  /** Column 5: PUSH on even rows; CALL JNX5 LHLX JX5 on odd ones. */
  function ExecPush(env: Env, c: Cpu, row: nat, imm1: byte, imm2: byte): Outcome
    requires row < 8
  {
    var target := Word(imm2, imm1);
    match row
    case 1 => Plain(PushWord(env, c, Wrap(c.pc + 2)).(pc := target), 18)
    case 3 => if !c.cc.x5 then Plain(c.(pc := target), 10) else Plain(Skip(c, 2), 7)
    case 5 => Plain(SetHL(c, Load(env, c.mem, DE(c) + 1), c.mem[DE(c)]), 10)
    case 7 => if c.cc.x5 then Plain(c.(pc := target), 10) else Plain(Skip(c, 2), 7)
    case _ => Plain(PushWord(env, c, PushPair(c, row / 2)), 13)
  }

  function ExecLow(env: Env, c: Cpu, row: nat, column: nat, imm1: byte, imm2: byte): Outcome
    requires row < 8 && column < 8
  {
    match column
    case 0 => ExecMisc(c, row, imm1)
    case 1 => ExecLxiDad(c, row, imm1, imm2)
    case 2 => ExecDirect(env, c, row, imm1, imm2)
    case 3 => ExecInxDcx(c, row)
    case 7 => ExecAccumulator(c, row)
    case _ => ExecIncDecMove(env, c, row, column, imm1)
  }

  function ExecHigh(env: Env, c: Cpu, row: nat, column: nat, imm1: byte, imm2: byte): Outcome
    requires row < 8 && column < 8
  {
    match column
    case 1 => ExecPop(env, c, row)
    case 3 => ExecSystem(env, c, row, imm1, imm2)
    case 5 => ExecPush(env, c, row, imm1, imm2)
    case 6 => AluImmediate(c, row, imm1)
    case 7 => Plain(Restart(env, c, row, false), 12)
    case _ => ExecConditional(env, c, row, column, imm1, imm2)
  }

  /** The opcode switch. */
  function Exec(env: Env, c: Cpu, op: byte, imm1: byte, imm2: byte): Outcome {
    var row, column := op / 8 % 8, op % 8;
    if op < 0x40 then ExecLow(env, c, row, column, imm1, imm2)
    else if op < 0x80 then ExecMove(env, c, row, column)
    else if op < 0xC0 then Plain(AluOp(c, row, Reg(c, column)), if column == 6 then 7 else 4)
    else ExecHigh(env, c, row, column, imm1, imm2)
  }

  // ----- interrupts

  datatype Source = Trap | Rst75 | Rst65 | Rst55 | Intr

  /** The sources that would be accepted now, highest priority first wins. */
  predicate Eligible(c: Cpu, s: Source) {
    match s
    case Trap => c.lines.trap
    case Rst75 => c.enabled && c.lines.r7 && !c.masks.r7
    case Rst65 => c.enabled && c.lines.r6 && !c.masks.r6
    case Rst55 => c.enabled && c.lines.r5 && !c.masks.r5
    case Intr => c.enabled && c.lines.intr
  }

  function Chosen(c: Cpu): Option<Source> {
    if Eligible(c, Trap) then Some(Trap)
    else if Eligible(c, Rst75) then Some(Rst75)
    else if Eligible(c, Rst65) then Some(Rst65)
    else if Eligible(c, Rst55) then Some(Rst55)
    else if Eligible(c, Intr) then Some(Intr)
    else None
  }

  function Accept(env: Env, c: Cpu, s: Source): Cpu
  {
    var d := c.(enabled := false);
    match s
    case Trap => Restart(env, d.(lines := d.lines.(trap := false)), 4, true)
    case Rst75 => Restart(env, d.(lines := d.lines.(r7 := false)), 7, true)
    case Rst65 => Restart(env, d.(lines := d.lines.(r6 := false)), 6, true)
    case Rst55 => Restart(env, d.(lines := d.lines.(r5 := false)), 5, true)
    case Intr => Restart(env, d.(lines := d.lines.(intr := false)), c.lines.intNumber, false)
  }

  // ----- one step

  /** Delayed interrupt enable, counted down at the end of every instruction. */
  function Tick(c: Cpu): Cpu {
    if c.delay == 0 then c
    else c.(delay := c.delay - 1, enabled := c.enabled || c.delay == 1)
  }

  /** The processor at the instruction boundary, interrupt accepted if any. */
  function Entered(env: Env, c: Cpu): Cpu
  {
    match Chosen(c)
    case None => c
    case Some(s) => Accept(env, c, s).(halted := false)
  }

  /** The instruction at pc, executed to its end. */
  function Executed(env: Env, c: Cpu): Outcome {
    var r := Exec(env, c.(pc := Wrap(c.pc + 1)), c.mem[c.pc], Load(env, c.mem, c.pc + 1), Load(env, c.mem, c.pc + 2));
    r.(cpu := Tick(r.cpu))
  }

  /** One call of the step function. A halted processor that accepts no
      interrupt does nothing and is charged nothing. */
  function Step(env: Env, c: Cpu): Outcome
  {
    var d := Entered(env, c);
    if d.halted then Plain(d, 0) else Executed(env, d)
  }
}
