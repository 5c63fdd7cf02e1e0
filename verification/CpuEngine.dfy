/** The processor as the program keeps it: one object whose fields and memory
    buffer each instruction updates in place, proved step for step against the
    functions of CpuModel.dfy. */
module CpuEngine {
  import opened CpuArith
  import opened CpuModel
  import CpuRuns
  import CpuInterrupts

  /** Count the one bits among the low `size` bits; true when their number is even. */
  method Parity(value: nat, size: nat) returns (even: bool)
    ensures even <==> Ones(LowBits(value, size)) % 2 == 0
  {
    hide LowBits;
    var x: nat, p: nat := LowBits(value, size), 0;
    for i := 0 to size
      invariant x < Pow2(size - i) && p + Ones(x) == Ones(LowBits(value, size))
    {
      if x % 2 == 1 { p := p + 1; }
      x := x / 2;
    }
    even := p % 2 == 0;
  }

  method ByteParity(value: byte) returns (even: bool)
    ensures even == EvenParity(value)
  {
    assert Pow2(8) == 0x100;
    assert LowBits(value, 8) == value;
    even := Parity(value, 8);
  }

  /** The write hook: the value passes through every plugin in load order. */
  method MemWriteHook(regions: seq<Region>, memory: array<byte>, addr: word, val: byte) returns (v: byte)
    requires memory.Length == MEMORY_SIZE
    ensures v == ChainWrite(regions, memory[..], addr, val)
    ensures v == if CpuRuns.Protected(regions, addr) then memory[addr] else val
  {
    v := val;
    for i := 0 to |regions|
      invariant v == ChainWrite(regions[..i], memory[..], addr, val)
    {
      assert regions[..i + 1][..i] == regions[..i];
      if regions[i].Protects(addr) {
        v := memory[addr];
      }
    }
    assert regions[..|regions|] == regions;
    CpuRuns.ChainIsVeto(regions, memory[..], addr, val);
  }

  /** Statistics the step function keeps: T-states and the lowest stack pointer. */
  class ExecutionStats {
    var minSp: word
    var minSpSet: bool
    var totalTstates: int

    constructor ()
      ensures !minSpSet && totalTstates == 0
    {
      minSp, minSpSet, totalTstates := 0, false, 0;
    }

    /** After an instruction that left the stack pointer at sp. */
    method Record(sp: word, states: nat)
      modifies this
      ensures minSpSet && totalTstates == (old(totalTstates) + states) % U64
      ensures minSp == if old(minSpSet) && old(minSp) <= sp then old(minSp) else sp
    {
      if !minSpSet || sp < minSp {
        minSp, minSpSet := sp, true;
      }
      totalTstates := (totalTstates + states) % U64;
    }
  }

  const U64 := 0x1_0000_0000_0000_0000

  class State8085 {
    var regs: Regs
    var sp: word
    var pc: word
    var cc: Flags
    var intEnable: bool
    var intEnableDelay: byte
    var masks: Masks
    var lines: Lines
    var sodLine: bool
    var hltEnable: bool
    const memory: array<byte>
    const io: array<byte>

    predicate Valid() {
      memory.Length == MEMORY_SIZE && io.Length == IO_SIZE && memory != io
    }

    ghost function View(): Cpu
      requires Valid()
      reads this, memory, io
    {
      Cpu(regs, sp, pc, cc, intEnable, intEnableDelay, masks, lines, sodLine, hltEnable, memory[..], io[..])
    }

    /** A fresh machine: memory, ports and registers all zero. */
    constructor ()
      ensures Valid() && fresh(memory) && fresh(io)
      ensures View() == CpuInterrupts.Reset(View(), 0, 0)
      ensures (forall a | 0 <= a < MEMORY_SIZE :: memory[a] == 0) && (forall a | 0 <= a < IO_SIZE :: io[a] == 0)
    {
      memory := new byte[MEMORY_SIZE](_ => 0);
      io := new byte[IO_SIZE](_ => 0);
      regs, sp, pc, cc := Regs(0, 0, 0, 0, 0, 0, 0), 0, 0, Flags(false, false, false, false, false, false, false);
      intEnable, intEnableDelay, sodLine, hltEnable := false, 0, false, false;
      masks, lines := Masks(false, false, false), Lines(false, false, false, false, false, 0, false);
    }

    /** Reset keeps memory and ports, sets pc and sp, and clears all the rest. */
    method Reset(startPc: word, startSp: word)
      requires Valid()
      modifies this
      ensures View() == CpuInterrupts.Reset(old(View()), startPc, startSp)
    {
      regs, sp, pc, cc := Regs(0, 0, 0, 0, 0, 0, 0), startSp, startPc, Flags(false, false, false, false, false, false, false);
      intEnable, intEnableDelay, sodLine, hltEnable := false, 0, false, false;
      masks, lines := Masks(false, false, false), Lines(false, false, false, false, false, 0, false);
    }

    // ----- flags and arithmetic

    /** Zero, sign and parity of a result byte. */
    static method ResultFlagsOf(cc: Flags, r: byte) returns (flags: Flags)
      ensures flags == ResultFlags(cc, r)
    {
      var even := ByteParity(r);
      flags := cc.(z := r == 0, s := r >= 0x80, p := even);
    }

    /** V is computed from the sign bits, as in the program: equal operand signs
        and a different result sign. */
    static method AddBytes(cc: Flags, lhs: byte, rhs: byte, carry: bool) returns (r: byte, flags: Flags)
      ensures Alu(r, flags) == Add(cc, lhs, rhs, carry)
    {
      hide EvenParity, FitsSigned, Signed;
      SumOverflowBySigns(lhs, rhs, Bit(carry));
      var res := lhs + rhs + Bit(carry);
      r := res % 0x100;
      flags := ResultFlagsOf(cc, r);
      flags := flags.(cy := res > 0xFF, ac := lhs % 0x10 + rhs % 0x10 + Bit(carry) > 0xF,
                      v := (lhs >= 0x80) == (rhs >= 0x80) && (lhs >= 0x80) != (r >= 0x80));
    }

    /** The 16-bit difference of the program exceeds a byte exactly on borrow. */
    static method SubtractBytes(cc: Flags, lhs: byte, rhs: byte, borrow: bool) returns (r: byte, flags: Flags)
      ensures Alu(r, flags) == Sub(cc, lhs, rhs, borrow)
    {
      hide EvenParity, FitsSigned, Signed, Wrap;
      DifferenceOverflowBySigns(lhs, rhs, Bit(borrow));
      BorrowBytes(lhs, rhs, Bit(borrow));
      var res := Wrap(lhs - rhs - Bit(borrow));
      r := res % 0x100;
      flags := ResultFlagsOf(cc, r);
      flags := flags.(cy := res > 0xFF, ac := lhs % 0x10 < rhs % 0x10 + Bit(borrow),
                      v := (lhs >= 0x80) != (rhs >= 0x80) && (lhs >= 0x80) != (r >= 0x80));
    }

    /** The two should-preserve-carry forms: INR and DCR keep CY. */
    method AddByteWithCarry(lhs: byte, rhs: byte, carry: bool, preserveCarry: bool) returns (r: byte)
      requires Valid()
      modifies this`cc
      ensures var s := Add(old(cc), lhs, rhs, carry);
        r == s.value && cc == s.cc.(cy := if preserveCarry then old(cc).cy else s.cc.cy)
    {
      hide Add;
      var flags;
      r, flags := AddBytes(cc, lhs, rhs, carry);
      cc := if preserveCarry then flags.(cy := cc.cy) else flags;
    }

    method SubtractByteWithBorrow(lhs: byte, rhs: byte, borrow: bool, preserveCarry: bool) returns (r: byte)
      requires Valid()
      modifies this`cc
      ensures var s := Sub(old(cc), lhs, rhs, borrow);
        r == s.value && cc == s.cc.(cy := if preserveCarry then old(cc).cy else s.cc.cy)
    {
      hide Sub;
      var flags;
      r, flags := SubtractBytes(cc, lhs, rhs, borrow);
      cc := if preserveCarry then flags.(cy := cc.cy) else flags;
    }

    /** A 16-bit difference of bytes: its low byte, and when it exceeds a byte. */
    static lemma BorrowBytes(x: byte, y: byte, b: byte)
      requires b <= 1
      ensures Wrap(x - y - b) == x - y - b + if x < y + b then 0x1_0000 else 0
      ensures Wrap(x - y - b) % 0x100 == (x - y - b) % 0x100 == x - y - b + if x < y + b then 0x100 else 0
    {
    }

    // ----- memory and stack

    /** Every processor write goes through the plugins. */
    method MemWr(env: Env, addr: int, val: byte)
      requires Valid()
      modifies memory
      ensures memory[..] == Store(env, old(memory[..]), addr, val)
    {
      var w := addr % 0x1_0000;
      var v := MemWriteHook(env.regions, memory, w, val);
      memory[w] := v;
    }

    /** An unmasked read. */
    method Fetch(env: Env, addr: nat) returns (v: byte)
      requires Valid() && addr <= MEMORY_SIZE + 1
      ensures v == Load(env, memory[..], addr)
    {
      v := if addr < MEMORY_SIZE then memory[addr] else if addr == MEMORY_SIZE then env.beyond0 else env.beyond1;
    }

    method PushBytes(env: Env, hi: byte, lo: byte)
      requires Valid()
      modifies this`sp, memory
      ensures View() == PushWord(env, old(View()), Word(hi, lo))
    {
      MemWr(env, sp - 1, hi);
      MemWr(env, sp - 2, lo);
      sp := (sp - 2) % 0x1_0000;
    }

    /** CALL: pc is past the opcode byte, the two operand bytes are still ahead. */
    method Call(env: Env, addr: word)
      requires Valid()
      modifies this`sp, this`pc, memory
      ensures View() == PushWord(env, old(View()), Wrap(old(pc) + 2)).(pc := addr)
    {
      var ret := (pc + 2) % 0x1_0000;
      PushBytes(env, ret / 0x100, ret % 0x100);
      pc := addr;
    }

    method ReturnToCaller(env: Env)
      requires Valid()
      modifies this`sp, this`pc
      ensures View() == Popped(old(View())).(pc := TopWord(env, old(View())))
    {
      var hi := Fetch(env, sp + 1);
      var lo := memory[sp];
      pc := Word(hi, lo);
      sp := (sp + 2) % 0x1_0000;
    }

    method Rst(env: Env, n: RstNumber, half: bool)
      requires Valid()
      modifies this`sp, this`pc, memory
      ensures View() == Restart(env, old(View()), n, half)
    {
      PushBytes(env, pc / 0x100, pc % 0x100);
      pc := 8 * n + if half then 4 else 0;
    }

    // ----- interrupts

    /** Set or clear a pending line; tell whether interrupts are on. */
    method TriggerInterrupt(code: int, active: bool) returns (enabled: bool)
      requires Valid()
      modifies this`lines
      ensures enabled == intEnable
      ensures lines == CpuRuns.Triggered(old(lines), code, active)
    {
      if 0 <= code < 8 {
        lines := lines.(intr := active, intNumber := code);
      } else if code == 45 {
        lines := lines.(trap := active);
      } else if code == 55 {
        lines := lines.(r5 := active);
      } else if code == 65 {
        lines := lines.(r6 := active);
      } else if code == 75 {
        if active { lines := lines.(r7 := true); }
      }
      enabled := intEnable;
    }

    method SetSidLine(level: bool)
      requires Valid()
      modifies this`lines
      ensures lines == old(lines).(sid := level)
    {
      lines := lines.(sid := level);
    }

    /** Accept at most one interrupt, from TRAP down to the 8080-style INT. */
    method CheckInterrupts(env: Env) returns (taken: bool)
      requires Valid()
      modifies this, memory
      ensures match Chosen(old(View()))
        case None => !taken && View() == old(View())
        case Some(s) => taken && View() == Accept(env, old(View()), s)
    {
      hide Restart;
      if lines.trap {
        lines, intEnable := lines.(trap := false), false;
        Rst(env, 4, true);
        return true;
      }
      if !intEnable {
        return false;
      }
      if lines.r7 && !masks.r7 {
        lines, intEnable := lines.(r7 := false), false;
        Rst(env, 7, true);
        return true;
      }
      if lines.r6 && !masks.r6 {
        lines, intEnable := lines.(r6 := false), false;
        Rst(env, 6, true);
        return true;
      }
      if lines.r5 && !masks.r5 {
        lines, intEnable := lines.(r5 := false), false;
        Rst(env, 5, true);
        return true;
      }
      if lines.intr {
        lines, intEnable := lines.(intr := false), false;
        Rst(env, lines.intNumber, false);
        return true;
      }
      taken := false;
    }

    // ----- operands

    /** What an instruction has done: the state it leaves, its T-states, its I/O. */
    ghost function Done(states: nat, event: IoEvent): Outcome
      requires Valid()
      reads this, memory, io
    {
      Outcome(View(), states, event)
    }

    method GetReg(r: nat) returns (v: byte)
      requires Valid() && r < 8
      ensures v == Reg(View(), r)
    {
      match r
      case 0 => v := regs.b;
      case 1 => v := regs.c;
      case 2 => v := regs.d;
      case 3 => v := regs.e;
      case 4 => v := regs.h;
      case 5 => v := regs.l;
      case 6 => v := memory[Word(regs.h, regs.l)];
      case _ => v := regs.a;
    }

    method PutReg(env: Env, r: nat, v: byte)
      requires Valid() && r < 8
      modifies this`regs, memory
      ensures View() == SetReg(env, old(View()), r, v)
    {
      if r == 6 {
        MemWr(env, Word(regs.h, regs.l), v);
      } else {
        regs := WithReg(regs, r, v);
      }
    }

    method GetPair(p: nat) returns (w: word)
      requires Valid() && p < 4
      ensures w == Pair(View(), p)
    {
      match p
      case 0 => w := Word(regs.b, regs.c);
      case 1 => w := Word(regs.d, regs.e);
      case 2 => w := Word(regs.h, regs.l);
      case _ => w := sp;
    }

    method PutPair(p: nat, hi: byte, lo: byte)
      requires Valid() && p < 4
      modifies this`regs, this`sp
      ensures View() == SetPair(old(View()), p, Word(hi, lo))
    {
      match p
      case 0 => regs := regs.(b := hi, c := lo);
      case 1 => regs := regs.(d := hi, e := lo);
      case 2 => regs := regs.(h := hi, l := lo);
      case _ => sp := Word(hi, lo);
    }

    // ----- 00-3F

    /** DSUB's arithmetic: a 17-bit difference whose top bit is the borrow. */
    static method SubtractWords(cc: Flags, hl: word, bc: word) returns (result: word, flags: Flags)
      ensures (result, flags) == DoubleSub(cc, hl, bc)
    {
      hide EvenParity;
      result := Wrap(hl - bc);
      var signHl, signBc, signRes := hl >= 0x8000, bc >= 0x8000, result >= 0x8000;
      var even := ByteParity(result % 0x100);
      flags := cc.(v := signHl != signBc && signRes != signHl, cy := hl < bc, z := result == 0, s := signRes,
                   p := even, ac := hl % 0x10 < bc % 0x10);
    }

    method DoDsub()
      requires Valid()
      modifies this`regs, this`cc
      ensures View() == Dsub(old(View()))
    {
      hide DoubleSub;
      var result, flags := SubtractWords(cc, Word(regs.h, regs.l), Word(regs.b, regs.c));
      cc, regs := flags, regs.(h := result / 0x100, l := result % 0x100);
    }

    method DoArhl()
      requires Valid()
      modifies this`regs, this`cc
      ensures View() == Arhl(old(View()))
    {
      var hl := Word(regs.h, regs.l);
      cc := cc.(cy := hl % 2 == 1);
      hl := hl / 2 + if hl >= 0x8000 then 0x8000 else 0;
      regs := regs.(h := hl / 0x100, l := hl % 0x100);
    }

    static method RotateDe(cc: Flags, word: word) returns (de: word, flags: Flags)
      ensures (de, flags) == RotateWord(cc, word)
    {
      flags := cc.(cy := word >= 0x8000);
      de := Wrap(2 * word + Bit(cc.cy));
      flags := flags.(v := flags.cy != (de >= 0x8000));
    }

    method DoRdel()
      requires Valid()
      modifies this`regs, this`cc
      ensures View() == Rdel(old(View()))
    {
      hide RotateWord;
      var de, flags := RotateDe(cc, Word(regs.d, regs.e));
      cc, regs := flags, regs.(d := de / 0x100, e := de % 0x100);
    }

    /** The byte RIM answers, assembled bit by bit. */
    static method AssembleRim(lines: Lines, enabled: bool, masks: Masks) returns (result: byte)
      ensures result == RimByte(lines, enabled, masks)
    {
      var r := 0x80 * Bit(lines.sid);
      r := r + 0x40 * Bit(lines.r7);
      r := r + 0x20 * Bit(lines.r6);
      r := r + 0x10 * Bit(lines.r5);
      r := r + 8 * Bit(enabled);
      r := r + 4 * Bit(masks.r7);
      r := r + 2 * Bit(masks.r6);
      result := r + Bit(masks.r5);
    }

    method DoRim()
      requires Valid()
      modifies this`regs
      ensures View() == Rim(old(View()))
      ensures BitOf(regs.a, 0x80) == lines.sid && BitOf(regs.a, 8) == intEnable
      ensures BitOf(regs.a, 0x40) == lines.r7 && BitOf(regs.a, 0x20) == lines.r6 && BitOf(regs.a, 0x10) == lines.r5
      ensures BitOf(regs.a, 4) == masks.r7 && BitOf(regs.a, 2) == masks.r6 && BitOf(regs.a, 1) == masks.r5
    {
      hide BitOf, RimByte;
      CpuInterrupts.RimBits(lines, intEnable, masks);
      var result := AssembleRim(lines, intEnable, masks);
      regs := regs.(a := result);
    }

    /** SIM: serial output, RST 7.5 latch reset and mask set, each under its bit. */
    method DoSim()
      requires Valid()
      modifies this`sodLine, this`lines, this`masks
      ensures View() == Sim(old(View()))
    {
      hide BitOf;
      var acc := regs.a;
      if BitOf(acc, 0x40) { sodLine := BitOf(acc, 0x80); }
      if BitOf(acc, 0x10) { lines := lines.(r7 := false); }
      if BitOf(acc, 8) { masks := Masks(BitOf(acc, 1), BitOf(acc, 2), BitOf(acc, 4)); }
    }

    /** LDHI and LDSI: DE = base + immediate. */
    method LoadDeOffset(row: nat, imm1: byte) returns (states: nat)
      requires Valid() && row in {5, 7}
      modifies this`regs, this`pc
      ensures Done(states, NoIo) == ExecMisc(old(View()), row, imm1)
    {
      var result := Wrap((if row == 5 then Word(regs.h, regs.l) else sp) + imm1);
      regs := regs.(d := result / 0x100, e := result % 0x100);
      pc := Wrap(pc + 1);
      states := 10;
    }

    method DoMisc(row: nat, imm1: byte) returns (states: nat)
      requires Valid() && row < 8
      modifies this
      ensures Done(states, NoIo) == ExecMisc(old(View()), row, imm1)
    {
      match row
      case 0 => states := 4;
      case 1 => DoDsub(); states := 10;
      case 2 => DoArhl(); states := 7;
      case 3 => DoRdel(); states := 10;
      case 4 => DoRim(); states := 4;
      case 6 => DoSim(); states := 4;
      case _ => states := LoadDeOffset(row, imm1);
    }

    /** LXI rp. */
    method DoLxi(row: nat, imm1: byte, imm2: byte) returns (states: nat)
      requires Valid() && row < 8 && row % 2 == 0
      modifies this`regs, this`sp, this`pc
      ensures Done(states, NoIo) == ExecLxiDad(old(View()), row, imm1, imm2)
    {
      hide SetPair, Word;
      PutPair(row / 2, imm2, imm1);
      pc := Wrap(pc + 2);
      states := if row == 6 then 10 else 4;
    }

    /** DAD rp: carry out of 16 bits. */
    method DoDad(row: nat) returns (states: nat)
      requires Valid() && row < 8 && row % 2 == 1
      modifies this`regs, this`cc
      ensures Done(states, NoIo) == ExecLxiDad(old(View()), row, 0, 0)
    {
      hide Pair, Word;
      var operand := GetPair(row / 2);
      var res: int := Word(regs.h, regs.l) + operand;
      var low := Wrap(res);
      regs := regs.(h := low / 0x100, l := low % 0x100);
      cc := cc.(cy := res >= 0x1_0000);
      states := 10;
    }

    method DoStax(env: Env, row: nat) returns (states: nat)
      requires Valid() && row in {0, 2}
      modifies memory
      ensures Done(states, NoIo) == ExecDirect(env, old(View()), row, 0, 0)
    {
      hide Store, Word;
      MemWr(env, if row == 0 then Word(regs.b, regs.c) else Word(regs.d, regs.e), regs.a);
      states := 7;
    }

    method DoLdax(env: Env, row: nat) returns (states: nat)
      requires Valid() && row in {1, 3}
      modifies this`regs
      ensures Done(states, NoIo) == ExecDirect(env, old(View()), row, 0, 0)
    {
      hide Store, Word;
      regs := regs.(a := memory[if row == 1 then Word(regs.b, regs.c) else Word(regs.d, regs.e)]);
      states := 7;
    }

    method DoShld(env: Env, addr: word) returns (states: nat)
      requires Valid()
      modifies memory, this`pc
      ensures Done(states, NoIo) == ExecDirect(env, old(View()), 4, Lo(addr), Hi(addr))
    {
      hide Store, Word, Hi, Lo;
      WordSplit(addr);
      MemWr(env, addr, regs.l);
      MemWr(env, addr + 1, regs.h);
      pc := Wrap(pc + 2);
      states := 16;
    }

    method DoLhld(env: Env, addr: word) returns (states: nat)
      requires Valid()
      modifies this`regs, this`pc
      ensures Done(states, NoIo) == ExecDirect(env, old(View()), 5, Lo(addr), Hi(addr))
    {
      hide Store, Load, Word, Hi, Lo;
      WordSplit(addr);
      var hi := Fetch(env, addr + 1);
      regs := regs.(h := hi, l := memory[addr]);
      pc := Wrap(pc + 2);
      states := 16;
    }

    method DoStaLda(env: Env, row: nat, addr: word) returns (states: nat)
      requires Valid() && row in {6, 7}
      modifies this`regs, this`pc, memory
      ensures Done(states, NoIo) == ExecDirect(env, old(View()), row, Lo(addr), Hi(addr))
    {
      hide Store, Load, Word, Hi, Lo;
      WordSplit(addr);
      if row == 6 {
        MemWr(env, addr, regs.a);
      } else {
        regs := regs.(a := memory[addr]);
      }
      pc := Wrap(pc + 2);
      states := 13;
    }

    /** INX rp: the low byte first, the high byte on its wrap-around. */
    method DoInx(row: nat) returns (states: nat)
      requires Valid() && row < 8 && row % 2 == 0
      modifies this`regs, this`sp, this`cc
      ensures Done(states, NoIo) == ExecInxDcx(old(View()), row)
    {
      hide Word, Wrap;
      if row == 6 {
        sp := Wrap(sp + 1);
        cc := cc.(x5 := sp == 0);
      } else {
        var hi, lo := PairBytes(row / 2);
        hi, lo := IncrementBytes(hi, lo);
        PutPair(row / 2, hi, lo);
        cc := cc.(x5 := hi == 0 && lo == 0);
      }
      states := 6;
    }

    /** The two bytes of BC, DE or HL. */
    method PairBytes(p: nat) returns (hi: byte, lo: byte)
      requires Valid() && p < 3
      ensures Word(hi, lo) == Pair(View(), p)
    {
      match p
      case 0 => hi, lo := regs.b, regs.c;
      case 1 => hi, lo := regs.d, regs.e;
      case _ => hi, lo := regs.h, regs.l;
    }

    static method IncrementBytes(hi: byte, lo: byte) returns (hi': byte, lo': byte)
      ensures Word(hi', lo') == Wrap(Word(hi, lo) + 1)
      ensures hi' == 0 && lo' == 0 <==> Word(hi', lo') == 0
    {
      hi', lo' := hi, (lo + 1) % 0x100;
      if lo' == 0 { hi' := (hi + 1) % 0x100; }
    }

    method DoDcx(row: nat) returns (states: nat)
      requires Valid() && row < 8 && row % 2 == 1
      modifies this`regs, this`sp, this`cc
      ensures Done(states, NoIo) == ExecInxDcx(old(View()), row)
    {
      hide Word, Wrap;
      if row == 7 {
        sp := Wrap(sp - 1);
        cc := cc.(x5 := sp == 0xFFFF);
      } else {
        var hi, lo := PairBytes(row / 2);
        hi, lo := DecrementBytes(hi, lo);
        PutPair(row / 2, hi, lo);
        cc := cc.(x5 := hi == 0xFF && lo == 0xFF);
      }
      states := 6;
    }

    static method DecrementBytes(hi: byte, lo: byte) returns (hi': byte, lo': byte)
      ensures Word(hi', lo') == Wrap(Word(hi, lo) - 1)
      ensures hi' == 0xFF && lo' == 0xFF <==> Word(hi', lo') == 0xFFFF
    {
      hi', lo' := hi, (lo - 1) % 0x100;
      if lo' == 0xFF { hi' := (hi - 1) % 0x100; }
    }

    static lemma FlagsCommute(env: Env, c: Cpu, r: nat, v: byte, cc: Flags)
      requires r < 8
      ensures SetReg(env, c.(cc := cc), r, v) == SetReg(env, c, r, v).(cc := cc)
    {
    }

    /** INR r, DCR r, MVI r. */
    method DoIncDecMove(env: Env, row: nat, column: nat, imm1: byte) returns (states: nat)
      requires Valid() && row < 8 && 4 <= column < 7
      modifies this, memory
      ensures Done(states, NoIo) == ExecIncDecMove(env, old(View()), row, column, imm1)
    {
      hide Add, Sub, Reg, SetReg;
      if column == 6 {
        PutReg(env, row, imm1);
        pc := Wrap(pc + 1);
        states := 10;
      } else {
        var v := GetReg(row);
        var r;
        if column == 4 {
          r := AddByteWithCarry(v, 1, false, true);
        } else {
          r := SubtractByteWithBorrow(v, 1, false, true);
        }
        FlagsCommute(env, old(View()), row, r, cc);
        PutReg(env, row, r);
        states := if row == 6 then 10 else 4;
      }
    }

    /** RLC RRC RAL RAR. */
    static method RotateByte(cc: Flags, x: byte, kind: nat) returns (r: byte, flags: Flags)
      requires kind < 4
      ensures Alu(r, flags) == Rotate(cc, x, kind)
    {
      match kind {
        case 0 => r := (2 * x + x / 0x80) % 0x100;
        case 1 => r := 0x80 * (x % 2) + x / 2;
        case 2 => r := (2 * x + Bit(cc.cy)) % 0x100;
        case _ => r := x / 2 + 0x80 * Bit(cc.cy);
      }
      flags := cc.(cy := if kind % 2 == 0 then x >= 0x80 else x % 2 == 1);
    }

    method DoRotate(row: nat)
      requires Valid() && row < 4
      modifies this`regs, this`cc
      ensures View() == SetAlu(old(View()), Rotate(old(cc), old(regs).a, row))
    {
      hide Rotate;
      var r, flags := RotateByte(cc, regs.a, row);
      regs, cc := regs.(a := r), flags;
    }

    /** DAA: the correction is chosen from the digits and the two carries. */
    static method AdjustByte(cc: Flags, acc: byte) returns (r: byte, flags: Flags)
      ensures Alu(r, flags) == DecimalAdjust(cc, acc)
    {
      hide EvenParity;
      var correction: byte, carry := 0, cc.cy;
      if acc % 0x10 > 9 || cc.ac { correction := 6; }
      if acc > 0x99 || cc.cy { correction, carry := correction + 0x60, true; }
      r := (acc + correction) % 0x100;
      var even := ByteParity(r);
      flags := cc.(cy := carry, ac := acc % 0x10 + correction % 0x10 > 0xF, z := r == 0, s := r >= 0x80, p := even);
    }

    method DoDaa()
      requires Valid()
      modifies this`regs, this`cc
      ensures View() == SetAlu(old(View()), DecimalAdjust(old(cc), old(regs).a))
    {
      hide DecimalAdjust;
      var r, flags := AdjustByte(cc, regs.a);
      regs, cc := regs.(a := r), flags;
    }

    method DoAccumulator(row: nat) returns (states: nat)
      requires Valid() && row < 8
      modifies this`regs, this`cc
      ensures Done(states, NoIo) == ExecAccumulator(old(View()), row)
    {
      hide DecimalAdjust, Rotate;
      states := 4;
      match row {
        case 4 => DoDaa();
        case 5 => regs := regs.(a := 0xFF - regs.a);
        case 6 => cc := cc.(cy := true);
        case 7 => cc := cc.(cy := !cc.cy);
        case _ => DoRotate(row);
      }
    }

    method DoLow(env: Env, row: nat, column: nat, imm1: byte, imm2: byte) returns (states: nat)
      requires Valid() && row < 8 && column < 8
      modifies this, memory
      ensures Done(states, NoIo) == ExecLow(env, old(View()), row, column, imm1, imm2)
    {
      hide ExecMisc, ExecInxDcx, ExecAccumulator, ExecIncDecMove, SetPair, Pair, Store, Load;
      match column {
        case 0 => states := DoMisc(row, imm1);
        case 1 => if row % 2 == 0 { states := DoLxi(row, imm1, imm2); } else { states := DoDad(row); }
        case 2 =>
          var addr := Word(imm2, imm1);
          assert Lo(addr) == imm1 && Hi(addr) == imm2;
          states := DoDirect(env, row, addr);
        case 3 => if row % 2 == 0 { states := DoInx(row); } else { states := DoDcx(row); }
        case 7 => states := DoAccumulator(row);
        case _ => states := DoIncDecMove(env, row, column, imm1);
      }
    }

    method DoDirect(env: Env, row: nat, addr: word) returns (states: nat)
      requires Valid() && row < 8
      modifies this`regs, this`pc, memory
      ensures Done(states, NoIo) == ExecDirect(env, old(View()), row, Lo(addr), Hi(addr))
    {
      hide Store, Load;
      match row {
        case 4 => states := DoShld(env, addr);
        case 5 => states := DoLhld(env, addr);
        case 6 => states := DoStaLda(env, row, addr);
        case 7 => states := DoStaLda(env, row, addr);
        case _ => if row % 2 == 0 { states := DoStax(env, row); } else { states := DoLdax(env, row); }
      }
    }

    // ----- 40-7F and 80-BF

    method DoMove(env: Env, dst: nat, src: nat) returns (states: nat)
      requires Valid() && dst < 8 && src < 8
      modifies this`regs, this`hltEnable, memory
      ensures Done(states, NoIo) == ExecMove(env, old(View()), dst, src)
    {
      hide SetReg, Reg;
      if dst == 6 && src == 6 {
        hltEnable := true;
        return 5;
      }
      var v := GetReg(src);
      PutReg(env, dst, v);
      states := if dst == 6 || src == 6 then 7 else 4;
    }

    /** The flags of the logic instructions. */
    method LogicFlagsA(ac: bool)
      requires Valid()
      modifies this`cc
      ensures cc == LogicFlags(old(cc), regs.a, ac)
    {
      hide EvenParity;
      var flags := ResultFlagsOf(cc, regs.a);
      cc := flags.(cy := false, ac := ac);
    }

    method DoAlu(op: nat, y: byte)
      requires Valid() && op < 8
      modifies this`regs, this`cc
      ensures View() == AluOp(old(View()), op, y)
    {
      hide Add, Sub, LogicFlags, And, Or, Xor;
      var r;
      match op {
        case 0 => r := AddByteWithCarry(regs.a, y, false, false); regs := regs.(a := r);
        case 1 => r := AddByteWithCarry(regs.a, y, cc.cy, false); regs := regs.(a := r);
        case 2 => r := SubtractByteWithBorrow(regs.a, y, false, false); regs := regs.(a := r);
        case 3 => r := SubtractByteWithBorrow(regs.a, y, cc.cy, false); regs := regs.(a := r);
        case 4 => regs := regs.(a := And(regs.a, y)); LogicFlagsA(true);
        case 5 => regs := regs.(a := Xor(regs.a, y)); LogicFlagsA(false);
        case 6 => regs := regs.(a := Or(regs.a, y)); LogicFlagsA(false);
        case _ => r := SubtractByteWithBorrow(regs.a, y, false, false);
      }
    }

    /** ADI and CPI compute their flags in place and leave V as it was. */
    method DoAluImmediate(op: nat, y: byte) returns (states: nat)
      requires Valid() && op < 8
      modifies this`regs, this`cc, this`pc
      ensures Done(states, NoIo) == AluImmediate(old(View()), op, y)
    {
      hide AluOp;
      var overflow := cc.v;
      DoAlu(op, y);
      if op == 0 || op == 7 { cc := cc.(v := overflow); }
      pc := Wrap(pc + 1);
      states := 7;
    }

    // ----- C0-FF

    method Condition(k: nat) returns (met: bool)
      requires Valid() && k < 8
      ensures met == Holds(cc, k)
    {
      match k
      case 0 => met := !cc.z;
      case 1 => met := cc.z;
      case 2 => met := !cc.cy;
      case 3 => met := cc.cy;
      case 4 => met := !cc.p;
      case 5 => met := cc.p;
      case 6 => met := !cc.s;
      case _ => met := cc.s;
    }

    method DoConditional(env: Env, row: nat, column: nat, imm1: byte, imm2: byte) returns (states: nat)
      requires Valid() && row < 8 && column in {0, 2, 4}
      modifies this`sp, this`pc, memory
      ensures Done(states, NoIo) == ExecConditional(env, old(View()), row, column, imm1, imm2)
    {
      hide Store, PushWord, TopWord, Holds, Wrap;
      var met := Condition(row);
      match column {
        case 0 =>
          states := 6;
          if met { states := 12; ReturnToCaller(env); }
        case 2 =>
          if met { pc := Word(imm2, imm1); states := 10; } else { pc := Wrap(pc + 2); states := 7; }
        case _ =>
          if met { Call(env, Word(imm2, imm1)); states := 18; } else { pc := Wrap(pc + 2); states := 9; }
          if row == 0 { states := 9; }
      }
    }

    method DoPop(env: Env, row: nat) returns (states: nat)
      requires Valid() && row < 8
      modifies this, memory
      ensures Done(states, NoIo) == ExecPop(env, old(View()), row)
    {
      hide Store, FlagsOf;
      match row {
        case 1 => ReturnToCaller(env); states := 10;
        case 3 => states := DoShlx(env);
        case 5 => pc := Word(regs.h, regs.l); states := 6;
        case 7 => sp := Word(regs.h, regs.l); states := 6;
        case 6 => states := DoPopPsw();
        case _ => states := DoPopPair(env, row);
      }
    }

    method DoShlx(env: Env) returns (states: nat)
      requires Valid()
      modifies memory
      ensures Done(states, NoIo) == ExecPop(env, old(View()), 3)
    {
      hide Store, Word;
      var de: int := Word(regs.d, regs.e);
      MemWr(env, de, regs.l);
      MemWr(env, de + 1, regs.h);
      states := 10;
    }

    /** POP PSW steps sp twice, so both of its addresses wrap. */
    method DoPopPsw() returns (states: nat)
      requires Valid()
      modifies this`regs, this`cc, this`sp
      ensures Done(states, NoIo) == ExecPop(Env([], map[], 0, 0), old(View()), 6)
    {
      hide FlagsOf;
      cc := FlagsOf(memory[sp]);
      sp := (sp + 1) % 0x1_0000;
      regs := regs.(a := memory[sp]);
      sp := (sp + 1) % 0x1_0000;
      states := 10;
    }

    method DoPopPair(env: Env, row: nat) returns (states: nat)
      requires Valid() && row in {0, 2, 4}
      modifies this`regs, this`sp
      ensures Done(states, NoIo) == ExecPop(env, old(View()), row)
    {
      hide Load, Word;
      var hi := Fetch(env, sp + 1);
      var lo := memory[sp];
      sp := (sp + 2) % 0x1_0000;
      PutPair(row / 2, hi, lo);
      states := 10;
    }

    method DoPush(env: Env, row: nat, imm1: byte, imm2: byte) returns (states: nat)
      requires Valid() && row < 8
      modifies this`regs, this`sp, this`pc, memory
      ensures Done(states, NoIo) == ExecPush(env, old(View()), row, imm1, imm2)
    {
      hide Store, PushWord, Psw, Load;
      match row {
        case 1 => Call(env, Word(imm2, imm1)); states := 18;
        case 3 => states := DoJumpX5(!cc.x5, imm1, imm2);
        case 5 => states := DoLhlx(env);
        case 7 => states := DoJumpX5(cc.x5, imm1, imm2);
        case 6 => PushBytes(env, regs.a, Psw(cc)); states := 13;
        case _ => states := DoPushPair(env, row);
      }
    }

    method DoJumpX5(taken: bool, imm1: byte, imm2: byte) returns (states: nat)
      requires Valid()
      modifies this`pc
      ensures View() == if taken then old(View()).(pc := Word(imm2, imm1)) else Skip(old(View()), 2)
      ensures states == if taken then 10 else 7
    {
      if taken { pc := Word(imm2, imm1); states := 10; } else { pc := Wrap(pc + 2); states := 7; }
    }

    method DoLhlx(env: Env) returns (states: nat)
      requires Valid()
      modifies this`regs
      ensures Done(states, NoIo) == ExecPush(env, old(View()), 5, 0, 0)
    {
      hide Load, Word;
      var de: int := Word(regs.d, regs.e);
      var hi := Fetch(env, de + 1);
      regs := regs.(h := hi, l := memory[de]);
      states := 10;
    }

    method DoPushPair(env: Env, row: nat) returns (states: nat)
      requires Valid() && row in {0, 2, 4}
      modifies this`sp, memory
      ensures Done(states, NoIo) == ExecPush(env, old(View()), row, 0, 0)
    {
      hide PushWord, Word;
      var hi, lo := PairBytes(row / 2);
      PushBytes(env, hi, lo);
      states := 13;
    }

    method DoIn(env: Env, port: byte) returns (event: IoEvent)
      requires Valid()
      modifies this`regs, this`pc, io
      ensures Done(10, event) == ExecSystem(env, old(View()), 3, port, 0)
    {
      if port in env.portIn { io[port] := env.portIn[port]; }
      regs := regs.(a := io[port]);
      pc := Wrap(pc + 1);
      event := InRead(port, regs.a);
    }

    method DoOut(env: Env, port: byte) returns (event: IoEvent)
      requires Valid()
      modifies this`pc, io
      ensures Done(10, event) == ExecSystem(env, old(View()), 2, port, 0)
    {
      io[port] := regs.a;
      pc := Wrap(pc + 1);
      event := OutWrite(port, regs.a);
    }

    method DoXthl(env: Env)
      requires Valid()
      modifies this`regs, this`sp, memory
      ensures Done(16, NoIo) == ExecSystem(env, old(View()), 4, 0, 0)
    {
      hide Store, Load, Word;
      var spL := memory[sp];
      var spH := Fetch(env, sp + 1);
      MemWr(env, sp, regs.l);
      MemWr(env, sp + 1, regs.h);
      PutPair(2, spH, spL);
    }

    method DoXchg(env: Env)
      requires Valid()
      modifies this`regs
      ensures Done(4, NoIo) == ExecSystem(env, old(View()), 5, 0, 0)
    {
      var save1, save2 := regs.d, regs.e;
      regs := regs.(d := regs.h, e := regs.l);
      regs := regs.(h := save1, l := save2);
    }

    /** RSTV: push pc as RST 0 does, then override its target. */
    method DoRstv(env: Env) returns (states: nat)
      requires Valid()
      modifies this`sp, this`pc, memory
      ensures Done(states, NoIo) == ExecSystem(env, old(View()), 1, 0, 0)
    {
      hide PushWord;
      if cc.v {
        Rst(env, 0, false);
        pc := 0x40;
        states := 12;
      } else {
        states := 6;
      }
    }

    method DoSystem(env: Env, row: nat, imm1: byte, imm2: byte) returns (states: nat, event: IoEvent)
      requires Valid() && row < 8
      modifies this, memory, io
      ensures Done(states, event) == ExecSystem(env, old(View()), row, imm1, imm2)
    {
      hide Store, PushWord, TopWord;
      states, event := 10, NoIo;
      match row {
        case 0 => pc := Word(imm2, imm1);
        case 1 => states := DoRstv(env);
        case 2 => event := DoOut(env, imm1);
        case 3 => event := DoIn(env, imm1);
        case 4 => DoXthl(env); states := 16;
        case 5 => DoXchg(env); states := 4;
        case 6 => intEnable, intEnableDelay := false, 0; states := 4;
        case _ => intEnableDelay := 2; states := 4;
      }
    }

    method DoHigh(env: Env, row: nat, column: nat, imm1: byte, imm2: byte) returns (states: nat, event: IoEvent)
      requires Valid() && row < 8 && column < 8
      modifies this, memory, io
      ensures Done(states, event) == ExecHigh(env, old(View()), row, column, imm1, imm2)
    {
      hide ExecConditional, ExecPop, ExecSystem, ExecPush, AluImmediate, Restart;
      event := NoIo;
      match column {
        case 1 => states := DoPop(env, row);
        case 3 => states, event := DoSystem(env, row, imm1, imm2);
        case 5 => states := DoPush(env, row, imm1, imm2);
        case 6 => states := DoAluImmediate(row, imm1);
        case 7 => Rst(env, row, false); states := 12;
        case _ => states := DoConditional(env, row, column, imm1, imm2);
      }
    }

    // ----- the step function

    /** The opcode switch, by rows of eight. */
    method Execute(env: Env, op: byte, imm1: byte, imm2: byte) returns (states: nat, event: IoEvent)
      requires Valid()
      modifies this, memory, io
      ensures Done(states, event) == Exec(env, old(View()), op, imm1, imm2)
    {
      hide ExecLow, ExecMove, AluOp, ExecHigh, Reg;
      event := NoIo;
      var row, column := op / 8 % 8, op % 8;
      if op < 0x40 {
        states := DoLow(env, row, column, imm1, imm2);
      } else if op < 0x80 {
        states := DoMove(env, row, column);
      } else if op < 0xC0 {
        var y := GetReg(column);
        DoAlu(row, y);
        states := if column == 6 then 7 else 4;
      } else {
        states, event := DoHigh(env, row, column, imm1, imm2);
      }
    }

    /** One call of the step function, statistics apart: interrupts, halt, one
        instruction, delayed enable. */
    method RunInstruction(env: Env) returns (slept: bool, states: nat, event: IoEvent)
      requires Valid()
      modifies this, memory, io
      ensures Done(states, event) == Step(env, old(View()))
      ensures slept == Entered(env, old(View())).halted
    {
      hide Exec, Chosen, Accept;
      var taken := CheckInterrupts(env);
      if hltEnable {
        if !taken {
          return true, 0, NoIo;
        }
        hltEnable := false;
      }
      slept := false;
      var op := memory[pc];
      var imm1 := Fetch(env, pc + 1);
      var imm2 := Fetch(env, pc + 2);
      pc := Wrap(pc + 1);
      states, event := Execute(env, op, imm1, imm2);
      CountDown();
    }

    /** The step function: it tells whether the processor is halted, and records
        T-states and the lowest stack pointer of each executed instruction. */
    method Emulate8085Op(env: Env, stats: ExecutionStats) returns (halted: bool, states: nat, event: IoEvent)
      requires Valid() && 0 <= stats.totalTstates < U64
      modifies this, memory, io, stats
      ensures Done(states, event) == Step(env, old(View()))
      ensures halted == hltEnable
      ensures stats.totalTstates == (old(stats.totalTstates) + states) % U64
      ensures var slept := Entered(env, old(View())).halted;
        && stats.minSpSet == (old(stats.minSpSet) || !slept)
        && stats.minSp == if slept || (old(stats.minSpSet) && old(stats.minSp) <= sp) then old(stats.minSp) else sp
    {
      hide Executed, Chosen, Accept, Entered;
      var slept;
      slept, states, event := RunInstruction(env);
      if !slept {
        stats.Record(sp, states);
      }
      halted := hltEnable;
    }

    method CountDown()
      requires Valid()
      modifies this`intEnable, this`intEnableDelay
      ensures View() == Tick(old(View()))
    {
      if intEnableDelay > 0 {
        intEnableDelay := intEnableDelay - 1;
        if intEnableDelay == 0 { intEnable := true; }
      }
    }
  }
}
