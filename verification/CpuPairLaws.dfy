/** Laws of the instructions on register pairs, memory operands and ports, by
    opcode byte: which pair, which byte order, and what undoes what. */
module CpuPairLaws {
  import opened CpuArith
  import opened CpuModel
  import opened CpuRuns
  import opened CpuLaws

  /** The pairs as the two registers they are made of. */
  lemma PairNames(c: Cpu)
    ensures BC(c) == Number(c.regs.b, c.regs.c) && DE(c) == Number(c.regs.d, c.regs.e) && HL(c) == Number(c.regs.h, c.regs.l)
  {
    hide Word, Number;
    WordIsNumber(c.regs.b, c.regs.c);
    WordIsNumber(c.regs.d, c.regs.e);
    WordIsNumber(c.regs.h, c.regs.l);
  }

  lemma Halves(h: byte, l: byte)
    ensures Hi(Number(h, l)) == h && Lo(Number(h, l)) == l
  {
  }

  lemma LxiDadDispatch(env: Env, c: Cpu, row: nat, imm1: byte, imm2: byte)
    requires row < 8
    ensures Exec(env, c, 0x01 + 8 * row, imm1, imm2) == ExecLxiDad(c, row, imm1, imm2)
  {
    hide ExecHigh, ExecMove, AluOp, ExecMisc, ExecInxDcx, ExecAccumulator, ExecIncDecMove, ExecDirect, ExecLxiDad;
    assert (0x01 + 8 * row) / 8 % 8 == row && (0x01 + 8 * row) % 8 == 1;
  }

  lemma InxDcxDispatch(env: Env, c: Cpu, row: nat, imm1: byte, imm2: byte)
    requires row < 8
    ensures Exec(env, c, 0x03 + 8 * row, imm1, imm2) == ExecInxDcx(c, row)
  {
    hide ExecHigh, ExecMove, AluOp, ExecMisc, ExecLxiDad, ExecAccumulator, ExecIncDecMove, ExecDirect, ExecInxDcx;
    assert (0x03 + 8 * row) / 8 % 8 == row && (0x03 + 8 * row) % 8 == 3;
  }

  lemma MiscDispatch(env: Env, c: Cpu, row: nat, imm1: byte, imm2: byte)
    requires row < 8
    ensures Exec(env, c, 8 * row, imm1, imm2) == ExecMisc(c, row, imm1)
  {
    hide ExecHigh, ExecMove, AluOp, ExecInxDcx, ExecLxiDad, ExecAccumulator, ExecIncDecMove, ExecDirect, ExecMisc;
    assert 8 * row / 8 % 8 == row && 8 * row % 8 == 0;
  }

  lemma DirectDispatch(env: Env, c: Cpu, row: nat, imm1: byte, imm2: byte)
    requires row < 8
    ensures Exec(env, c, 0x02 + 8 * row, imm1, imm2) == ExecDirect(env, c, row, imm1, imm2)
  {
    hide ExecHigh, ExecMove, AluOp, ExecInxDcx, ExecLxiDad, ExecAccumulator, ExecIncDecMove, ExecDirect, ExecMisc;
    assert (0x02 + 8 * row) / 8 % 8 == row && (0x02 + 8 * row) % 8 == 2;
  }

  lemma PopDispatch(env: Env, c: Cpu, row: nat, imm1: byte, imm2: byte)
    requires row < 8
    ensures Exec(env, c, 0xC1 + 8 * row, imm1, imm2) == ExecPop(env, c, row)
  {
    hide ExecLow, ExecMove, AluOp, ExecPop, ExecPush, ExecSystem, ExecConditional, AluImmediate, Restart;
    assert (0xC1 + 8 * row) / 8 % 8 == row && (0xC1 + 8 * row) % 8 == 1;
  }

  lemma SystemDispatch(env: Env, c: Cpu, row: nat, imm1: byte, imm2: byte)
    requires row < 8
    ensures Exec(env, c, 0xC3 + 8 * row, imm1, imm2) == ExecSystem(env, c, row, imm1, imm2)
  {
    hide ExecLow, ExecMove, AluOp, ExecPop, ExecPush, ExecSystem, ExecConditional, AluImmediate, Restart;
    assert (0xC3 + 8 * row) / 8 % 8 == row && (0xC3 + 8 * row) % 8 == 3;
  }

  lemma PushDispatch(env: Env, c: Cpu, row: nat, imm1: byte, imm2: byte)
    requires row < 8
    ensures Exec(env, c, 0xC5 + 8 * row, imm1, imm2) == ExecPush(env, c, row, imm1, imm2)
  {
    hide ExecLow, ExecMove, AluOp, ExecPop, ExecPush, ExecSystem, ExecConditional, AluImmediate, Restart;
    assert (0xC5 + 8 * row) / 8 % 8 == row && (0xC5 + 8 * row) % 8 == 5;
  }

  // ----- loading, counting and adding pairs

  /** LXI loads the low byte first: C, E, L. */
  lemma LxiNames(env: Env, c: Cpu, low: byte, high: byte)
    ensures var next := c.(pc := Wrap(c.pc + 2));
      && Exec(env, c, 0x01, low, high).cpu == next.(regs := c.regs.(b := high, c := low))
      && Exec(env, c, 0x11, low, high).cpu == next.(regs := c.regs.(d := high, e := low))
      && Exec(env, c, 0x21, low, high).cpu == next.(regs := c.regs.(h := high, l := low))
      && Exec(env, c, 0x31, low, high).cpu == next.(sp := Number(high, low))
  {
    hide Exec, Word, Number, Hi, Lo, Wrap;
    WordIsNumber(high, low);
    Halves(high, low);
    LxiDadDispatch(env, c, 0, low, high);
    LxiDadDispatch(env, c, 2, low, high);
    LxiDadDispatch(env, c, 4, low, high);
    LxiDadDispatch(env, c, 6, low, high);
  }

  lemma NumberSplit(w: word)
    ensures Number(Hi(w), Lo(w)) == w
  {
  }

  /** What INX and DCX do to a pair: one more, one less, around the end; X5 tells
      when it went around. */
  lemma CountsPair(env: Env, c: Cpu, imm1: byte, imm2: byte)
    ensures var r, w := Exec(env, c, 0x03, imm1, imm2).cpu, (Number(c.regs.b, c.regs.c) + 1) % 0x1_0000;
      r == c.(regs := c.regs.(b := r.regs.b, c := r.regs.c), cc := c.cc.(x5 := w == 0)) && Number(r.regs.b, r.regs.c) == w
    ensures var r, w := Exec(env, c, 0x13, imm1, imm2).cpu, (Number(c.regs.d, c.regs.e) + 1) % 0x1_0000;
      r == c.(regs := c.regs.(d := r.regs.d, e := r.regs.e), cc := c.cc.(x5 := w == 0)) && Number(r.regs.d, r.regs.e) == w
    ensures var r, w := Exec(env, c, 0x23, imm1, imm2).cpu, (Number(c.regs.h, c.regs.l) + 1) % 0x1_0000;
      r == c.(regs := c.regs.(h := r.regs.h, l := r.regs.l), cc := c.cc.(x5 := w == 0)) && Number(r.regs.h, r.regs.l) == w
    ensures Exec(env, c, 0x33, imm1, imm2).cpu == c.(sp := (c.sp + 1) % 0x1_0000, cc := c.cc.(x5 := c.sp == 0xFFFF))
  {
    hide Exec, Word, Number, Hi, Lo, Wrap;
    PairNames(c);
    WrapIs(Number(c.regs.b, c.regs.c) + 1);
    WrapIs(Number(c.regs.d, c.regs.e) + 1);
    WrapIs(Number(c.regs.h, c.regs.l) + 1);
    WrapIs(c.sp + 1);
    NumberSplit(Wrap(BC(c) + 1));
    NumberSplit(Wrap(DE(c) + 1));
    NumberSplit(Wrap(HL(c) + 1));
    InxDcxDispatch(env, c, 0, imm1, imm2);
    InxDcxDispatch(env, c, 2, imm1, imm2);
    InxDcxDispatch(env, c, 4, imm1, imm2);
    InxDcxDispatch(env, c, 6, imm1, imm2);
  }

  lemma WrapIs(x: int)
    ensures Wrap(x) == x % 0x1_0000
  {
  }

  /** DCX undoes INX, on every pair. */
  lemma DcxUndoesInx(env: Env, c: Cpu, p: nat, imm1: byte, imm2: byte)
    requires p < 4
    ensures var up := Exec(env, c, 0x03 + 16 * p, imm1, imm2).cpu;
      var down := Exec(env, up, 0x0B + 16 * p, imm1, imm2).cpu;
      down == c.(cc := down.cc) && down.cc == c.cc.(x5 := down.cc.x5) && down.cc.x5 == up.cc.x5
  {
    hide Exec, SetPair, Pair, Wrap;
    InxDcxDispatch(env, c, 2 * p, imm1, imm2);
    var w: word := Pair(c, p);
    var next := Wrap(w + 1);
    var up := SetPair(c, p, next).(cc := c.cc.(x5 := next == 0));
    assert Exec(env, c, 0x03 + 16 * p, imm1, imm2).cpu == up;
    InxDcxDispatch(env, up, 2 * p + 1, imm1, imm2);
    UpAndDown(w);
    SetPairBack(c, p, next, up.cc);
  }

  /** A pair reads back what was set, and setting it to its old value restores it. */
  lemma SetPairBack(c: Cpu, p: nat, w: word, cc: Flags)
    requires p < 4
    ensures var up := SetPair(c, p, w).(cc := cc);
      Pair(up, p) == w && SetPair(up, p, Pair(c, p)) == c.(cc := cc)
  {
    hide Word, Hi, Lo;
    WordSplit(w);
    PairBytes(c);
  }

  lemma UpAndDown(w: word)
    ensures Wrap(Wrap(w + 1) - 1) == w && (w == 0xFFFF <==> Wrap(w + 1) == 0)
  {
  }

  lemma PairBytes(c: Cpu)
    ensures Hi(BC(c)) == c.regs.b && Lo(BC(c)) == c.regs.c && Hi(DE(c)) == c.regs.d && Lo(DE(c)) == c.regs.e
    ensures Hi(HL(c)) == c.regs.h && Lo(HL(c)) == c.regs.l
  {
    hide Number, Hi, Lo, Word;
    PairNames(c);
    Halves(c.regs.b, c.regs.c);
    Halves(c.regs.d, c.regs.e);
    Halves(c.regs.h, c.regs.l);
  }

  /** DAD: the exact 17-bit sum in CY and HL, no other flag. */
  lemma DadAdds(env: Env, c: Cpu, imm1: byte, imm2: byte)
    ensures var hl := Number(c.regs.h, c.regs.l);
      && AddsTo(c, Exec(env, c, 0x09, imm1, imm2).cpu, hl + Number(c.regs.b, c.regs.c))
      && AddsTo(c, Exec(env, c, 0x19, imm1, imm2).cpu, hl + Number(c.regs.d, c.regs.e))
      && AddsTo(c, Exec(env, c, 0x29, imm1, imm2).cpu, 2 * hl)
      && AddsTo(c, Exec(env, c, 0x39, imm1, imm2).cpu, hl + c.sp)
  {
    hide Exec, AddsTo, Number;
    PairNames(c);
    LxiDadDispatch(env, c, 1, imm1, imm2);
    LxiDadDispatch(env, c, 3, imm1, imm2);
    LxiDadDispatch(env, c, 5, imm1, imm2);
    LxiDadDispatch(env, c, 7, imm1, imm2);
    SumInHl(c, HL(c) + BC(c));
    SumInHl(c, HL(c) + DE(c));
    SumInHl(c, HL(c) + HL(c));
    SumInHl(c, HL(c) + c.sp);
  }

  predicate AddsTo(c: Cpu, r: Cpu, total: int) {
    && r == c.(regs := c.regs.(h := r.regs.h, l := r.regs.l), cc := c.cc.(cy := r.cc.cy))
    && Number(r.regs.h, r.regs.l) + 0x1_0000 * Bit(r.cc.cy) == total
  }

  lemma SumInHl(c: Cpu, total: nat)
    requires total < 0x2_0000
    ensures AddsTo(c, SetPair(c, 2, Wrap(total)).(cc := c.cc.(cy := total >= 0x1_0000)), total)
  {
    hide Number, Hi, Lo;
    NumberSplit(Wrap(total));
  }

  // ----- memory, low byte first

  /** Memory in which every write goes through. */
  ghost predicate Open(env: Env) {
    forall a: word :: !Protected(env.regions, a)
  }

  /** STA, STAX, SHLD and SHLX store exactly their registers, low byte at the
      address and high byte one after it. */
  lemma StoresRegisters(env: Env, c: Cpu, low: byte, high: byte)
    requires Open(env)
    ensures var next, addr := c.(pc := Wrap(c.pc + 2)), Number(high, low);
      && Exec(env, c, 0x32, low, high).cpu == next.(mem := c.mem[addr := c.regs.a])
      && Exec(env, c, 0x22, low, high).cpu == next.(mem := c.mem[addr := c.regs.l][(addr + 1) % 0x1_0000 := c.regs.h])
    ensures Exec(env, c, 0x02, low, high).cpu == c.(mem := c.mem[Number(c.regs.b, c.regs.c) := c.regs.a])
    ensures Exec(env, c, 0x12, low, high).cpu == c.(mem := c.mem[Number(c.regs.d, c.regs.e) := c.regs.a])
    ensures var de := Number(c.regs.d, c.regs.e);
      Exec(env, c, 0xD9, low, high).cpu == c.(mem := c.mem[de := c.regs.l][(de + 1) % 0x1_0000 := c.regs.h])
  {
    hide Exec, Store, Word, Number;
    PairNames(c);
    WordIsNumber(high, low);
    DirectDispatch(env, c, 0, low, high);
    DirectDispatch(env, c, 2, low, high);
    DirectDispatch(env, c, 4, low, high);
    DirectDispatch(env, c, 6, low, high);
    PopDispatch(env, c, 3, low, high);
    var addr: nat, de: nat, bc: nat := Number(high, low), DE(c), BC(c);
    OpenStore(env, c.mem, addr, c.regs.a);
    OpenStore(env, c.mem, bc, c.regs.a);
    OpenStore(env, c.mem, de, c.regs.a);
    OpenStore(env, c.mem, addr, c.regs.l);
    OpenStore(env, c.mem[addr := c.regs.l], addr + 1, c.regs.h);
    OpenStore(env, c.mem, de, c.regs.l);
    OpenStore(env, c.mem[de := c.regs.l], de + 1, c.regs.h);
  }

  lemma OpenStore(env: Env, mem: Memory, addr: nat, v: byte)
    requires Open(env) && addr <= 0x1_0000
    ensures Store(env, mem, addr, v) == mem[addr % 0x1_0000 := v]
    ensures addr < 0x1_0000 ==> Store(env, mem, addr, v) == mem[addr := v]
  {
    hide Store;
    StoreExact(env, mem, addr, v);
  }

  /** LDA, LDAX, LHLD and LHLX read what those store; the byte after the last
      address of memory is whatever lies behind it. */
  lemma LoadsRegisters(env: Env, c: Cpu, low: byte, high: byte)
    ensures var next, addr := c.(pc := Wrap(c.pc + 2)), Number(high, low);
      && Exec(env, c, 0x3A, low, high).cpu == next.(regs := c.regs.(a := c.mem[addr]))
      && Exec(env, c, 0x2A, low, high).cpu == next.(regs := c.regs.(l := c.mem[addr], h := Load(env, c.mem, addr + 1)))
    ensures Exec(env, c, 0x0A, low, high).cpu == c.(regs := c.regs.(a := c.mem[Number(c.regs.b, c.regs.c)]))
    ensures Exec(env, c, 0x1A, low, high).cpu == c.(regs := c.regs.(a := c.mem[Number(c.regs.d, c.regs.e)]))
    ensures var de := Number(c.regs.d, c.regs.e);
      Exec(env, c, 0xED, low, high).cpu == c.(regs := c.regs.(l := c.mem[de], h := Load(env, c.mem, de + 1)))
  {
    hide Exec, Load, Word, Number;
    PairNames(c);
    WordIsNumber(high, low);
    DirectDispatch(env, c, 1, low, high);
    DirectDispatch(env, c, 3, low, high);
    DirectDispatch(env, c, 5, low, high);
    DirectDispatch(env, c, 7, low, high);
    PushDispatch(env, c, 5, low, high);
  }

  /** LHLD brings back what SHLD stored, whatever happened to HL in between, if the
      address is not the last one. */
  lemma LhldAfterShld(env: Env, c: Cpu, low: byte, high: byte, h: byte, l: byte)
    requires Open(env) && Number(high, low) < 0xFFFF
    ensures var stored := Exec(env, c, 0x22, low, high).cpu;
      var r := Exec(env, stored.(regs := c.regs.(h := h, l := l)), 0x2A, low, high).cpu;
      r.regs == c.regs && r.mem == stored.mem
  {
    hide Exec, Number;
    StoresRegisters(env, c, low, high);
    var stored := Exec(env, c, 0x22, low, high).cpu;
    LoadsRegisters(env, stored.(regs := c.regs.(h := h, l := l)), low, high);
  }

  // ----- pairs between registers

  /** XCHG swaps HL with DE; SPHL and PCHL copy HL; LDHI and LDSI add their byte. */
  lemma PairMoves(env: Env, c: Cpu, x: byte, imm2: byte)
    ensures Exec(env, c, 0xEB, x, imm2).cpu
      == c.(regs := c.regs.(d := c.regs.h, e := c.regs.l, h := c.regs.d, l := c.regs.e))
    ensures Exec(env, c, 0xF9, x, imm2).cpu == c.(sp := Number(c.regs.h, c.regs.l))
    ensures Exec(env, c, 0xE9, x, imm2).cpu == c.(pc := Number(c.regs.h, c.regs.l))
    ensures var r := Exec(env, c, 0x28, x, imm2).cpu;
      && r == c.(pc := Wrap(c.pc + 1), regs := c.regs.(d := r.regs.d, e := r.regs.e))
      && Number(r.regs.d, r.regs.e) == (Number(c.regs.h, c.regs.l) + x) % 0x1_0000
    ensures var r := Exec(env, c, 0x38, x, imm2).cpu;
      && r == c.(pc := Wrap(c.pc + 1), regs := c.regs.(d := r.regs.d, e := r.regs.e))
      && Number(r.regs.d, r.regs.e) == (c.sp + x) % 0x1_0000
  {
    hide Exec, Word, Number, Hi, Lo, Wrap;
    PairNames(c);
    PairBytes(c);
    WrapIs(HL(c) + x);
    WrapIs(c.sp + x);
    NumberSplit(Wrap(HL(c) + x));
    NumberSplit(Wrap(c.sp + x));
    SystemDispatch(env, c, 5, x, imm2);
    PopDispatch(env, c, 7, x, imm2);
    PopDispatch(env, c, 5, x, imm2);
    MiscDispatch(env, c, 5, x, imm2);
    MiscDispatch(env, c, 7, x, imm2);
  }

  /** PUSH puts the pair its code names on the stack, and POP loads it from there. */
  lemma PushNames(env: Env, c: Cpu, imm1: byte, imm2: byte)
    ensures Exec(env, c, 0xC5, imm1, imm2).cpu == PushWord(env, c, Number(c.regs.b, c.regs.c))
    ensures Exec(env, c, 0xD5, imm1, imm2).cpu == PushWord(env, c, Number(c.regs.d, c.regs.e))
    ensures Exec(env, c, 0xE5, imm1, imm2).cpu == PushWord(env, c, Number(c.regs.h, c.regs.l))
    ensures Exec(env, c, 0xF5, imm1, imm2).cpu == PushWord(env, c, Number(c.regs.a, Psw(c.cc)))
  {
    hide Exec, PushWord, Psw, Word, Number;
    PairNames(c);
    WordIsNumber(c.regs.a, Psw(c.cc));
    PushDispatch(env, c, 0, imm1, imm2);
    PushDispatch(env, c, 2, imm1, imm2);
    PushDispatch(env, c, 4, imm1, imm2);
    PushDispatch(env, c, 6, imm1, imm2);
  }

  lemma PopNames(env: Env, c: Cpu, imm1: byte, imm2: byte)
    requires c.sp < 0xFFFF
    ensures var next, high, low := c.(sp := (c.sp + 2) % 0x1_0000), c.mem[c.sp + 1], c.mem[c.sp];
      && Exec(env, c, 0xC1, imm1, imm2).cpu == next.(regs := c.regs.(b := high, c := low))
      && Exec(env, c, 0xD1, imm1, imm2).cpu == next.(regs := c.regs.(d := high, e := low))
      && Exec(env, c, 0xE1, imm1, imm2).cpu == next.(regs := c.regs.(h := high, l := low))
      && Exec(env, c, 0xF1, imm1, imm2).cpu == next.(regs := c.regs.(a := high), cc := FlagsOf(low))
  {
    hide Exec, FlagsOf, Word, Number, Hi, Lo;
    WordIsNumber(c.mem[c.sp + 1], c.mem[c.sp]);
    Halves(c.mem[c.sp + 1], c.mem[c.sp]);
    PopDispatch(env, c, 0, imm1, imm2);
    PopDispatch(env, c, 2, imm1, imm2);
    PopDispatch(env, c, 4, imm1, imm2);
    PopDispatch(env, c, 6, imm1, imm2);
  }

  // ----- undocumented shifts

  /** ARHL halves HL as a signed number, rounding down, and keeps the lost bit; RDEL
      doubles DE with the carry below. */
  lemma WordShifts(env: Env, c: Cpu, imm1: byte, imm2: byte)
    ensures var r, w := Exec(env, c, 0x10, imm1, imm2).cpu, Number(c.regs.h, c.regs.l);
      && r == c.(regs := c.regs.(h := r.regs.h, l := r.regs.l), cc := c.cc.(cy := r.cc.cy))
      && 2 * SignedWord(Number(r.regs.h, r.regs.l)) + Bit(r.cc.cy) == SignedWord(w)
    ensures var r, w := Exec(env, c, 0x18, imm1, imm2).cpu, Number(c.regs.d, c.regs.e);
      && r == c.(regs := c.regs.(d := r.regs.d, e := r.regs.e), cc := c.cc.(cy := r.cc.cy, v := r.cc.v))
      && Number(r.regs.d, r.regs.e) + 0x1_0000 * Bit(r.cc.cy) == 2 * w + Bit(c.cc.cy)
      && r.cc.v == ((w >= 0x8000) != (Number(r.regs.d, r.regs.e) >= 0x8000))
  {
    hide Exec, Word, Number, Hi, Lo, SignedWord, RotateWord;
    PairNames(c);
    MiscDispatch(env, c, 2, imm1, imm2);
    MiscDispatch(env, c, 3, imm1, imm2);
    Halved(HL(c));
    Doubled(c.cc, DE(c));
    NumberSplit(HL(c) / 2 + if HL(c) >= 0x8000 then 0x8000 else 0);
    NumberSplit(RotateWord(c.cc, DE(c)).0);
  }

  function SignedWord(w: word): int {
    if w < 0x8000 then w else w - 0x1_0000
  }

  lemma Halved(w: word)
    ensures var r: word := w / 2 + if w >= 0x8000 then 0x8000 else 0;
      2 * SignedWord(r) + Bit(w % 2 == 1) == SignedWord(w)
  {
  }

  lemma Doubled(cc: Flags, w: word)
    ensures var (r, f) := RotateWord(cc, w);
      && r + 0x1_0000 * Bit(f.cy) == 2 * w + Bit(cc.cy) && f.v == ((w >= 0x8000) != (r >= 0x8000))
      && f == cc.(cy := f.cy, v := f.v)
  {
  }

  // ----- ports

  /** OUT hands A to its port; IN takes the byte a device answers there, or what
      the last OUT left when none does. */
  lemma PortsCarry(env: Env, c: Cpu, port: byte, imm2: byte)
    ensures var r := Exec(env, c, 0xD3, port, imm2);
      r.event == OutWrite(port, c.regs.a) && r.cpu == c.(pc := Wrap(c.pc + 1), io := c.io[port := c.regs.a])
    ensures var r := Exec(env, c, 0xDB, port, imm2);
      var x := if port in env.portIn then env.portIn[port] else c.io[port];
      r.event == InRead(port, x) && r.cpu == c.(pc := Wrap(c.pc + 1), regs := c.regs.(a := x), io := c.io[port := x])
  {
    hide Exec, Wrap;
    SystemDispatch(env, c, 2, port, imm2);
    SystemDispatch(env, c, 3, port, imm2);
    assert c.io[port := c.io[port]] == c.io;
  }
}
