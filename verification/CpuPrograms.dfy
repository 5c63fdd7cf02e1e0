/** Arithmetic of any length as the processor runs it: a loop in memory, executed
    step by step, adds, subtracts or adds decimally two byte strings in memory. */
module CpuPrograms {
  import opened CpuArith
  import opened CpuModel
  import opened CpuRuns
  import opened CpuMultiByte

  datatype Kind = Sum | Difference | DecimalSum

  /** What one pass of the loop computes from two bytes and the carry. */
  function Combine(kind: Kind, cc: Flags, x: byte, y: byte): Alu {
    match kind
    case Sum => Add(cc, x, y, cc.cy)
    case Difference => Sub(cc, x, y, cc.cy)
    case DecimalSum => DecimalAdd(cc, x, y)
  }

  // ----- strings of bytes and a carry

  datatype Folded = Folded(bytes: seq<byte>, cy: bool)

  const CLEAR := Flags(false, false, false, false, false, false, false)

  function Fold(kind: Kind, cy: bool, xs: seq<byte>, ys: seq<byte>): (r: Folded)
    requires |xs| == |ys|
    ensures |r.bytes| == |xs|
  {
    if |xs| == 0 then Folded([], cy)
    else
      var n := |xs| - 1;
      var low := Fold(kind, cy, xs[..n], ys[..n]);
      var top := Combine(kind, CLEAR.(cy := low.cy), xs[n], ys[n]);
      Folded(low.bytes + [top.value], top.cc.cy)
  }

  /** Of all flags only the carry matters to the next byte. */
  lemma CarryOnly(kind: Kind, cc: Flags, x: byte, y: byte)
    ensures var r, q := Combine(kind, cc, x, y), Combine(kind, CLEAR.(cy := cc.cy), x, y);
      r.value == q.value && r.cc.cy == q.cc.cy
  {
    hide EvenParity;
  }

  lemma {:induction false} FoldIsChain(cc: Flags, xs: seq<byte>, ys: seq<byte>)
    requires |xs| == |ys|
    ensures var r, q := Fold(Sum, cc.cy, xs, ys), AddChain(cc, xs, ys); r.bytes == q.bytes && r.cy == q.cc.cy
    ensures var r, q := Fold(Difference, cc.cy, xs, ys), SubChain(cc, xs, ys); r.bytes == q.bytes && r.cy == q.cc.cy
    ensures var r, q := Fold(DecimalSum, cc.cy, xs, ys), DecimalChain(cc, xs, ys); r.bytes == q.bytes && r.cy == q.cc.cy
  {
    hide Add, Sub, DecimalAdd;
    if |xs| != 0 {
      var n := |xs| - 1;
      FoldIsChain(cc, xs[..n], ys[..n]);
      CarryOnly(Sum, AddChain(cc, xs[..n], ys[..n]).cc, xs[n], ys[n]);
      CarryOnly(Difference, SubChain(cc, xs[..n], ys[..n]).cc, xs[n], ys[n]);
      CarryOnly(DecimalSum, DecimalChain(cc, xs[..n], ys[..n]).cc, xs[n], ys[n]);
    }
  }

  // ----- the loop

  const SIZE := 10

  /** LDAX D; ADC M or SBB M; DAA or NOP; STAX D; INX D; INX H; DCR B; JNZ p. */
  function Code(kind: Kind, p: word): (code: seq<byte>)
    ensures |code| == SIZE
  {
    [0x1A, if kind == Difference then 0x9E else 0x8E, if kind == DecimalSum then 0x27 else 0x00,
     0x12, 0x13, 0x23, 0x05, 0xC2, Lo(p), Hi(p)]
  }

  predicate Loaded(mem: Memory, kind: Kind, p: word) {
    p + SIZE <= MEMORY_SIZE && mem[p..p + SIZE] == Code(kind, p)
  }

  lemma CodeAt(mem: Memory, kind: Kind, p: word, i: nat)
    requires Loaded(mem, kind, p) && i < SIZE
    ensures mem[p + i] == Code(kind, p)[i]
  {
    assert mem[p..p + SIZE][i] == mem[p + i];
  }

  /** Nothing can interrupt. */
  predicate Quiet(c: Cpu) {
    !c.halted && !c.enabled && c.delay == 0 && !c.lines.trap
  }

  lemma QuietExecutes(env: Env, c: Cpu, op: byte)
    requires Quiet(c) && c.mem[c.pc] == op && c.pc < MEMORY_SIZE - 2
    requires var r := Exec(env, c.(pc := c.pc + 1), op, c.mem[c.pc + 1], c.mem[c.pc + 2]).cpu; r.delay == 0
    ensures Step(env, c).cpu == Exec(env, c.(pc := c.pc + 1), op, c.mem[c.pc + 1], c.mem[c.pc + 2]).cpu
  {
    hide Exec;
  }

  // ----- the eight instructions

  function Ldax(c: Cpu): Cpu { SetA(c, c.mem[DE(c)]) }

  function Operate(kind: Kind, c: Cpu): Cpu {
    var y := c.mem[HL(c)];
    SetAlu(c, if kind == Difference then Sub(c.cc, c.regs.a, y, c.cc.cy) else Add(c.cc, c.regs.a, y, c.cc.cy))
  }

  function Adjust(kind: Kind, c: Cpu): Cpu {
    if kind == DecimalSum then SetAlu(c, DecimalAdjust(c.cc, c.regs.a)) else c
  }

  function Stax(c: Cpu): Cpu { c.(mem := c.mem[DE(c) := c.regs.a]) }

  function Inx(c: Cpu, p: nat): Cpu
    requires p < 4
  {
    var w := Wrap(Pair(c, p) + 1);
    SetPair(c, p, w).(cc := c.cc.(x5 := w == 0))
  }

  function DcrB(c: Cpu): Cpu {
    var r := Decrement(c.cc, c.regs.b);
    c.(regs := c.regs.(b := r.value), cc := r.cc)
  }

  lemma ExecLdax(env: Env, c: Cpu, imm1: byte, imm2: byte)
    ensures Exec(env, c, 0x1A, imm1, imm2).cpu == Ldax(c)
  {
    hide ExecHigh, ExecMove, AluOp, ExecMisc, ExecLxiDad, ExecInxDcx, ExecAccumulator, ExecIncDecMove, Store, Load;
  }

  lemma ExecOperate(env: Env, c: Cpu, kind: Kind, imm1: byte, imm2: byte)
    ensures Exec(env, c, if kind == Difference then 0x9E else 0x8E, imm1, imm2).cpu == Operate(kind, c)
  {
    hide ExecHigh, ExecMove, ExecLow, Add, Sub, And, Or, Xor, LogicFlags;
  }

  lemma ExecAdjust(env: Env, c: Cpu, kind: Kind, imm1: byte, imm2: byte)
    ensures Exec(env, c, if kind == DecimalSum then 0x27 else 0x00, imm1, imm2).cpu == Adjust(kind, c)
  {
    hide ExecHigh, ExecMove, AluOp, ExecLxiDad, ExecInxDcx, ExecDirect, ExecIncDecMove, DecimalAdjust, Rotate;
  }

  lemma ExecStax(env: Env, c: Cpu, imm1: byte, imm2: byte)
    requires !Protected(env.regions, DE(c))
    ensures Exec(env, c, 0x12, imm1, imm2).cpu == Stax(c)
  {
    hide ExecHigh, ExecMove, AluOp, ExecMisc, ExecLxiDad, ExecInxDcx, ExecAccumulator, ExecIncDecMove, Store, Load, Word, SetHL;
    DeWraps(c);
    StoreExact(env, c.mem, DE(c), c.regs.a);
  }

  lemma DeWraps(c: Cpu)
    ensures Wrap(DE(c)) == DE(c)
  {
  }

  lemma ExecInx(env: Env, c: Cpu, p: nat, imm1: byte, imm2: byte)
    requires 1 <= p <= 2
    ensures Exec(env, c, 0x10 * p + 3, imm1, imm2).cpu == Inx(c, p)
  {
    hide ExecHigh, ExecMove, AluOp, ExecMisc, ExecLxiDad, ExecDirect, ExecAccumulator, ExecIncDecMove, Pair, SetPair, Wrap;
  }

  lemma ExecDcrB(env: Env, c: Cpu, imm1: byte, imm2: byte)
    ensures Exec(env, c, 0x05, imm1, imm2).cpu == DcrB(c)
  {
    hide ExecHigh, ExecMove, AluOp, ExecMisc, ExecLxiDad, ExecDirect, ExecAccumulator, ExecInxDcx, Decrement, Increment, Store;
  }

  lemma ExecJnz(env: Env, c: Cpu, imm1: byte, imm2: byte)
    ensures Exec(env, c, 0xC2, imm1, imm2).cpu == if c.cc.z then Skip(c, 2) else c.(pc := Word(imm2, imm1))
  {
    hide ExecLow, ExecMove, AluOp, ExecPop, ExecPush, ExecSystem, AluImmediate, Restart, PushWord, TopWord, Word;
  }

  /** What the instruction at offset i of the loop does, the last one apart. */
  function Effect(kind: Kind, i: nat, c: Cpu): Cpu
    requires i < 7
  {
    match i
    case 0 => Ldax(c)
    case 1 => Operate(kind, c)
    case 2 => Adjust(kind, c)
    case 3 => Stax(c)
    case 4 => Inx(c, 1)
    case 5 => Inx(c, 2)
    case _ => DcrB(c)
  }

  lemma EffectFrame(kind: Kind, i: nat, c: Cpu)
    requires i < 7
    ensures var r := Effect(kind, i, c);
      && r.pc == c.pc && r.sp == c.sp && r.halted == c.halted && r.enabled == c.enabled && r.delay == c.delay
      && r.lines == c.lines && r.mem == if i == 3 then c.mem[DE(c) := c.regs.a] else c.mem
  {
    hide Add, Sub, DecimalAdjust, Decrement, Wrap;
  }

  /** The instruction at offset i, executed. */
  lemma EffectExecuted(env: Env, kind: Kind, i: nat, c: Cpu, imm1: byte, imm2: byte)
    requires i < 7 && (i == 3 ==> !Protected(env.regions, DE(c)))
    ensures Exec(env, c, Code(kind, 0)[i], imm1, imm2).cpu == Effect(kind, i, c)
  {
    hide Exec, Ldax, Operate, Adjust, Stax, Inx, DcrB;
    match i
    case 0 => ExecLdax(env, c, imm1, imm2);
    case 1 => ExecOperate(env, c, kind, imm1, imm2);
    case 2 => ExecAdjust(env, c, kind, imm1, imm2);
    case 3 => ExecStax(env, c, imm1, imm2);
    case 4 => ExecInx(env, c, 1, imm1, imm2);
    case 5 => ExecInx(env, c, 2, imm1, imm2);
    case _ => ExecDcrB(env, c, imm1, imm2);
  }

  /** Where the loop stands: at offset i, able to go on undisturbed. */
  predicate InLoop(c: Cpu, kind: Kind, p: word, i: nat) {
    Quiet(c) && Loaded(c.mem, kind, p) && c.pc == p + i
  }

  lemma StillLoaded(mem: Memory, kind: Kind, p: word, a: word, v: byte)
    requires Loaded(mem, kind, p) && (a < p || a >= p + SIZE)
    ensures Loaded(mem[a := v], kind, p)
  {
    assert mem[a := v][p..p + SIZE] == mem[p..p + SIZE];
  }

  lemma CodeIndependent(kind: Kind, p: word, i: nat)
    requires i < 7
    ensures Code(kind, p)[i] == Code(kind, 0)[i]
  {
  }

  lemma EffectInLoop(kind: Kind, p: word, i: nat, c: Cpu)
    requires i < 7 && Quiet(c) && Loaded(c.mem, kind, p) && c.pc == p + i + 1
    requires i == 3 ==> DE(c) < p || DE(c) >= p + SIZE
    ensures InLoop(Effect(kind, i, c), kind, p, i + 1)
  {
    hide Effect, Loaded;
    EffectFrame(kind, i, c);
    if i == 3 {
      StillLoaded(c.mem, kind, p, DE(c), c.regs.a);
    }
  }

  lemma LoopStep(env: Env, kind: Kind, p: word, i: nat, c: Cpu)
    requires i < 7 && InLoop(c, kind, p, i)
    requires i == 3 ==> !Protected(env.regions, DE(c)) && (DE(c) < p || DE(c) >= p + SIZE)
    ensures p + i + 1 < MEMORY_SIZE
    ensures var r := Step(env, c).cpu; r == Effect(kind, i, c.(pc := p + i + 1)) && InLoop(r, kind, p, i + 1)
  {
    hide Effect, Exec, Step, Code;
    assert p + SIZE <= MEMORY_SIZE;
    CodeAt(c.mem, kind, p, i);
    CodeIndependent(kind, p, i);
    var e := c.(pc := c.pc + 1);
    EffectFrame(kind, i, e);
    EffectExecuted(env, kind, i, e, c.mem[c.pc + 1], c.mem[c.pc + 2]);
    EffectInLoop(kind, p, i, e);
    QuietExecutes(env, c, c.mem[c.pc]);
  }

  /** The jump at the end: back to p, or on past the loop. */
  lemma LoopJump(env: Env, kind: Kind, p: word, c: Cpu)
    requires InLoop(c, kind, p, 7)
    ensures Step(env, c).cpu == c.(pc := if c.cc.z then Wrap(p + SIZE) else p)
  {
    hide Exec, Step;
    CodeAt(c.mem, kind, p, 7);
    CodeAt(c.mem, kind, p, 8);
    CodeAt(c.mem, kind, p, 9);
    WordSplit(p);
    var e := c.(pc := c.pc + 1);
    ExecJnz(env, e, c.mem[c.pc + 1], c.mem[c.pc + 2]);
    QuietExecutes(env, c, c.mem[c.pc]);
  }

  // ----- one pass

  /** The processor i instructions into a pass that began in c. */
  function Along(kind: Kind, p: word, c: Cpu, i: nat): Cpu
    requires i <= 7 && p + SIZE <= MEMORY_SIZE
  {
    if i == 0 then c else Effect(kind, i - 1, Along(kind, p, c, i - 1).(pc := p + i))
  }

  /** Inputs that raise no signal and leave [lo, hi) writable. */
  ghost predicate Calm(inputs: seq<Input>, lo: int, hi: int) {
    forall i | 0 <= i < |inputs| :: inputs[i].signals == [] && forall a: word | lo <= a < hi :: !Protected(inputs[i].env.regions, a)
  }

  lemma CalmStep(c: Cpu, inputs: seq<Input>, lo: int, hi: int, i: nat)
    requires Calm(inputs, lo, hi) && i < |inputs|
    ensures Run(c, inputs[..i + 1]) == Step(inputs[i].env, Run(c, inputs[..i])).cpu
  {
    hide Step;
    var prefix := inputs[..i + 1];
    assert prefix[..i] == inputs[..i];
  }

  /** Until the store, DE is where it was when the pass began. */
  lemma AlongPointers(kind: Kind, p: word, c: Cpu, i: nat)
    requires i <= 3 && p + SIZE <= MEMORY_SIZE
    ensures DE(Along(kind, p, c, i)) == DE(c) && HL(Along(kind, p, c, i)) == HL(c)
  {
    if i > 0 {
      AlongPointers(kind, p, c, i - 1);
      hide Add, Sub, DecimalAdjust;
    }
  }

  lemma {:induction false} PassAlong(kind: Kind, p: word, c: Cpu, inputs: seq<Input>, at: nat, i: nat)
    requires i <= 7 && at + 7 < |inputs|
    requires Calm(inputs, DE(Run(c, inputs[..at])), DE(Run(c, inputs[..at])) + 1)
    requires var d := Run(c, inputs[..at]); InLoop(d, kind, p, 0) && (DE(d) < p || DE(d) >= p + SIZE)
    ensures p + SIZE <= MEMORY_SIZE
    ensures var d := Run(c, inputs[..at]);
      Run(c, inputs[..at + i]) == Along(kind, p, d, i) && InLoop(Along(kind, p, d, i), kind, p, i)
  {
    hide Step, Run, Effect, InLoop;
    var d := Run(c, inputs[..at]);
    assert p + SIZE <= MEMORY_SIZE by { LoopFits(d, kind, p, 0); }
    if i > 0 {
      PassAlong(kind, p, c, inputs, at, i - 1);
      if i - 1 == 3 {
        AlongPointers(kind, p, d, 3);
      }
      CalmStep(c, inputs, DE(d), DE(d) + 1, at + i - 1);
      LoopStep(inputs[at + i - 1].env, kind, p, i - 1, Along(kind, p, d, i - 1));
    }
  }

  lemma LoopFits(c: Cpu, kind: Kind, p: word, i: nat)
    requires InLoop(c, kind, p, i)
    ensures p + SIZE <= MEMORY_SIZE
  {
  }

  lemma AlongNext(kind: Kind, p: word, c: Cpu, i: nat)
    requires 0 < i <= 7 && p + SIZE <= MEMORY_SIZE
    ensures Along(kind, p, c, i) == Effect(kind, i - 1, Along(kind, p, c, i - 1).(pc := p + i))
  {
    hide Effect;
  }

  /** After three instructions: the combined byte is in the accumulator. */
  lemma AlongCombined(kind: Kind, p: word, c: Cpu)
    requires p + SIZE <= MEMORY_SIZE
    ensures var t, r := Combine(kind, c.cc, c.mem[DE(c)], c.mem[HL(c)]), Along(kind, p, c, 3);
      && r.regs == c.regs.(a := t.value) && r.cc == t.cc && r.mem == c.mem && r.sp == c.sp
  {
    hide Add, Sub, DecimalAdjust, Along;
    assert Along(kind, p, c, 0) == c by { AlongStart(kind, p, c); }
    AlongNext(kind, p, c, 1);
    AlongNext(kind, p, c, 2);
    AlongNext(kind, p, c, 3);
  }

  lemma AlongStart(kind: Kind, p: word, c: Cpu)
    requires p + SIZE <= MEMORY_SIZE
    ensures Along(kind, p, c, 0) == c
  {
  }

  lemma InxDe(c: Cpu)
    ensures var r := Inx(c, 1);
      && DE(r) == Wrap(DE(c) + 1) && r == c.(regs := c.regs.(d := r.regs.d, e := r.regs.e), cc := c.cc.(x5 := r.cc.x5))
  {
    hide Wrap, Hi, Lo, Word;
    WordSplit(Wrap(DE(c) + 1));
  }

  lemma InxHl(c: Cpu)
    ensures var r := Inx(c, 2);
      && HL(r) == Wrap(HL(c) + 1) && r == c.(regs := c.regs.(h := r.regs.h, l := r.regs.l), cc := c.cc.(x5 := r.cc.x5))
  {
    hide Wrap, Hi, Lo, Word;
    WordSplit(Wrap(HL(c) + 1));
  }

  lemma DcrCounts(c: Cpu)
    ensures var r := DcrB(c);
      && r == c.(regs := c.regs.(b := (c.regs.b - 1) % 0x100), cc := r.cc)
      && r.cc.z == (r.regs.b == 0) && r.cc.cy == c.cc.cy
  {
    hide EvenParity;
  }

  /** One pass, start to end. */
  lemma AlongEnd(kind: Kind, p: word, c: Cpu)
    requires p + SIZE <= MEMORY_SIZE
    ensures var t, r := Combine(kind, c.cc, c.mem[DE(c)], c.mem[HL(c)]), Along(kind, p, c, 7);
      && r.mem == c.mem[DE(c) := t.value] && r.cc.cy == t.cc.cy && r.sp == c.sp
      && DE(r) == Wrap(DE(c) + 1) && HL(r) == Wrap(HL(c) + 1)
      && r.regs.b == (c.regs.b - 1) % 0x100 && r.cc.z == (r.regs.b == 0)
  {
    hide Combine, Along, Inx, DcrB, Wrap, Word;
    AlongCombined(kind, p, c);
    var three, four := Along(kind, p, c, 3), Along(kind, p, c, 4);
    AlongNext(kind, p, c, 4);
    assert DE(three) == DE(c) && HL(three) == HL(c);
    assert four.mem == c.mem[DE(c) := Combine(kind, c.cc, c.mem[DE(c)], c.mem[HL(c)]).value];
    AlongNext(kind, p, c, 5);
    InxDe(four.(pc := p + 5));
    AlongNext(kind, p, c, 6);
    InxHl(Along(kind, p, c, 5).(pc := p + 6));
    AlongNext(kind, p, c, 7);
    DcrCounts(Along(kind, p, c, 6).(pc := p + 7));
  }

  // ----- the whole loop

  /** Both strings lie within memory, the target clear of the program and not
      overtaken: no byte of the source is overwritten before it is read. */
  predicate Placed(c: Cpu, p: word, n: nat) {
    && DE(c) + n <= MEMORY_SIZE && HL(c) + n <= MEMORY_SIZE
    && (DE(c) + n <= p || p + SIZE <= DE(c))
    && (DE(c) <= HL(c) || HL(c) + n <= DE(c))
  }

  predicate CanStart(c: Cpu, kind: Kind, p: word, n: nat) {
    && InLoop(c, kind, p, 0) && Placed(c, p, n)
    && 1 <= n <= 0x100 && c.regs.b == n % 0x100
  }

  /** k bytes done. */
  ghost predicate Progress(c: Cpu, kind: Kind, p: word, n: nat, k: nat, r: Cpu)
    requires k <= n && DE(c) + n <= MEMORY_SIZE && HL(c) + n <= MEMORY_SIZE
  {
    var dst, src := DE(c), HL(c);
    var done := Fold(kind, c.cc.cy, c.mem[dst..dst + k], c.mem[src..src + k]);
    && r.mem[dst..dst + k] == done.bytes && r.cc.cy == done.cy
    && (forall a: word | a < dst || dst + k <= a :: r.mem[a] == c.mem[a])
    && DE(r) == Wrap(dst + k) && HL(r) == Wrap(src + k) && r.regs.b == (n - k) % 0x100 && r.sp == c.sp
    && Quiet(r) && Loaded(r.mem, kind, p) && r.pc == if k == n then Wrap(p + SIZE) else p
  }

  lemma FoldOneMore(kind: Kind, cy: bool, xs: seq<byte>, ys: seq<byte>, k: nat)
    requires |xs| == |ys| && k < |xs|
    ensures var low := Fold(kind, cy, xs[..k], ys[..k]);
      var top := Combine(kind, CLEAR.(cy := low.cy), xs[k], ys[k]);
      Fold(kind, cy, xs[..k + 1], ys[..k + 1]) == Folded(low.bytes + [top.value], top.cc.cy)
  {
    hide Combine;
    assert xs[..k + 1][..k] == xs[..k] && ys[..k + 1][..k] == ys[..k];
  }

  /** Eight steps from the top of the loop. */
  lemma PassRuns(kind: Kind, p: word, c: Cpu, inputs: seq<Input>, at: nat)
    requires at + 8 <= |inputs|
    requires var d := Run(c, inputs[..at]);
      InLoop(d, kind, p, 0) && (DE(d) < p || DE(d) >= p + SIZE) && Calm(inputs, DE(d), DE(d) + 1)
    ensures var d, r := Run(c, inputs[..at]), Run(c, inputs[..at + 8]);
      var t := Combine(kind, d.cc, d.mem[DE(d)], d.mem[HL(d)]);
      && r.mem == d.mem[DE(d) := t.value] && r.cc.cy == t.cc.cy && r.sp == d.sp
      && DE(r) == Wrap(DE(d) + 1) && HL(r) == Wrap(HL(d) + 1) && r.regs.b == (d.regs.b - 1) % 0x100
      && Quiet(r) && Loaded(r.mem, kind, p) && r.pc == if r.regs.b == 0 then Wrap(p + SIZE) else p
  {
    hide Step, Run, Along, Combine, Wrap, Word, Loaded;
    var d := Run(c, inputs[..at]);
    PassAlong(kind, p, c, inputs, at, 7);
    AlongEnd(kind, p, d);
    CalmStep(c, inputs, DE(d), DE(d) + 1, at + 7);
    LoopJump(inputs[at + 7].env, kind, p, Along(kind, p, d, 7));
  }

  /** Main result. The loop, executed: after 8 * k steps the first k bytes of the
      target are combined with those of the source, the carry is that of the fold,
      and nothing else in memory has changed; after 8 * n steps the processor has
      left the loop. */
  lemma {:induction false} LoopComputes(c: Cpu, kind: Kind, p: word, n: nat, inputs: seq<Input>, k: nat)
    requires CanStart(c, kind, p, n) && k <= n && 8 * k <= |inputs| && Calm(inputs, DE(c), DE(c) + n)
    ensures Progress(c, kind, p, n, k, Run(c, inputs[..8 * k]))
  {
    hide Step, Run, Combine, Loaded, Fold;
    if k == 0 {
      NoStepsYet(c, inputs);
      ProgressStarts(c, kind, p, n);
    } else {
      LoopComputes(c, kind, p, n, inputs, k - 1);
      var d := Run(c, inputs[..8 * (k - 1)]);
      WithinMemory(c, n, k - 1);
      PassRuns(kind, p, c, inputs, 8 * (k - 1));
      ProgressGoesOn(c, kind, p, n, k, d, Run(c, inputs[..8 * k]));
    }
  }

  lemma NoStepsYet(c: Cpu, inputs: seq<Input>)
    ensures Run(c, inputs[..0]) == c
  {
    hide Step;
  }

  lemma WithinMemory(c: Cpu, n: nat, k: nat)
    requires k < n && DE(c) + n <= MEMORY_SIZE && HL(c) + n <= MEMORY_SIZE
    ensures Wrap(DE(c) + k) == DE(c) + k && Wrap(HL(c) + k) == HL(c) + k
  {
  }

  lemma ProgressStarts(c: Cpu, kind: Kind, p: word, n: nat)
    requires CanStart(c, kind, p, n)
    ensures Progress(c, kind, p, n, 0, c)
  {
    assert c.mem[DE(c)..DE(c)] == [];
  }

  /** The slices of two memories that one more byte makes. */
  lemma TargetGrows(mem: Memory, dst: word, k: nat, v: byte)
    requires 0 < k && dst + k <= MEMORY_SIZE
    ensures mem[dst + k - 1 := v][dst..dst + k] == mem[dst..dst + k - 1] + [v]
  {
  }

  lemma FoldGrows(kind: Kind, cc: Flags, cy: bool, mem: Memory, dst: word, src: word, k: nat)
    requires 0 < k && dst + k <= MEMORY_SIZE && src + k <= MEMORY_SIZE
    requires cc.cy == Fold(kind, cy, mem[dst..dst + k - 1], mem[src..src + k - 1]).cy
    ensures var t := Combine(kind, cc, mem[dst + k - 1], mem[src + k - 1]);
      var low := Fold(kind, cy, mem[dst..dst + k - 1], mem[src..src + k - 1]);
      Fold(kind, cy, mem[dst..dst + k], mem[src..src + k]) == Folded(low.bytes + [t.value], t.cc.cy)
  {
    hide Combine, Fold;
    var xs, ys := mem[dst..dst + k], mem[src..src + k];
    CarryOnly(kind, cc, xs[k - 1], ys[k - 1]);
    FoldOneMore(kind, cy, xs, ys, k - 1);
    assert xs[..k] == xs && ys[..k] == ys;
    assert xs[..k - 1] == mem[dst..dst + k - 1] && ys[..k - 1] == mem[src..src + k - 1];
  }

  lemma NextPointer(a: word, k: nat, n: nat)
    requires 0 < k <= n && a + n <= MEMORY_SIZE
    ensures Wrap(a + (k - 1)) == a + k - 1 && Wrap(Wrap(a + (k - 1)) + 1) == Wrap(a + k)
  {
  }

  lemma NextCount(n: nat, k: nat)
    requires 0 < k <= n <= 0x100
    ensures ((n - (k - 1)) % 0x100 - 1) % 0x100 == (n - k) % 0x100
    ensures (n - k) % 0x100 == 0 <==> k == n
  {
  }

  lemma ProgressGoesOn(c: Cpu, kind: Kind, p: word, n: nat, k: nat, d: Cpu, r: Cpu)
    requires CanStart(c, kind, p, n) && 0 < k <= n && Progress(c, kind, p, n, k - 1, d)
    requires var t := Combine(kind, d.cc, d.mem[DE(d)], d.mem[HL(d)]);
      && r.mem == d.mem[DE(d) := t.value] && r.cc.cy == t.cc.cy && r.sp == d.sp
      && DE(r) == Wrap(DE(d) + 1) && HL(r) == Wrap(HL(d) + 1) && r.regs.b == (d.regs.b - 1) % 0x100
      && Quiet(r) && Loaded(r.mem, kind, p) && r.pc == if r.regs.b == 0 then Wrap(p + SIZE) else p
    ensures Progress(c, kind, p, n, k, r)
  {
    hide Combine, Loaded, Fold, Word, Wrap, Quiet;
    var dst, src := DE(c), HL(c);
    NextPointer(dst, k, n);
    NextPointer(src, k, n);
    NextCount(n, k);
    assert d.mem[dst + k - 1] == c.mem[dst + k - 1] && d.mem[src + k - 1] == c.mem[src + k - 1];
    FoldGrows(kind, d.cc, c.cc.cy, c.mem, dst, src, k);
    TargetGrows(d.mem, dst, k, Combine(kind, d.cc, d.mem[DE(d)], d.mem[HL(d)]).value);
  }

  // ----- what the three loops are for

  /** Run to its end, the ADC loop adds two n-byte numbers in memory, the SBB loop
      subtracts them, and the ADC; DAA loop adds two decimal strings: exactly, with
      the true carry or borrow in CY. */
  lemma LoopArithmetic(c: Cpu, kind: Kind, p: word, n: nat, inputs: seq<Input>)
    requires CanStart(c, kind, p, n) && |inputs| == 8 * n && Calm(inputs, DE(c), DE(c) + n)
    ensures var r := Run(c, inputs);
      var xs, ys, zs := c.mem[DE(c)..DE(c) + n], c.mem[HL(c)..HL(c) + n], r.mem[DE(c)..DE(c) + n];
      var q, carry, carried := Pow(0x100, n), Bit(c.cc.cy), Bit(r.cc.cy);
      && r.pc == Wrap(p + SIZE) && r.regs.b == 0 && r.sp == c.sp
      && (forall a: word | a < DE(c) || DE(c) + n <= a :: r.mem[a] == c.mem[a])
      && (kind == Sum ==> Value(zs) + q * carried == Value(xs) + Value(ys) + carry)
      && (kind == Difference ==> Value(zs) - q * carried == Value(xs) - Value(ys) - carry)
      && (kind == DecimalSum && AllBcd(xs) && AllBcd(ys) ==>
            AllBcd(zs) && Decimal(zs) + Pow(100, n) * carried == Decimal(xs) + Decimal(ys) + carry)
  {
    hide Run, Fold, AddChain, SubChain, DecimalChain, Value, Decimal, Pow, Loaded;
    assert inputs[..8 * n] == inputs;
    LoopComputes(c, kind, p, n, inputs, n);
    var xs, ys := c.mem[DE(c)..DE(c) + n], c.mem[HL(c)..HL(c) + n];
    FoldIsChain(c.cc, xs, ys);
    AddChainExact(c.cc, xs, ys);
    SubChainExact(c.cc, xs, ys);
    if AllBcd(xs) && AllBcd(ys) {
      DecimalChainExact(c.cc, xs, ys);
    }
  }

  predicate AllBcd(xs: seq<byte>) {
    forall i | 0 <= i < |xs| :: IsBcd(xs[i])
  }
}
