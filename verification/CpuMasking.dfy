/** Which handler is entered at a boundary, in terms of the processor's fields
    alone, and what a mask set by SIM keeps out of a whole run. */
module CpuMasking {
  import opened Wrappers
  import opened CpuArith
  import opened CpuModel
  import opened CpuRuns
  import opened CpuInterrupts

  /** The boundary pushes pc and goes to the vector. */
  predicate Enters(env: Env, c: Cpu, vector: word) {
    var d := Entered(env, c);
    d.pc == vector && d.sp == (c.sp - 2) % 0x1_0000 && d.mem == PushWord(env, c, c.pc).mem
  }

  lemma PushMoves(env: Env, c: Cpu, w: word)
    ensures var d := PushWord(env, c, w); d.sp == (c.sp - 2) % 0x1_0000 && d.sp != c.sp && d.lines == c.lines
  {
    hide Store;
  }

  lemma Accepted(env: Env, c: Cpu, s: Source, vector: word)
    requires Chosen(c) == Some(s) && Vector(c, s) == vector
    ensures Entered(env, c).pc == vector && Enters(env, c, vector)
  {
    AcceptanceIsExact(env, c, s);
    PushMoves(env, c, c.pc);
    hide Entered, Chosen, Vector, PushWord;
  }

  lemma NothingAccepted(env: Env, c: Cpu)
    requires Chosen(c).None?
    ensures Entered(env, c) == c && forall v: word :: !Enters(env, c, v)
  {
    hide Chosen;
    PushMoves(env, c, c.pc);
  }

  /** Main result: each handler is entered if and only if its line is pending, its
      own mask clear, interrupts are on (masks and enable do not concern TRAP) and
      no higher line qualifies. */
  lemma HandlersExactly(env: Env, c: Cpu)
    ensures var lines, masks, on := c.lines, c.masks, c.enabled && !c.lines.trap;
      var r7, r6, r5 := lines.r7 && !masks.r7, lines.r6 && !masks.r6, lines.r5 && !masks.r5;
      && (Enters(env, c, 0x24) <==> lines.trap)
      && (Enters(env, c, 0x3C) <==> on && r7)
      && (Enters(env, c, 0x34) <==> on && !r7 && r6)
      && (Enters(env, c, 0x2C) <==> on && !r7 && !r6 && r5)
      && (forall n: nat | n < 8 :: Enters(env, c, 8 * n) <==> on && !r7 && !r6 && !r5 && lines.intr && n == lines.intNumber)
  {
    match Chosen(c)
    case None => NothingAccepted(env, c); hide Entered, Enters;
    case Some(Trap) => Accepted(env, c, Trap, 0x24); hide Entered;
    case Some(Rst75) => Accepted(env, c, Rst75, 0x3C); hide Entered;
    case Some(Rst65) => Accepted(env, c, Rst65, 0x34); hide Entered;
    case Some(Rst55) => Accepted(env, c, Rst55, 0x2C); hide Entered;
    case Some(Intr) => Accepted(env, c, Intr, 8 * c.lines.intNumber); hide Entered;
  }

  // ----- masks over runs

  /** The masks in the low bits of a byte: RST 5.5, 6.5 and 7.5 from the lowest. */
  function MasksIn(a: byte): Masks {
    Masks(a % 2 == 1, a / 2 % 2 == 1, a / 4 % 2 == 1)
  }

  lemma MaskBits(a: byte)
    ensures BitOf(a, 8) == (a / 8 % 2 == 1) && Masks(BitOf(a, 1), BitOf(a, 2), BitOf(a, 4)) == MasksIn(a)
  {
    hide BitOf;
    BitOne(a);
    BitTwo(a);
    BitFour(a);
    BitEight(a);
  }

  /** One step: SIM with bit 3 set writes the masks, nothing else touches them. */
  lemma StepMasks(env: Env, c: Cpu)
    ensures var r := Step(env, c).cpu;
      && (Sleeps(env, c) || NextOpcode(env, c) != SIM ==> r.masks == c.masks)
      && (!Sleeps(env, c) && NextOpcode(env, c) == SIM && c.regs.a / 8 % 2 == 1 ==> r.masks == MasksIn(c.regs.a))
  {
    hide Exec, Entered, BitOf, MasksIn;
    var d := Entered(env, c);
    EnteredFrame(env, c);
    var e := d.(pc := Wrap(d.pc + 1));
    ExecFrame(env, e, d.mem[d.pc], Load(env, d.mem, d.pc + 1), Load(env, d.mem, d.pc + 2));
    MaskBits(c.regs.a);
  }

  /** After a SIM with mask set enabled, for as long as no other SIM runs and
      whatever is signalled, the masks stand. */
  lemma {:induction false} MasksStand(c: Cpu, inputs: seq<Input>, i: nat, j: nat)
    requires i < j < |inputs| && Runs(c, inputs, i, SIM) && At(c, inputs, i).regs.a / 8 % 2 == 1
    requires forall k | i < k < j :: !Runs(c, inputs, k, SIM)
    ensures At(c, inputs, j).masks == MasksIn(At(c, inputs, i).regs.a)
  {
    hide Step, Run, MasksIn;
    RunOneMore(c, inputs, j - 1);
    SignalsTouchLinesOnly(Run(c, inputs[..j]), inputs[j].signals);
    StepMasks(inputs[j - 1].env, At(c, inputs, j - 1));
    if i < j - 1 {
      MasksStand(c, inputs, i, j - 1);
      assert !Runs(c, inputs, j - 1, SIM);
    }
  }

  /** Main result: so no handler whose mask bit was set is entered until another
      SIM; bit 2 is RST 7.5, bit 1 RST 6.5, bit 0 RST 5.5. */
  lemma MaskedNeverEnters(c: Cpu, inputs: seq<Input>, i: nat, j: nat)
    requires i < j < |inputs| && Runs(c, inputs, i, SIM) && At(c, inputs, i).regs.a / 8 % 2 == 1
    requires forall k | i < k < j :: !Runs(c, inputs, k, SIM)
    ensures var a := At(c, inputs, i).regs.a;
      && (a / 4 % 2 == 1 ==> !Enters(inputs[j].env, At(c, inputs, j), 0x3C))
      && (a / 2 % 2 == 1 ==> !Enters(inputs[j].env, At(c, inputs, j), 0x34))
      && (a % 2 == 1 ==> !Enters(inputs[j].env, At(c, inputs, j), 0x2C))
  {
    MasksStand(c, inputs, i, j);
    HandlersExactly(inputs[j].env, At(c, inputs, j));
    hide At, Enters, Runs;
  }

  /** From reset no maskable handler is entered before the second boundary after the
      first EI, whatever is signalled. */
  lemma ResetIsQuiet(c: Cpu, pc: word, sp: word, inputs: seq<Input>, i: nat, vector: word)
    requires i < |inputs|
    requires forall j | 0 <= j <= i :: !At(Reset(c, pc, sp), inputs, j).lines.trap
    requires forall j | 0 <= j < i - 1 :: !Runs(Reset(c, pc, sp), inputs, j, EI)
    ensures !Enters(inputs[i].env, At(Reset(c, pc, sp), inputs, i), vector)
  {
    ResetFields(c, pc, sp);
    hide Reset, At, Runs, Enters;
    ClosedUntilAfterEi(Reset(c, pc, sp), inputs, i);
    NothingAccepted(inputs[i].env, At(Reset(c, pc, sp), inputs, i));
  }

  lemma ResetFields(c: Cpu, pc: word, sp: word)
    ensures var r := Reset(c, pc, sp);
      !r.enabled && r.delay == 0 && r.pc == pc && r.sp == sp && r.mem == c.mem && r.io == c.io
  {
  }

  /** With every line, mask and flag clear, as after reset, RIM and PUSH PSW read 0. */
  lemma ClearBytes(lines: Lines, masks: Masks)
    requires lines == Lines(false, false, false, false, false, 0, false) && masks == Masks(false, false, false)
    ensures RimByte(lines, false, masks) == 0
    ensures Psw(Flags(false, false, false, false, false, false, false)) == 0
  {
  }

  /** And an unmasked, enabled, pending line with nothing above it is entered. */
  lemma UnmaskedEnters(c: Cpu, inputs: seq<Input>, i: nat, j: nat)
    requires i < j < |inputs| && Runs(c, inputs, i, SIM) && At(c, inputs, i).regs.a / 8 % 2 == 1
    requires forall k | i < k < j :: !Runs(c, inputs, k, SIM)
    ensures var a, d := At(c, inputs, i).regs.a, At(c, inputs, j);
      a / 4 % 2 == 0 && d.enabled && d.lines.r7 && !d.lines.trap ==> Enters(inputs[j].env, d, 0x3C)
  {
    MasksStand(c, inputs, i, j);
    HandlersExactly(inputs[j].env, At(c, inputs, j));
    hide At, Enters, Runs;
  }
}
