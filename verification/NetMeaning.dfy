/** What gates and wires mean in two-valued terms, and what the program's sixteen
    passes are enough for. */
module NetMeaning {
  import opened NetModel
  import opened NetFixpoint
  import opened NetAcyclic
  import W = NetNames

  function Known(v: bool): Level {
    if v then Level1 else Level0
  }

  /** Two-valued readings of some levels: unknown ones may be either. */
  ghost predicate Completes(bits: seq<bool>, levels: seq<Level>) {
    && |bits| == |levels|
    && forall i | 0 <= i < |levels| :: (levels[i] == Level0 ==> !bits[i]) && (levels[i] == Level1 ==> bits[i])
  }

  /** The reading that takes every unknown level for b. */
  function Fill(levels: seq<Level>, b: bool): (bits: seq<bool>)
    ensures |bits| == |levels| && forall i | 0 <= i < |bits| :: bits[i] == (levels[i] == Level1 || (levels[i] == LevelX && b))
  {
    seq(|levels|, i requires 0 <= i < |levels| => levels[i] == Level1 || (levels[i] == LevelX && b))
  }

  lemma FillCompletes(levels: seq<Level>, b: bool)
    ensures Completes(Fill(levels, b), levels)
  {
  }

  // ----- gates

  /** The gate can be evaluated: inverters and buffers have one input. */
  ghost predicate WellFormed(gate: Gate, count: nat) {
    && (forall i | 0 <= i < |gate.inputs| :: gate.inputs[i] < count)
    && (gate.kind == INV || gate.kind == BUF ==> |gate.inputs| == 1)
  }

  ghost predicate AllOf(inputs: seq<nat>, bits: seq<bool>)
    requires forall i | 0 <= i < |inputs| :: inputs[i] < |bits|
  {
    forall i | 0 <= i < |inputs| :: bits[inputs[i]]
  }

  ghost predicate AnyOf(inputs: seq<nat>, bits: seq<bool>)
    requires forall i | 0 <= i < |inputs| :: inputs[i] < |bits|
  {
    exists i | 0 <= i < |inputs| :: bits[inputs[i]]
  }

  /** The Boolean function of a gate. */
  ghost predicate Computes(gate: Gate, bits: seq<bool>)
    requires WellFormed(gate, |bits|)
  {
    match gate.kind
    case INV => !bits[gate.inputs[0]]
    case BUF => bits[gate.inputs[0]]
    case AND => AllOf(gate.inputs, bits)
    case OR => AnyOf(gate.inputs, bits)
    case NAND => !AllOf(gate.inputs, bits)
    case NOR => !AnyOf(gate.inputs, bits)
  }

  lemma WideGate(gate: Gate, levels: seq<Level>, bits: seq<bool>)
    requires WellFormed(gate, |levels|) && Completes(bits, levels)
    ensures Conjunction(gate, levels) != LevelX ==> (Conjunction(gate, levels) == Level1) == AllOf(gate.inputs, bits)
    ensures Disjunction(gate, levels) != LevelX ==> (Disjunction(gate, levels) == Level1) == AnyOf(gate.inputs, bits)
  {
    if SomeInput(gate, levels, Level0) {
      var i :| 0 <= i < |gate.inputs| && levels[gate.inputs[i]] == Level0;
      assert !bits[gate.inputs[i]];
    }
    if SomeInput(gate, levels, Level1) {
      var i :| 0 <= i < |gate.inputs| && levels[gate.inputs[i]] == Level1;
      assert bits[gate.inputs[i]];
    }
    if !SomeInput(gate, levels, LevelX) {
      assert forall i | 0 <= i < |gate.inputs| :: levels[gate.inputs[i]] != LevelX;
      assert forall i | 0 <= i < |gate.inputs| :: bits[gate.inputs[i]] == (levels[gate.inputs[i]] == Level1);
    }
  }

  lemma UnknownWideGate(gate: Gate, levels: seq<Level>)
    requires WellFormed(gate, |levels|)
    ensures Conjunction(gate, levels) == LevelX ==>
      !AllOf(gate.inputs, Fill(levels, false)) && AllOf(gate.inputs, Fill(levels, true))
    ensures Disjunction(gate, levels) == LevelX ==>
      !AnyOf(gate.inputs, Fill(levels, false)) && AnyOf(gate.inputs, Fill(levels, true))
  {
    if SomeInput(gate, levels, LevelX) {
      var i :| 0 <= i < |gate.inputs| && levels[gate.inputs[i]] == LevelX;
      assert !Fill(levels, false)[gate.inputs[i]] && Fill(levels, true)[gate.inputs[i]];
    }
    if !SomeInput(gate, levels, Level0) {
      assert forall i | 0 <= i < |gate.inputs| :: levels[gate.inputs[i]] != Level0;
    }
    if !SomeInput(gate, levels, Level1) {
      assert forall i | 0 <= i < |gate.inputs| :: levels[gate.inputs[i]] != Level1;
    }
  }

  lemma KnownGate(gate: Gate, levels: seq<Level>, bits: seq<bool>)
    requires WellFormed(gate, |levels|) && Completes(bits, levels) && GateLevel(gate, levels) != LevelX
    ensures GateLevel(gate, levels) == Known(Computes(gate, bits))
  {
    WideGate(gate, levels, bits);
    hide Conjunction, Disjunction, AllOf, AnyOf;
  }

  lemma UnknownGate(gate: Gate, levels: seq<Level>)
    requires WellFormed(gate, |levels|) && GateLevel(gate, levels) == LevelX
    ensures Computes(gate, Fill(levels, false)) != Computes(gate, Fill(levels, true))
  {
    UnknownWideGate(gate, levels);
    hide Conjunction, Disjunction, AllOf, AnyOf;
  }

  /** Main result: a gate of any kind and fan-in puts out a known value if and only
      if its Boolean function has that value however the unknown levels turn out. */
  lemma GateMeansBoolean(gate: Gate, levels: seq<Level>, v: bool)
    requires WellFormed(gate, |levels|)
    ensures GateLevel(gate, levels) == Known(v) <==>
      forall bits | Completes(bits, levels) :: Computes(gate, bits) == v
  {
    hide GateLevel, Computes, Completes;
    FillCompletes(levels, false);
    FillCompletes(levels, true);
    forall bits | Completes(bits, levels)
      ensures |bits| == |levels| && (GateLevel(gate, levels) != LevelX ==> GateLevel(gate, levels) == Known(Computes(gate, bits)))
    {
      CompletionSize(bits, levels);
      if GateLevel(gate, levels) != LevelX {
        KnownGate(gate, levels, bits);
      }
    }
    if GateLevel(gate, levels) == LevelX {
      UnknownGate(gate, levels);
    }
  }

  lemma CompletionSize(bits: seq<bool>, levels: seq<Level>)
    ensures Completes(bits, levels) ==> |bits| == |levels|
  {
  }

  /** An inverter or buffer without exactly one input puts out X. */
  lemma MalformedIsUnknown(gate: Gate, levels: seq<Level>)
    requires (forall i | 0 <= i < |gate.inputs| :: gate.inputs[i] < |levels|) && !WellFormed(gate, |levels|)
    ensures GateLevel(gate, levels) == LevelX
  {
  }

  /** De Morgan between nets: with the inputs inverted, NAND is OR, NOR is AND, AND is
      NOR and OR is NAND, unknown levels included. */
  lemma DeMorgan(inputs: seq<nat>, output: nat, levels: seq<Level>, inverted: seq<Level>)
    requires forall i | 0 <= i < |inputs| :: inputs[i] < |levels|
    requires |inverted| == |levels| && forall n | 0 <= n < |levels| :: inverted[n] == GateLevel(Gate(INV, [n], output), levels)
    ensures GateLevel(Gate(NAND, inputs, output), levels) == GateLevel(Gate(OR, inputs, output), inverted)
    ensures GateLevel(Gate(NOR, inputs, output), levels) == GateLevel(Gate(AND, inputs, output), inverted)
    ensures GateLevel(Gate(AND, inputs, output), levels) == GateLevel(Gate(NOR, inputs, output), inverted)
    ensures GateLevel(Gate(OR, inputs, output), levels) == GateLevel(Gate(NAND, inputs, output), inverted)
  {
    assert forall n | 0 <= n < |levels| :: inverted[n] == Not(levels[n]);
    InputsInverted(Gate(NAND, inputs, output), Gate(OR, inputs, output), levels, inverted);
    InputsInverted(Gate(NOR, inputs, output), Gate(AND, inputs, output), levels, inverted);
    InputsInverted(Gate(AND, inputs, output), Gate(NOR, inputs, output), levels, inverted);
    InputsInverted(Gate(OR, inputs, output), Gate(NAND, inputs, output), levels, inverted);
    hide SomeInput;
  }

  lemma InputsInverted(gate: Gate, other: Gate, levels: seq<Level>, inverted: seq<Level>)
    requires gate.inputs == other.inputs && forall i | 0 <= i < |gate.inputs| :: gate.inputs[i] < |levels|
    requires |inverted| == |levels| && forall n | 0 <= n < |levels| :: inverted[n] == Not(levels[n])
    ensures SomeInput(gate, levels, Level0) == SomeInput(other, inverted, Level1)
    ensures SomeInput(gate, levels, Level1) == SomeInput(other, inverted, Level0)
    ensures SomeInput(gate, levels, LevelX) == SomeInput(other, inverted, LevelX)
  {
  }

  // ----- wires

  /** A wire with two-valued drivers: pins and gates pull it low or high; both at once
      fight; with none it is at its pull, up is high and down is low, or floats. */
  ghost function Wire(c: Circuit, pins: seq<PinDrive>, bits: seq<bool>, n: nat): Level
    requires |pins| == |c.nodes| && |bits| == |c.gates| && n < |c.nodes|
  {
    var low := pins[n].has0 || exists g | 0 <= g < |bits| :: c.gates[g].output == n && !bits[g];
    var high := pins[n].has1 || exists g | 0 <= g < |bits| :: c.gates[g].output == n && bits[g];
    if low && high then LevelX
    else if low then Level0
    else if high then Level1
    else if c.nodes[n].pull == PullUp then Level1
    else if c.nodes[n].pull == PullDown then Level0
    else LevelX
  }

  lemma KnownDrivers(c: Circuit, pins: seq<PinDrive>, gateOut: seq<Level>, n: nat, bits: seq<bool>)
    requires |pins| == |c.nodes| && |gateOut| == |c.gates| && n < |c.nodes|
    requires Completes(bits, gateOut) && !GateDrives(c, gateOut, n, LevelX)
    ensures Wire(c, pins, bits, n) == Resolve(c, pins, gateOut, n)
  {
    assert forall g | 0 <= g < |bits| && c.gates[g].output == n :: gateOut[g] != LevelX && bits[g] == (gateOut[g] == Level1);
    assert (exists g | 0 <= g < |bits| :: c.gates[g].output == n && !bits[g]) <==> GateDrives(c, gateOut, n, Level0);
    assert (exists g | 0 <= g < |bits| :: c.gates[g].output == n && bits[g]) <==> GateDrives(c, gateOut, n, Level1);
  }

  lemma UnknownDriver(c: Circuit, pins: seq<PinDrive>, gateOut: seq<Level>, n: nat)
    requires |pins| == |c.nodes| && |gateOut| == |c.gates| && n < |c.nodes| && GateDrives(c, gateOut, n, LevelX)
    ensures Wire(c, pins, Fill(gateOut, false), n) != Level1 && Wire(c, pins, Fill(gateOut, true), n) != Level0
  {
    var g :| 0 <= g < |c.gates| && c.gates[g].output == n && gateOut[g] == LevelX;
    assert !Fill(gateOut, false)[g] && Fill(gateOut, true)[g];
  }

  /** Main result: a node is at a known level if and only if its wire is at that level
      however the unknown gate outputs turn out. */
  lemma NodeMeansWire(c: Circuit, pins: seq<PinDrive>, gateOut: seq<Level>, n: nat, v: bool)
    requires |pins| == |c.nodes| && |gateOut| == |c.gates| && n < |c.nodes|
    ensures Resolve(c, pins, gateOut, n) == Known(v) <==>
      forall bits | Completes(bits, gateOut) :: Wire(c, pins, bits, n) == Known(v)
  {
    hide Wire, Completes;
    FillCompletes(gateOut, false);
    FillCompletes(gateOut, true);
    forall bits | Completes(bits, gateOut)
      ensures |bits| == |gateOut|
      ensures !GateDrives(c, gateOut, n, LevelX) ==> Wire(c, pins, bits, n) == Resolve(c, pins, gateOut, n)
    {
      CompletionSize(bits, gateOut);
      if !GateDrives(c, gateOut, n, LevelX) {
        KnownDrivers(c, pins, gateOut, n, bits);
      }
    }
    if GateDrives(c, gateOut, n, LevelX) {
      UnknownDriver(c, pins, gateOut, n);
    }
  }

  /** A pull line means what it says: the node it names, when nothing drives it, is high
      after `up` and low after `down`, if no later line pulls it; without any pull
      line it floats at X. */
  lemma PullsMean(ds: seq<W.Directive>, c: Circuit, es: seq<Endpoint>, pins: seq<PinDrive>, gateOut: seq<Level>, n: nat)
    requires W.Parsed(ds, c.nodes, es, c.gates) && |pins| == |c.nodes| && |gateOut| == |c.gates| && n < |c.nodes|
    requires Undriven(c, pins, gateOut, n)
    ensures forall i: nat, up | i < |ds| && LastPulledAt(ds, c.nodes[n].name, i, up) :: Resolve(c, pins, gateOut, n) == Known(up)
    ensures (forall up :: W.PullLine(c.nodes[n].name, up) !in ds) ==> Resolve(c, pins, gateOut, n) == LevelX
  {
    var name := c.nodes[n].name;
    assert c.nodes[n].pull == W.LastPull(ds, name);
    W.LastPullIsALine(ds, name);
    forall i: nat, up | i < |ds| && LastPulledAt(ds, name, i, up)
      ensures Resolve(c, pins, gateOut, n) == Known(up)
    {
      LastPullStands(ds, name, i, up);
    }
  }

  /** Line i pulls the node so, and no later line pulls it. */
  predicate LastPulledAt(ds: seq<W.Directive>, name: string, i: nat, up: bool)
    requires i < |ds|
  {
    ds[i] == W.PullLine(name, up) && forall j | i < j < |ds| :: !(ds[j].PullLine? && ds[j].node == name)
  }

  lemma {:induction false} LastPullStands(ds: seq<W.Directive>, name: string, i: nat, up: bool)
    requires i < |ds| && LastPulledAt(ds, name, i, up)
    ensures W.LastPull(ds, name) == if up then PullUp else PullDown
  {
    if i < |ds| - 1 {
      LastPullStands(ds[..|ds|-1], name, i, up);
    }
  }

  // ----- sixteen passes

  /** The program's step after bind: with at most 14 gates, cyclic or not, it settles
      silently in the least solution. */
  lemma FourteenGatesSettle(c: Circuit, pins: seq<PinDrive>)
    requires Ready(c, pins) && |c.gates| <= 14
    ensures var r := StepState(c, pins, Bound(c), MAX_PASSES);
      !r.warnedOscillation && r.levels == LeastLevels(c, pins) && r.gateOut == Least(c, pins)
  {
    hide StepState;
    FirstStepFindsLeastSolution(c, pins, MAX_PASSES);
  }

  /** The program's step on an acyclic net, from any leftover state: with at most 14
      layers it settles silently in the one solution, with 15 its levels are right. */
  lemma FourteenLayersSettle(c: Circuit, pins: seq<PinDrive>, rank: seq<nat>, depth: nat, s: NetState)
    requires Ready(c, pins) && Layered(c, rank, depth) && Fits(c, s)
    ensures var r := StepState(c, pins, s, MAX_PASSES);
      && (depth <= 14 ==> Solves(c, pins, r.levels, r.gateOut) && r.warnedOscillation == s.warnedOscillation)
      && (depth <= 15 ==> r.levels == LeastLevels(c, pins))
  {
    hide StepState;
    HistoryIndependence(c, pins, rank, depth, s, MAX_PASSES);
  }

  /** And not with one layer more: at the program's limit a chain of n inverters draws
      the oscillation warning if and only if n is at least 15. */
  lemma ChainOfFifteenWarns(n: nat)
    ensures StepState(Chain(n), ChainPins(n), Bound(Chain(n)), MAX_PASSES).warnedOscillation <==> n >= 15
  {
    hide StepState;
    FalseAlarmOnLongChain(n, MAX_PASSES);
  }
}
