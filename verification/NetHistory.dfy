/** When leftover gate outputs matter. The wiring plan in docs clears the gates to X before every
    step, the program does not: here is exactly when that can be seen, and a
    latch in which it is seen. */
module NetHistory {
  import opened NetModel
  import opened NetFixpoint

  /** Every step that settles, from any leftover state, ends where clearing the
      gates would have led. */
  ghost predicate HistoryIrrelevant(c: Circuit, pins: seq<PinDrive>, limit: nat)
    requires Ready(c, pins) && limit >= 1
  {
    forall s: NetState | Fits(c, s) && !Settle(c, pins, s, limit).oscillating ::
      StepState(c, pins, s, limit).gateOut == Least(c, pins)
  }

  ghost predicate OneSolution(c: Circuit, pins: seq<PinDrive>)
    requires Ready(c, pins)
  {
    forall levels, gateOut | Solves(c, pins, levels, gateOut) :: gateOut == Least(c, pins)
  }

  /** A state that rests in a solution. */
  ghost function Resting(c: Circuit, levels: seq<Level>, gateOut: seq<Level>): (s: NetState)
    requires |levels| == |c.nodes| && |gateOut| == |c.gates|
    ensures Fits(c, s)
  {
    Bound(c).(levels := levels, gateOut := gateOut)
  }

  /** A step that settles ends in a solution. */
  lemma SettledSolves(c: Circuit, pins: seq<PinDrive>, s: NetState, limit: nat)
    requires Ready(c, pins) && Fits(c, s) && limit >= 1 && !Settle(c, pins, s, limit).oscillating
    ensures var r := StepState(c, pins, s, limit); Solves(c, pins, r.levels, r.gateOut)
  {
    SettleIterates(c, pins, s, limit);
  }

  /** Main result, any net, cyclic or not: leftover gate outputs can influence a
      settled step if and only if the equations of the current pin drives have a
      solution besides the least one. */
  lemma HistoryMattersExactly(c: Circuit, pins: seq<PinDrive>, limit: nat)
    requires Ready(c, pins) && limit >= 1
    ensures HistoryIrrelevant(c, pins, limit) <==> OneSolution(c, pins)
  {
    hide Solves, StepState, Settle, Least;
    if HistoryIrrelevant(c, pins, limit) {
      forall levels, gateOut | Solves(c, pins, levels, gateOut)
        ensures gateOut == Least(c, pins)
      {
        OtherSolutionShows(c, pins, levels, gateOut, limit);
      }
    }
    if OneSolution(c, pins) {
      forall s: NetState | Fits(c, s) && !Settle(c, pins, s, limit).oscillating
        ensures StepState(c, pins, s, limit).gateOut == Least(c, pins)
      {
        SettledSolves(c, pins, s, limit);
      }
    }
  }

  lemma OtherSolutionShows(c: Circuit, pins: seq<PinDrive>, levels: seq<Level>, gateOut: seq<Level>, limit: nat)
    requires Ready(c, pins) && limit >= 1 && Solves(c, pins, levels, gateOut)
    ensures |levels| == |c.nodes| && |gateOut| == |c.gates|
    ensures var s := Resting(c, levels, gateOut);
      !Settle(c, pins, s, limit).oscillating && StepState(c, pins, s, limit).gateOut == gateOut
  {
    hide StepState, Settle;
    var s := Resting(c, levels, gateOut);
    SettlesOnce(c, pins, s, limit);
    RestsInPlace(c, pins, s, limit);
  }

  /** A step that starts in a solution changes nothing. */
  lemma RestsInPlace(c: Circuit, pins: seq<PinDrive>, s: NetState, limit: nat)
    requires Ready(c, pins) && Fits(c, s) && limit >= 1 && Solves(c, pins, s.levels, s.gateOut)
    ensures var r := StepState(c, pins, s, limit);
      r.levels == s.levels && r.gateOut == s.gateOut && r.warnedOscillation == s.warnedOscillation
  {
    SettlesOnce(c, pins, s, limit);
    SettleIterates(c, pins, s, limit);
    LastIterate(c, pins, s);
  }

  lemma LastIterate(c: Circuit, pins: seq<PinDrive>, s: NetState)
    requires Ready(c, pins) && Fits(c, s) && Solves(c, pins, s.levels, s.gateOut)
    ensures Iterate(c, pins, s.gateOut, 0) == Iterate(c, pins, s.gateOut, 1) == s.gateOut
  {
    assert Iterate(c, pins, s.gateOut, 1) == Advance(c, pins, Iterate(c, pins, s.gateOut, 0));
  }

  ghost predicate AllKnown(xs: seq<Level>) {
    forall i | 0 <= i < |xs| :: xs[i] != LevelX
  }

  lemma KnownIsTop(xs: seq<Level>, ys: seq<Level>)
    requires AllKnown(xs) && Refines(ys, xs)
    ensures ys == xs
  {
    assert forall i | 0 <= i < |xs| :: AtMost(xs[i], ys[i]);
  }

  /** A condition read off one fresh step: if the gates, started unknown, all
      come out known, then every step of that net under these pin drives, from
      any history, settles within gates + 2 passes in that very state. */
  lemma KnownOutputsForgetHistory(c: Circuit, pins: seq<PinDrive>, s: NetState, limit: nat)
    requires Ready(c, pins) && Fits(c, s) && limit >= 1 && AllKnown(Least(c, pins))
    ensures PassesRun(c, pins, s, limit) <= |c.gates| + 2
    ensures |c.gates| + 2 <= limit ==> !Settle(c, pins, s, limit).oscillating
    ensures !Settle(c, pins, s, limit).oscillating || |c.gates| < limit ==>
      var r := StepState(c, pins, s, limit);
      r.gateOut == Least(c, pins) && r.levels == LeastLevels(c, pins)
    ensures OneSolution(c, pins)
  {
    var m := |c.gates|;
    KnownReached(c, pins, s.gateOut, m);
    KnownReached(c, pins, s.gateOut, m + 1);
    SettlesBy(c, pins, s, limit, m);
    SettleIterates(c, pins, s, limit);
    var r := Settle(c, pins, s, limit);
    if r.oscillating {
      if m < limit {
        KnownReached(c, pins, s.gateOut, limit);
        KnownReached(c, pins, s.gateOut, limit - 1);
      }
    } else {
      LeastBelow(c, pins, r.state.levels, r.state.gateOut);
      KnownIsTop(Least(c, pins), r.state.gateOut);
    }
    forall levels, gateOut | Solves(c, pins, levels, gateOut)
      ensures gateOut == Least(c, pins)
    {
      LeastBelow(c, pins, levels, gateOut);
      KnownIsTop(Least(c, pins), gateOut);
    }
  }

  lemma KnownReached(c: Circuit, pins: seq<PinDrive>, gateOut: seq<Level>, k: nat)
    requires Ready(c, pins) && |gateOut| == |c.gates| && k >= |c.gates| && AllKnown(Least(c, pins))
    ensures Iterate(c, pins, gateOut, k) == Least(c, pins)
  {
    IterateMonotone(c, pins, Unknown(|c.gates|), gateOut, k);
    LeastReached(c, pins, k);
    KnownIsTop(Least(c, pins), Iterate(c, pins, gateOut, k));
  }

  // ----- a latch

  /** Two cross-coupled NOR gates. */
  function Latch(): (c: Circuit)
    ensures c.Valid()
  {
    Circuit([Node("S", PullNone), Node("R", PullNone), Node("Q", PullNone), Node("QN", PullNone)],
            [Gate(NOR, [1, 3], 2), Gate(NOR, [0, 2], 3)])
  }

  function LatchPins(s: bool, r: bool): (pins: seq<PinDrive>)
    ensures |pins| == 4
  {
    [PinDrive(!s, s), PinDrive(!r, r), PinDrive(false, false), PinDrive(false, false)]
  }

  function Logic(high: bool): Level {
    if high then Level1 else Level0
  }

  function Nor(a: Level, b: Level): Level {
    if a == Level1 || b == Level1 then Level0 else if a == LevelX || b == LevelX then LevelX else Level1
  }

  /** One pass of the latch. */
  lemma LatchPass(s: bool, r: bool, g: seq<Level>)
    requires |g| == 2
    ensures Levels(Latch(), LatchPins(s, r), g) == [Logic(s), Logic(r), g[0], g[1]]
    ensures Advance(Latch(), LatchPins(s, r), g) == [Nor(Logic(r), g[1]), Nor(Logic(s), g[0])]
  {
    var c, pins := Latch(), LatchPins(s, r);
    var levels := Levels(c, pins, g);
    assert c.gates[0].output == 2 && c.gates[1].output == 3;
    assert forall v :: GateDrives(c, g, 2, v) <==> v == g[0];
    assert forall v :: GateDrives(c, g, 3, v) <==> v == g[1];
    assert forall n: nat | n < 4 :: levels[n] == Resolve(c, pins, g, n);
    assert levels == [Logic(s), Logic(r), g[0], g[1]];
    LatchGate(levels, 0);
    LatchGate(levels, 1);
  }

  lemma LatchGate(levels: seq<Level>, g: nat)
    requires |levels| == 4 && g < 2
    ensures Outputs(Latch(), levels)[g] == Nor(levels[1 - g], levels[3 - g])
  {
    var gate := Latch().gates[g];
    assert Outputs(Latch(), levels)[g] == GateLevel(gate, levels);
    assert levels[gate.inputs[0]] == levels[1 - g] && levels[gate.inputs[1]] == levels[3 - g];
    assert forall v :: SomeInput(gate, levels, v) <==> v == levels[1 - g] || v == levels[3 - g];
  }

  /** Setting (or resetting) a freshly bound latch. */
  lemma LatchSets(high: bool, limit: nat)
    requires limit >= 4
    ensures StepState(Latch(), LatchPins(high, !high), Bound(Latch()), limit).gateOut == [Logic(high), Logic(!high)]
  {
    var c, pins := Latch(), LatchPins(high, !high);
    FirstStepFindsLeastSolution(c, pins, limit);
    var r := StepState(c, pins, Bound(c), limit);
    LatchPass(high, !high, r.gateOut);
  }

  /** Releasing it from any state with those outputs. */
  lemma LatchHolds(high: bool, s: NetState, limit: nat)
    requires Fits(Latch(), s) && s.gateOut == [Logic(high), Logic(!high)] && limit >= 2
    ensures var r := StepState(Latch(), LatchPins(false, false), s, limit);
      && r.levels == [Level0, Level0, Logic(high), Logic(!high)] && r.gateOut == s.gateOut
      && r.warnedOscillation == s.warnedOscillation
  {
    var c, pins := Latch(), LatchPins(false, false);
    LatchPass(false, false, s.gateOut);
    assert Iterate(c, pins, s.gateOut, 0) == s.gateOut;
    assert Iterate(c, pins, s.gateOut, 1) == Advance(c, pins, s.gateOut) == s.gateOut;
    SettlesBy(c, pins, s, limit, 0);
    SettleIterates(c, pins, s, limit);
    var m := PassesRun(c, pins, s, limit);
    StableForever(c, pins, s.gateOut, 0, m);
    StableForever(c, pins, s.gateOut, 0, m - 1);
  }

  /** The need for an acyclic net is real. From bind, pulse one input of the latch
      and release it: the final level of Q is the one that was pulsed in, although
      the last step sees the same pin drives in both runs. Clearing the gates
      before that step, as the plan has it, would leave Q unknown. */
  lemma LatchRemembers(high: bool, limit: nat)
    requires limit >= 4
    ensures var c, held := Latch(), LatchPins(false, false);
      var pulsed := StepState(c, LatchPins(high, !high), Bound(c), limit);
      && StepState(c, held, pulsed, limit).levels[2] == Logic(high)
      && StepState(c, held, pulsed.(gateOut := Unknown(2)), limit).levels[2] == LevelX
  {
    var c, held := Latch(), LatchPins(false, false);
    var pulsed := StepState(c, LatchPins(high, !high), Bound(c), limit);
    LatchSets(high, limit);
    LatchHolds(high, pulsed, limit);
    var cleared := pulsed.(gateOut := Unknown(2));
    ClearedStepFindsLeast(c, held, cleared, limit);
    LatchPass(false, false, [LevelX, LevelX]);
    LeastBelow(c, held, [Level0, Level0, LevelX, LevelX], [LevelX, LevelX]);
    assert AtMost(LeastLevels(c, held)[2], LevelX);
  }
}
