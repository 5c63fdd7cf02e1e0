/** Fixpoint theory of the settle loop. Levels are ordered by information
    (LevelX below Level0 and Level1); both halves of a pass are monotone, so the
    passes climb towards the least solution of the node and gate equations. */
module NetFixpoint {
  import opened NetModel

  predicate AtMost(a: Level, b: Level) {
    a == LevelX || a == b
  }

  /** ys says everything xs says, and agrees with it. */
  ghost predicate Refines(ys: seq<Level>, xs: seq<Level>) {
    |xs| == |ys| && forall i | 0 <= i < |xs| :: AtMost(xs[i], ys[i])
  }

  ghost predicate Ready(c: Circuit, pins: seq<PinDrive>) {
    c.Valid() && |pins| == |c.nodes|
  }

  // ----- monotonicity of the two halves of a pass

  lemma InputsMonotone(gate: Gate, lo: seq<Level>, hi: seq<Level>, v: Level)
    requires Refines(hi, lo) && forall i | 0 <= i < |gate.inputs| :: gate.inputs[i] < |lo|
    ensures v != LevelX && SomeInput(gate, lo, v) ==> SomeInput(gate, hi, v)
    ensures SomeInput(gate, hi, v) ==> SomeInput(gate, lo, v) || SomeInput(gate, lo, LevelX)
  {
    if v != LevelX && SomeInput(gate, lo, v) {
      var i :| 0 <= i < |gate.inputs| && lo[gate.inputs[i]] == v;
      assert hi[gate.inputs[i]] == v;
    }
    if SomeInput(gate, hi, v) {
      var i :| 0 <= i < |gate.inputs| && hi[gate.inputs[i]] == v;
      assert AtMost(lo[gate.inputs[i]], hi[gate.inputs[i]]);
    }
  }

  lemma GateMonotone(gate: Gate, lo: seq<Level>, hi: seq<Level>)
    requires Refines(hi, lo) && forall i | 0 <= i < |gate.inputs| :: gate.inputs[i] < |lo|
    ensures AtMost(GateLevel(gate, lo), GateLevel(gate, hi))
  {
    InputsMonotone(gate, lo, hi, Level0);
    InputsMonotone(gate, lo, hi, Level1);
    InputsMonotone(gate, lo, hi, LevelX);
  }

  /** Where no gate driver of n is unknown, refining the gates changes no driver. */
  lemma DriversMonotone(c: Circuit, lo: seq<Level>, hi: seq<Level>, n: nat, v: Level)
    requires |lo| == |c.gates| && Refines(hi, lo)
    ensures v != LevelX && GateDrives(c, lo, n, v) ==> GateDrives(c, hi, n, v)
    ensures GateDrives(c, hi, n, v) ==> GateDrives(c, lo, n, v) || GateDrives(c, lo, n, LevelX)
  {
    if v != LevelX && GateDrives(c, lo, n, v) {
      var g :| 0 <= g < |c.gates| && c.gates[g].output == n && lo[g] == v;
      assert hi[g] == v;
    }
    if GateDrives(c, hi, n, v) {
      var g :| 0 <= g < |c.gates| && c.gates[g].output == n && hi[g] == v;
      assert AtMost(lo[g], hi[g]);
    }
  }

  /** A conflict, once present, survives every refinement of the gates. */
  lemma ResolveMonotone(c: Circuit, pins: seq<PinDrive>, lo: seq<Level>, hi: seq<Level>, n: nat)
    requires Ready(c, pins) && |lo| == |c.gates| && Refines(hi, lo) && n < |c.nodes|
    ensures AtMost(Resolve(c, pins, lo, n), Resolve(c, pins, hi, n))
    ensures Conflict(c, pins, lo, n) ==> Conflict(c, pins, hi, n)
  {
    DriversMonotone(c, lo, hi, n, Level0);
    DriversMonotone(c, lo, hi, n, Level1);
    DriversMonotone(c, lo, hi, n, LevelX);
  }

  lemma LevelsMonotone(c: Circuit, pins: seq<PinDrive>, lo: seq<Level>, hi: seq<Level>)
    requires Ready(c, pins) && |lo| == |c.gates| && Refines(hi, lo)
    ensures Refines(Levels(c, pins, hi), Levels(c, pins, lo))
  {
    forall n | 0 <= n < |c.nodes|
      ensures AtMost(Levels(c, pins, lo)[n], Levels(c, pins, hi)[n])
    {
      ResolveMonotone(c, pins, lo, hi, n);
    }
  }

  lemma AdvanceMonotone(c: Circuit, pins: seq<PinDrive>, lo: seq<Level>, hi: seq<Level>)
    requires Ready(c, pins) && |lo| == |c.gates| && Refines(hi, lo)
    ensures Refines(Advance(c, pins, hi), Advance(c, pins, lo))
  {
    LevelsMonotone(c, pins, lo, hi);
    forall g | 0 <= g < |c.gates|
      ensures AtMost(Advance(c, pins, lo)[g], Advance(c, pins, hi)[g])
    {
      GateMonotone(c.gates[g], Levels(c, pins, lo), Levels(c, pins, hi));
    }
  }

  // ----- iteration and the least solution

  /** The gate outputs after k passes that start from gateOut. */
  ghost function Iterate(c: Circuit, pins: seq<PinDrive>, gateOut: seq<Level>, k: nat): (r: seq<Level>)
    requires Ready(c, pins) && |gateOut| == |c.gates|
    ensures |r| == |c.gates|
  {
    if k == 0 then gateOut else Advance(c, pins, Iterate(c, pins, gateOut, k - 1))
  }

  lemma {:induction false} IterateAfter(c: Circuit, pins: seq<PinDrive>, gateOut: seq<Level>, k: nat)
    requires Ready(c, pins) && |gateOut| == |c.gates|
    ensures Iterate(c, pins, Advance(c, pins, gateOut), k) == Iterate(c, pins, gateOut, k + 1)
  {
    if k != 0 {
      IterateAfter(c, pins, gateOut, k - 1);
    }
  }

  lemma {:induction false} IterateMonotone(c: Circuit, pins: seq<PinDrive>, lo: seq<Level>, hi: seq<Level>, k: nat)
    requires Ready(c, pins) && |lo| == |c.gates| && Refines(hi, lo)
    ensures Refines(Iterate(c, pins, hi, k), Iterate(c, pins, lo, k))
  {
    if k != 0 {
      IterateMonotone(c, pins, lo, hi, k - 1);
      AdvanceMonotone(c, pins, Iterate(c, pins, lo, k - 1), Iterate(c, pins, hi, k - 1));
    }
  }

  ghost function FromUnknown(c: Circuit, pins: seq<PinDrive>, k: nat): (r: seq<Level>)
    requires Ready(c, pins)
    ensures |r| == |c.gates|
  {
    Iterate(c, pins, Unknown(|c.gates|), k)
  }

  /** From all-X every pass only adds information. */
  lemma {:induction false} Ascending(c: Circuit, pins: seq<PinDrive>, k: nat)
    requires Ready(c, pins)
    ensures Refines(FromUnknown(c, pins, k + 1), FromUnknown(c, pins, k))
  {
    if k != 0 {
      Ascending(c, pins, k - 1);
      AdvanceMonotone(c, pins, FromUnknown(c, pins, k - 1), FromUnknown(c, pins, k));
    }
  }

  lemma {:induction false} AscendingChain(c: Circuit, pins: seq<PinDrive>, i: nat, j: nat)
    requires Ready(c, pins) && i <= j
    ensures Refines(FromUnknown(c, pins, j), FromUnknown(c, pins, i))
    decreases j - i
  {
    if i < j {
      AscendingChain(c, pins, i, j - 1);
      Ascending(c, pins, j - 1);
    }
  }

  ghost function Known(xs: seq<Level>): (r: nat)
    ensures r <= |xs|
  {
    if xs == [] then 0 else (if xs[0] == LevelX then 0 else 1) + Known(xs[1..])
  }

  lemma {:induction false} KnownGrows(xs: seq<Level>, ys: seq<Level>)
    requires Refines(ys, xs)
    ensures Known(xs) <= Known(ys)
    ensures xs != ys ==> Known(xs) < Known(ys)
  {
    if xs != [] {
      KnownGrows(xs[1..], ys[1..]);
      assert AtMost(xs[0], ys[0]);
      assert xs == [xs[0]] + xs[1..] && ys == [ys[0]] + ys[1..];
    }
  }

  lemma {:induction false} StableForever(c: Circuit, pins: seq<PinDrive>, gateOut: seq<Level>, i: nat, j: nat)
    requires Ready(c, pins) && |gateOut| == |c.gates| && i <= j
    requires Iterate(c, pins, gateOut, i + 1) == Iterate(c, pins, gateOut, i)
    ensures Iterate(c, pins, gateOut, j) == Iterate(c, pins, gateOut, i)
    ensures Iterate(c, pins, gateOut, j + 1) == Iterate(c, pins, gateOut, j)
    decreases j - i
  {
    if i < j {
      StableForever(c, pins, gateOut, i, j - 1);
    }
  }

  /** After k passes from all-X either the gates have stopped changing or k of
      them are known. */
  lemma {:induction false} StableOrKnown(c: Circuit, pins: seq<PinDrive>, k: nat)
    requires Ready(c, pins)
    ensures FromUnknown(c, pins, k + 1) == FromUnknown(c, pins, k) || Known(FromUnknown(c, pins, k)) >= k
  {
    if k != 0 {
      StableOrKnown(c, pins, k - 1);
      if FromUnknown(c, pins, k) == FromUnknown(c, pins, k - 1) {
        StableForever(c, pins, Unknown(|c.gates|), k - 1, k);
      } else {
        Ascending(c, pins, k - 1);
        KnownGrows(FromUnknown(c, pins, k - 1), FromUnknown(c, pins, k));
      }
    }
  }

  /** The passes from all-X stop changing the gates after at most one pass a gate. */
  lemma StableWithinGates(c: Circuit, pins: seq<PinDrive>)
    requires Ready(c, pins)
    ensures FromUnknown(c, pins, |c.gates| + 1) == FromUnknown(c, pins, |c.gates|)
  {
    var m := |c.gates|;
    StableOrKnown(c, pins, m);
    Ascending(c, pins, m);
    KnownGrows(FromUnknown(c, pins, m), FromUnknown(c, pins, m + 1));
  }

  /** The least gate outputs: what all-X settles to. */
  ghost function Least(c: Circuit, pins: seq<PinDrive>): (r: seq<Level>)
    requires Ready(c, pins)
    ensures |r| == |c.gates|
  {
    FromUnknown(c, pins, |c.gates|)
  }

  ghost function LeastLevels(c: Circuit, pins: seq<PinDrive>): (r: seq<Level>)
    requires Ready(c, pins)
    ensures |r| == |c.nodes|
  {
    Levels(c, pins, Least(c, pins))
  }

  lemma LeastReached(c: Circuit, pins: seq<PinDrive>, k: nat)
    requires Ready(c, pins) && k >= |c.gates|
    ensures FromUnknown(c, pins, k) == Least(c, pins)
  {
    StableWithinGates(c, pins);
    StableForever(c, pins, Unknown(|c.gates|), |c.gates|, k);
  }

  /** The limit of the chain solves all node and gate equations at once. */
  lemma LeastSolves(c: Circuit, pins: seq<PinDrive>)
    requires Ready(c, pins)
    ensures Solves(c, pins, LeastLevels(c, pins), Least(c, pins))
  {
    StableWithinGates(c, pins);
  }

  /** Every solution refines it. */
  lemma LeastBelow(c: Circuit, pins: seq<PinDrive>, levels: seq<Level>, gateOut: seq<Level>)
    requires Ready(c, pins) && Solves(c, pins, levels, gateOut)
    ensures Refines(gateOut, Least(c, pins)) && Refines(levels, LeastLevels(c, pins))
  {
    StableForever(c, pins, gateOut, 0, |c.gates|);
    IterateMonotone(c, pins, Unknown(|c.gates|), gateOut, |c.gates|);
    LevelsMonotone(c, pins, Least(c, pins), gateOut);
  }

  // ----- what the bounded settle loop computes

  /** How many passes the settle loop runs. */
  ghost function PassesRun(c: Circuit, pins: seq<PinDrive>, s: NetState, left: nat): (r: nat)
    requires Ready(c, pins) && Fits(c, s) && left >= 1
    ensures 1 <= r <= left
    decreases left
  {
    var t := Pass(c, pins, s);
    if Unchanged(s, t) || left == 1 then 1 else 1 + PassesRun(c, pins, t, left - 1)
  }

  lemma PassFacts(c: Circuit, pins: seq<PinDrive>, s: NetState)
    requires Ready(c, pins) && Fits(c, s)
    ensures var t := Pass(c, pins, s);
      && t.gateOut == Advance(c, pins, s.gateOut) && t.levels == Levels(c, pins, s.gateOut)
      && (t.gateOut == s.gateOut ==> Solves(c, pins, t.levels, t.gateOut))
  {
  }

  /** The loop leaves the iterate of its last pass; leaving it by the break
      means that pass found a simultaneous solution. */
  lemma {:induction false} SettleIterates(c: Circuit, pins: seq<PinDrive>, s: NetState, left: nat)
    requires Ready(c, pins) && Fits(c, s) && left >= 1
    ensures var m := PassesRun(c, pins, s, left); var r := Settle(c, pins, s, left);
      && r.state.gateOut == Iterate(c, pins, s.gateOut, m)
      && r.state.levels == Levels(c, pins, Iterate(c, pins, s.gateOut, m - 1))
      && (!r.oscillating ==> Solves(c, pins, r.state.levels, r.state.gateOut))
      && (r.oscillating ==> m == left)
    decreases left
  {
    var t := Pass(c, pins, s);
    PassFacts(c, pins, s);
    if !Unchanged(s, t) && left != 1 {
      SettleIterates(c, pins, t, left - 1);
      var m := PassesRun(c, pins, t, left - 1);
      IterateAfter(c, pins, s.gateOut, m);
      IterateAfter(c, pins, s.gateOut, m - 1);
    }
  }

  /** If the gates stand still after k passes, two passes more end the loop. */
  lemma {:induction false} SettlesBy(c: Circuit, pins: seq<PinDrive>, s: NetState, left: nat, k: nat)
    requires Ready(c, pins) && Fits(c, s) && left >= 1
    requires Iterate(c, pins, s.gateOut, k + 1) == Iterate(c, pins, s.gateOut, k)
    ensures PassesRun(c, pins, s, left) <= k + 2
    ensures k + 2 <= left ==> !Settle(c, pins, s, left).oscillating
    decreases left
  {
    var t := Pass(c, pins, s);
    PassFacts(c, pins, s);
    if !Unchanged(s, t) && left != 1 {
      if k != 0 {
        IterateAfter(c, pins, s.gateOut, k);
        IterateAfter(c, pins, s.gateOut, k - 1);
        SettlesBy(c, pins, t, left - 1, k - 1);
      } else {
        assert Iterate(c, pins, s.gateOut, 1) == Advance(c, pins, Iterate(c, pins, s.gateOut, 0));
        SettlesOnce(c, pins, t, left - 1);
      }
    }
  }

  lemma SettlesOnce(c: Circuit, pins: seq<PinDrive>, s: NetState, left: nat)
    requires Ready(c, pins) && Fits(c, s) && left >= 1
    requires Solves(c, pins, s.levels, s.gateOut)
    ensures PassesRun(c, pins, s, left) == 1
    ensures !Settle(c, pins, s, left).oscillating
  {
    assert Unchanged(s, Pass(c, pins, s));
  }

  // ----- main results on nets with any wiring, cyclic ones included

  /** A step whose gates start unknown, as in the first step after bind. The loop
      runs at most gates + 2 passes and settles when the limit allows that many.
      Whenever it settles, it finds exactly the least solution; when it is cut
      off, every 0 or 1 it has found is one of the least solution. */
  lemma ClearedStepFindsLeast(c: Circuit, pins: seq<PinDrive>, s: NetState, limit: nat)
    requires Ready(c, pins) && Fits(c, s) && s.gateOut == Unknown(|c.gates|) && limit >= 1
    ensures PassesRun(c, pins, s, limit) <= |c.gates| + 2
    ensures |c.gates| + 2 <= limit ==> !Settle(c, pins, s, limit).oscillating
    ensures var r := StepState(c, pins, s, limit);
      && (!Settle(c, pins, s, limit).oscillating ==>
            Solves(c, pins, r.levels, r.gateOut) && r.gateOut == Least(c, pins) && r.levels == LeastLevels(c, pins))
      && Refines(Least(c, pins), r.gateOut) && Refines(LeastLevels(c, pins), r.levels)
  {
    StableWithinGates(c, pins);
    SettlesBy(c, pins, s, limit, |c.gates|);
    SettleIterates(c, pins, s, limit);
    var m := PassesRun(c, pins, s, limit);
    BelowLeast(c, pins, m);
    BelowLeast(c, pins, m - 1);
    LevelsMonotone(c, pins, FromUnknown(c, pins, m - 1), Least(c, pins));
    var r := Settle(c, pins, s, limit);
    if !r.oscillating {
      LeastBelow(c, pins, r.state.levels, r.state.gateOut);
      RefinesAntisymmetric(r.state.gateOut, Least(c, pins));
    }
  }

  lemma BelowLeast(c: Circuit, pins: seq<PinDrive>, k: nat)
    requires Ready(c, pins)
    ensures Refines(Least(c, pins), FromUnknown(c, pins, k))
  {
    if k <= |c.gates| {
      AscendingChain(c, pins, k, |c.gates|);
    } else {
      LeastReached(c, pins, k);
      AscendingChain(c, pins, k, k);
    }
  }

  /** Main result: the first step after bind. */
  lemma FirstStepFindsLeastSolution(c: Circuit, pins: seq<PinDrive>, limit: nat)
    requires Ready(c, pins) && limit >= 1
    ensures PassesRun(c, pins, Bound(c), limit) <= |c.gates| + 2
    ensures |c.gates| + 2 <= limit ==> !StepState(c, pins, Bound(c), limit).warnedOscillation
    ensures var r := StepState(c, pins, Bound(c), limit);
      && (!r.warnedOscillation ==>
            Solves(c, pins, r.levels, r.gateOut) && r.gateOut == Least(c, pins) && r.levels == LeastLevels(c, pins))
      && Refines(Least(c, pins), r.gateOut) && Refines(LeastLevels(c, pins), r.levels)
  {
    ClearedStepFindsLeast(c, pins, Bound(c), limit);
  }

  lemma RefinesAntisymmetric(xs: seq<Level>, ys: seq<Level>)
    requires Refines(xs, ys) && Refines(ys, xs)
    ensures xs == ys
  {
    assert forall i | 0 <= i < |xs| :: AtMost(xs[i], ys[i]) && AtMost(ys[i], xs[i]);
  }

  /** Any net, any history: a step that settles ends in a simultaneous solution
      of this step's equations, and that solution refines the least one. */
  lemma SettledStepRefinesLeast(c: Circuit, pins: seq<PinDrive>, s: NetState, limit: nat)
    requires Ready(c, pins) && Fits(c, s) && limit >= 1
    requires !Settle(c, pins, s, limit).oscillating
    ensures var r := StepState(c, pins, s, limit);
      && Solves(c, pins, r.levels, r.gateOut)
      && Refines(r.gateOut, Least(c, pins)) && Refines(r.levels, LeastLevels(c, pins))
  {
    SettleIterates(c, pins, s, limit);
    var r := Settle(c, pins, s, limit).state;
    LeastBelow(c, pins, r.levels, r.gateOut);
  }

  /** With fewer gates than the limit even a step that oscillates never
      contradicts a level that all-X would have settled to, whatever came before. */
  lemma NoStepContradictsLeast(c: Circuit, pins: seq<PinDrive>, s: NetState, limit: nat)
    requires Ready(c, pins) && Fits(c, s) && |c.gates| < limit
    ensures Refines(StepState(c, pins, s, limit).levels, LeastLevels(c, pins))
  {
    SettleIterates(c, pins, s, limit);
    if Settle(c, pins, s, limit).oscillating {
      var k := limit - 1;
      IterateMonotone(c, pins, Unknown(|c.gates|), s.gateOut, k);
      LeastReached(c, pins, k);
      LevelsMonotone(c, pins, Least(c, pins), Iterate(c, pins, s.gateOut, k));
    } else {
      SettledStepRefinesLeast(c, pins, s, limit);
    }
  }
}
