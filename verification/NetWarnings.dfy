/** When the net warns, how often, and when a conflict warning is a false alarm. */
module NetWarnings {
  import opened NetModel
  import opened NetFixpoint
  import opened NetAcyclic
  import H = NetHistory

  ghost predicate HasGateSource(c: Circuit, n: nat) {
    exists g | 0 <= g < |c.gates| :: c.gates[g].output == n
  }

  /** A node floats in a pass exactly when nothing can drive it: no gate, no
      active pin driver and no pull. So it floats in every pass of a step alike. */
  lemma FloatingIsStructural(c: Circuit, pins: seq<PinDrive>, gateOut: seq<Level>, n: nat)
    requires Ready(c, pins) && |gateOut| == |c.gates| && n < |c.nodes|
    ensures FloatsInPass(c, pins, gateOut, n) <==>
      !HasGateSource(c, n) && pins[n] == PinDrive(false, false) && c.nodes[n].pull == PullNone
  {
    if HasGateSource(c, n) {
      var g :| 0 <= g < |c.gates| && c.gates[g].output == n;
      assert GateDrives(c, gateOut, n, gateOut[g]);
    }
  }

  // ----- counting warnings

  ghost function CountTrue(flags: seq<bool>, k: nat): (r: nat)
    requires k <= |flags|
    ensures r <= k
  {
    if k == 0 then 0 else CountTrue(flags, k - 1) + if flags[k-1] then 1 else 0
  }

  /** How many warnings of each kind a state has recorded. */
  ghost function Recorded(c: Circuit, s: NetState, w: Warning): (r: nat)
    requires Fits(c, s)
    ensures r <= if w == Oscillation then 1 else |c.nodes|
  {
    match w
    case ConflictOnNode => CountTrue(s.warnedConflict, |c.nodes|)
    case FloatingNode => CountTrue(s.warnedFloat, |c.nodes|)
    case Oscillation => if s.warnedOscillation then 1 else 0
  }

  /** A node warns in a pass exactly when the pass newly records it, and never
      for both reasons at once. */
  lemma NodeWarnsWhenRecorded(c: Circuit, pins: seq<PinDrive>, s: NetState, n: nat)
    requires Ready(c, pins) && Fits(c, s) && n < |c.nodes|
    ensures var conflicts, floats := PassConflicts(c, pins, s), PassFloats(c, pins, s);
      var newConflict, newFloat := conflicts[n] && !s.warnedConflict[n], floats[n] && !s.warnedFloat[n];
      && (s.warnedConflict[n] ==> conflicts[n]) && (s.warnedFloat[n] ==> floats[n])
      && !(newConflict && newFloat)
      && NodeWarnings(c, pins, s, n)
         == if newConflict then [ConflictOnNode] else if newFloat then [FloatingNode] else []
  {
  }

  lemma {:induction false} PassWarningsCounted(c: Circuit, pins: seq<PinDrive>, s: NetState, n: nat)
    requires Ready(c, pins) && Fits(c, s) && n <= |c.nodes|
    ensures var ws := multiset(PassWarnings(c, pins, s, n));
      && CountTrue(s.warnedConflict, n) + ws[ConflictOnNode] == CountTrue(PassConflicts(c, pins, s), n)
      && CountTrue(s.warnedFloat, n) + ws[FloatingNode] == CountTrue(PassFloats(c, pins, s), n)
      && ws[Oscillation] == 0
  {
    hide NodeWarnings, PassConflicts, PassFloats;
    if n != 0 {
      PassWarningsCounted(c, pins, s, n - 1);
      NodeWarnsWhenRecorded(c, pins, s, n - 1);
      assert multiset(PassWarnings(c, pins, s, n))
          == multiset(PassWarnings(c, pins, s, n - 1)) + multiset(NodeWarnings(c, pins, s, n - 1));
    }
  }

  lemma {:induction false} SettleWarningsCounted(c: Circuit, pins: seq<PinDrive>, s: NetState, left: nat)
    requires Ready(c, pins) && Fits(c, s) && left >= 1
    ensures var r := Settle(c, pins, s, left);
      && CountTrue(s.warnedConflict, |c.nodes|) + multiset(r.warnings)[ConflictOnNode]
         == CountTrue(r.state.warnedConflict, |c.nodes|)
      && CountTrue(s.warnedFloat, |c.nodes|) + multiset(r.warnings)[FloatingNode]
         == CountTrue(r.state.warnedFloat, |c.nodes|)
      && multiset(r.warnings)[Oscillation] == 0 && r.state.warnedOscillation == s.warnedOscillation
    decreases left
  {
    var t := Pass(c, pins, s);
    PassWarningsCounted(c, pins, s, |c.nodes|);
    if !Unchanged(s, t) && left != 1 {
      SettleWarningsCounted(c, pins, t, left - 1);
    }
  }

  /** A step's warnings are exactly the newly recorded ones, kind by kind. */
  lemma StepWarningsCounted(c: Circuit, pins: seq<PinDrive>, s: NetState, limit: nat, w: Warning)
    requires Ready(c, pins) && Fits(c, s) && limit >= 1
    ensures Recorded(c, s, w) + multiset(StepWarnings(c, pins, s, limit))[w]
         == Recorded(c, StepState(c, pins, s, limit), w)
  {
    SettleWarningsCounted(c, pins, s, limit);
  }

  ghost predicate AllReady(c: Circuit, drives: seq<seq<PinDrive>>) {
    forall i | 0 <= i < |drives| :: Ready(c, drives[i])
  }

  /** State and warnings of a whole run: drives[i] are the pin drives of step i. */
  ghost function RunState(c: Circuit, drives: seq<seq<PinDrive>>, s: NetState, limit: nat): (r: NetState)
    requires Fits(c, s) && limit >= 1 && AllReady(c, drives)
    ensures Fits(c, r)
  {
    if |drives| == 0 then s
    else StepState(c, drives[|drives|-1], RunState(c, drives[..|drives|-1], s, limit), limit)
  }

  ghost function RunWarnings(c: Circuit, drives: seq<seq<PinDrive>>, s: NetState, limit: nat): seq<Warning>
    requires Fits(c, s) && limit >= 1 && AllReady(c, drives)
  {
    if |drives| == 0 then []
    else
      var before := drives[..|drives|-1];
      RunWarnings(c, before, s, limit) + StepWarnings(c, drives[|drives|-1], RunState(c, before, s, limit), limit)
  }

  lemma {:induction false} RunWarningsCounted(c: Circuit, drives: seq<seq<PinDrive>>, s: NetState, limit: nat, w: Warning)
    requires Fits(c, s) && limit >= 1 && AllReady(c, drives)
    ensures Recorded(c, s, w) + multiset(RunWarnings(c, drives, s, limit))[w]
         == Recorded(c, RunState(c, drives, s, limit), w)
  {
    if |drives| != 0 {
      var before := drives[..|drives|-1];
      RunWarningsCounted(c, before, s, limit, w);
      StepWarningsCounted(c, drives[|drives|-1], RunState(c, before, s, limit), limit, w);
    }
  }

  lemma {:induction false} WarningKinds(ws: seq<Warning>)
    ensures |ws| == multiset(ws)[ConflictOnNode] + multiset(ws)[FloatingNode] + multiset(ws)[Oscillation]
  {
    if ws != [] {
      WarningKinds(ws[1..]);
      assert ws == [ws[0]] + ws[1..];
      assert multiset(ws) == multiset{ws[0]} + multiset(ws[1..]);
      match ws[0]
      case ConflictOnNode =>
      case FloatingNode =>
      case Oscillation =>
    }
  }

  /** However long a net runs, it warns at most once a node for conflict, once a
      node for floating, and once for oscillation: 2 * nodes + 1 in all. */
  lemma WarningsBounded(c: Circuit, drives: seq<seq<PinDrive>>, s: NetState, limit: nat)
    requires Fits(c, s) && limit >= 1 && AllReady(c, drives)
    ensures |RunWarnings(c, drives, s, limit)| <= 2 * |c.nodes| + 1
  {
    forall w: Warning
      ensures multiset(RunWarnings(c, drives, s, limit))[w] <= if w == Oscillation then 1 else |c.nodes|
    {
      RunWarningsCounted(c, drives, s, limit, w);
    }
    WarningKinds(RunWarnings(c, drives, s, limit));
  }

  // ----- which nodes are warned about

  /** Some of the first m passes that start from gateOut sees a conflict on n. */
  ghost predicate ConflictWithin(c: Circuit, pins: seq<PinDrive>, gateOut: seq<Level>, m: nat, n: nat)
    requires Ready(c, pins) && |gateOut| == |c.gates| && n < |c.nodes|
  {
    exists k | 0 <= k < m :: Conflict(c, pins, Iterate(c, pins, gateOut, k), n)
  }

  lemma ConflictWithinOneMore(c: Circuit, pins: seq<PinDrive>, gateOut: seq<Level>, m: nat, n: nat)
    requires Ready(c, pins) && |gateOut| == |c.gates| && n < |c.nodes|
    ensures ConflictWithin(c, pins, gateOut, m + 1, n) <==>
      Conflict(c, pins, gateOut, n) || ConflictWithin(c, pins, Advance(c, pins, gateOut), m, n)
  {
    var next := Advance(c, pins, gateOut);
    assert Iterate(c, pins, gateOut, 0) == gateOut;
    if Conflict(c, pins, gateOut, n) {
      assert Conflict(c, pins, Iterate(c, pins, gateOut, 0), n);
    }
    if k :| 0 <= k < m + 1 && Conflict(c, pins, Iterate(c, pins, gateOut, k), n) {
      if k != 0 {
        IterateAfter(c, pins, gateOut, k - 1);
        assert Conflict(c, pins, Iterate(c, pins, next, k - 1), n);
      }
    }
    if k :| 0 <= k < m && Conflict(c, pins, Iterate(c, pins, next, k), n) {
      IterateAfter(c, pins, gateOut, k);
      assert Conflict(c, pins, Iterate(c, pins, gateOut, k + 1), n);
    }
  }

  lemma PassRecords(c: Circuit, pins: seq<PinDrive>, s: NetState, n: nat)
    requires Ready(c, pins) && Fits(c, s) && n < |c.nodes|
    ensures var t := Pass(c, pins, s);
      && (t.warnedConflict[n] <==> s.warnedConflict[n] || Conflict(c, pins, s.gateOut, n))
      && (t.warnedFloat[n] <==> s.warnedFloat[n] || FloatsInPass(c, pins, s.gateOut, n))
  {
    assert PassConflicts(c, pins, s)[n] == (s.warnedConflict[n] || Conflict(c, pins, s.gateOut, n));
    assert PassFloats(c, pins, s)[n] == (s.warnedFloat[n] || FloatsInPass(c, pins, s.gateOut, n));
  }

  /** A settle loop records a conflict on n exactly when some pass it ran saw one. */
  lemma {:induction false} SettleRecords(c: Circuit, pins: seq<PinDrive>, s: NetState, left: nat, n: nat)
    requires Ready(c, pins) && Fits(c, s) && left >= 1 && n < |c.nodes|
    ensures Settle(c, pins, s, left).state.warnedConflict[n] <==>
      s.warnedConflict[n] || ConflictWithin(c, pins, s.gateOut, PassesRun(c, pins, s, left), n)
    ensures Settle(c, pins, s, left).state.warnedFloat[n] <==>
      s.warnedFloat[n] || FloatsInPass(c, pins, s.gateOut, n)
    decreases left
  {
    hide Pass, Conflict, FloatsInPass, Iterate;
    var t := Pass(c, pins, s);
    PassFacts(c, pins, s);
    PassRecords(c, pins, s, n);
    if Unchanged(s, t) || left == 1 {
      ConflictWithinOneMore(c, pins, s.gateOut, 0, n);
    } else {
      SettleRecords(c, pins, t, left - 1, n);
      ConflictWithinOneMore(c, pins, s.gateOut, PassesRun(c, pins, t, left - 1), n);
      FloatingIsStructural(c, pins, s.gateOut, n);
      FloatingIsStructural(c, pins, t.gateOut, n);
    }
  }

  /** Two opposite drivers are attached to node n: its pins drive both ways, or a
      pin and a gate drive it, or two gates do. */
  ghost predicate CanConflict(c: Circuit, pins: seq<PinDrive>, n: nat)
    requires Ready(c, pins) && n < |c.nodes|
  {
    || pins[n] == PinDrive(true, true)
    || (pins[n] != PinDrive(false, false) && HasGateSource(c, n))
    || exists g, h | 0 <= g < h < |c.gates| :: c.gates[g].output == n && c.gates[h].output == n
  }

  /** Gate outputs under which gate h puts out v and all others w. */
  function Opposed(count: nat, h: nat, v: Level, w: Level): (r: seq<Level>)
    ensures |r| == count && forall g | 0 <= g < count :: r[g] == if g == h then v else w
  {
    seq(count, g => if g == h then v else w)
  }

  lemma ConflictNeedsTwo(c: Circuit, pins: seq<PinDrive>, gateOut: seq<Level>, n: nat)
    requires Ready(c, pins) && |gateOut| == |c.gates| && n < |c.nodes|
    ensures Conflict(c, pins, gateOut, n) ==> CanConflict(c, pins, n)
  {
    if GateDrives(c, gateOut, n, Level0) && GateDrives(c, gateOut, n, Level1) {
      var g :| 0 <= g < |c.gates| && c.gates[g].output == n && gateOut[g] == Level0;
      var h :| 0 <= h < |c.gates| && c.gates[h].output == n && gateOut[h] == Level1;
      assert g != h;
      var lo, hi := if g < h then g else h, if g < h then h else g;
      assert c.gates[lo].output == n && c.gates[hi].output == n;
    }
  }

  /** Leftover gate outputs that put such drivers at odds. */
  lemma SomeLeftoverConflicts(c: Circuit, pins: seq<PinDrive>, n: nat) returns (gateOut: seq<Level>)
    requires Ready(c, pins) && n < |c.nodes| && CanConflict(c, pins, n)
    ensures |gateOut| == |c.gates| && Conflict(c, pins, gateOut, n)
  {
    if pins[n] == PinDrive(true, true) {
      gateOut := Unknown(|c.gates|);
    } else if pins[n] != PinDrive(false, false) && HasGateSource(c, n) {
      var g :| 0 <= g < |c.gates| && c.gates[g].output == n;
      gateOut := Opposed(|c.gates|, g, if pins[n].has0 then Level1 else Level0, LevelX);
      assert gateOut[g] != LevelX;
    } else {
      var g, h :| 0 <= g < h < |c.gates| && c.gates[g].output == n && c.gates[h].output == n;
      gateOut := Opposed(|c.gates|, h, Level1, Level0);
      assert gateOut[g] == Level0 && gateOut[h] == Level1;
    }
  }

  /** Main result on conflict warnings: under given pin drives, a step can newly
      record a conflict on node n, from some leftover state, if and only if two
      drivers are attached that can disagree. */
  lemma ConflictPossibleExactly(c: Circuit, pins: seq<PinDrive>, n: nat, limit: nat)
    requires Ready(c, pins) && n < |c.nodes| && limit >= 1
    ensures (exists s: NetState :: Fits(c, s) && !s.warnedConflict[n] && StepState(c, pins, s, limit).warnedConflict[n])
      <==> CanConflict(c, pins, n)
  {
    forall s: NetState | Fits(c, s) && !s.warnedConflict[n] && StepState(c, pins, s, limit).warnedConflict[n]
      ensures CanConflict(c, pins, n)
    {
      SettleRecords(c, pins, s, limit, n);
      var k :| 0 <= k < PassesRun(c, pins, s, limit) && Conflict(c, pins, Iterate(c, pins, s.gateOut, k), n);
      ConflictNeedsTwo(c, pins, Iterate(c, pins, s.gateOut, k), n);
    }
    if CanConflict(c, pins, n) {
      var gateOut := SomeLeftoverConflicts(c, pins, n);
      var s := Bound(c).(gateOut := gateOut);
      SettleRecords(c, pins, s, limit, n);
      assert Iterate(c, pins, s.gateOut, 0) == gateOut;
      assert Fits(c, s) && !s.warnedConflict[n] && StepState(c, pins, s, limit).warnedConflict[n];
    }
  }

  /** The gate outputs only gain information from pass to pass. */
  ghost predicate Rising(c: Circuit, pins: seq<PinDrive>, gateOut: seq<Level>)
    requires Ready(c, pins) && |gateOut| == |c.gates|
  {
    Refines(Advance(c, pins, gateOut), gateOut)
  }

  lemma {:induction false} RisingChain(c: Circuit, pins: seq<PinDrive>, gateOut: seq<Level>, i: nat, j: nat)
    requires Ready(c, pins) && |gateOut| == |c.gates| && Rising(c, pins, gateOut) && i <= j
    ensures Refines(Iterate(c, pins, gateOut, j), Iterate(c, pins, gateOut, i))
  {
    if i < j {
      RisingChain(c, pins, gateOut, i, j - 1);
      IterateAfter(c, pins, gateOut, j - 1);
      IterateMonotone(c, pins, gateOut, Advance(c, pins, gateOut), j - 1);
    }
  }

  /** Exactness of warnings. A step whose first pass only adds information warns
      of no conflict that its final state does not have; when it settles, the
      nodes it adds to the record are exactly those in conflict at the end. The
      floating record is exact in every step. */
  lemma RisingStepWarnsExactly(c: Circuit, pins: seq<PinDrive>, s: NetState, limit: nat, n: nat)
    requires Ready(c, pins) && Fits(c, s) && limit >= 1 && n < |c.nodes| && Rising(c, pins, s.gateOut)
    ensures var r := StepState(c, pins, s, limit);
      && (r.warnedConflict[n] ==> s.warnedConflict[n] || Conflict(c, pins, r.gateOut, n))
      && (!Settle(c, pins, s, limit).oscillating ==>
            (r.warnedConflict[n] <==> s.warnedConflict[n] || Conflict(c, pins, r.gateOut, n)))
      && (r.warnedFloat[n] <==> s.warnedFloat[n] || FloatsInPass(c, pins, r.gateOut, n))
  {
    SettleRecords(c, pins, s, limit, n);
    SettleIterates(c, pins, s, limit);
    var m := PassesRun(c, pins, s, limit);
    var r := StepState(c, pins, s, limit);
    forall k | 0 <= k < m && Conflict(c, pins, Iterate(c, pins, s.gateOut, k), n)
      ensures Conflict(c, pins, r.gateOut, n)
    {
      RisingChain(c, pins, s.gateOut, k, m);
      ResolveMonotone(c, pins, Iterate(c, pins, s.gateOut, k), r.gateOut, n);
    }
    if !Settle(c, pins, s, limit).oscillating {
      // The last pass resolved the nodes from gate outputs it then reproduced.
      LastPassStable(c, pins, s, limit);
      assert Conflict(c, pins, r.gateOut, n) ==> Conflict(c, pins, Iterate(c, pins, s.gateOut, m - 1), n);
    }
    FloatingIsStructural(c, pins, s.gateOut, n);
    FloatingIsStructural(c, pins, r.gateOut, n);
  }

  /** On the first step after bind no conflict is reported that the final state
      does not have; if the step settles, the reported nodes are exactly those in
      conflict; and floating is reported exactly of the nodes nothing drives. */
  lemma FirstStepWarnsExactly(c: Circuit, pins: seq<PinDrive>, limit: nat, n: nat)
    requires Ready(c, pins) && limit >= 1 && n < |c.nodes|
    ensures var r := StepState(c, pins, Bound(c), limit);
      && (r.warnedConflict[n] ==> Conflict(c, pins, r.gateOut, n))
      && (!r.warnedOscillation ==> (r.warnedConflict[n] <==> Conflict(c, pins, r.gateOut, n)))
      && (r.warnedFloat[n] <==> FloatsInPass(c, pins, r.gateOut, n))
  {
    assert Rising(c, pins, Bound(c).gateOut);
    RisingStepWarnsExactly(c, pins, Bound(c), limit, n);
  }

  lemma {:induction false} LastPassStable(c: Circuit, pins: seq<PinDrive>, s: NetState, left: nat)
    requires Ready(c, pins) && Fits(c, s) && left >= 1 && !Settle(c, pins, s, left).oscillating
    ensures var m := PassesRun(c, pins, s, left);
      Iterate(c, pins, s.gateOut, m - 1) == Settle(c, pins, s, left).state.gateOut
    decreases left
  {
    var t := Pass(c, pins, s);
    PassFacts(c, pins, s);
    if !Unchanged(s, t) {
      LastPassStable(c, pins, t, left - 1);
      IterateAfter(c, pins, s.gateOut, PassesRun(c, pins, t, left - 1) - 1);
    }
  }

  // ----- later steps can raise false alarms

  /** Some leftover state makes a step record a conflict on n that its final state
      does not have. */
  ghost predicate FalseAlarmPossible(c: Circuit, pins: seq<PinDrive>, n: nat, limit: nat)
    requires Ready(c, pins) && n < |c.nodes| && limit >= 1
  {
    exists s: NetState :: Fits(c, s) && !s.warnedConflict[n] &&
      var r := StepState(c, pins, s, limit); r.warnedConflict[n] && !Conflict(c, pins, r.gateOut, n)
  }

  /** Every step, whatever the leftover state, ends in the least solution. */
  ghost predicate EndsInLeast(c: Circuit, pins: seq<PinDrive>, limit: nat)
    requires Ready(c, pins) && limit >= 1
  {
    forall s: NetState | Fits(c, s) :: StepState(c, pins, s, limit).gateOut == Least(c, pins)
  }

  lemma FalseAlarmWhere(c: Circuit, pins: seq<PinDrive>, n: nat, limit: nat)
    requires Ready(c, pins) && n < |c.nodes| && limit >= 1 && EndsInLeast(c, pins, limit)
    ensures FalseAlarmPossible(c, pins, n, limit)
      <==> CanConflict(c, pins, n) && !Conflict(c, pins, Least(c, pins), n)
  {
    hide StepState, Conflict, CanConflict, Least;
    ConflictPossibleExactly(c, pins, n, limit);
    if CanConflict(c, pins, n) && !Conflict(c, pins, Least(c, pins), n) {
      var s: NetState :| Fits(c, s) && !s.warnedConflict[n] && StepState(c, pins, s, limit).warnedConflict[n];
      assert StepState(c, pins, s, limit).gateOut == Least(c, pins);
    }
  }

  /** Exactly when a false alarm can be raised, without feedback: on the nodes with
      two drivers that can disagree and do not disagree in the one solution. */
  lemma FalseAlarmExactly(c: Circuit, pins: seq<PinDrive>, rank: seq<nat>, depth: nat, n: nat, limit: nat)
    requires Ready(c, pins) && Layered(c, rank, depth) && n < |c.nodes| && depth + 2 <= limit
    ensures FalseAlarmPossible(c, pins, n, limit)
      <==> CanConflict(c, pins, n) && !Conflict(c, pins, Least(c, pins), n)
  {
    forall s: NetState | Fits(c, s)
      ensures StepState(c, pins, s, limit).gateOut == Least(c, pins)
    {
      HistoryIndependence(c, pins, rank, depth, s, limit);
      var r := StepState(c, pins, s, limit);
      UniqueSolution(c, pins, rank, depth, r.levels, r.gateOut);
    }
    FalseAlarmWhere(c, pins, n, limit);
  }

  /** And with feedback, whenever one fresh step finds all gates known. */
  lemma FalseAlarmExactlyWhenKnown(c: Circuit, pins: seq<PinDrive>, n: nat, limit: nat)
    requires Ready(c, pins) && H.AllKnown(Least(c, pins)) && n < |c.nodes| && |c.gates| < limit
    ensures FalseAlarmPossible(c, pins, n, limit)
      <==> CanConflict(c, pins, n) && !Conflict(c, pins, Least(c, pins), n)
  {
    forall s: NetState | Fits(c, s)
      ensures StepState(c, pins, s, limit).gateOut == Least(c, pins)
    {
      H.KnownOutputsForgetHistory(c, pins, s, limit);
    }
    FalseAlarmWhere(c, pins, n, limit);
  }

  /** Node 0 reaches node 2 directly and through node 1: a static hazard. */
  function Hazard(): (c: Circuit)
    ensures c.Valid()
  {
    Circuit([Node("A", PullNone), Node("B", PullNone), Node("Y", PullNone)],
            [Gate(BUF, [0], 1), Gate(BUF, [0], 2), Gate(BUF, [1], 2)])
  }

  function HazardPins(high: bool): (pins: seq<PinDrive>)
    ensures |pins| == 3
  {
    [PinDrive(!high, high), PinDrive(false, false), PinDrive(false, false)]
  }

  /** One pass of the hazard net. */
  lemma HazardPass(high: bool, g: seq<Level>)
    requires |g| == 3
    ensures var next := Advance(Hazard(), HazardPins(high), g);
      var a := if high then Level1 else Level0;
      next[0] == a && next[1] == a && next[2] == g[0]
    ensures Conflict(Hazard(), HazardPins(high), g, 2) <==>
      (g[1] == Level0 && g[2] == Level1) || (g[1] == Level1 && g[2] == Level0)
  {
    var c, pins := Hazard(), HazardPins(high);
    var levels := Levels(c, pins, g);
    assert levels[0] == Resolve(c, pins, g, 0);
    assert levels[1] == Resolve(c, pins, g, 1);
    assert c.gates[0].output == 1 && c.gates[1].output == 2 && c.gates[2].output == 2;
    assert forall i | 0 <= i < 3 :: Advance(c, pins, g)[i] == GateLevel(c.gates[i], levels);
    assert levels[1] == g[0];
  }

  /** The first two passes after A went from low to high disagree about Y. */
  lemma HazardGlitches(g: seq<Level>)
    requires |g| == 3 && Advance(Hazard(), HazardPins(false), g) == g
    ensures Advance(Hazard(), HazardPins(true), g) != g
    ensures ConflictWithin(Hazard(), HazardPins(true), g, 2, 2)
  {
    var c, pins := Hazard(), HazardPins(true);
    HazardPass(false, g);
    HazardPass(true, g);
    HazardPass(true, Advance(c, pins, g));
    ConflictWithinOneMore(c, pins, g, 1, 2);
    ConflictWithinOneMore(c, pins, Advance(c, pins, g), 0, 2);
  }

  lemma HazardSettles(s: NetState, limit: nat)
    requires Fits(Hazard(), s) && limit >= 4
    ensures var r := StepState(Hazard(), HazardPins(true), s, limit);
      && r.warnedOscillation == s.warnedOscillation
      && !Conflict(Hazard(), HazardPins(true), r.gateOut, 2) && r.levels[2] == Level1
  {
    var c, pins := Hazard(), HazardPins(true);
    HistoryIndependence(c, pins, [0, 1, 1], 2, s, limit);
    var r := StepState(c, pins, s, limit);
    HazardPass(true, r.gateOut);
    assert r.levels[2] == Resolve(c, pins, r.gateOut, 2);
    assert c.gates[1].output == c.gates[2].output == 2;
  }

  /** Two steps from bind, A low and then A high. The first is silent about Y and
      settles; the second records a conflict on Y although Y ends at a clean 1.
      So beyond the first step a conflict warning can be a false alarm. */
  lemma TransientConflictAlarm(limit: nat)
    requires limit >= 5
    ensures var c := Hazard();
      var low := StepState(c, HazardPins(false), Bound(c), limit);
      var r := StepState(c, HazardPins(true), low, limit);
      && !low.warnedConflict[2] && !r.warnedOscillation
      && r.warnedConflict[2] && !Conflict(c, HazardPins(true), r.gateOut, 2) && r.levels[2] == Level1
  {
    var c, pins := Hazard(), HazardPins(true);
    var s := StepState(c, HazardPins(false), Bound(c), limit);
    FirstStepFindsLeastSolution(c, HazardPins(false), limit);
    FirstStepWarnsExactly(c, HazardPins(false), limit, 2);
    HazardPass(false, s.gateOut);
    HazardGlitches(s.gateOut);
    HazardSettles(s, limit);
    SettleRecords(c, pins, s, limit, 2);
    PassFacts(c, pins, s);
  }
}
