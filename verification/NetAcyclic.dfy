/** Nets without feedback. Gate outputs persist from step to step in the
    program; here that is shown to have no effect on an acyclic net, and the
    limit on passes is shown to be tight. */
module NetAcyclic {
  import opened NetModel
  import opened NetFixpoint
  import W = NetNames

  /** Gate h drives one of gate g's input nodes. */
  ghost predicate Feeds(c: Circuit, h: nat, g: nat)
    requires h < |c.gates| && g < |c.gates|
  {
    c.gates[h].output in c.gates[g].inputs
  }

  /** rank orders the gates so that signals only climb, in `depth` layers. */
  ghost predicate Layered(c: Circuit, rank: seq<nat>, depth: nat) {
    && |rank| == |c.gates|
    && (forall g | 0 <= g < |rank| :: rank[g] < depth)
    && (forall h, g | 0 <= h < |c.gates| && 0 <= g < |c.gates| && Feeds(c, h, g) :: rank[h] < rank[g])
  }

  // ----- acyclic means layered

  /** Each gate of the path feeds the next. */
  ghost predicate Path(c: Circuit, p: seq<nat>) {
    && (forall i | 0 <= i < |p| :: p[i] < |c.gates|)
    && forall i | 0 <= i < |p| - 1 :: Linked(c, p, i)
  }

  ghost predicate Linked(c: Circuit, p: seq<nat>, i: nat)
    requires i + 1 < |p|
  {
    p[i] < |c.gates| && p[i + 1] < |c.gates| && Feeds(c, p[i], p[i + 1])
  }

  /** No gate reaches itself. */
  ghost predicate Acyclic(c: Circuit) {
    forall p: seq<nat> | Path(c, p) && |p| > 1 :: p[0] != p[|p|-1]
  }

  lemma SubPath(c: Circuit, p: seq<nat>, i: nat, j: nat)
    requires Path(c, p) && i < j < |p|
    ensures Path(c, p[i..j + 1])
  {
    var q := p[i..j + 1];
    forall k | 0 <= k < |q| - 1
      ensures Linked(c, q, k)
    {
      assert Linked(c, p, i + k);
    }
  }

  /** Distinct numbers below n are at most n. */
  lemma {:induction false} Pigeonhole(p: seq<nat>, n: nat)
    requires forall i | 0 <= i < |p| :: p[i] < n
    requires forall i, j | 0 <= i < j < |p| :: p[i] != p[j]
    ensures |p| <= n
  {
    if |p| != 0 {
      assert p[0] < n;
      if i :| 0 <= i < |p| && p[i] == n - 1 {
        Pigeonhole(p[..i] + p[i + 1..], n - 1);
      } else {
        Pigeonhole(p, n - 1);
      }
    }
  }

  lemma PathsAreShort(c: Circuit, p: seq<nat>)
    requires Acyclic(c) && Path(c, p)
    ensures |p| <= |c.gates|
  {
    forall i, j | 0 <= i < j < |p|
      ensures p[i] != p[j]
    {
      SubPath(c, p, i, j);
      assert p[i..j + 1][0] == p[i] && p[i..j + 1][j - i] == p[j];
    }
    Pigeonhole(p, |c.gates|);
  }

  /** A path of k + 1 gates ends at gate g. */
  ghost predicate PathTo(c: Circuit, g: nat, k: nat) {
    exists p: seq<nat> :: Path(c, p) && |p| == k + 1 && p[k] == g
  }

  /** The layer of a gate: the length of the longest path to it. */
  ghost function LayerBelow(c: Circuit, g: nat, bound: nat): (k: nat)
    ensures k <= bound
    ensures k > 0 ==> PathTo(c, g, k)
    ensures forall m | 0 < m <= bound && PathTo(c, g, m) :: m <= k
  {
    if bound == 0 || PathTo(c, g, bound) then bound else LayerBelow(c, g, bound - 1)
  }

  lemma PathGoesOn(c: Circuit, h: nat, g: nat, k: nat)
    requires h < |c.gates| && g < |c.gates| && Feeds(c, h, g) && PathTo(c, h, k)
    ensures PathTo(c, g, k + 1)
  {
    var p :| Path(c, p) && |p| == k + 1 && p[k] == h;
    var q := p + [g];
    forall i | 0 <= i < |q| - 1
      ensures Linked(c, q, i)
    {
      if i < k {
        assert Linked(c, p, i);
      }
    }
    assert Path(c, q) && |q| == k + 2 && q[k + 1] == g;
  }

  lemma PathOfOne(c: Circuit, g: nat)
    requires g < |c.gates|
    ensures PathTo(c, g, 0)
  {
    assert Path(c, [g]) && [g][0] == g;
  }

  ghost function Layers(c: Circuit): (rank: seq<nat>)
    ensures |rank| == |c.gates| && forall g | 0 <= g < |c.gates| :: rank[g] == LayerBelow(c, g, |c.gates|)
  {
    seq(|c.gates|, g requires 0 <= g < |c.gates| => LayerBelow(c, g, |c.gates|))
  }

  /** A net in which no gate reaches itself has at most as many layers as gates. */
  lemma AcyclicIsLayered(c: Circuit)
    requires Acyclic(c)
    ensures Layered(c, Layers(c), |c.gates|)
  {
    var rank, n := Layers(c), |c.gates|;
    forall g | 0 <= g < n
      ensures rank[g] < n
    {
      if rank[g] > 0 {
        var p :| Path(c, p) && |p| == rank[g] + 1 && p[rank[g]] == g;
        PathsAreShort(c, p);
      }
    }
    forall h, g | 0 <= h < n && 0 <= g < n && Feeds(c, h, g)
      ensures rank[h] < rank[g]
    {
      if rank[h] == 0 {
        PathOfOne(c, h);
      }
      PathGoesOn(c, h, g, rank[h]);
      assert PathTo(c, g, rank[h] + 1);
    }
  }

  /** And only such a net has layers. */
  lemma LayeredIsAcyclic(c: Circuit, rank: seq<nat>, depth: nat)
    requires Layered(c, rank, depth)
    ensures Acyclic(c)
  {
    forall p: seq<nat> | Path(c, p) && |p| > 1
      ensures p[0] != p[|p|-1]
    {
      RankClimbs(c, rank, depth, p, |p| - 1);
    }
  }

  lemma {:induction false} RankClimbs(c: Circuit, rank: seq<nat>, depth: nat, p: seq<nat>, i: nat)
    requires Layered(c, rank, depth) && Path(c, p) && 0 < i < |p|
    ensures rank[p[0]] < rank[p[i]]
  {
    assert Linked(c, p, i - 1);
    if i > 1 {
      RankClimbs(c, rank, depth, p, i - 1);
    }
  }

  lemma SameInputsSameGate(gate: Gate, a: seq<Level>, b: seq<Level>)
    requires |a| == |b| && forall i | 0 <= i < |gate.inputs| :: gate.inputs[i] < |a|
    requires forall i | 0 <= i < |gate.inputs| :: a[gate.inputs[i]] == b[gate.inputs[i]]
    ensures GateLevel(gate, a) == GateLevel(gate, b)
  {
    assert forall v :: SomeInput(gate, a, v) == SomeInput(gate, b, v);
  }

  lemma SameDriversSameNode(c: Circuit, pins: seq<PinDrive>, a: seq<Level>, b: seq<Level>, n: nat)
    requires Ready(c, pins) && |a| == |b| == |c.gates| && n < |c.nodes|
    requires forall h | 0 <= h < |c.gates| && c.gates[h].output == n :: a[h] == b[h]
    ensures Resolve(c, pins, a, n) == Resolve(c, pins, b, n)
  {
    assert forall v :: GateDrives(c, a, n, v) == GateDrives(c, b, n, v);
  }

  ghost predicate AgreeBelow(a: seq<Level>, b: seq<Level>, rank: seq<nat>, k: nat) {
    |a| == |b| == |rank| && forall g | 0 <= g < |rank| && rank[g] < k :: a[g] == b[g]
  }

  lemma AgreeOneMore(c: Circuit, pins: seq<PinDrive>, rank: seq<nat>, depth: nat, a: seq<Level>, b: seq<Level>, k: nat)
    requires Ready(c, pins) && Layered(c, rank, depth) && AgreeBelow(a, b, rank, k)
    ensures AgreeBelow(Advance(c, pins, a), Advance(c, pins, b), rank, k + 1)
  {
    var la, lb := Levels(c, pins, a), Levels(c, pins, b);
    forall g | 0 <= g < |rank| && rank[g] < k + 1
      ensures Advance(c, pins, a)[g] == Advance(c, pins, b)[g]
    {
      forall i | 0 <= i < |c.gates[g].inputs|
        ensures la[c.gates[g].inputs[i]] == lb[c.gates[g].inputs[i]]
      {
        var n := c.gates[g].inputs[i];
        assert forall h | 0 <= h < |c.gates| && c.gates[h].output == n :: Feeds(c, h, g);
        SameDriversSameNode(c, pins, a, b, n);
      }
      SameInputsSameGate(c.gates[g], la, lb);
    }
  }

  /** k passes wash every trace of the starting point out of the first k layers. */
  lemma {:induction false} HistoryWashesOut(
      c: Circuit, pins: seq<PinDrive>, rank: seq<nat>, depth: nat, a: seq<Level>, b: seq<Level>, k: nat)
    requires Ready(c, pins) && Layered(c, rank, depth) && |a| == |b| == |c.gates|
    ensures AgreeBelow(Iterate(c, pins, a, k), Iterate(c, pins, b, k), rank, k)
  {
    if k != 0 {
      HistoryWashesOut(c, pins, rank, depth, a, b, k - 1);
      AgreeOneMore(c, pins, rank, depth, Iterate(c, pins, a, k - 1), Iterate(c, pins, b, k - 1), k - 1);
    }
  }

  lemma AllHistoriesMeet(c: Circuit, pins: seq<PinDrive>, rank: seq<nat>, depth: nat, a: seq<Level>, k: nat)
    requires Ready(c, pins) && Layered(c, rank, depth) && |a| == |c.gates| && depth <= k
    ensures Iterate(c, pins, a, k) == Least(c, pins)
  {
    var least := Least(c, pins);
    HistoryWashesOut(c, pins, rank, depth, a, least, k);
    assert Iterate(c, pins, a, k) == Iterate(c, pins, least, k);
    StableWithinGates(c, pins);
    StableForever(c, pins, least, 0, k);
  }

  /** Without feedback the node and gate equations have exactly one solution. */
  lemma UniqueSolution(c: Circuit, pins: seq<PinDrive>, rank: seq<nat>, depth: nat, levels: seq<Level>, gateOut: seq<Level>)
    requires Ready(c, pins) && Layered(c, rank, depth)
    ensures Solves(c, pins, levels, gateOut) <==> levels == LeastLevels(c, pins) && gateOut == Least(c, pins)
  {
    if Solves(c, pins, levels, gateOut) {
      StableForever(c, pins, gateOut, 0, depth);
      AllHistoriesMeet(c, pins, rank, depth, gateOut, depth);
    }
    StableWithinGates(c, pins);
  }

  /** Main result. Whatever gate outputs, levels and warnings earlier steps left
      behind, a step of an acyclic net settles in the one solution of the current
      pin drives, within depth + 2 passes, and without an oscillation warning.
      One pass fewer still gives the right levels. So clearing the gates to X
      before every step would change no level. */
  lemma HistoryIndependence(
      c: Circuit, pins: seq<PinDrive>, rank: seq<nat>, depth: nat, s: NetState, limit: nat)
    requires Ready(c, pins) && Layered(c, rank, depth) && Fits(c, s) && limit >= 1
    ensures PassesRun(c, pins, s, limit) <= depth + 2
    ensures depth + 2 <= limit ==>
      var r := StepState(c, pins, s, limit);
      Solves(c, pins, r.levels, r.gateOut) && r.warnedOscillation == s.warnedOscillation
    ensures depth + 1 <= limit ==>
      && StepState(c, pins, s, limit).levels == LeastLevels(c, pins)
      && StepState(c, pins, s, limit).levels
         == StepState(c, pins, s.(gateOut := Unknown(|c.gates|)), limit).levels
  {
    OneStepMeetsLeast(c, pins, rank, depth, s, limit);
    OneStepMeetsLeast(c, pins, rank, depth, s.(gateOut := Unknown(|c.gates|)), limit);
  }

  /** The same, read off the wiring: no gate reaches itself. */
  lemma AcyclicForgetsHistory(c: Circuit, pins: seq<PinDrive>, s: NetState, limit: nat)
    requires Ready(c, pins) && Acyclic(c) && Fits(c, s) && limit >= 1
    ensures PassesRun(c, pins, s, limit) <= |c.gates| + 2
    ensures |c.gates| + 1 <= limit ==>
      && StepState(c, pins, s, limit).levels == LeastLevels(c, pins)
      && StepState(c, pins, s, limit).levels
         == StepState(c, pins, s.(gateOut := Unknown(|c.gates|)), limit).levels
  {
    AcyclicIsLayered(c);
    HistoryIndependence(c, pins, Layers(c), |c.gates|, s, limit);
  }

  lemma OneStepMeetsLeast(
      c: Circuit, pins: seq<PinDrive>, rank: seq<nat>, depth: nat, s: NetState, limit: nat)
    requires Ready(c, pins) && Layered(c, rank, depth) && Fits(c, s) && limit >= 1
    ensures PassesRun(c, pins, s, limit) <= depth + 2
    ensures depth + 2 <= limit ==> !Settle(c, pins, s, limit).oscillating
    ensures !Settle(c, pins, s, limit).oscillating ==>
      var r := StepState(c, pins, s, limit); Solves(c, pins, r.levels, r.gateOut)
    ensures depth + 1 <= limit ==> StepState(c, pins, s, limit).levels == LeastLevels(c, pins)
  {
    AllHistoriesMeet(c, pins, rank, depth, s.gateOut, depth);
    AllHistoriesMeet(c, pins, rank, depth, s.gateOut, depth + 1);
    SettlesBy(c, pins, s, limit, depth);
    SettleIterates(c, pins, s, limit);
    var r := Settle(c, pins, s, limit);
    if !r.oscillating {
      UniqueSolution(c, pins, rank, depth, r.state.levels, r.state.gateOut);
    } else if depth + 1 <= limit {
      AllHistoriesMeet(c, pins, rank, depth, s.gateOut, limit - 1);
    }
  }

  // ----- the limit is tight: a chain of inverters

  /** Names n, nn, nnn, ... */
  function ChainName(i: nat): (name: string)
    ensures |name| == i + 1
  {
    seq(i + 1, _ => 'n')
  }

  /** Node 0 is driven high by a pin; gate g inverts node g onto node g + 1. */
  function Chain(n: nat): (c: Circuit)
    ensures c.Valid() && |c.nodes| == n + 1 && |c.gates| == n
    ensures forall i | 0 <= i <= n :: c.nodes[i] == Node(ChainName(i), PullNone)
    ensures forall g | 0 <= g < n :: c.gates[g] == Gate(INV, [g], g + 1)
  {
    Circuit(seq(n + 1, (i: nat) => Node(ChainName(i), PullNone)), seq(n, (g: nat) => Gate(INV, [g], g + 1)))
  }

  const CHAIN_PIN := "cpu.SOD"

  /** The netlist of the chain: one wire, then the inverters in order. */
  function ChainLines(n: nat): seq<W.Directive> {
    if n == 0 then [W.WireLine(ChainName(0), CHAIN_PIN)]
    else ChainLines(n - 1) + [W.GateLine(INV, "U", [ChainName(n - 1)], ChainName(n))]
  }

  /** The chain is exactly what its netlist parses to. */
  lemma ChainParsed(n: nat, handle: int, isOutput: bool)
    ensures W.Parsed(ChainLines(n), Chain(n).nodes, [Endpoint(0, CHAIN_PIN, handle, isOutput)], Chain(n).gates)
  {
    hide W.NodeNames, W.Names, W.GateLines, W.WireLines, W.LastPull, ChainLines, ChainName;
    var c, es := Chain(n), [Endpoint(0, CHAIN_PIN, handle, isOutput)];
    ChainNames(n);
    forall name
      ensures W.LastPull(ChainLines(n), name) == PullNone
    {
      ChainUnpulled(n, name);
    }
    ChainGates(n);
    assert forall i, j | 0 <= i < j < |c.nodes| :: |c.nodes[i].name| != |c.nodes[j].name|;
    assert W.WireNamed(c.nodes, es[0], W.WireLines(ChainLines(n))[0]);
    forall g | 0 <= g < n
      ensures W.GateNamed(c.nodes, c.gates[g], W.GateLines(ChainLines(n))[g])
    {
      assert W.GateLines(ChainLines(n))[g] == W.NamedGate(INV, [ChainName(g)], ChainName(g + 1));
      assert c.nodes[g].name == ChainName(g) && c.nodes[g + 1].name == ChainName(g + 1);
    }
  }

  lemma {:induction false} ChainGates(n: nat)
    ensures W.WireLines(ChainLines(n)) == [W.NamedWire(ChainName(0), CHAIN_PIN)]
    ensures |W.GateLines(ChainLines(n))| == n
    ensures forall g | 0 <= g < n :: W.GateLines(ChainLines(n))[g] == W.NamedGate(INV, [ChainName(g)], ChainName(g + 1))
  {
    var ds := ChainLines(n);
    if n == 0 {
      assert ds[..|ds|-1] == [];
    } else {
      ChainGates(n - 1);
      assert ds[..|ds|-1] == ChainLines(n - 1);
    }
  }

  lemma {:induction false} ChainUnpulled(n: nat, name: string)
    ensures W.LastPull(ChainLines(n), name) == PullNone
  {
    var ds := ChainLines(n);
    if n == 0 {
      assert ds[..|ds|-1] == [];
    } else {
      ChainUnpulled(n - 1, name);
      assert ds[..|ds|-1] == ChainLines(n - 1);
    }
  }

  /** The names of the chain's nodes are those its lines mention. */
  lemma {:induction false} ChainNames(n: nat)
    ensures W.NodeNames(Chain(n).nodes) == W.Names(ChainLines(n))
  {
    var ds, nodes := ChainLines(n), Chain(n).nodes;
    if n == 0 {
      assert ds[..|ds|-1] == [];
      assert nodes == [Node(ChainName(0), PullNone)];
      assert W.NodeNames(nodes) == {ChainName(0)};
    } else {
      ChainNames(n - 1);
      assert ds[..|ds|-1] == ChainLines(n - 1);
      var fewer := Chain(n - 1).nodes;
      assert nodes == fewer + [Node(ChainName(n), PullNone)];
      MemberName(fewer, n - 1);
      assert ChainName(n - 1) in W.NodeNames(fewer);
      W.OneMoreName(fewer, Node(ChainName(n), PullNone));
      ChainStep(n);
      hide W.NodeNames, W.Names, ChainName;
    }
  }

  lemma MemberName(nodes: seq<Node>, i: nat)
    requires i < |nodes|
    ensures nodes[i].name in W.NodeNames(nodes)
  {
    assert nodes[i] in nodes;
  }

  lemma ChainStep(n: nat)
    requires n > 0
    ensures W.Names(ChainLines(n)) == W.Names(ChainLines(n - 1)) + {ChainName(n - 1), ChainName(n)}
  {
    var ds := ChainLines(n);
    assert ds[..|ds|-1] == ChainLines(n - 1);
    assert W.Strings([ChainName(n - 1)]) == {ChainName(n - 1)};
  }

  /** With the pin high, its drives are those of ChainPins. */
  lemma ChainDriven(n: nat, handle: nat, host: Host)
    requires host.readOutput(handle) == Drive1
    ensures PinsOf([Endpoint(0, CHAIN_PIN, handle, true)], host, n + 1) == ChainPins(n)
  {
    var es := [Endpoint(0, CHAIN_PIN, handle, true)];
    assert es[0].node == 0;
    assert PinDrives(es, host, 0, Drive1);
  }

  function ChainPins(n: nat): (pins: seq<PinDrive>)
    ensures |pins| == n + 1 && pins[0] == PinDrive(false, true)
    ensures forall i | 1 <= i <= n :: pins[i] == PinDrive(false, false)
  {
    seq(n + 1, i => PinDrive(false, i == 0))
  }

  lemma ChainLevel(n: nat, gateOut: seq<Level>, i: nat)
    requires |gateOut| == n && i <= n
    ensures Levels(Chain(n), ChainPins(n), gateOut)[i] == if i == 0 then Level1 else gateOut[i-1]
  {
    var c := Chain(n);
    assert Levels(c, ChainPins(n), gateOut)[i] == Resolve(c, ChainPins(n), gateOut, i);
    if i != 0 {
      assert c.gates[i-1].output == i;
      assert forall g | 0 <= g < n && c.gates[g].output == i :: g == i - 1;
    } else {
      assert forall g | 0 <= g < n :: c.gates[g].output != 0;
    }
  }

  /** After k passes exactly the first k gates are known. */
  lemma {:induction false} ChainFront(n: nat, k: nat, g: nat)
    requires g < n
    ensures FromUnknown(Chain(n), ChainPins(n), k)[g] == LevelX <==> k <= g
  {
    if k != 0 {
      var c, pins := Chain(n), ChainPins(n);
      var before := FromUnknown(c, pins, k - 1);
      var levels := Levels(c, pins, before);
      assert FromUnknown(c, pins, k)[g] == GateLevel(c.gates[g], levels);
      ChainLevel(n, before, g);
      if g != 0 {
        ChainFront(n, k - 1, g - 1);
      }
    }
  }

  /** A settle loop whose every pass still moves some level runs out of passes. */
  lemma {:induction false} RunsOut(c: Circuit, pins: seq<PinDrive>, s: NetState, left: nat)
    requires Ready(c, pins) && Fits(c, s) && left >= 1
    requires Levels(c, pins, s.gateOut) != s.levels
    requires forall j | 1 <= j < left ::
      Levels(c, pins, Iterate(c, pins, s.gateOut, j)) != Levels(c, pins, Iterate(c, pins, s.gateOut, j - 1))
    ensures Settle(c, pins, s, left).oscillating
    decreases left
  {
    var t := Pass(c, pins, s);
    PassFacts(c, pins, s);
    if left != 1 {
      forall j | 0 <= j < left
        ensures Iterate(c, pins, t.gateOut, j) == Iterate(c, pins, s.gateOut, j + 1)
      {
        IterateAfter(c, pins, s.gateOut, j);
      }
      assert Levels(c, pins, Iterate(c, pins, s.gateOut, 1)) != Levels(c, pins, Iterate(c, pins, s.gateOut, 0));
      RunsOut(c, pins, t, left - 1);
    }
  }

  /** The first step on a chain of n inverters raises the oscillation warning
      exactly when n + 2 exceeds the limit. With the program's 16 passes a chain
      of 14 is silent and a chain of 15, which does not oscillate and whose
      levels come out right, is reported as oscillating. */
  lemma FalseAlarmOnLongChain(n: nat, limit: nat)
    requires limit >= 1
    ensures StepState(Chain(n), ChainPins(n), Bound(Chain(n)), limit).warnedOscillation <==> limit < n + 2
    ensures n + 1 <= limit ==>
      StepState(Chain(n), ChainPins(n), Bound(Chain(n)), limit).levels == LeastLevels(Chain(n), ChainPins(n))
  {
    var c, pins := Chain(n), ChainPins(n);
    var s := Bound(c);
    var rank := seq(n, g => g);
    OneStepMeetsLeast(c, pins, rank, n, s, limit);
    if limit < n + 2 {
      ChainLevel(n, s.gateOut, 0);
      assert Levels(c, pins, s.gateOut)[0] != s.levels[0];
      forall j | 1 <= j < limit
        ensures Levels(c, pins, Iterate(c, pins, s.gateOut, j)) != Levels(c, pins, Iterate(c, pins, s.gateOut, j - 1))
      {
        assert s.gateOut == Unknown(n);
        ChainFront(n, j, j - 1);
        ChainFront(n, j - 1, j - 1);
        ChainLevel(n, FromUnknown(c, pins, j), j);
        ChainLevel(n, FromUnknown(c, pins, j - 1), j);
      }
      RunsOut(c, pins, s, limit);
    }
  }
}
