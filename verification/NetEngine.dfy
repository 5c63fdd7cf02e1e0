/** The net engine itself: a class whose fields are updated step by step, proved
    to compute the functions of NetModel.dfy and to parse as NetNames.dfy says. */
module NetEngine {
  import opened NetModel
  import opened NetNames
  import F = NetFixpoint
  import A = NetAcyclic
  import D = NetMeaning

  /** A vector resized to n entries: a kept prefix, then fill. */
  function Resized<T>(xs: seq<T>, n: nat, fill: T): (r: seq<T>)
    ensures |r| == n
    ensures forall i | 0 <= i < n :: r[i] == if i < |xs| then xs[i] else fill
  {
    seq(n, i requires 0 <= i < n => if i < |xs| then xs[i] else fill)
  }

  /** A vector updated from its start up to n. */
  ghost function Mixed<T>(after: seq<T>, before: seq<T>, n: nat): (r: seq<T>)
    requires n <= |after| == |before|
    ensures |r| == |after|
  {
    after[..n] + before[n..]
  }

  lemma MixedNext<T>(after: seq<T>, before: seq<T>, n: nat)
    requires n < |after| == |before|
    ensures Mixed(after, before, n)[n] == before[n]
    ensures Mixed(after, before, n)[n := after[n]] == Mixed(after, before, n + 1)
  {
  }

  lemma MixedEnds<T>(after: seq<T>, before: seq<T>)
    requires |after| == |before|
    ensures Mixed(after, before, 0) == before && Mixed(after, before, |after|) == after
  {
  }

  /** A pin driver as cached at the top of a step. */
  function DriverOf(e: Endpoint, host: Host): Drive {
    if e.isOutput && e.handle >= 0 then host.readOutput(e.handle) else DriveZ
  }

  ghost predicate SeenPin(es: seq<Endpoint>, host: Host, n: nat, d: Drive, k: nat)
    requires k <= |es|
  {
    exists i | 0 <= i < k ::
      es[i].node == n && es[i].isOutput && es[i].handle >= 0 && host.readOutput(es[i].handle) == d
  }

  ghost predicate SeenGate(sources: seq<nat>, gateOut: seq<Level>, v: Level, k: nat)
    requires k <= |sources| && forall i | 0 <= i < |sources| :: sources[i] < |gateOut|
  {
    exists i | 0 <= i < k :: gateOut[sources[i]] == v
  }

  /** Node names keep their places as the node list grows. */
  ghost predicate Extends(nodes: seq<Node>, base: seq<Node>) {
    |base| <= |nodes| && forall n | 0 <= n < |base| :: nodes[n].name == base[n].name
  }

  /** The pulls after ds, for the nodes named so far. */
  ghost predicate Pulled(ds: seq<Directive>, nodes: seq<Node>) {
    forall n | 0 <= n < |nodes| :: nodes[n].pull == LastPull(ds, nodes[n].name)
  }

  lemma {:induction false} UnmentionedIsUnpulled(ds: seq<Directive>, name: string)
    ensures name !in Names(ds) ==> LastPull(ds, name) == PullNone
  {
    if |ds| != 0 {
      UnmentionedIsUnpulled(ds[..|ds|-1], name);
    }
  }

  lemma NoStrings()
    ensures Strings([]) == {}
  {
  }

  lemma OneMoreString(inputs: seq<string>, i: nat)
    requires i < |inputs|
    ensures Strings(inputs[..i + 1]) == Strings(inputs[..i]) + {inputs[i]}
  {
  }

  lemma PullsUnaffected(ds: seq<Directive>, d: Directive, nodes: seq<Node>)
    requires Pulled(ds, nodes) && !d.PullLine?
    ensures Pulled(ds + [d], nodes)
  {
    assert (ds + [d])[..|ds|] == ds;
  }

  lemma ExtendsKeepsMeaning(nodes: seq<Node>, base: seq<Node>, ds: seq<Directive>, es: seq<Endpoint>, gates: seq<Gate>)
    requires Parsed(ds, base, es, gates) && Extends(nodes, base)
    ensures forall g | 0 <= g < |gates| :: GateNamed(nodes, gates[g], GateLines(ds)[g])
    ensures forall e | 0 <= e < |es| :: WireNamed(nodes, es[e], WireLines(ds)[e])
  {
    forall g | 0 <= g < |gates|
      ensures GateNamed(nodes, gates[g], GateLines(ds)[g])
    {
      assert GateNamed(base, gates[g], GateLines(ds)[g]);
    }
    forall e | 0 <= e < |es|
      ensures WireNamed(nodes, es[e], WireLines(ds)[e])
    {
      assert WireNamed(base, es[e], WireLines(ds)[e]);
    }
  }

  class Net {
    var nodes: seq<Node>
    var endpoints: seq<Endpoint>
    var gates: seq<Gate>
    var level: seq<Level>
    var warnedConflict: seq<bool>
    var warnedFloat: seq<bool>
    var gateOut: seq<Level>
    var nodeGateSources: seq<seq<nat>>
    var warnedOscillation: bool

    ghost function Wiring(): Circuit
      reads this`nodes, this`gates
    {
      Circuit(nodes, gates)
    }

    ghost function State(): NetState
      reads this
    {
      NetState(level, gateOut, warnedConflict, warnedFloat, warnedOscillation)
    }

    /** The size guard at the top of a step. */
    predicate Sized()
      reads this
    {
      && |level| == |nodes| && |warnedConflict| == |nodes| && |warnedFloat| == |nodes|
      && |gateOut| == |gates| && |nodeGateSources| == |nodes|
    }

    /** nodeGateSources is the exact inverse of the gates' output nodes. */
    ghost predicate Linked()
      reads this`nodes, this`gates, this`nodeGateSources
    {
      && |nodeGateSources| == |nodes|
      && (forall n, i | 0 <= n < |nodes| && 0 <= i < |nodeGateSources[n]| ::
            nodeGateSources[n][i] < |gates| && gates[nodeGateSources[n][i]].output == n)
      && (forall g | 0 <= g < |gates| :: gates[g].output < |nodes| && g in nodeGateSources[gates[g].output])
    }

    ghost predicate Valid()
      reads this
    {
      && Wiring().Valid() && DistinctNames(nodes)
      && (forall e | 0 <= e < |endpoints| :: endpoints[e].node < |nodes|)
      && |level| <= |nodes| && |nodeGateSources| <= |nodes| && |gateOut| <= |gates|
      && (Sized() ==> Linked())
    }

    constructor ()
      ensures Valid() && Parsed([], nodes, endpoints, gates)
      ensures level == [] && gateOut == [] && warnedConflict == [] && warnedFloat == []
    {
      nodes, endpoints, gates := [], [], [];
      level, warnedConflict, warnedFloat, gateOut := [], [], [], [];
      nodeGateSources, warnedOscillation := [], false;
    }

    // ----- parsing

    /** Find or create. */
    method NodeIndex(name: string, ghost ds: seq<Directive>) returns (idx: nat)
      requires DistinctNames(nodes) && Pulled(ds, nodes) && Names(ds) <= NodeNames(nodes)
      modifies this`nodes
      ensures idx < |nodes| && nodes[idx].name == name && DistinctNames(nodes)
      ensures nodes == if name in NodeNames(old(nodes)) then old(nodes) else old(nodes) + [Node(name, PullNone)]
      ensures Extends(nodes, old(nodes)) && Pulled(ds, nodes) && NodeNames(nodes) == NodeNames(old(nodes)) + {name}
    {
      for i := 0 to |nodes|
        invariant nodes == old(nodes)
        invariant forall j | 0 <= j < i :: nodes[j].name != name
      {
        if nodes[i].name == name {
          assert nodes[i] in nodes;
          return i;
        }
      }
      UnmentionedIsUnpulled(ds, name);
      nodes := nodes + [Node(name, PullNone)];
      idx := |nodes| - 1;
      OneMoreName(old(nodes), Node(name, PullNone));
    }

    /** After the names of line d have been looked up and its effect applied,
        the net has parsed one line more. */
    lemma LineParsed(ds: seq<Directive>, d: Directive, base: Circuit, es: seq<Endpoint>)
      requires Parsed(ds, base.nodes, es, base.gates)
      requires Extends(nodes, base.nodes) && DistinctNames(nodes)
      requires NodeNames(nodes) == NodeNames(base.nodes) + NamesOf(d) && Pulled(ds + [d], nodes)
      requires if d.GateLine?
        then |gates| == |base.gates| + 1 && gates[..|base.gates|] == base.gates
          && GateNamed(nodes, gates[|base.gates|], NamedGate(d.kind, d.inputs, d.output))
        else gates == base.gates
      requires if d.WireLine?
        then |endpoints| == |es| + 1 && endpoints[..|es|] == es
          && WireNamed(nodes, endpoints[|es|], NamedWire(d.node, d.pin))
        else endpoints == es
      ensures Parsed(ds + [d], nodes, endpoints, gates)
    {
      assert (ds + [d])[..|ds|] == ds;
      ExtendsKeepsMeaning(nodes, base.nodes, ds, es, base.gates);
    }

    method AddPull(name: string, up: bool, ghost ds: seq<Directive>)
      requires Parsed(ds, nodes, endpoints, gates)
      modifies this`nodes
      ensures Parsed(ds + [PullLine(name, up)], nodes, endpoints, gates)
      ensures Extends(nodes, old(nodes))
    {
      ghost var base, d := Wiring(), PullLine(name, up);
      var idx := NodeIndex(name, ds);
      ghost var found := nodes;
      nodes := nodes[idx := nodes[idx].(pull := if up then PullUp else PullDown)];
      assert (ds + [d])[..|ds|] == ds;
      SameNamesAfterPull(found, idx, nodes[idx].pull);
      LineParsed(ds, d, base, endpoints);
    }

    lemma SameNamesAfterPull(before: seq<Node>, idx: nat, pull: Pull)
      requires idx < |before|
      ensures NodeNames(before[idx := before[idx].(pull := pull)]) == NodeNames(before)
    {
      var after := before[idx := before[idx].(pull := pull)];
      forall name | name in NodeNames(before)
        ensures name in NodeNames(after)
      {
        var n :| 0 <= n < |before| && before[n].name == name;
        assert after[n] in after && after[n].name == name;
      }
      forall name | name in NodeNames(after)
        ensures name in NodeNames(before)
      {
        var n :| 0 <= n < |after| && after[n].name == name;
        assert before[n] in before && before[n].name == name;
      }
    }

    method AddWire(name: string, pin: string, ghost ds: seq<Directive>)
      requires Parsed(ds, nodes, endpoints, gates)
      modifies this`nodes, this`endpoints
      ensures Parsed(ds + [WireLine(name, pin)], nodes, endpoints, gates)
      ensures Extends(nodes, old(nodes))
    {
      ghost var base, d := Wiring(), WireLine(name, pin);
      var idx := NodeIndex(name, ds);
      endpoints := endpoints + [Endpoint(idx, pin, -1, false)];
      PullsUnaffected(ds, d, nodes);
      LineParsed(ds, d, base, old(endpoints));
    }

    /** Look up (or create) the input nodes of a gate line, one after another. */
    method InputNodes(inputs: seq<string>, ghost ds: seq<Directive>) returns (inNodes: seq<nat>)
      requires DistinctNames(nodes) && Pulled(ds, nodes) && Names(ds) <= NodeNames(nodes)
      modifies this`nodes
      ensures DistinctNames(nodes) && Extends(nodes, old(nodes)) && Pulled(ds, nodes)
      ensures NodeNames(nodes) == NodeNames(old(nodes)) + Strings(inputs)
      ensures |inNodes| == |inputs|
      ensures forall j | 0 <= j < |inputs| :: inNodes[j] < |nodes| && nodes[inNodes[j]].name == inputs[j]
    {
      hide NodeNames, Strings, Names, LastPull, Pulled, DistinctNames;
      inNodes := [];
      NoStrings();
      for i := 0 to |inputs|
        invariant DistinctNames(nodes) && Extends(nodes, old(nodes)) && Pulled(ds, nodes)
        invariant NodeNames(nodes) == NodeNames(old(nodes)) + Strings(inputs[..i])
        invariant |inNodes| == i
        invariant forall j | 0 <= j < i :: inNodes[j] < |nodes| && nodes[inNodes[j]].name == inputs[j]
      {
        OneMoreString(inputs, i);
        var idx := NodeIndex(inputs[i], ds);
        inNodes := inNodes + [idx];
      }
      assert inputs[..|inputs|] == inputs;
    }

    method AddGate(kind: GateType, name: string, inputs: seq<string>, output: string, ghost ds: seq<Directive>)
      requires Parsed(ds, nodes, endpoints, gates)
      modifies this`nodes, this`gates
      ensures Parsed(ds + [GateLine(kind, name, inputs, output)], nodes, endpoints, gates)
      ensures Extends(nodes, old(nodes)) && |gates| == |old(gates)| + 1
    {
      ghost var base, d := Wiring(), GateLine(kind, name, inputs, output);
      hide NodeNames, Strings, Names, LastPull;
      var inNodes := InputNodes(inputs, ds);
      var outNode := NodeIndex(output, ds);
      gates := gates + [Gate(kind, inNodes, outNode)];
      PullsUnaffected(ds, d, nodes);
      LineParsed(ds, d, base, endpoints);
    }

    /** Parse the lines of a netlist, in order, on top of those parsed before. */
    method Parse(ds: seq<Directive>, ghost earlier: seq<Directive>)
      requires Valid() && Parsed(earlier, nodes, endpoints, gates)
      modifies this`nodes, this`endpoints, this`gates
      ensures Valid() && Parsed(earlier + ds, nodes, endpoints, gates)
    {
      hide Parsed, DistinctNames;
      assert earlier + ds[..0] == earlier;
      for k := 0 to |ds|
        invariant Parsed(earlier + ds[..k], nodes, endpoints, gates)
        invariant |gates| >= |old(gates)| && |nodes| >= |old(nodes)|
        invariant |gates| == |old(gates)| ==> gates == old(gates)
      {
        ghost var before := earlier + ds[..k];
        assert earlier + ds[..k + 1] == before + [ds[k]];
        match ds[k]
        case PullLine(name, up) => AddPull(name, up, before);
        case WireLine(name, pin) => AddWire(name, pin, before);
        case GateLine(kind, name, inputs, output) => AddGate(kind, name, inputs, output, before);
      }
      assert earlier + ds[..|ds|] == earlier + ds;
      ParsedIsValid(earlier + ds, Wiring(), endpoints);
    }

    // ----- binding

    /** Bind every endpoint to the resolver's answer for it: a handle, negative
        when the pin is unknown, and whether the pin is an output. */
    method Bind(answers: seq<(int, bool)>) returns (ok: bool)
      requires Valid() && |answers| == |endpoints|
      modifies this
      ensures Valid() && nodes == old(nodes) && gates == old(gates) && |endpoints| == |old(endpoints)|
      ensures forall i | 0 <= i < |endpoints| ::
        endpoints[i].node == old(endpoints)[i].node && endpoints[i].pin == old(endpoints)[i].pin
      ensures ok <==> forall i | 0 <= i < |answers| :: answers[i].0 >= 0
      ensures ok ==> forall i | 0 <= i < |endpoints| ::
        endpoints[i] == old(endpoints)[i].(handle := answers[i].0, isOutput := answers[i].1)
      ensures ok ==> Sized() && Linked()
      ensures ok ==> State() == NetState(
        Resized(old(level), |nodes|, LevelX), Resized(old(gateOut), |gates|, LevelX),
        Resized(old(warnedConflict), |nodes|, false), Resized(old(warnedFloat), |nodes|, false), false)
      ensures !ok ==> State() == old(State()) && nodeGateSources == old(nodeGateSources)
    {
      for i := 0 to |endpoints|
        invariant |endpoints| == |old(endpoints)| && Wiring() == old(Wiring())
        invariant State() == old(State()) && nodeGateSources == old(nodeGateSources)
        invariant forall j | 0 <= j < i :: answers[j].0 >= 0
        invariant forall j | 0 <= j < i ::
          endpoints[j] == old(endpoints)[j].(handle := answers[j].0, isOutput := answers[j].1)
        invariant forall j | i <= j < |endpoints| :: endpoints[j] == old(endpoints)[j]
      {
        if answers[i].0 < 0 {
          return false;
        }
        endpoints := endpoints[i := endpoints[i].(handle := answers[i].0, isOutput := answers[i].1)];
      }
      level := Resized(level, |nodes|, LevelX);
      warnedConflict := Resized(warnedConflict, |nodes|, false);
      warnedFloat := Resized(warnedFloat, |nodes|, false);
      gateOut := Resized(gateOut, |gates|, LevelX);
      LinkGates();
      warnedOscillation := false;
      ok := true;
    }

    /** Precompute, node by node, the gates that drive it. */
    method LinkGates()
      requires Wiring().Valid()
      modifies this`nodeGateSources
      ensures Linked()
    {
      nodeGateSources := seq(|nodes|, _ => []);
      for k := 0 to |gates|
        invariant |nodeGateSources| == |nodes|
        invariant forall n, i | 0 <= n < |nodes| && 0 <= i < |nodeGateSources[n]| ::
          nodeGateSources[n][i] < k && gates[nodeGateSources[n][i]].output == n
        invariant forall g | 0 <= g < k :: gates[g].output < |nodes| && g in nodeGateSources[gates[g].output]
      {
        assert Wiring().GateValid(gates[k]);
        var n := gates[k].output;
        ghost var before := nodeGateSources;
        nodeGateSources := nodeGateSources[n := nodeGateSources[n] + [k]];
        assert k in nodeGateSources[n];
        assert forall g | 0 <= g < k && gates[g].output == n :: g in before[n] && g in nodeGateSources[n];
      }
    }

    /** On a net that was never bound before, bind leaves the all-unknown state. */
    lemma FreshBindIsBound()
      requires State() == NetState(
        Resized([], |nodes|, LevelX), Resized([], |gates|, LevelX),
        Resized([], |nodes|, false), Resized([], |nodes|, false), false)
      ensures State() == Bound(Wiring())
    {
      assert level == Unknown(|nodes|) && gateOut == Unknown(|gates|);
      assert warnedConflict == Clear(|nodes|) && warnedFloat == Clear(|nodes|);
    }

    // ----- one step

    method EvalGate(gate: Gate) returns (r: Level)
      requires Sized() && Wiring().GateValid(gate)
      ensures r == GateLevel(gate, level)
    {
      match gate.kind
      case INV =>
        if |gate.inputs| != 1 { return LevelX; }
        r := Not(level[gate.inputs[0]]);
      case BUF =>
        if |gate.inputs| != 1 { return LevelX; }
        r := level[gate.inputs[0]];
      case AND => r := ScanInputs(gate, Level0, Level0, Level1);
      case OR => r := ScanInputs(gate, Level1, Level1, Level0);
      case NAND => r := ScanInputs(gate, Level0, Level1, Level0);
      case NOR => r := ScanInputs(gate, Level1, Level0, Level1);
    }

    /** The loop shared by the four wide gates: a controlling input decides, else
        an unknown input makes the gate unknown, else the other value. */
    method ScanInputs(gate: Gate, controlling: Level, decided: Level, otherwise: Level) returns (r: Level)
      requires Sized() && Wiring().GateValid(gate)
      ensures r == if SomeInput(gate, level, controlling) then decided
                   else if SomeInput(gate, level, LevelX) then LevelX else otherwise
    {
      var hasX := false;
      for i := 0 to |gate.inputs|
        invariant forall j | 0 <= j < i :: level[gate.inputs[j]] != controlling
        invariant hasX <==> exists j | 0 <= j < i :: level[gate.inputs[j]] == LevelX
      {
        var v := level[gate.inputs[i]];
        if v == controlling { return decided; }
        if v == LevelX { hasX := true; }
      }
      r := if hasX then LevelX else otherwise;
    }

    method ReadDrivers(host: Host) returns (drivers: seq<Drive>)
      ensures |drivers| == |endpoints|
      ensures forall i | 0 <= i < |endpoints| :: drivers[i] == DriverOf(endpoints[i], host)
    {
      drivers := [];
      for i := 0 to |endpoints|
        invariant |drivers| == i
        invariant forall j | 0 <= j < i :: drivers[j] == DriverOf(endpoints[j], host)
      {
        drivers := drivers + [DriverOf(endpoints[i], host)];
      }
    }

    ghost predicate Cached(drivers: seq<Drive>, host: Host)
      reads this`endpoints
    {
      |drivers| == |endpoints| && forall i | 0 <= i < |endpoints| :: drivers[i] == DriverOf(endpoints[i], host)
    }

    ghost function Pins(host: Host): (r: seq<PinDrive>)
      reads this`nodes, this`endpoints
      ensures |r| == |nodes|
    {
      PinsOf(endpoints, host, |nodes|)
    }

    /** Which levels the pins drive onto node n. */
    method ScanPins(n: nat, drivers: seq<Drive>, ghost host: Host) returns (has0: bool, has1: bool)
      requires n < |nodes| && Cached(drivers, host)
      ensures Pins(host)[n] == PinDrive(has0, has1)
    {
      has0, has1 := false, false;
      for k := 0 to |endpoints|
        invariant has0 <==> SeenPin(endpoints, host, n, Drive0, k)
        invariant has1 <==> SeenPin(endpoints, host, n, Drive1, k)
      {
        var e := endpoints[k];
        if e.node == n && e.isOutput && e.handle >= 0 {
          match drivers[k]
          case Drive0 => has0 := true;
          case Drive1 => has1 := true;
          case DriveZ =>
        }
      }
    }

    /** Which values the gates put onto node n. */
    method ScanGates(n: nat) returns (has0: bool, has1: bool, gateX: bool)
      requires Sized() && Linked() && n < |nodes|
      ensures has0 <==> GateDrives(Wiring(), gateOut, n, Level0)
      ensures has1 <==> GateDrives(Wiring(), gateOut, n, Level1)
      ensures gateX <==> GateDrives(Wiring(), gateOut, n, LevelX)
    {
      has0, has1, gateX := false, false, false;
      var sources := nodeGateSources[n];
      for k := 0 to |sources|
        invariant has0 <==> SeenGate(sources, gateOut, Level0, k)
        invariant has1 <==> SeenGate(sources, gateOut, Level1, k)
        invariant gateX <==> SeenGate(sources, gateOut, LevelX, k)
      {
        match gateOut[sources[k]]
        case Level0 => has0 := true;
        case Level1 => has1 := true;
        case LevelX => gateX := true;
      }
      SourcesAreDrivers(n, Level0);
      SourcesAreDrivers(n, Level1);
      SourcesAreDrivers(n, LevelX);
    }

    lemma SourcesAreDrivers(n: nat, v: Level)
      requires Sized() && Linked() && n < |nodes|
      ensures SeenGate(nodeGateSources[n], gateOut, v, |nodeGateSources[n]|) <==> GateDrives(Wiring(), gateOut, n, v)
    {
      if g :| 0 <= g < |gates| && gates[g].output == n && gateOut[g] == v {
        var i :| 0 <= i < |nodeGateSources[n]| && nodeGateSources[n][i] == g;
      }
    }

    /** What a pass does to node n, by which values are driven onto it. */
    lemma PassAtNode(c: Circuit, pins: seq<PinDrive>, before: NetState, n: nat)
      requires c.Valid() && |pins| == |c.nodes| && Fits(c, before) && n < |c.nodes|
      ensures var has0, has1 := Drives0(c, pins, before.gateOut, n), Drives1(c, pins, before.gateOut, n);
        var gateX, after := GateDrives(c, before.gateOut, n, LevelX), Pass(c, pins, before);
        var floats := !has0 && !has1 && !gateX && c.nodes[n].pull == PullNone;
        && after.levels[n] == (if has0 && has1 then LevelX else if gateX then LevelX else if has0 then Level0
                               else if has1 then Level1 else PullLevel(c.nodes[n].pull))
        && after.warnedConflict[n] == (before.warnedConflict[n] || (has0 && has1))
        && after.warnedFloat[n] == (before.warnedFloat[n] || floats)
        && NodeWarnings(c, pins, before, n) ==
           (if has0 && has1 && !before.warnedConflict[n] then [ConflictOnNode]
            else if floats && !before.warnedFloat[n] then [FloatingNode] else [])
    {
      assert Levels(c, pins, before.gateOut)[n] == Resolve(c, pins, before.gateOut, n);
      assert PassConflicts(c, pins, before)[n] == (before.warnedConflict[n] || Conflict(c, pins, before.gateOut, n));
      assert PassFloats(c, pins, before)[n] == (before.warnedFloat[n] || FloatsInPass(c, pins, before.gateOut, n));
    }

    /** Resolve node n; raise and record its warnings. */
    method ResolveNode(n: nat, drivers: seq<Drive>, ghost host: Host, ghost before: NetState) returns (warnings: seq<Warning>)
      requires Sized() && Linked() && Wiring().Valid() && Cached(drivers, host) && n < |nodes|
      requires Fits(Wiring(), before) && before.gateOut == gateOut
      requires warnedConflict[n] == before.warnedConflict[n] && warnedFloat[n] == before.warnedFloat[n]
      modifies this`level, this`warnedConflict, this`warnedFloat
      ensures warnings == NodeWarnings(Wiring(), Pins(host), before, n)
      ensures var after := Pass(Wiring(), Pins(host), before);
        && level == old(level)[n := after.levels[n]]
        && warnedConflict == old(warnedConflict)[n := after.warnedConflict[n]]
        && warnedFloat == old(warnedFloat)[n := after.warnedFloat[n]]
    {
      hide Linked, Cached, Pins, GateDrives, Circuit.Valid, Pass, NodeWarnings;
      warnings := [];
      PassAtNode(Wiring(), Pins(host), before, n);
      var pin0, pin1 := ScanPins(n, drivers, host);
      var gate0, gate1, gateX := ScanGates(n);
      var has0, has1 := pin0 || gate0, pin1 || gate1;
      var lvl: Level;
      if has0 && has1 {
        lvl := LevelX;
        if !warnedConflict[n] {
          warnings := [ConflictOnNode];
          warnedConflict := warnedConflict[n := true];
        }
      } else if gateX {
        lvl := LevelX;
      } else if has0 {
        lvl := Level0;
      } else if has1 {
        lvl := Level1;
      } else {
        match nodes[n].pull
        case PullUp => lvl := Level1;
        case PullDown => lvl := Level0;
        case PullNone =>
          lvl := LevelX;
          if !warnedFloat[n] {
            warnings := [FloatingNode];
            warnedFloat := warnedFloat[n := true];
          }
      }
      if level[n] != lvl {
        level := level[n := lvl];
      }
    }

    /** First half of a pass: resolve all nodes. */
    method ResolveAll(drivers: seq<Drive>, ghost host: Host) returns (warnings: seq<Warning>)
      requires Sized() && Linked() && Wiring().Valid() && Cached(drivers, host)
      modifies this`level, this`warnedConflict, this`warnedFloat
      ensures warnings == PassWarnings(Wiring(), Pins(host), old(State()), |nodes|)
      ensures State() == Pass(Wiring(), Pins(host), old(State())).(gateOut := gateOut)
    {
      hide Pass, NodeWarnings, Linked, Cached, Pins, Circuit.Valid, PassConflicts, PassFloats, Mixed;
      ghost var c, pins, before := Wiring(), Pins(host), State();
      ghost var after := Pass(c, pins, before);
      PassKeepsOscillationFlag(c, pins, before);
      warnings := [];
      MixedEnds(after.levels, level);
      MixedEnds(after.warnedConflict, warnedConflict);
      MixedEnds(after.warnedFloat, warnedFloat);
      for n := 0 to |nodes|
        invariant Sized() && before.gateOut == gateOut
        invariant warnings == PassWarnings(c, pins, before, n)
        invariant level == Mixed(after.levels, before.levels, n)
        invariant warnedConflict == Mixed(after.warnedConflict, before.warnedConflict, n)
        invariant warnedFloat == Mixed(after.warnedFloat, before.warnedFloat, n)
      {
        MixedNext(after.levels, before.levels, n);
        MixedNext(after.warnedConflict, before.warnedConflict, n);
        MixedNext(after.warnedFloat, before.warnedFloat, n);
        var raised := ResolveNode(n, drivers, host, before);
        warnings := warnings + raised;
      }
    }

    lemma PassKeepsOscillationFlag(c: Circuit, pins: seq<PinDrive>, s: NetState)
      requires c.Valid() && |pins| == |c.nodes| && Fits(c, s)
      ensures Pass(c, pins, s).warnedOscillation == s.warnedOscillation
    {
    }

    /** Second half of a pass: recompute all gates. */
    method EvalAll()
      requires Sized() && Wiring().Valid()
      modifies this`gateOut
      ensures gateOut == Outputs(Wiring(), level)
    {
      ghost var outputs := Outputs(Wiring(), level);
      for g := 0 to |gates|
        invariant |gateOut| == |gates| && gateOut[..g] == outputs[..g]
      {
        assert Wiring().GateValid(gates[g]);
        assert outputs[g] == GateLevel(Wiring().gates[g], level);
        var newOut := EvalGate(gates[g]);
        if gateOut[g] != newOut {
          gateOut := gateOut[g := newOut];
        }
      }
    }

    /** One pass; it tells whether any level or any gate output changed. */
    method RunPass(drivers: seq<Drive>, ghost host: Host) returns (changed: bool, warnings: seq<Warning>)
      requires Sized() && Linked() && Wiring().Valid() && Cached(drivers, host)
      modifies this`level, this`gateOut, this`warnedConflict, this`warnedFloat
      ensures Sized() && State() == Pass(Wiring(), Pins(host), old(State()))
      ensures warnings == PassWarnings(Wiring(), Pins(host), old(State()), |nodes|)
      ensures changed == !Unchanged(old(State()), State())
    {
      hide Linked, Cached, Pins, Circuit.Valid, PassConflicts, PassFloats, Levels, PassWarnings, Outputs;
      var oldLevel, oldGateOut := level, gateOut;
      warnings := ResolveAll(drivers, host);
      EvalAll();
      changed := !(level == oldLevel && gateOut == oldGateOut);
    }

    /** The settle loop. */
    method SettleLoop(drivers: seq<Drive>, ghost host: Host, limit: nat) returns (oscillating: bool, warnings: seq<Warning>)
      requires Sized() && Linked() && Wiring().Valid() && Cached(drivers, host) && limit >= 1
      modifies this`level, this`gateOut, this`warnedConflict, this`warnedFloat
      ensures Sized()
      ensures Settled(State(), oscillating, warnings) == Settle(Wiring(), Pins(host), old(State()), limit)
    {
      ghost var c, pins := Wiring(), Pins(host);
      hide Linked, Cached, Pins, Circuit.Valid, Pass, PassWarnings, Unchanged;
      ghost var goal := Settle(c, pins, State(), limit);
      oscillating, warnings := false, [];
      for pass := 0 to limit
        invariant Sized() && (oscillating <==> pass == limit)
        invariant pass == limit ==> goal == Settled(State(), true, warnings)
        invariant pass < limit ==>
          var rest := Settle(c, pins, State(), limit - pass);
          goal == Settled(rest.state, rest.oscillating, warnings + rest.warnings)
      {
        var changed, raised := RunPass(drivers, host);
        warnings := warnings + raised;
        if !changed {
          return;
        }
        if pass == limit - 1 {
          oscillating := true;
        }
      }
    }

    /** Hand the resolved levels to the endpoints that are inputs now. */
    method Deliver() returns (delivered: seq<(int, Level)>)
      requires Sized() && forall e | 0 <= e < |endpoints| :: endpoints[e].node < |nodes|
      ensures delivered == Deliveries(endpoints, level, |endpoints|)
    {
      delivered := [];
      for k := 0 to |endpoints|
        invariant delivered == Deliveries(endpoints, level, k)
      {
        var e := endpoints[k];
        if !e.isOutput && e.handle >= 0 {
          delivered := delivered + [(e.handle, level[e.node])];
        }
      }
    }

    /** One net step: refresh directions, read the pin drivers once, settle, warn
        about oscillation once, deliver. Does nothing before bind. */
    method Step(host: Host) returns (warnings: seq<Warning>, delivered: seq<(int, Level)>)
      requires Valid()
      modifies this
      ensures Valid() && Wiring() == old(Wiring()) && Sized() == old(Sized())
      ensures !Sized() ==> State() == old(State()) && endpoints == old(endpoints) && warnings == [] && delivered == []
      ensures Sized() ==>
        && endpoints == RefreshedAll(old(endpoints), host)
        && State() == StepState(Wiring(), PinsOf(endpoints, host, |nodes|), old(State()), MAX_PASSES)
        && warnings == StepWarnings(Wiring(), PinsOf(endpoints, host, |nodes|), old(State()), MAX_PASSES)
        && delivered == Deliveries(endpoints, level, |endpoints|)
      ensures Sized() ==> forall rank, depth | A.Layered(Wiring(), rank, depth) && depth <= 14 ::
        && level == F.LeastLevels(Wiring(), PinsOf(endpoints, host, |nodes|))
        && warnedOscillation == old(warnedOscillation)
    {
      hide Settle, Linked, DistinctNames;
      ghost var leftover := State();
      if !Sized() {
        return [], [];
      }
      endpoints := RefreshedAll(endpoints, host);
      var drivers := ReadDrivers(host);
      var oscillating;
      oscillating, warnings := SettleLoop(drivers, host, MAX_PASSES);
      if oscillating && !warnedOscillation {
        warnings := warnings + [Oscillation];
        warnedOscillation := true;
      }
      delivered := Deliver();
      ghost var pins := PinsOf(endpoints, host, |nodes|);
      forall rank, depth | A.Layered(Wiring(), rank, depth) && depth <= 14
        ensures level == F.LeastLevels(Wiring(), pins) && warnedOscillation == leftover.warnedOscillation
      {
        D.FourteenLayersSettle(Wiring(), pins, rank, depth, leftover);
      }
    }
  }
  /** A netlist from text to its first step. If every pin is known, the levels are
      those of the least solution of the netlist's equations, unless the step
      was cut off with a warning, which takes more than 14 gates; even then every
      0 or 1 is one of the least solution. */
  method BringUp(ds: seq<Directive>, answers: string -> (int, bool), host: Host) returns (net: Net, ok: bool)
    ensures fresh(net) && net.Valid() && Parsed(ds, net.nodes, net.endpoints, net.gates)
    ensures ok <==> forall e | 0 <= e < |net.endpoints| :: answers(net.endpoints[e].pin).0 >= 0
    ensures ok ==>
      var c, pins := net.Wiring(), PinsOf(net.endpoints, host, |net.nodes|);
      && (!net.warnedOscillation ==> net.level == F.LeastLevels(c, pins) && net.gateOut == F.Least(c, pins))
      && (|net.gates| <= 14 ==> !net.warnedOscillation)
      && |net.level| == |net.nodes| && F.Refines(F.LeastLevels(c, pins), net.level)
  {
    hide StepState, StepWarnings, F.Least, F.LeastLevels, F.Refines;
    net := new Net();
    net.Parse(ds, []);
    assert [] + ds == ds;
    ghost var parsed := net.endpoints;
    var replies: seq<(int, bool)> := [];
    for i := 0 to |net.endpoints|
      invariant |replies| == i && forall e | 0 <= e < i :: replies[e] == answers(net.endpoints[e].pin)
    {
      replies := replies + [answers(net.endpoints[i].pin)];
    }
    ok := net.Bind(replies);
    RenamedParse(ds, net.nodes, parsed, net.endpoints, net.gates);
    if ok {
      net.FreshBindIsBound();
      ghost var bound := net.endpoints;
      var warnings, delivered := net.Step(host);
      RenamedParse(ds, net.nodes, bound, net.endpoints, net.gates);
      F.FirstStepFindsLeastSolution(net.Wiring(), PinsOf(net.endpoints, host, |net.nodes|), MAX_PASSES);
    }
  }

  /** Handles and directions are no part of what parsing promises. */
  lemma RenamedParse(ds: seq<Directive>, nodes: seq<Node>, es: seq<Endpoint>, fs: seq<Endpoint>, gates: seq<Gate>)
    requires Parsed(ds, nodes, es, gates) && |fs| == |es|
    requires forall e | 0 <= e < |es| :: fs[e].node == es[e].node && fs[e].pin == es[e].pin
    ensures Parsed(ds, nodes, fs, gates)
  {
    forall e | 0 <= e < |es|
      ensures WireNamed(nodes, fs[e], WireLines(ds)[e])
    {
      assert WireNamed(nodes, es[e], WireLines(ds)[e]);
    }
  }
}
