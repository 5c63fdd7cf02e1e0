/** Netlists as lists of directives, and the proof that the order of their lines
    does not matter: two nets parsed from the same lines in different orders give
    every node name the same level, and the same warnings, after every step. */
module NetNames {
  import opened NetModel
  import opened NetFixpoint

  /** One netlist line after tokenisation. The gate name is not used. */
  datatype Directive =
    | PullLine(node: string, up: bool)
    | WireLine(node: string, pin: string)
    | GateLine(kind: GateType, name: string, inputs: seq<string>, output: string)

  datatype NamedGate = NamedGate(kind: GateType, inputs: seq<string>, output: string)
  datatype NamedWire = NamedWire(node: string, pin: string)

  function Strings(names: seq<string>): set<string> {
    set name | name in names
  }

  /** The node names one line mentions. */
  function NamesOf(d: Directive): set<string> {
    match d
    case PullLine(node, _) => {node}
    case WireLine(node, _) => {node}
    case GateLine(_, _, inputs, output) => Strings(inputs) + {output}
  }

  function Names(ds: seq<Directive>): set<string> {
    if |ds| == 0 then {} else Names(ds[..|ds|-1]) + NamesOf(ds[|ds|-1])
  }

  function NodeNames(nodes: seq<Node>): set<string> {
    set n | n in nodes :: n.name
  }

  lemma OneMoreName(nodes: seq<Node>, n: Node)
    ensures NodeNames(nodes + [n]) == NodeNames(nodes) + {n.name}
  {
    var more := nodes + [n];
    assert more[|nodes|] == n;
    forall name | name in NodeNames(nodes)
      ensures name in NodeNames(more)
    {
      var m :| m in nodes && m.name == name;
      assert m in more;
    }
  }

  function GateLines(ds: seq<Directive>): seq<NamedGate> {
    if |ds| == 0 then [] else
      var d := ds[|ds|-1];
      GateLines(ds[..|ds|-1]) + if d.GateLine? then [NamedGate(d.kind, d.inputs, d.output)] else []
  }

  function WireLines(ds: seq<Directive>): seq<NamedWire> {
    if |ds| == 0 then [] else
      var d := ds[|ds|-1];
      WireLines(ds[..|ds|-1]) + if d.WireLine? then [NamedWire(d.node, d.pin)] else []
  }

  function PullTowards(up: bool): Pull {
    if up then PullUp else PullDown
  }

  /** The pull a node ends up with: that of the last pull line naming it. */
  function LastPull(ds: seq<Directive>, node: string): Pull {
    if |ds| == 0 then PullNone else
      var d := ds[|ds|-1];
      if d.PullLine? && d.node == node then PullTowards(d.up) else LastPull(ds[..|ds|-1], node)
  }

  ghost predicate DistinctNames(nodes: seq<Node>) {
    forall i, j | 0 <= i < j < |nodes| :: nodes[i].name != nodes[j].name
  }

  /** Index-based gate g says what the named gate w says. */
  ghost predicate GateNamed(nodes: seq<Node>, g: Gate, w: NamedGate) {
    && g.kind == w.kind && |g.inputs| == |w.inputs|
    && g.output < |nodes| && nodes[g.output].name == w.output
    && forall i | 0 <= i < |g.inputs| :: g.inputs[i] < |nodes| && nodes[g.inputs[i]].name == w.inputs[i]
  }

  ghost predicate WireNamed(nodes: seq<Node>, e: Endpoint, w: NamedWire) {
    e.node < |nodes| && nodes[e.node].name == w.node && e.pin == w.pin
  }

  /** What parsing promises about the nodes, endpoints and gates it builds. */
  ghost predicate Parsed(ds: seq<Directive>, nodes: seq<Node>, es: seq<Endpoint>, gates: seq<Gate>) {
    && DistinctNames(nodes)
    && NodeNames(nodes) == Names(ds)
    && (forall n | 0 <= n < |nodes| :: nodes[n].pull == LastPull(ds, nodes[n].name))
    && |gates| == |GateLines(ds)| && (forall g | 0 <= g < |gates| :: GateNamed(nodes, gates[g], GateLines(ds)[g]))
    && |es| == |WireLines(ds)| && (forall e | 0 <= e < |es| :: WireNamed(nodes, es[e], WireLines(ds)[e]))
  }

  // ----- two nets with the same names in different places

  ghost predicate SameGate(c: Circuit, g: nat, d: Circuit, h: nat)
    requires c.Valid() && d.Valid() && g < |c.gates| && h < |d.gates|
  {
    && c.gates[g].kind == d.gates[h].kind && |c.gates[g].inputs| == |d.gates[h].inputs|
    && SameNode(c, c.gates[g].output, d, d.gates[h].output)
    && forall i | 0 <= i < |c.gates[g].inputs| :: SameNode(c, c.gates[g].inputs[i], d, d.gates[h].inputs[i])
  }

  ghost predicate SameNode(c: Circuit, n: nat, d: Circuit, m: nat) {
    n < |c.nodes| && m < |d.nodes| && c.nodes[n].name == d.nodes[m].name
  }

  /** Every node and gate of c has a counterpart in d. */
  ghost predicate Covers(c: Circuit, d: Circuit)
    requires c.Valid() && d.Valid()
  {
    && (forall n: nat | n < |c.nodes| :: HasTwinNode(c, n, d))
    && (forall g: nat | g < |c.gates| :: HasTwinGate(c, g, d))
  }

  ghost predicate HasTwinNode(c: Circuit, n: nat, d: Circuit) {
    exists m: nat :: SameNode(c, n, d, m)
  }

  ghost predicate HasTwinGate(c: Circuit, g: nat, d: Circuit)
    requires c.Valid() && d.Valid() && g < |c.gates|
  {
    exists h | 0 <= h < |d.gates| :: SameGate(c, g, d, h)
  }

  ghost predicate Twins(c: Circuit, d: Circuit) {
    && c.Valid() && d.Valid() && DistinctNames(c.nodes) && DistinctNames(d.nodes)
    && Covers(c, d) && Covers(d, c)
    && forall n: nat, m: nat | SameNode(c, n, d, m) :: c.nodes[n].pull == d.nodes[m].pull
  }

  /** Levels agree node name by node name. */
  ghost predicate LevelsAlike(c: Circuit, a: seq<Level>, d: Circuit, b: seq<Level>) {
    |a| == |c.nodes| && |b| == |d.nodes| && forall n: nat, m: nat | SameNode(c, n, d, m) :: a[n] == b[m]
  }

  ghost predicate OutputsAlike(c: Circuit, a: seq<Level>, d: Circuit, b: seq<Level>)
    requires c.Valid() && d.Valid()
  {
    && |a| == |c.gates| && |b| == |d.gates|
    && forall g, h | 0 <= g < |c.gates| && 0 <= h < |d.gates| && SameGate(c, g, d, h) :: a[g] == b[h]
  }

  ghost predicate FlagsAlike(c: Circuit, a: seq<bool>, d: Circuit, b: seq<bool>) {
    |a| == |c.nodes| && |b| == |d.nodes| && forall n: nat, m: nat | SameNode(c, n, d, m) :: a[n] == b[m]
  }

  ghost predicate PinsAlike(c: Circuit, a: seq<PinDrive>, d: Circuit, b: seq<PinDrive>) {
    |a| == |c.nodes| && |b| == |d.nodes| && forall n: nat, m: nat | SameNode(c, n, d, m) :: a[n] == b[m]
  }

  /** The two nets look the same from outside, name by name. */
  ghost predicate Alike(c: Circuit, s: NetState, d: Circuit, t: NetState)
    requires c.Valid() && d.Valid()
  {
    && LevelsAlike(c, s.levels, d, t.levels) && OutputsAlike(c, s.gateOut, d, t.gateOut)
    && FlagsAlike(c, s.warnedConflict, d, t.warnedConflict) && FlagsAlike(c, s.warnedFloat, d, t.warnedFloat)
    && s.warnedOscillation == t.warnedOscillation
  }

  /** Counterpart gates drive counterpart nodes. */
  lemma DriversAlike(c: Circuit, a: seq<Level>, d: Circuit, b: seq<Level>, n: nat, m: nat, v: Level)
    requires Twins(c, d) && OutputsAlike(c, a, d, b) && SameNode(c, n, d, m)
    ensures GateDrives(c, a, n, v) ==> GateDrives(d, b, m, v)
  {
    if g :| 0 <= g < |c.gates| && c.gates[g].output == n && a[g] == v {
      assert HasTwinGate(c, g, d);
      var h :| 0 <= h < |d.gates| && SameGate(c, g, d, h);
      assert d.gates[h].output == m && b[h] == v;
    }
  }

  lemma Mirrored(c: Circuit, a: seq<Level>, d: Circuit, b: seq<Level>)
    requires Twins(c, d) && OutputsAlike(c, a, d, b)
    ensures Twins(d, c) && OutputsAlike(d, b, c, a)
  {
    forall h, g | 0 <= h < |d.gates| && 0 <= g < |c.gates| && SameGate(d, h, c, g)
      ensures b[h] == a[g]
    {
      assert SameGate(c, g, d, h);
    }
    assert forall m: nat, n: nat | SameNode(d, m, c, n) :: SameNode(c, n, d, m);
  }

  lemma NodesAlike(c: Circuit, p: seq<PinDrive>, a: seq<Level>, d: Circuit, q: seq<PinDrive>, b: seq<Level>, n: nat, m: nat)
    requires Twins(c, d) && OutputsAlike(c, a, d, b) && PinsAlike(c, p, d, q) && SameNode(c, n, d, m)
    ensures Resolve(c, p, a, n) == Resolve(d, q, b, m)
    ensures Conflict(c, p, a, n) == Conflict(d, q, b, m)
    ensures FloatsInPass(c, p, a, n) == FloatsInPass(d, q, b, m)
  {
    Mirrored(c, a, d, b);
    DriversAlike(c, a, d, b, n, m, Level0);
    DriversAlike(c, a, d, b, n, m, Level1);
    DriversAlike(c, a, d, b, n, m, LevelX);
    DriversAlike(d, b, c, a, m, n, Level0);
    DriversAlike(d, b, c, a, m, n, Level1);
    DriversAlike(d, b, c, a, m, n, LevelX);
  }

  lemma GatesAlike(c: Circuit, a: seq<Level>, d: Circuit, b: seq<Level>, g: nat, h: nat)
    requires Twins(c, d) && LevelsAlike(c, a, d, b)
    requires g < |c.gates| && h < |d.gates| && SameGate(c, g, d, h)
    ensures GateLevel(c.gates[g], a) == GateLevel(d.gates[h], b)
  {
    var x, y := c.gates[g], d.gates[h];
    forall i | 0 <= i < |x.inputs|
      ensures a[x.inputs[i]] == b[y.inputs[i]]
    {
      assert SameNode(c, x.inputs[i], d, y.inputs[i]);
    }
    forall v: Level
      ensures SomeInput(x, a, v) == SomeInput(y, b, v)
    {
      if i :| 0 <= i < |x.inputs| && a[x.inputs[i]] == v { assert b[y.inputs[i]] == v; }
      if i :| 0 <= i < |y.inputs| && b[y.inputs[i]] == v { assert a[x.inputs[i]] == v; }
    }
  }

  lemma PassLevelsAlike(c: Circuit, p: seq<PinDrive>, s: NetState, d: Circuit, q: seq<PinDrive>, t: NetState)
    requires Twins(c, d) && Fits(c, s) && Fits(d, t) && PinsAlike(c, p, d, q) && Alike(c, s, d, t)
    ensures LevelsAlike(c, Levels(c, p, s.gateOut), d, Levels(d, q, t.gateOut))
    ensures FlagsAlike(c, PassConflicts(c, p, s), d, PassConflicts(d, q, t))
    ensures FlagsAlike(c, PassFloats(c, p, s), d, PassFloats(d, q, t))
  {
    forall n: nat, m: nat | SameNode(c, n, d, m)
      ensures Levels(c, p, s.gateOut)[n] == Levels(d, q, t.gateOut)[m]
      ensures PassConflicts(c, p, s)[n] == PassConflicts(d, q, t)[m]
      ensures PassFloats(c, p, s)[n] == PassFloats(d, q, t)[m]
    {
      NodesAlike(c, p, s.gateOut, d, q, t.gateOut, n, m);
      assert s.warnedConflict[n] == t.warnedConflict[m] && s.warnedFloat[n] == t.warnedFloat[m];
    }
  }

  lemma PassAlike(c: Circuit, p: seq<PinDrive>, s: NetState, d: Circuit, q: seq<PinDrive>, t: NetState)
    requires Twins(c, d) && Fits(c, s) && Fits(d, t) && PinsAlike(c, p, d, q) && Alike(c, s, d, t)
    ensures Alike(c, Pass(c, p, s), d, Pass(d, q, t))
  {
    PassLevelsAlike(c, p, s, d, q, t);
    var a, b := Levels(c, p, s.gateOut), Levels(d, q, t.gateOut);
    forall g, h | 0 <= g < |c.gates| && 0 <= h < |d.gates| && SameGate(c, g, d, h)
      ensures Outputs(c, a)[g] == Outputs(d, b)[h]
    {
      GatesAlike(c, a, d, b, g, h);
    }
  }

  /** A pass that changes nothing in one net changes nothing in its twin. */
  lemma StandstillShared(c: Circuit, s: NetState, s': NetState, d: Circuit, t: NetState, t': NetState)
    requires Twins(c, d) && Fits(c, s) && Fits(c, s') && Fits(d, t) && Fits(d, t')
    requires Alike(c, s, d, t) && Alike(c, s', d, t') && Unchanged(s, s')
    ensures Unchanged(t, t')
  {
    forall m | 0 <= m < |d.nodes|
      ensures t.levels[m] == t'.levels[m]
    {
      assert HasTwinNode(d, m, c);
      var n: nat :| SameNode(d, m, c, n);
      assert SameNode(c, n, d, m);
    }
    forall h | 0 <= h < |d.gates|
      ensures t.gateOut[h] == t'.gateOut[h]
    {
      assert HasTwinGate(d, h, c);
      var g :| 0 <= g < |c.gates| && SameGate(d, h, c, g);
      assert SameGate(c, g, d, h);
    }
  }

  lemma MirroredState(c: Circuit, s: NetState, d: Circuit, t: NetState)
    requires Twins(c, d) && Fits(c, s) && Fits(d, t) && Alike(c, s, d, t)
    ensures Twins(d, c) && Alike(d, t, c, s)
  {
    Mirrored(c, s.gateOut, d, t.gateOut);
    assert forall m: nat, n: nat | SameNode(d, m, c, n) :: SameNode(c, n, d, m);
  }

  lemma {:induction false} SettleAlike(
      c: Circuit, p: seq<PinDrive>, s: NetState, d: Circuit, q: seq<PinDrive>, t: NetState, left: nat)
    requires Twins(c, d) && Fits(c, s) && Fits(d, t) && PinsAlike(c, p, d, q) && Alike(c, s, d, t) && left >= 1
    ensures Alike(c, Settle(c, p, s, left).state, d, Settle(d, q, t, left).state)
    ensures Settle(c, p, s, left).oscillating == Settle(d, q, t, left).oscillating
    decreases left
  {
    hide Twins, Alike, Pass, PinsAlike, PassWarnings, Unchanged;
    TwinsReady(c, p, d, q);
    var s', t' := Pass(c, p, s), Pass(d, q, t);
    PassAlike(c, p, s, d, q, t);
    if Unchanged(s, s') {
      StandstillShared(c, s, s', d, t, t');
    }
    if Unchanged(t, t') {
      MirroredState(c, s, d, t);
      MirroredState(c, s', d, t');
      StandstillShared(d, t, t', c, s, s');
    }
    if !Unchanged(s, s') && left != 1 {
      SettleAlike(c, p, s', d, q, t', left - 1);
    }
  }

  lemma TwinsReady(c: Circuit, p: seq<PinDrive>, d: Circuit, q: seq<PinDrive>)
    requires Twins(c, d) && PinsAlike(c, p, d, q)
    ensures Ready(c, p) && Ready(d, q)
  {
  }

  // ----- from netlist lines to twins

  /** The same lines, possibly in another order or repeated, that give every node
      the same pull. */
  ghost predicate SameNetlist(xs: seq<Directive>, ys: seq<Directive>) {
    && (forall d :: d in xs <==> d in ys)
    && (forall name :: LastPull(xs, name) == LastPull(ys, name))
  }

  lemma {:induction false} LastPullIsALine(ds: seq<Directive>, name: string)
    ensures LastPull(ds, name) != PullNone ==> PullLine(name, LastPull(ds, name) == PullUp) in ds
    ensures LastPull(ds, name) == PullNone ==> forall up :: PullLine(name, up) !in ds
  {
    if |ds| != 0 {
      LastPullIsALine(ds[..|ds|-1], name);
      assert ds == ds[..|ds|-1] + [ds[|ds|-1]];
    }
  }

  /** Any permutation of the lines is the same netlist, provided no node is
      pulled both ways. */
  lemma PermutedLinesAreSameNetlist(xs: seq<Directive>, ys: seq<Directive>)
    requires multiset(xs) == multiset(ys)
    requires forall d, e | d in xs && e in xs && d.PullLine? && e.PullLine? && d.node == e.node :: d.up == e.up
    ensures SameNetlist(xs, ys)
  {
    forall d
      ensures d in xs <==> d in ys
    {
      assert d in xs <==> d in multiset(xs);
      assert d in ys <==> d in multiset(ys);
    }
    forall name
      ensures LastPull(xs, name) == LastPull(ys, name)
    {
      LastPullIsALine(xs, name);
      LastPullIsALine(ys, name);
      assert forall up :: PullLine(name, up) in xs <==> PullLine(name, up) in ys;
    }
  }

  lemma {:induction false} NamesAreMentioned(ds: seq<Directive>, name: string)
    ensures name in Names(ds) <==> exists i | 0 <= i < |ds| :: name in NamesOf(ds[i])
  {
    if |ds| != 0 {
      NamesAreMentioned(ds[..|ds|-1], name);
    }
  }

  lemma SameNames(xs: seq<Directive>, ys: seq<Directive>, name: string)
    requires SameNetlist(xs, ys) && name in Names(xs)
    ensures name in Names(ys)
  {
    NamesAreMentioned(xs, name);
    NamesAreMentioned(ys, name);
    var i :| 0 <= i < |xs| && name in NamesOf(xs[i]);
    assert xs[i] in ys;
  }

  lemma {:induction false} GateLinesAreLines(ds: seq<Directive>, w: NamedGate)
    ensures w in GateLines(ds) <==> exists i | 0 <= i < |ds| :: ds[i].GateLine? && NamedGate(ds[i].kind, ds[i].inputs, ds[i].output) == w
  {
    if |ds| != 0 {
      GateLinesAreLines(ds[..|ds|-1], w);
    }
  }

  lemma {:induction false} WireLinesAreLines(ds: seq<Directive>, w: NamedWire)
    ensures w in WireLines(ds) <==> exists i | 0 <= i < |ds| :: ds[i].WireLine? && NamedWire(ds[i].node, ds[i].pin) == w
  {
    if |ds| != 0 {
      WireLinesAreLines(ds[..|ds|-1], w);
    }
  }

  lemma SameGateLines(xs: seq<Directive>, ys: seq<Directive>, w: NamedGate)
    requires SameNetlist(xs, ys) && w in GateLines(xs)
    ensures w in GateLines(ys)
  {
    GateLinesAreLines(xs, w);
    GateLinesAreLines(ys, w);
    var i :| 0 <= i < |xs| && xs[i].GateLine? && NamedGate(xs[i].kind, xs[i].inputs, xs[i].output) == w;
    assert xs[i] in ys;
  }

  lemma SameWireLines(xs: seq<Directive>, ys: seq<Directive>, w: NamedWire)
    requires SameNetlist(xs, ys) && w in WireLines(xs)
    ensures w in WireLines(ys)
  {
    WireLinesAreLines(xs, w);
    WireLinesAreLines(ys, w);
    var i :| 0 <= i < |xs| && xs[i].WireLine? && NamedWire(xs[i].node, xs[i].pin) == w;
    assert xs[i] in ys;
  }

  lemma ParsedIsValid(ds: seq<Directive>, c: Circuit, es: seq<Endpoint>)
    requires Parsed(ds, c.nodes, es, c.gates)
    ensures c.Valid() && DistinctNames(c.nodes)
    ensures forall e | 0 <= e < |es| :: es[e].node < |c.nodes|
  {
    forall g | 0 <= g < |c.gates|
      ensures c.GateValid(c.gates[g])
    {
      assert GateNamed(c.nodes, c.gates[g], GateLines(ds)[g]);
    }
  }

  lemma ParsedCovers(xs: seq<Directive>, c: Circuit, es: seq<Endpoint>, ys: seq<Directive>, d: Circuit, fs: seq<Endpoint>)
    requires Parsed(xs, c.nodes, es, c.gates) && Parsed(ys, d.nodes, fs, d.gates) && SameNetlist(xs, ys)
    requires c.Valid() && d.Valid()
    ensures Covers(c, d)
  {
    forall n: nat | n < |c.nodes|
      ensures HasTwinNode(c, n, d)
    {
      assert c.nodes[n].name in NodeNames(c.nodes);
      SameNames(xs, ys, c.nodes[n].name);
      assert c.nodes[n].name in NodeNames(d.nodes);
      var m: nat :| m < |d.nodes| && d.nodes[m].name == c.nodes[n].name;
      assert SameNode(c, n, d, m);
    }
    forall g: nat | g < |c.gates|
      ensures HasTwinGate(c, g, d)
    {
      SameGateLines(xs, ys, GateLines(xs)[g]);
      var h :| 0 <= h < |GateLines(ys)| && GateLines(ys)[h] == GateLines(xs)[g];
      assert GateNamed(d.nodes, d.gates[h], GateLines(xs)[g]);
      assert SameGate(c, g, d, h);
    }
  }

  lemma ParsedTwins(xs: seq<Directive>, c: Circuit, es: seq<Endpoint>, ys: seq<Directive>, d: Circuit, fs: seq<Endpoint>)
    requires Parsed(xs, c.nodes, es, c.gates) && Parsed(ys, d.nodes, fs, d.gates) && SameNetlist(xs, ys)
    ensures Twins(c, d)
  {
    ParsedIsValid(xs, c, es);
    ParsedIsValid(ys, d, fs);
    ParsedCovers(xs, c, es, ys, d, fs);
    ParsedCovers(ys, d, fs, xs, c, es);
    forall n: nat, m: nat | SameNode(c, n, d, m)
      ensures c.nodes[n].pull == d.nodes[m].pull
    {
      assert c.nodes[n].pull == LastPull(xs, c.nodes[n].name);
      assert d.nodes[m].pull == LastPull(ys, d.nodes[m].name);
    }
  }

  // ----- pins: both hosts answer alike for the same pin

  ghost predicate EndpointDrives(e: Endpoint, host: Host, d: Drive) {
    e.isOutput && e.handle >= 0 && host.readOutput(e.handle) == d
  }

  /** Endpoints of the two nets that are wired to the same pin are driven alike. */
  ghost predicate HostsAlike(es: seq<Endpoint>, host: Host, fs: seq<Endpoint>, other: Host) {
    forall i, j, v | 0 <= i < |es| && 0 <= j < |fs| && es[i].pin == fs[j].pin ::
      EndpointDrives(es[i], host, v) == EndpointDrives(fs[j], other, v)
  }

  lemma PinReachesTwin(xs: seq<Directive>, c: Circuit, es: seq<Endpoint>, host: Host,
                       ys: seq<Directive>, d: Circuit, fs: seq<Endpoint>, other: Host, n: nat, m: nat, v: Drive)
    requires Parsed(xs, c.nodes, es, c.gates) && Parsed(ys, d.nodes, fs, d.gates) && SameNetlist(xs, ys)
    requires HostsAlike(es, host, fs, other) && SameNode(c, n, d, m)
    ensures PinDrives(es, host, n, v) ==> PinDrives(fs, other, m, v)
  {
    if i :| 0 <= i < |es| && es[i].node == n && es[i].isOutput && es[i].handle >= 0 && host.readOutput(es[i].handle) == v {
      var w := WireLines(xs)[i];
      assert WireNamed(c.nodes, es[i], w);
      SameWireLines(xs, ys, w);
      var j :| 0 <= j < |WireLines(ys)| && WireLines(ys)[j] == w;
      assert WireNamed(d.nodes, fs[j], w);
      assert EndpointDrives(es[i], host, v) && EndpointDrives(fs[j], other, v);
      assert fs[j].node == m;
    }
  }

  lemma ParsedPinsAlike(xs: seq<Directive>, c: Circuit, es: seq<Endpoint>, host: Host,
                        ys: seq<Directive>, d: Circuit, fs: seq<Endpoint>, other: Host)
    requires Parsed(xs, c.nodes, es, c.gates) && Parsed(ys, d.nodes, fs, d.gates) && SameNetlist(xs, ys)
    requires HostsAlike(es, host, fs, other)
    ensures PinsAlike(c, PinsOf(es, host, |c.nodes|), d, PinsOf(fs, other, |d.nodes|))
  {
    forall n: nat, m: nat | SameNode(c, n, d, m)
      ensures PinsOf(es, host, |c.nodes|)[n] == PinsOf(fs, other, |d.nodes|)[m]
    {
      PinReachesTwin(xs, c, es, host, ys, d, fs, other, n, m, Drive0);
      PinReachesTwin(xs, c, es, host, ys, d, fs, other, n, m, Drive1);
      assert HostsAlike(fs, other, es, host);
      PinReachesTwin(ys, d, fs, other, xs, c, es, host, m, n, Drive0);
      PinReachesTwin(ys, d, fs, other, xs, c, es, host, m, n, Drive1);
    }
  }

  // ----- main result

  /** One step of a run: the endpoints (with this step's directions) and the
      host's answers. */
  datatype StepInput = StepInput(endpoints: seq<Endpoint>, host: Host)

  ghost predicate InputsFit(ds: seq<Directive>, c: Circuit, inputs: seq<StepInput>) {
    forall k | 0 <= k < |inputs| :: Parsed(ds, c.nodes, inputs[k].endpoints, c.gates)
  }

  /** The net's state after a whole run from bind. */
  ghost function Ran(c: Circuit, inputs: seq<StepInput>, limit: nat): (r: NetState)
    requires c.Valid() && limit >= 1
    ensures Fits(c, r)
  {
    if |inputs| == 0 then Bound(c)
    else
      var last := inputs[|inputs|-1];
      StepState(c, PinsOf(last.endpoints, last.host, |c.nodes|), Ran(c, inputs[..|inputs|-1], limit), limit)
  }

  lemma StepAlike(xs: seq<Directive>, c: Circuit, s: NetState, i: StepInput,
                  ys: seq<Directive>, d: Circuit, t: NetState, j: StepInput, limit: nat)
    requires Parsed(xs, c.nodes, i.endpoints, c.gates) && Parsed(ys, d.nodes, j.endpoints, d.gates)
    requires SameNetlist(xs, ys) && HostsAlike(i.endpoints, i.host, j.endpoints, j.host)
    requires c.Valid() && d.Valid() && Fits(c, s) && Fits(d, t) && Alike(c, s, d, t) && limit >= 1
    ensures Alike(c, StepState(c, PinsOf(i.endpoints, i.host, |c.nodes|), s, limit),
                  d, StepState(d, PinsOf(j.endpoints, j.host, |d.nodes|), t, limit))
  {
    var p, q := PinsOf(i.endpoints, i.host, |c.nodes|), PinsOf(j.endpoints, j.host, |d.nodes|);
    ParsedTwins(xs, c, i.endpoints, ys, d, j.endpoints);
    ParsedPinsAlike(xs, c, i.endpoints, i.host, ys, d, j.endpoints, j.host);
    hide Twins, PinsAlike, Parsed, SameNetlist, HostsAlike;
    SettleAlike(c, p, s, d, q, t, limit);
  }

  /** Two orderings of the same netlist, run against hosts that treat each pin
      alike, agree on every node name's level and on every warning flag after
      every step, for cyclic and oscillating nets as well. */
  lemma {:induction false} LineOrderIndependence(
      xs: seq<Directive>, c: Circuit, inputs: seq<StepInput>, ys: seq<Directive>, d: Circuit, others: seq<StepInput>, limit: nat)
    requires c.Valid() && d.Valid() && limit >= 1 && SameNetlist(xs, ys)
    requires InputsFit(xs, c, inputs) && InputsFit(ys, d, others) && |inputs| == |others|
    requires forall k | 0 <= k < |inputs| ::
      HostsAlike(inputs[k].endpoints, inputs[k].host, others[k].endpoints, others[k].host)
    ensures Alike(c, Ran(c, inputs, limit), d, Ran(d, others, limit))
  {
    if |inputs| != 0 {
      hide StepState, Alike, SameNetlist, Parsed, HostsAlike;
      var k := |inputs| - 1;
      LineOrderIndependence(xs, c, inputs[..k], ys, d, others[..k], limit);
      assert Parsed(xs, c.nodes, inputs[k].endpoints, c.gates) && Parsed(ys, d.nodes, others[k].endpoints, d.gates);
      StepAlike(xs, c, Ran(c, inputs[..k], limit), inputs[k], ys, d, Ran(d, others[..k], limit), others[k], limit);
    }
  }

  // ----- deliveries

  /** A level goes out to a pin: an endpoint on it is an input now. */
  ghost predicate Delivers(es: seq<Endpoint>, levels: seq<Level>, i: nat, l: Level)
    requires i < |es| && forall e | 0 <= e < |es| :: es[e].node < |levels|
  {
    !es[i].isOutput && es[i].handle >= 0 && levels[es[i].node] == l
  }

  /** What the step hands out, endpoint by endpoint. */
  lemma {:induction false} DeliveredWhere(es: seq<Endpoint>, levels: seq<Level>, k: nat, d: (int, Level))
    requires k <= |es| && forall e | 0 <= e < |es| :: es[e].node < |levels|
    ensures d in Deliveries(es, levels, k) <==> exists i | 0 <= i < k :: es[i].handle == d.0 && Delivers(es, levels, i, d.1)
  {
    if k != 0 {
      DeliveredWhere(es, levels, k - 1, d);
      assert Delivers(es, levels, k - 1, levels[es[k-1].node]) <==> !es[k-1].isOutput && es[k-1].handle >= 0;
    }
  }

  /** Both hosts know each pin, and take it for an input or an output alike. */
  ghost predicate DirectionsAlike(es: seq<Endpoint>, fs: seq<Endpoint>) {
    forall i, j | 0 <= i < |es| && 0 <= j < |fs| && es[i].pin == fs[j].pin ::
      es[i].isOutput == fs[j].isOutput && (es[i].handle >= 0 <==> fs[j].handle >= 0)
  }

  lemma TwinEndpoint(xs: seq<Directive>, c: Circuit, es: seq<Endpoint>, ys: seq<Directive>, d: Circuit, fs: seq<Endpoint>, i: nat)
      returns (j: nat)
    requires Parsed(xs, c.nodes, es, c.gates) && Parsed(ys, d.nodes, fs, d.gates) && SameNetlist(xs, ys) && i < |es|
    ensures j < |fs| && fs[j].pin == es[i].pin && SameNode(c, es[i].node, d, fs[j].node)
  {
    hide SameNetlist, WireLines;
    var w := WireLines(xs)[i];
    assert WireNamed(c.nodes, es[i], w);
    SameWireLines(xs, ys, w);
    j :| 0 <= j < |WireLines(ys)| && WireLines(ys)[j] == w;
    assert WireNamed(d.nodes, fs[j], w);
  }

  /** Pin by pin, two orderings of a netlist deliver the same levels: what the one
      hands out for an endpoint, the other hands out for an endpoint on the same
      pin. With LineOrderIndependence this holds after every step of every run. */
  lemma DeliveriesAlike(xs: seq<Directive>, c: Circuit, es: seq<Endpoint>, a: seq<Level>,
                        ys: seq<Directive>, d: Circuit, fs: seq<Endpoint>, b: seq<Level>, i: nat, l: Level)
    requires Parsed(xs, c.nodes, es, c.gates) && Parsed(ys, d.nodes, fs, d.gates) && SameNetlist(xs, ys)
    requires LevelsAlike(c, a, d, b) && DirectionsAlike(es, fs) && i < |es|
    requires (forall e | 0 <= e < |es| :: es[e].node < |a|) && (forall e | 0 <= e < |fs| :: fs[e].node < |b|)
    requires Delivers(es, a, i, l)
    ensures exists j | 0 <= j < |fs| :: fs[j].pin == es[i].pin && (fs[j].handle, l) in Deliveries(fs, b, |fs|)
  {
    hide Parsed, SameNetlist, Deliveries;
    var j := TwinEndpoint(xs, c, es, ys, d, fs, i);
    assert Delivers(fs, b, j, l);
    DeliveredWhere(fs, b, |fs|, (fs[j].handle, l));
    assert fs[j].pin == es[i].pin && (fs[j].handle, l) in Deliveries(fs, b, |fs|);
  }
}
