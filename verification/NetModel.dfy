/** The tri-state logic net as values: the circuit a netlist describes, the two
    halves of one settle pass, the bounded settle loop and a whole net step.
    The class in NetEngine.dfy is proved to compute exactly these functions;
    the other Net*.dfy files prove what the functions promise. */
module NetModel {
  import opened Wrappers

  datatype Drive = Drive0 | Drive1 | DriveZ
  datatype Level = Level0 | Level1 | LevelX
  datatype Pull = PullNone | PullUp | PullDown
  datatype GateType = INV | BUF | AND | OR | NAND | NOR

  datatype Node = Node(name: string, pull: Pull)
  datatype Gate = Gate(kind: GateType, inputs: seq<nat>, output: nat)
  datatype Endpoint = Endpoint(node: nat, pin: string, handle: int, isOutput: bool)

  /** The part of a net that parsing fixes. */
  datatype Circuit = Circuit(nodes: seq<Node>, gates: seq<Gate>) {
    ghost predicate Valid() {
      forall g | 0 <= g < |gates| :: GateValid(gates[g])
    }

    ghost predicate GateValid(gate: Gate) {
      gate.output < |nodes| && forall i | 0 <= i < |gate.inputs| :: gate.inputs[i] < |nodes|
    }
  }

  /** What the pins do to one node: some output pin drives 0, some drives 1. */
  datatype PinDrive = PinDrive(has0: bool, has1: bool)

  /** The host's answers during one step. `liveDirection` is None when the host
      supplies no direction callback and bind-time directions stand. */
  datatype Host = Host(readOutput: int -> Drive, liveDirection: Option<int -> bool>)

  datatype Warning = ConflictOnNode | FloatingNode | Oscillation

  /** The part of a net that steps change. */
  datatype NetState = NetState(
    levels: seq<Level>, gateOut: seq<Level>,
    warnedConflict: seq<bool>, warnedFloat: seq<bool>, warnedOscillation: bool)

  ghost predicate Fits(c: Circuit, s: NetState) {
    && |s.levels| == |s.warnedConflict| == |s.warnedFloat| == |c.nodes|
    && |s.gateOut| == |c.gates|
  }

  const MAX_PASSES := 16

  // ----- gates

  ghost predicate SomeInput(gate: Gate, levels: seq<Level>, v: Level)
    requires forall i | 0 <= i < |gate.inputs| :: gate.inputs[i] < |levels|
  {
    exists i | 0 <= i < |gate.inputs| :: levels[gate.inputs[i]] == v
  }

  function Not(v: Level): Level {
    match v
    case Level0 => Level1
    case Level1 => Level0
    case LevelX => LevelX
  }

  ghost function Conjunction(gate: Gate, levels: seq<Level>): Level
    requires forall i | 0 <= i < |gate.inputs| :: gate.inputs[i] < |levels|
  {
    if SomeInput(gate, levels, Level0) then Level0
    else if SomeInput(gate, levels, LevelX) then LevelX else Level1
  }

  ghost function Disjunction(gate: Gate, levels: seq<Level>): Level
    requires forall i | 0 <= i < |gate.inputs| :: gate.inputs[i] < |levels|
  {
    if SomeInput(gate, levels, Level1) then Level1
    else if SomeInput(gate, levels, LevelX) then LevelX else Level0
  }

  /** The three-valued meaning of a gate. */
  ghost function GateLevel(gate: Gate, levels: seq<Level>): Level
    requires forall i | 0 <= i < |gate.inputs| :: gate.inputs[i] < |levels|
  {
    match gate.kind
    case INV => if |gate.inputs| != 1 then LevelX else Not(levels[gate.inputs[0]])
    case BUF => if |gate.inputs| != 1 then LevelX else levels[gate.inputs[0]]
    case AND => Conjunction(gate, levels)
    case OR => Disjunction(gate, levels)
    case NAND => Not(Conjunction(gate, levels))
    case NOR => Not(Disjunction(gate, levels))
  }

  lemma OutputsExist(c: Circuit, levels: seq<Level>)
    requires c.Valid() && |levels| == |c.nodes|
    ensures exists r: seq<Level> :: |r| == |c.gates| && forall g | 0 <= g < |r| :: r[g] == GateLevel(c.gates[g], levels)
  {
    var r := seq(|c.gates|, g requires 0 <= g < |c.gates| => GateLevel(c.gates[g], levels));
    assert |r| == |c.gates| && forall g | 0 <= g < |r| :: r[g] == GateLevel(c.gates[g], levels);
  }

  /** Every gate's output, given the levels of all nodes. (The narrow trigger
      keeps a pass folded until a proof asks about one gate.) */
  ghost function Outputs(c: Circuit, levels: seq<Level>): (r: seq<Level>)
    requires c.Valid() && |levels| == |c.nodes|
    ensures |r| == |c.gates|
    ensures forall g {:trigger GateLevel(c.gates[g], levels)} | 0 <= g < |c.gates| :: r[g] == GateLevel(c.gates[g], levels)
  {
    OutputsExist(c, levels);
    var r :| |r| == |c.gates| &&
      forall g {:trigger GateLevel(c.gates[g], levels)} | 0 <= g < |c.gates| :: r[g] == GateLevel(c.gates[g], levels);
    r
  }

  // ----- nodes

  /** Some gate whose output is node n currently puts out v. */
  ghost predicate GateDrives(c: Circuit, gateOut: seq<Level>, n: nat, v: Level)
    requires |gateOut| == |c.gates|
  {
    exists g | 0 <= g < |c.gates| :: c.gates[g].output == n && gateOut[g] == v
  }

  ghost predicate Drives0(c: Circuit, pins: seq<PinDrive>, gateOut: seq<Level>, n: nat)
    requires |pins| == |c.nodes| && |gateOut| == |c.gates| && n < |c.nodes|
  {
    pins[n].has0 || GateDrives(c, gateOut, n, Level0)
  }

  ghost predicate Drives1(c: Circuit, pins: seq<PinDrive>, gateOut: seq<Level>, n: nat)
    requires |pins| == |c.nodes| && |gateOut| == |c.gates| && n < |c.nodes|
  {
    pins[n].has1 || GateDrives(c, gateOut, n, Level1)
  }

  /** Two settled drivers push node n opposite ways. */
  ghost predicate Conflict(c: Circuit, pins: seq<PinDrive>, gateOut: seq<Level>, n: nat)
    requires |pins| == |c.nodes| && |gateOut| == |c.gates| && n < |c.nodes|
  {
    Drives0(c, pins, gateOut, n) && Drives1(c, pins, gateOut, n)
  }

  ghost predicate Undriven(c: Circuit, pins: seq<PinDrive>, gateOut: seq<Level>, n: nat)
    requires |pins| == |c.nodes| && |gateOut| == |c.gates| && n < |c.nodes|
  {
    && !Drives0(c, pins, gateOut, n) && !Drives1(c, pins, gateOut, n)
    && !GateDrives(c, gateOut, n, LevelX)
  }

  /** The branch of a pass in which node n is reported as floating. */
  ghost predicate FloatsInPass(c: Circuit, pins: seq<PinDrive>, gateOut: seq<Level>, n: nat)
    requires |pins| == |c.nodes| && |gateOut| == |c.gates| && n < |c.nodes|
  {
    Undriven(c, pins, gateOut, n) && c.nodes[n].pull == PullNone
  }

  function PullLevel(pull: Pull): Level {
    match pull
    case PullUp => Level1
    case PullDown => Level0
    case PullNone => LevelX
  }

  ghost function Resolve(c: Circuit, pins: seq<PinDrive>, gateOut: seq<Level>, n: nat): Level
    requires |pins| == |c.nodes| && |gateOut| == |c.gates| && n < |c.nodes|
  {
    if Conflict(c, pins, gateOut, n) then LevelX
    else if GateDrives(c, gateOut, n, LevelX) then LevelX
    else if Drives0(c, pins, gateOut, n) then Level0
    else if Drives1(c, pins, gateOut, n) then Level1
    else PullLevel(c.nodes[n].pull)
  }

  lemma LevelsExist(c: Circuit, pins: seq<PinDrive>, gateOut: seq<Level>)
    requires |pins| == |c.nodes| && |gateOut| == |c.gates|
    ensures exists r: seq<Level> :: |r| == |c.nodes| && forall n | 0 <= n < |r| :: r[n] == Resolve(c, pins, gateOut, n)
  {
    var r := seq(|c.nodes|, n requires 0 <= n < |c.nodes| => Resolve(c, pins, gateOut, n));
    assert |r| == |c.nodes| && forall n | 0 <= n < |r| :: r[n] == Resolve(c, pins, gateOut, n);
  }

  /** Every node's level, given the outputs of all gates. */
  ghost function Levels(c: Circuit, pins: seq<PinDrive>, gateOut: seq<Level>): (r: seq<Level>)
    requires |pins| == |c.nodes| && |gateOut| == |c.gates|
    ensures |r| == |c.nodes|
    ensures forall n {:trigger Resolve(c, pins, gateOut, n)} | 0 <= n < |c.nodes| :: r[n] == Resolve(c, pins, gateOut, n)
  {
    LevelsExist(c, pins, gateOut);
    var r :| |r| == |c.nodes| &&
      forall n {:trigger Resolve(c, pins, gateOut, n)} | 0 <= n < |c.nodes| :: r[n] == Resolve(c, pins, gateOut, n);
    r
  }

  /** One full pass seen from the gates: resolve every node, then every gate. */
  ghost function Advance(c: Circuit, pins: seq<PinDrive>, gateOut: seq<Level>): (r: seq<Level>)
    requires c.Valid() && |pins| == |c.nodes| && |gateOut| == |c.gates|
    ensures |r| == |c.gates|
  {
    Outputs(c, Levels(c, pins, gateOut))
  }

  /** A simultaneous solution of all node equations and all gate equations. */
  ghost predicate Solves(c: Circuit, pins: seq<PinDrive>, levels: seq<Level>, gateOut: seq<Level>)
    requires c.Valid() && |pins| == |c.nodes|
  {
    && |levels| == |c.nodes| && |gateOut| == |c.gates|
    && levels == Levels(c, pins, gateOut)
    && gateOut == Outputs(c, levels)
  }

  // ----- one pass over the state, with its warnings

  /** Which nodes have a conflict recorded after a pass. */
  ghost function PassConflicts(c: Circuit, pins: seq<PinDrive>, s: NetState): (r: seq<bool>)
    requires |pins| == |c.nodes| && Fits(c, s)
    ensures |r| == |c.nodes|
    ensures forall n {:trigger s.warnedConflict[n]} | 0 <= n < |c.nodes| ::
      r[n] == (s.warnedConflict[n] || Conflict(c, pins, s.gateOut, n))
  {
    ConflictsExist(c, pins, s);
    var r :| |r| == |c.nodes| && forall n {:trigger s.warnedConflict[n]} | 0 <= n < |c.nodes| ::
      r[n] == (s.warnedConflict[n] || Conflict(c, pins, s.gateOut, n));
    r
  }

  lemma ConflictsExist(c: Circuit, pins: seq<PinDrive>, s: NetState)
    requires |pins| == |c.nodes| && Fits(c, s)
    ensures exists r: seq<bool> :: |r| == |c.nodes| && forall n | 0 <= n < |r| ::
      r[n] == (s.warnedConflict[n] || Conflict(c, pins, s.gateOut, n))
  {
    var r := seq(|c.nodes|, n requires 0 <= n < |c.nodes| => s.warnedConflict[n] || Conflict(c, pins, s.gateOut, n));
    assert |r| == |c.nodes| && forall n | 0 <= n < |r| ::
      r[n] == (s.warnedConflict[n] || Conflict(c, pins, s.gateOut, n));
  }

  /** Which nodes have been recorded as floating after a pass. */
  ghost function PassFloats(c: Circuit, pins: seq<PinDrive>, s: NetState): (r: seq<bool>)
    requires |pins| == |c.nodes| && Fits(c, s)
    ensures |r| == |c.nodes|
    ensures forall n {:trigger s.warnedFloat[n]} | 0 <= n < |c.nodes| ::
      r[n] == (s.warnedFloat[n] || FloatsInPass(c, pins, s.gateOut, n))
  {
    FloatsExist(c, pins, s);
    var r :| |r| == |c.nodes| && forall n {:trigger s.warnedFloat[n]} | 0 <= n < |c.nodes| ::
      r[n] == (s.warnedFloat[n] || FloatsInPass(c, pins, s.gateOut, n));
    r
  }

  lemma FloatsExist(c: Circuit, pins: seq<PinDrive>, s: NetState)
    requires |pins| == |c.nodes| && Fits(c, s)
    ensures exists r: seq<bool> :: |r| == |c.nodes| && forall n | 0 <= n < |r| ::
      r[n] == (s.warnedFloat[n] || FloatsInPass(c, pins, s.gateOut, n))
  {
    var r := seq(|c.nodes|, n requires 0 <= n < |c.nodes| => s.warnedFloat[n] || FloatsInPass(c, pins, s.gateOut, n));
    assert |r| == |c.nodes| && forall n | 0 <= n < |r| ::
      r[n] == (s.warnedFloat[n] || FloatsInPass(c, pins, s.gateOut, n));
  }

  ghost function Pass(c: Circuit, pins: seq<PinDrive>, s: NetState): (r: NetState)
    requires c.Valid() && |pins| == |c.nodes| && Fits(c, s)
    ensures Fits(c, r)
  {
    var levels := Levels(c, pins, s.gateOut);
    NetState(levels, Outputs(c, levels), PassConflicts(c, pins, s), PassFloats(c, pins, s), s.warnedOscillation)
  }

  /** The warnings node n raises in a pass that starts in s. */
  ghost function NodeWarnings(c: Circuit, pins: seq<PinDrive>, s: NetState, n: nat): seq<Warning>
    requires |pins| == |c.nodes| && Fits(c, s) && n < |c.nodes|
  {
    if Conflict(c, pins, s.gateOut, n) && !s.warnedConflict[n] then [ConflictOnNode]
    else if FloatsInPass(c, pins, s.gateOut, n) && !s.warnedFloat[n] then [FloatingNode]
    else []
  }

  /** The warnings of nodes 0 to n-1, in the order the pass raises them. */
  ghost function PassWarnings(c: Circuit, pins: seq<PinDrive>, s: NetState, n: nat): seq<Warning>
    requires |pins| == |c.nodes| && Fits(c, s) && n <= |c.nodes|
  {
    if n == 0 then [] else PassWarnings(c, pins, s, n - 1) + NodeWarnings(c, pins, s, n - 1)
  }

  // ----- the settle loop

  datatype Settled = Settled(state: NetState, oscillating: bool, warnings: seq<Warning>)

  ghost predicate Unchanged(s: NetState, t: NetState) {
    t.levels == s.levels && t.gateOut == s.gateOut
  }

  /** The settle loop with `left` passes to go. */
  ghost function Settle(c: Circuit, pins: seq<PinDrive>, s: NetState, left: nat): (r: Settled)
    requires c.Valid() && |pins| == |c.nodes| && Fits(c, s) && left >= 1
    ensures Fits(c, r.state)
    decreases left
  {
    var t := Pass(c, pins, s);
    var w := PassWarnings(c, pins, s, |c.nodes|);
    if Unchanged(s, t) then Settled(t, false, w)
    else if left == 1 then Settled(t, true, w)
    else
      var rest := Settle(c, pins, t, left - 1);
      Settled(rest.state, rest.oscillating, w + rest.warnings)
  }

  /** The state and the warnings of one net step under given pin drives. The
      program's limit is MAX_PASSES; the theory holds for every limit. */
  ghost function StepState(c: Circuit, pins: seq<PinDrive>, s: NetState, limit: nat): (r: NetState)
    requires c.Valid() && |pins| == |c.nodes| && Fits(c, s) && limit >= 1
    ensures Fits(c, r)
  {
    var settled := Settle(c, pins, s, limit);
    settled.state.(warnedOscillation := s.warnedOscillation || settled.oscillating)
  }

  ghost function StepWarnings(c: Circuit, pins: seq<PinDrive>, s: NetState, limit: nat): seq<Warning>
    requires c.Valid() && |pins| == |c.nodes| && Fits(c, s) && limit >= 1
  {
    var settled := Settle(c, pins, s, limit);
    settled.warnings + if settled.oscillating && !s.warnedOscillation then [Oscillation] else []
  }

  /** The state bind leaves behind: everything unknown, no warning given. */
  ghost function Bound(c: Circuit): (r: NetState)
    ensures Fits(c, r)
  {
    NetState(Unknown(|c.nodes|), Unknown(|c.gates|), Clear(|c.nodes|), Clear(|c.nodes|), false)
  }

  function Unknown(n: nat): (r: seq<Level>)
    ensures |r| == n && forall i | 0 <= i < n :: r[i] == LevelX
  {
    seq(n, _ => LevelX)
  }

  function Clear(n: nat): (r: seq<bool>)
    ensures |r| == n && forall i | 0 <= i < n :: !r[i]
  {
    seq(n, _ => false)
  }

  // ----- endpoints and the host

  /** Endpoint directions as the step sees them. */
  function Refreshed(e: Endpoint, host: Host): Endpoint {
    if host.liveDirection.Some? && e.handle >= 0 then e.(isOutput := host.liveDirection.value(e.handle)) else e
  }

  function RefreshedAll(es: seq<Endpoint>, host: Host): (r: seq<Endpoint>)
    ensures |r| == |es| && forall i | 0 <= i < |es| :: r[i] == Refreshed(es[i], host)
  {
    seq(|es|, i requires 0 <= i < |es| => Refreshed(es[i], host))
  }

  ghost predicate PinDrives(es: seq<Endpoint>, host: Host, n: nat, d: Drive) {
    exists i | 0 <= i < |es| ::
      es[i].node == n && es[i].isOutput && es[i].handle >= 0 && host.readOutput(es[i].handle) == d
  }

  /** What the (refreshed) endpoints contribute to each of `count` nodes. */
  ghost function PinsOf(es: seq<Endpoint>, host: Host, count: nat): (r: seq<PinDrive>)
    ensures |r| == count
    ensures forall n | 0 <= n < count ::
      r[n] == PinDrive(PinDrives(es, host, n, Drive0), PinDrives(es, host, n, Drive1))
  {
    seq(count, n requires 0 <= n < count => PinDrive(PinDrives(es, host, n, Drive0), PinDrives(es, host, n, Drive1)))
  }

  /** The deliveries to endpoints 0 to k-1 that are inputs now. */
  ghost function Deliveries(es: seq<Endpoint>, levels: seq<Level>, k: nat): seq<(int, Level)>
    requires k <= |es| && forall i | 0 <= i < |es| :: es[i].node < |levels|
  {
    if k == 0 then []
    else Deliveries(es, levels, k - 1) +
         if !es[k-1].isOutput && es[k-1].handle >= 0 then [(es[k-1].handle, levels[es[k-1].node])] else []
  }
}
