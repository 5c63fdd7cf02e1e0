/** The whole machine as values: processor, MC6850 and, optionally, a netlist.
    One cycle is the step callbacks, the net, and one instruction. */
module BoardModel {
  import opened Wrappers
  import opened CpuArith
  import opened CpuModel
  import opened CpuRuns
  import A = AciaModel
  import N = NetModel

  // ----- pins

  datatype CpuLine = RST75 | RST65 | RST55 | TRAP | SID | SOD

  /** What a wire endpoint is bound to. Pins of other plugins answer as their
      owners please. */
  datatype Pin = CpuPin(line: CpuLine) | AciaIrq | AciaRts | OtherPin(index: nat)

  /** Everything a cycle gets from outside: the signals other plugins raise
      before and after the MC6850's turn, their memory regions and port values,
      the step number, the bytes arriving on the MC6850's live channels, and the
      state of the other plugins' pins. */
  datatype Outside = Outside(
    before: seq<Signal>, after: seq<Signal>, env: Env, step: nat, live: seq<byte>,
    drives: nat -> N.Drive, directions: nat -> bool)

  function DriveOf(level: bool): N.Drive {
    if level then N.Drive1 else N.Drive0
  }

  /** What a pin puts on its wire. /IRQ is open-drain: low, or let go. */
  function PinOutput(pin: Pin, sod: bool, acia: A.Acia, x: Outside): N.Drive {
    match pin
    case CpuPin(line) => if line == SOD then DriveOf(sod) else N.DriveZ
    case AciaIrq => if A.Irq(acia) then N.Drive0 else N.DriveZ
    case AciaRts => DriveOf(acia.rtsAsserted)
    case OtherPin(index) => x.drives(index)
  }

  function PinIsOutput(pin: Pin, x: Outside): bool {
    match pin
    case CpuPin(line) => line == SOD
    case AciaIrq => true
    case AciaRts => true
    case OtherPin(index) => x.directions(index)
  }

  /** The answers the net gets; a handle outside the table is a dead input. */
  function HostOf(table: seq<Pin>, sod: bool, acia: A.Acia, x: Outside): N.Host {
    N.Host(h => if 0 <= h < |table| then PinOutput(table[h], sod, acia, x) else N.DriveZ,
           Some(h => 0 <= h < |table| && PinIsOutput(table[h], x)))
  }

  /** A level arriving at a pin; unknown counts as low. */
  function PinInput(c: Cpu, pin: Pin, level: N.Level): Cpu {
    var active := level == N.Level1;
    match pin
    case CpuPin(RST75) => Trigger(c, 75, active)
    case CpuPin(RST65) => Trigger(c, 65, active)
    case CpuPin(RST55) => Trigger(c, 55, active)
    case CpuPin(TRAP) => Trigger(c, 45, active)
    case CpuPin(SID) => c.(lines := c.lines.(sid := active))
    case _ => c
  }

  function Delivered(table: seq<Pin>, c: Cpu, ds: seq<(int, N.Level)>): Cpu {
    if |ds| == 0 then c
    else
      var (h, level) := ds[|ds|-1];
      var d := Delivered(table, c, ds[..|ds|-1]);
      if 0 <= h < |table| then PinInput(d, table[h], level) else d
  }

  // ----- the board

  datatype Wiring = Unwired | Wired(circuit: N.Circuit, table: seq<Pin>)

  /** The net's state and endpoints mean nothing when there is no netlist. */
  datatype Board = Board(cpu: Cpu, acia: A.Acia, net: N.NetState, endpoints: seq<N.Endpoint>)

  ghost predicate BoardFits(w: Wiring, b: Board) {
    w.Wired? ==>
      && w.circuit.Valid() && N.Fits(w.circuit, b.net)
      && forall e | 0 <= e < |b.endpoints| :: b.endpoints[e].node < |w.circuit.nodes|
  }

  /** The plugins' turn: with no netlist the MC6850 sets the RST 7.5 latch itself. */
  function PluginsStep(direct: bool, b: Board, x: Outside): Board {
    var acia := A.OnStep(b.acia, x.step, x.live);
    var c := Signalled(b.cpu, x.before);
    var d := if direct && A.Irq(acia) then Trigger(c, 75, true) else c;
    b.(acia := acia, cpu := Signalled(d, x.after))
  }

  /** The net's turn. */
  ghost function NetStep(w: Wiring, b: Board, x: Outside): (r: Board)
    requires w.Wired? && BoardFits(w, b)
    ensures BoardFits(w, r) && r.acia == b.acia
  {
    var host := HostOf(w.table, b.cpu.sod, b.acia, x);
    var es := N.RefreshedAll(b.endpoints, host);
    var s := N.StepState(w.circuit, N.PinsOf(es, host, |w.circuit.nodes|), b.net, N.MAX_PASSES);
    Board(Delivered(w.table, b.cpu, N.Deliveries(es, s.levels, |es|)), b.acia, s, es)
  }

  ghost function BeforeInstruction(w: Wiring, b: Board, x: Outside): (r: Board)
    requires BoardFits(w, b)
    ensures BoardFits(w, r) && r.acia == A.OnStep(b.acia, x.step, x.live)
  {
    var p := PluginsStep(w.Unwired?, b, x);
    if w.Unwired? then p else NetStep(w, p, x)
  }

  /** The instruction's port access, seen by the MC6850. */
  function AfterAccess(a: A.Acia, event: IoEvent): A.Acia {
    match event
    case NoIo => a
    case InRead(port, _) => A.AfterRead(a, port)
    case OutWrite(port, value) => A.AfterWrite(a, port, value)
  }

  function EnvOf(x: Outside, a: A.Acia): Env {
    x.env.(portIn := x.env.portIn + A.PortIn(a))
  }

  /** One instruction with the MC6850 on the ports. */
  function Instruction(b: Board, x: Outside): Board {
    var o := Step(EnvOf(x, b.acia), b.cpu);
    b.(cpu := o.cpu, acia := AfterAccess(b.acia, o.event))
  }

  ghost function Cycle(w: Wiring, b: Board, x: Outside): (r: Board)
    requires BoardFits(w, b)
    ensures BoardFits(w, r)
  {
    Instruction(BeforeInstruction(w, b, x), x)
  }

  ghost function Run(w: Wiring, b: Board, xs: seq<Outside>): (r: Board)
    requires BoardFits(w, b)
    ensures BoardFits(w, r)
  {
    if |xs| == 0 then b else Cycle(w, Run(w, b, xs[..|xs|-1]), xs[|xs|-1])
  }
}
