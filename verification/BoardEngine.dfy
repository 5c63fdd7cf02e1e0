/** The runtime that ties the machine together, as the program keeps it: one
    object over the processor, the MC6850 and the net, whose step callback and
    pin callbacks update them in place. */
module BoardEngine {
  import opened Wrappers
  import opened CpuArith
  import opened CpuModel
  import R = CpuRuns
  import E = CpuEngine
  import AE = AciaEngine
  import A = AciaModel
  import N = NetModel
  import W = NetNames
  import NE = NetEngine
  import opened M = BoardModel
  import BoardRuns

  class Runtime {
    const state: E.State8085
    const acia: AE.Mc6850
    const net: NE.Net
    const stats: E.ExecutionStats
    var wiring: bool
    var pinTable: seq<Pin>

    ghost predicate Valid()
      reads this, state, net, stats
    {
      state.Valid() && net.Valid() && 0 <= stats.totalTstates < E.U64
    }

    /** The net in use has been bound since its last line was parsed. */
    ghost predicate Ready()
      reads this, state, net, stats
    {
      Valid() && (wiring ==> net.Sized())
    }

    ghost function View(): Board
      requires Valid()
      reads this, state, state.memory, state.io, acia, net, stats
    {
      Board(state.View(), acia.View(), net.State(), net.endpoints)
    }

    ghost function Netlist(): Wiring
      reads this, net
    {
      if wiring then Wired(net.Wiring(), pinTable) else Unwired
    }

    constructor (cpu: E.State8085, chip: AE.Mc6850)
      requires cpu.Valid()
      ensures Valid() && state == cpu && acia == chip && fresh(net) && fresh(stats) && !wiring
      ensures W.Parsed([], net.nodes, net.endpoints, net.gates) && pinTable == []
    {
      state, acia := cpu, chip;
      net := new NE.Net();
      stats := new E.ExecutionStats();
      wiring, pinTable := false, [];
    }

    /** Look up each wire's pin in turn, giving it the next handle, up to the first
        pin nobody knows. */
    static method ResolvePins(es: seq<N.Endpoint>, resolve: string -> Option<Pin>, known: seq<Pin>, x: Outside)
        returns (answers: seq<(int, bool)>, table: seq<Pin>)
      ensures |answers| == |es| && known <= table
      ensures forall e | 0 <= e < |es| && answers[e].0 >= 0 :: Answered(es[e].pin, answers[e].0, table, resolve)
      ensures (forall e | 0 <= e < |es| :: answers[e].0 >= 0) <==> (forall e | 0 <= e < |es| :: resolve(es[e].pin).Some?)
    {
      answers, table := [], known;
      var failed := false;
      ghost var bad := 0;
      for i := 0 to |es|
        invariant |answers| == i && known <= table
        invariant failed ==> 0 <= bad < i && resolve(es[bad].pin).None? && answers[bad].0 < 0
        invariant !failed ==> forall e | 0 <= e < i :: resolve(es[e].pin).Some? && answers[e].0 >= 0
        invariant forall e | 0 <= e < i && answers[e].0 >= 0 :: Answered(es[e].pin, answers[e].0, table, resolve)
      {
        match resolve(es[i].pin) {
          case None =>
            failed, bad := true, i;
            answers := answers + [(-1, false)];
          case Some(pin) =>
            answers := answers + [(if failed then -1 else |table|, PinIsOutput(pin, x))];
            table := if failed then table else table + [pin];
        }
      }
    }

    static predicate Answered(pin: string, handle: int, table: seq<Pin>, resolve: string -> Option<Pin>) {
      0 <= handle < |table| && resolve(pin) == Some(table[handle])
    }

    /** Parse, resolve and bind, on top of whatever was loaded before. An unknown
        pin fails the load and switches no wiring on. */
    method LoadNetlist(ds: seq<W.Directive>, ghost earlier: seq<W.Directive>, resolve: string -> Option<Pin>, x: Outside)
        returns (ok: bool)
      requires Valid() && W.Parsed(earlier, net.nodes, net.endpoints, net.gates)
      modifies this`wiring, this`pinTable, net
      ensures Valid() && wiring == (old(wiring) || ok) && (ok ==> Ready())
      ensures W.Parsed(earlier + ds, net.nodes, net.endpoints, net.gates)
      ensures ok <==> forall e | 0 <= e < |net.endpoints| :: resolve(net.endpoints[e].pin).Some?
      ensures ok ==> forall e | 0 <= e < |net.endpoints| ::
        && resolve(net.endpoints[e].pin).Some?
        && BoardRuns.At(pinTable, net.endpoints[e], resolve(net.endpoints[e].pin).value)
    {
      net.Parse(ds, earlier);
      var answers, table := ResolvePins(net.endpoints, resolve, pinTable, x);
      ghost var parsed := net.endpoints;
      ok := net.Bind(answers);
      pinTable, wiring := table, wiring || ok;
      NE.RenamedParse(earlier + ds, net.nodes, parsed, net.endpoints, net.gates);
      assert ok ==> forall e | 0 <= e < |parsed| :: Answered(parsed[e].pin, answers[e].0, table, resolve);
      hide W.Parsed;
    }

    /** What other plugins do to the processor's lines in their turn. */
    method Raise(signals: seq<R.Signal>)
      requires Ready()
      modifies state`lines
      ensures Ready() && View() == old(View()).(cpu := R.Signalled(old(state.View()), signals))
    {
      for i := 0 to |signals|
        invariant Ready() && View() == old(View()).(cpu := R.Signalled(old(state.View()), signals[..i]))
      {
        assert signals[..i + 1][..i] == signals[..i];
        match signals[i]
        case Interrupt(code, active) => var enabled := state.TriggerInterrupt(code, active);
        case SerialIn(level) => state.SetSidLine(level);
      }
      assert signals[..|signals|] == signals;
    }

    /** The net's answer for one input pin. */
    method WriteInput(handle: int, level: N.Level)
      requires Ready()
      modifies state`lines
      ensures Ready() && View() == old(View()).(cpu := Delivered(pinTable, old(state.View()), [(handle, level)]))
    {
      if handle < 0 || handle >= |pinTable| {
        return;
      }
      var active := level == N.Level1;
      match pinTable[handle]
      case CpuPin(RST75) => var enabled := state.TriggerInterrupt(75, active);
      case CpuPin(RST65) => var enabled := state.TriggerInterrupt(65, active);
      case CpuPin(RST55) => var enabled := state.TriggerInterrupt(55, active);
      case CpuPin(TRAP) => var enabled := state.TriggerInterrupt(45, active);
      case CpuPin(SID) => state.SetSidLine(active);
      case _ =>
    }

    /** The deliveries of a step, in order. */
    method DeliverAll(delivered: seq<(int, N.Level)>)
      requires Ready()
      modifies state`lines
      ensures Ready() && View() == old(View()).(cpu := Delivered(pinTable, old(state.View()), delivered))
    {
      ghost var before := state.View();
      for i := 0 to |delivered|
        invariant Ready() && View() == old(View()).(cpu := Delivered(pinTable, before, delivered[..i]))
      {
        assert delivered[..i + 1][..i] == delivered[..i];
        OneDelivery(pinTable, before, delivered[..i], delivered[i]);
        assert delivered[..i] + [delivered[i]] == delivered[..i + 1];
        hide Delivered;
        WriteInput(delivered[i].0, delivered[i].1);
      }
      assert delivered[..|delivered|] == delivered;
    }

    lemma OneDelivery(table: seq<Pin>, c: Cpu, ds: seq<(int, N.Level)>, d: (int, N.Level))
      ensures Delivered(table, c, ds + [d]) == Delivered(table, Delivered(table, c, ds), [d])
    {
      hide PinInput;
      assert (ds + [d])[..|ds|] == ds && [d][..0] == [];
    }

    method StepNet(x: Outside)
      requires Ready() && wiring
      modifies state`lines, net
      ensures Ready() && Netlist() == old(Netlist())
      ensures BoardFits(old(Netlist()), old(View())) && View() == NetStep(old(Netlist()), old(View()), x)
    {
      hide Delivered, N.StepState, N.StepWarnings, HostOf;
      var host := HostOf(pinTable, state.sodLine, acia.View(), x);
      var warnings, delivered := net.Step(host);
      DeliverAll(delivered);
    }

    /** The runtime's step callback: every plugin, then the net. */
    method OnStep(x: Outside)
      requires Ready()
      modifies state`lines, acia, net
      ensures Ready() && Netlist() == old(Netlist())
      ensures BoardFits(old(Netlist()), old(View())) && View() == BeforeInstruction(old(Netlist()), old(View()), x)
    {
      Raise(x.before);
      acia.OnStep(state, x.step, x.live, wiring);
      Raise(x.after);
      if wiring {
        StepNet(x);
      }
    }

    /** One turn of the main loop: the step callback, one instruction, and the
        MC6850's part in its port access. */
    method Cycle(x: Outside) returns (halted: bool, states: nat)
      requires Ready()
      modifies state, state.memory, state.io, acia, net, stats
      ensures stats.totalTstates == (old(stats.totalTstates) + states) % E.U64
      ensures Ready() && Netlist() == old(Netlist())
      ensures BoardFits(old(Netlist()), old(View())) && View() == M.Cycle(old(Netlist()), old(View()), x)
    {
      hide Step, BeforeInstruction, Entered;
      OnStep(x);
      var event;
      halted, states, event := state.Emulate8085Op(EnvOf(x, acia.View()), stats);
      match event
      case NoIo =>
      case InRead(port, value) => acia.PostRead(port);
      case OutWrite(port, value) => acia.OnIoWrite(port, value);
    }
  }

  /** The interrupt netlist's two pin names, resolved. */
  predicate ResolvesIrq(resolve: string -> Option<Pin>) {
    resolve(BoardRuns.IRQ_PIN) == Some(AciaIrq) && resolve(BoardRuns.RST_PIN) == Some(CpuPin(RST75))
  }

  lemma IrqPinsKnown(ds: seq<W.Directive>, c: N.Circuit, es: seq<N.Endpoint>, resolve: string -> Option<Pin>, e: nat)
    requires W.SameNetlist(BoardRuns.IRQ_NETLIST, ds) && W.Parsed(ds, c.nodes, es, c.gates)
    requires ResolvesIrq(resolve) && e < |es|
    ensures resolve(es[e].pin).Some?
  {
    var w := W.WireLines(ds)[e];
    assert W.WireNamed(c.nodes, es[e], w) && w in W.WireLines(ds);
    BoardRuns.IrqWires(ds, w);
  }

  /** The main loop. */
  method RunCycles(rt: Runtime, xs: seq<Outside>)
    requires rt.Ready()
    modifies rt.state, rt.state.memory, rt.state.io, rt.acia, rt.net, rt.stats
    ensures rt.Ready() && rt.Netlist() == old(rt.Netlist())
    ensures BoardFits(old(rt.Netlist()), old(rt.View())) && rt.View() == M.Run(old(rt.Netlist()), old(rt.View()), xs)
  {
    hide M.Cycle, BoardFits;
    ghost var w, start := rt.Netlist(), rt.View();
    ReadyFits(rt);
    for i := 0 to |xs|
      invariant rt.Ready() && rt.Netlist() == w
      invariant BoardFits(w, start) && rt.View() == M.Run(w, start, xs[..i])
    {
      assert xs[..i + 1][..i] == xs[..i];
      var halted, states := rt.Cycle(xs[i]);
    }
    assert xs[..|xs|] == xs;
  }

  lemma ReadyFits(rt: Runtime)
    requires rt.Ready()
    ensures BoardFits(rt.Netlist(), rt.View())
  {
  }

  /** A loaded interrupt netlist carries the interrupt. */
  lemma LoadedCarries(rt: Runtime, ds: seq<W.Directive>, resolve: string -> Option<Pin>) returns (irq: nat, rst: nat)
    requires W.SameNetlist(BoardRuns.IRQ_NETLIST, ds) && ResolvesIrq(resolve)
    requires W.Parsed(ds, rt.net.nodes, rt.net.endpoints, rt.net.gates)
    requires forall e | 0 <= e < |rt.net.endpoints| ::
      && resolve(rt.net.endpoints[e].pin).Some?
      && BoardRuns.At(rt.pinTable, rt.net.endpoints[e], resolve(rt.net.endpoints[e].pin).value)
    ensures BoardRuns.Carries(rt.net.Wiring(), rt.pinTable, rt.net.endpoints, irq, rst)
  {
    BoardRuns.IrqNetlistCarries(ds, rt.net.Wiring(), rt.pinTable, rt.net.endpoints);
    hide BoardRuns.Carries;
    irq, rst :| BoardRuns.Carries(rt.net.Wiring(), rt.pinTable, rt.net.endpoints, irq, rst);
  }

  /** End to end: a fresh runtime loads the four interrupt lines, in any order, and
      runs. The load succeeds, and after any number of cycles processor and MC6850
      are as they would be without a netlist. */
  method RunWired(rt: Runtime, ds: seq<W.Directive>, resolve: string -> Option<Pin>, xs: seq<Outside>, x: Outside) returns (ok: bool)
    requires rt.Valid() && !rt.wiring && W.Parsed([], rt.net.nodes, rt.net.endpoints, rt.net.gates)
    requires W.SameNetlist(BoardRuns.IRQ_NETLIST, ds) && ResolvesIrq(resolve)
    modifies rt, rt.net, rt.state, rt.state.memory, rt.state.io, rt.acia, rt.stats
    ensures ok && rt.Ready() && rt.wiring
    ensures var direct := M.Run(Unwired, old(rt.View()), xs);
      rt.View().cpu == direct.cpu && rt.View().acia == direct.acia
  {
    hide M.Run, BoardRuns.Carries, W.Parsed, W.SameNetlist, ResolvesIrq;
    ghost var before := rt.View();
    ok := rt.LoadNetlist(ds, [], resolve, x);
    assert [] + ds == ds;
    forall e | 0 <= e < |rt.net.endpoints|
      ensures resolve(rt.net.endpoints[e].pin).Some?
    {
      IrqPinsKnown(ds, rt.net.Wiring(), rt.net.endpoints, resolve, e);
    }
    ghost var irq, rst := LoadedCarries(rt, ds, resolve);
    ghost var w, start := rt.Netlist(), rt.View();
    ReadyFits(rt);
    BoardRuns.WiredIsDirect(w, start, before, xs, irq, rst);
    RunCycles(rt, xs);
  }
}
