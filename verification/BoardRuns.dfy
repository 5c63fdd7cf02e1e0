/** What whole runs of the board keep: the wired and the direct interrupt path
    cannot be told apart, the program reads exactly the script, an idle receiver
    never interrupts, and the timer never loses a tick. */
module BoardRuns {
  import opened Wrappers
  import opened CpuArith
  import C = CpuModel
  import R = CpuRuns
  import I = CpuInterrupts
  import K = CpuMasking
  import opened BoardModel
  import A = AciaModel
  import opened NetModel
  import W = NetNames
  import P = PitChip
  import PM = PitModel

  // ----- the interrupt path in a netlist

  /** Node `irq` is pulled up and no gate drives it; `rst` is driven by gates, all
      of them inverters from `irq`. */
  ghost predicate Inverted(c: Circuit, irq: nat, rst: nat) {
    && irq < |c.nodes| && rst < |c.nodes| && c.nodes[irq].pull == PullUp
    && (forall g | 0 <= g < |c.gates| :: c.gates[g].output != irq)
    && (forall g | 0 <= g < |c.gates| && c.gates[g].output == rst :: c.gates[g] == Gate(INV, [irq], rst))
    && (exists g :: 0 <= g < |c.gates| && c.gates[g].output == rst)
  }

  ghost predicate At(table: seq<Pin>, e: Endpoint, pin: Pin) {
    0 <= e.handle < |table| && table[e.handle] == pin
  }

  /** The pins on the path: /IRQ alone on `irq`, RST 7.5 alone on `rst`, and no
      other input of the processor wired. The rest of the net is arbitrary. */
  ghost predicate Carries(c: Circuit, table: seq<Pin>, es: seq<Endpoint>, irq: nat, rst: nat) {
    && Inverted(c, irq, rst)
    && (forall e | 0 <= e < |es| && es[e].node == irq :: At(table, es[e], AciaIrq))
    && (exists e :: 0 <= e < |es| && es[e].node == irq)
    && (forall e | 0 <= e < |es| && es[e].node == rst :: At(table, es[e], CpuPin(RST75)))
    && (exists e :: 0 <= e < |es| && es[e].node == rst)
    && forall e | 0 <= e < |es| && 0 <= es[e].handle < |table| && table[es[e].handle].CpuPin? ::
         es[e].node == rst || table[es[e].handle].line == SOD
  }

  /** The four lines of the interrupt netlist. */
  const IRQ_PIN := "mc6850@0xDE.IRQ"
  const RST_PIN := "cpu.RST7.5"
  const IRQ_NETLIST: seq<W.Directive> := [
    W.PullLine("IRQ_L", true),
    W.WireLine("IRQ_L", IRQ_PIN),
    W.GateLine(INV, "U1", ["IRQ_L"], "RST_IN"),
    W.WireLine("RST_IN", RST_PIN)]

  /** Binding gave each of the two pin names its own pin. */
  ghost predicate PinsBound(table: seq<Pin>, es: seq<Endpoint>) {
    forall e | 0 <= e < |es| ::
      && (es[e].pin == IRQ_PIN ==> At(table, es[e], AciaIrq))
      && (es[e].pin == RST_PIN ==> At(table, es[e], CpuPin(RST75)))
  }

  /** A line of the netlist, whatever the order, is one of the four. */
  lemma OneOfFour(ds: seq<W.Directive>, i: nat)
    requires W.SameNetlist(IRQ_NETLIST, ds) && i < |ds|
    ensures ds[i] == IRQ_NETLIST[0] || ds[i] == IRQ_NETLIST[1] || ds[i] == IRQ_NETLIST[2] || ds[i] == IRQ_NETLIST[3]
  {
    assert ds[i] in IRQ_NETLIST;
  }

  lemma IrqWires(ds: seq<W.Directive>, w: W.NamedWire)
    requires W.SameNetlist(IRQ_NETLIST, ds)
    ensures w in W.WireLines(ds) <==> w == W.NamedWire("IRQ_L", IRQ_PIN) || w == W.NamedWire("RST_IN", RST_PIN)
  {
    W.WireLinesAreLines(ds, w);
    if i :| 0 <= i < |ds| && ds[i].WireLine? && W.NamedWire(ds[i].node, ds[i].pin) == w {
      OneOfFour(ds, i);
    }
    assert IRQ_NETLIST[1] in ds && IRQ_NETLIST[3] in ds;
  }

  lemma IrqGates(ds: seq<W.Directive>, w: W.NamedGate)
    requires W.SameNetlist(IRQ_NETLIST, ds)
    ensures w in W.GateLines(ds) <==> w == W.NamedGate(INV, ["IRQ_L"], "RST_IN")
  {
    W.GateLinesAreLines(ds, w);
    if i :| 0 <= i < |ds| && ds[i].GateLine? && W.NamedGate(ds[i].kind, ds[i].inputs, ds[i].output) == w {
      OneOfFour(ds, i);
    }
    assert IRQ_NETLIST[2] in ds;
  }

  lemma IrqPull()
    ensures W.LastPull(IRQ_NETLIST, "IRQ_L") == PullUp
  {
    var ds := IRQ_NETLIST;
    assert ds[..3][|ds[..3]|-1] == ds[2] && ds[..3][..2] == ds[..2];
    assert ds[..2][|ds[..2]|-1] == ds[1] && ds[..2][..1] == ds[..1];
    assert ds[..1][|ds[..1]|-1] == ds[0];
    assert W.LastPull(ds[..1], "IRQ_L") == PullUp;
    assert W.LastPull(ds[..2], "IRQ_L") == PullUp;
    assert W.LastPull(ds[..3], "IRQ_L") == PullUp;
  }

  /** Which gates and endpoints the interrupt netlist parses to. */
  lemma IrqParsed(ds: seq<W.Directive>, c: Circuit, table: seq<Pin>, es: seq<Endpoint>) returns (irq: nat, rst: nat)
    requires W.SameNetlist(IRQ_NETLIST, ds)
    requires W.Parsed(ds, c.nodes, es, c.gates) && PinsBound(table, es)
    ensures irq < |c.nodes| && rst < |c.nodes| && c.nodes[irq].name == "IRQ_L" && c.nodes[rst].name == "RST_IN"
    ensures |c.gates| > 0 && forall g | 0 <= g < |c.gates| :: c.gates[g] == Gate(INV, [irq], rst)
  {
    var g1 := W.NamedGate(INV, ["IRQ_L"], "RST_IN");
    forall w ensures w in W.GateLines(ds) <==> w == g1 { IrqGates(ds, w); }
    assert g1 in W.GateLines(ds);
    hide W.SameNetlist, W.GateLines;
    assert W.GateLines(ds)[0] in W.GateLines(ds);
    assert W.GateNamed(c.nodes, c.gates[0], g1);
    irq, rst := c.gates[0].inputs[0], c.gates[0].output;
    forall g | 0 <= g < |c.gates|
      ensures c.gates[g] == Gate(INV, [irq], rst)
    {
      assert W.GateLines(ds)[g] in W.GateLines(ds);
      assert W.GateNamed(c.nodes, c.gates[g], g1);
    }
  }

  lemma IrqEndpoints(ds: seq<W.Directive>, c: Circuit, table: seq<Pin>, es: seq<Endpoint>, irq: nat, rst: nat)
    requires W.SameNetlist(IRQ_NETLIST, ds)
    requires W.Parsed(ds, c.nodes, es, c.gates) && PinsBound(table, es)
    requires irq < |c.nodes| && rst < |c.nodes| && c.nodes[irq].name == "IRQ_L" && c.nodes[rst].name == "RST_IN"
    ensures forall e | 0 <= e < |es| ::
      (es[e].node == irq && At(table, es[e], AciaIrq)) || (es[e].node == rst && At(table, es[e], CpuPin(RST75)))
    ensures (exists e :: 0 <= e < |es| && es[e].node == irq) && (exists e :: 0 <= e < |es| && es[e].node == rst)
  {
    var w1, w2 := W.NamedWire("IRQ_L", IRQ_PIN), W.NamedWire("RST_IN", RST_PIN);
    forall w ensures w in W.WireLines(ds) <==> w == w1 || w == w2 { IrqWires(ds, w); }
    assert w1 in W.WireLines(ds) && w2 in W.WireLines(ds);
    hide W.SameNetlist, W.WireLines;
    var i: nat :| i < |W.WireLines(ds)| && W.WireLines(ds)[i] == w1;
    var j: nat :| j < |W.WireLines(ds)| && W.WireLines(ds)[j] == w2;
    forall e | 0 <= e < |es|
      ensures (es[e].node == irq && At(table, es[e], AciaIrq)) || (es[e].node == rst && At(table, es[e], CpuPin(RST75)))
    {
      assert W.WireLines(ds)[e] in W.WireLines(ds);
      assert W.WireNamed(c.nodes, es[e], W.WireLines(ds)[e]);
    }
    assert W.WireNamed(c.nodes, es[i], w1) && W.WireNamed(c.nodes, es[j], w2);
  }

  /** However its lines are ordered or repeated, the interrupt netlist parses to a
      net that carries the interrupt. */
  lemma IrqNetlistCarries(ds: seq<W.Directive>, c: Circuit, table: seq<Pin>, es: seq<Endpoint>)
    requires W.SameNetlist(IRQ_NETLIST, ds)
    requires W.Parsed(ds, c.nodes, es, c.gates) && PinsBound(table, es)
    ensures exists irq: nat, rst: nat :: Carries(c, table, es, irq, rst)
  {
    var irq, rst := IrqParsed(ds, c, table, es);
    IrqEndpoints(ds, c, table, es, irq, rst);
    IrqPull();
    assert c.nodes[irq].pull == W.LastPull(ds, "IRQ_L");
    hide W.Parsed, W.SameNetlist, W.LastPull;
    assert "IRQ_L"[0] != "RST_IN"[0];
    assert c.gates[0].output == rst;
    assert Carries(c, table, es, irq, rst);
  }

  // ----- the level on the path, after any step of any net

  ghost predicate Primed(c: Circuit, gateOut: seq<Level>, rst: nat, v: Level) {
    |gateOut| == |c.gates| && forall g | 0 <= g < |c.gates| && c.gates[g].output == rst :: gateOut[g] == v
  }

  ghost predicate PathPins(c: Circuit, pins: seq<PinDrive>, irq: nat, rst: nat, low: bool) {
    && |pins| == |c.nodes| && irq < |pins| && rst < |pins|
    && pins[irq] == PinDrive(low, false) && pins[rst] == PinDrive(false, false)
  }

  function Asserted(low: bool): Level {
    if low then Level1 else Level0
  }

  lemma PathLevels(c: Circuit, pins: seq<PinDrive>, gateOut: seq<Level>, irq: nat, rst: nat, low: bool)
    requires c.Valid() && Inverted(c, irq, rst) && PathPins(c, pins, irq, rst, low) && |gateOut| == |c.gates|
    ensures Primed(c, Advance(c, pins, gateOut), rst, Asserted(low))
    ensures Primed(c, gateOut, rst, Asserted(low)) ==> Levels(c, pins, gateOut)[rst] == Asserted(low)
  {
    var levels := Levels(c, pins, gateOut);
    assert forall v :: !GateDrives(c, gateOut, irq, v);
    assert levels[irq] == Resolve(c, pins, gateOut, irq) == Not(Asserted(low));
    forall g | 0 <= g < |c.gates| && c.gates[g].output == rst
      ensures Outputs(c, levels)[g] == Asserted(low)
    {
      assert Outputs(c, levels)[g] == GateLevel(c.gates[g], levels);
    }
    if Primed(c, gateOut, rst, Asserted(low)) {
      assert forall v :: GateDrives(c, gateOut, rst, v) ==> v == Asserted(low);
      var g :| 0 <= g < |c.gates| && c.gates[g].output == rst;
      assert GateDrives(c, gateOut, rst, Asserted(low));
      assert levels[rst] == Resolve(c, pins, gateOut, rst);
    }
  }

  /** Two passes carry /IRQ through the inverter, from any leftover state and
      whether or not the rest of the net settles. */
  lemma {:induction false} PathSettles(
      c: Circuit, pins: seq<PinDrive>, s: NetState, left: nat, irq: nat, rst: nat, low: bool)
    requires c.Valid() && Inverted(c, irq, rst) && PathPins(c, pins, irq, rst, low) && Fits(c, s)
    requires left >= 2 || (left == 1 && Primed(c, s.gateOut, rst, Asserted(low)))
    ensures Settle(c, pins, s, left).state.levels[rst] == Asserted(low)
    decreases left
  {
    var t := Pass(c, pins, s);
    PathLevels(c, pins, s.gateOut, irq, rst, low);
    assert t.gateOut == Advance(c, pins, s.gateOut);
    if !Unchanged(s, t) && left != 1 {
      PathSettles(c, pins, t, left - 1, irq, rst, low);
    }
  }

  lemma PathStep(c: Circuit, pins: seq<PinDrive>, s: NetState, limit: nat, irq: nat, rst: nat, low: bool)
    requires c.Valid() && Inverted(c, irq, rst) && PathPins(c, pins, irq, rst, low) && Fits(c, s) && limit >= 2
    ensures StepState(c, pins, s, limit).levels[rst] == Asserted(low)
  {
    PathSettles(c, pins, s, limit, irq, rst, low);
  }

  /** What the endpoints put on the path: low on /IRQ exactly when the chip
      asserts it. */
  lemma PathDriven(c: Circuit, table: seq<Pin>, es: seq<Endpoint>, irq: nat, rst: nat, sod: bool, acia: A.Acia, x: Outside)
    requires Carries(c, table, es, irq, rst)
    ensures var host := HostOf(table, sod, acia, x); var fs := RefreshedAll(es, host);
      && Carries(c, table, fs, irq, rst)
      && PathPins(c, PinsOf(fs, host, |c.nodes|), irq, rst, A.Irq(acia))
  {
    var host := HostOf(table, sod, acia, x);
    var fs := RefreshedAll(es, host);
    assert forall e | 0 <= e < |es| :: fs[e].node == es[e].node && fs[e].handle == es[e].handle;
    var e :| 0 <= e < |es| && es[e].node == irq;
    assert fs[e].node == irq && At(table, fs[e], AciaIrq) && fs[e].isOutput;
    var f :| 0 <= f < |es| && es[f].node == rst;
    assert fs[f].node == rst;
    assert PinDrives(fs, host, irq, Drive0) <==> A.Irq(acia);
    assert !PinDrives(fs, host, irq, Drive1);
    assert !PinDrives(fs, host, rst, Drive0) && !PinDrives(fs, host, rst, Drive1);
  }

  // ----- delivery

  lemma NoTrigger(c: C.Cpu)
    ensures R.Trigger(c, 75, false) == c
    ensures R.Trigger(R.Trigger(c, 75, true), 75, true) == R.Trigger(c, 75, true)
  {
  }

  /** All deliveries of a step together: RST 7.5, if its wire is high. */
  lemma {:induction false} DeliveryIsTrigger(
      c: Circuit, table: seq<Pin>, es: seq<Endpoint>, irq: nat, rst: nat, levels: seq<Level>, cpu: C.Cpu,
      sod: bool, acia: A.Acia, x: Outside, k: nat)
    requires Carries(c, table, es, irq, rst) && |levels| == |c.nodes| && k <= |es|
    requires forall e | 0 <= e < |es| :: es[e].node < |levels| && Refreshed(es[e], HostOf(table, sod, acia, x)) == es[e]
    ensures Delivered(table, cpu, Deliveries(es, levels, k))
      == R.Trigger(cpu, 75, levels[rst] == Level1 && exists e :: 0 <= e < k && es[e].node == rst)
  {
    NoTrigger(cpu);
    if k != 0 {
      DeliveryIsTrigger(c, table, es, irq, rst, levels, cpu, sod, acia, x, k - 1);
      var ds, e := Deliveries(es, levels, k - 1), es[k-1];
      assert Refreshed(e, HostOf(table, sod, acia, x)) == e;
      var earlier := levels[rst] == Level1 && exists e :: 0 <= e < k - 1 && es[e].node == rst;
      NoTrigger(R.Trigger(cpu, 75, earlier));
      hide R.Trigger, Inverted;
      var one := (e.handle, levels[e.node]);
      assert (ds + [one])[..|ds|] == ds;
      if e.node == rst {
        assert At(table, e, CpuPin(RST75)) && !e.isOutput;
        assert Delivered(table, cpu, ds + [one]) == R.Trigger(R.Trigger(cpu, 75, earlier), 75, levels[rst] == Level1);
      } else {
        if 0 <= e.handle < |table| && table[e.handle].CpuPin? {
          assert table[e.handle].line == SOD && e.isOutput;
        }
        assert Deliveries(es, levels, k) == if e.isOutput || e.handle < 0 then ds else ds + [one];
        assert Delivered(table, cpu, Deliveries(es, levels, k)) == R.Trigger(cpu, 75, earlier);
      }
    }
  }

  // ----- main result: the wired path is the direct path

  lemma {:induction false} SignalsKeepLatch(c: C.Cpu, signals: seq<R.Signal>)
    ensures R.Signalled(R.Trigger(c, 75, true), signals) == R.Trigger(R.Signalled(c, signals), 75, true)
  {
    if |signals| != 0 {
      var n := |signals| - 1;
      SignalsKeepLatch(c, signals[..n]);
      OneSignalKeepsLatch(R.Signalled(c, signals[..n]), signals[n]);
      hide R.Trigger;
    }
  }

  lemma OneSignalKeepsLatch(c: C.Cpu, signal: R.Signal)
    ensures signal.Interrupt? ==>
      R.Trigger(R.Trigger(c, 75, true), signal.code, signal.active) == R.Trigger(R.Trigger(c, signal.code, signal.active), 75, true)
    ensures signal.SerialIn? ==>
      var high := R.Trigger(c, 75, true);
      high.(lines := high.lines.(sid := signal.level)) == R.Trigger(c.(lines := c.lines.(sid := signal.level)), 75, true)
  {
    if signal.Interrupt? {
      TriggersCommute(c.lines, signal.code, signal.active);
      hide R.Triggered;
    }
  }

  lemma TriggersCommute(lines: C.Lines, code: int, active: bool)
    ensures R.Triggered(R.Triggered(lines, 75, true), code, active) == R.Triggered(R.Triggered(lines, code, active), 75, true)
  {
    var high := lines.(r7 := true);
    assert R.Triggered(lines, 75, true) == high;
    if 0 <= code < 8 {
    } else if code == 75 {
      assert R.Triggered(high, code, active) == high;
    } else if code == 45 {
    } else if code == 55 {
    } else if code == 65 {
    } else {
      assert R.Triggered(lines, code, active) == lines;
    }
  }

  lemma NetRaisesLatch(w: Wiring, b: Board, x: Outside, irq: nat, rst: nat)
    requires w.Wired? && BoardFits(w, b) && Carries(w.circuit, w.table, b.endpoints, irq, rst)
    ensures var r := NetStep(w, b, x);
      r.cpu == R.Trigger(b.cpu, 75, A.Irq(b.acia)) && Carries(w.circuit, w.table, r.endpoints, irq, rst)
  {
    hide StepState, HostOf, Inverted;
    var host := HostOf(w.table, b.cpu.sod, b.acia, x);
    var es := RefreshedAll(b.endpoints, host);
    var pins := PinsOf(es, host, |w.circuit.nodes|);
    PathDriven(w.circuit, w.table, b.endpoints, irq, rst, b.cpu.sod, b.acia, x);
    PathStep(w.circuit, pins, b.net, MAX_PASSES, irq, rst, A.Irq(b.acia));
    var s := StepState(w.circuit, pins, b.net, MAX_PASSES);
    DeliveryIsTrigger(w.circuit, w.table, es, irq, rst, s.levels, b.cpu, b.cpu.sod, b.acia, x, |es|);
    var e :| 0 <= e < |es| && es[e].node == rst;
  }

  lemma CycleIsDirect(w: Wiring, b: Board, d: Board, x: Outside, irq: nat, rst: nat)
    requires w.Wired? && BoardFits(w, b) && Carries(w.circuit, w.table, b.endpoints, irq, rst)
    requires b.cpu == d.cpu && b.acia == d.acia
    ensures BeforeInstruction(w, b, x).cpu == BeforeInstruction(Unwired, d, x).cpu
    ensures var r, q := Cycle(w, b, x), Cycle(Unwired, d, x);
      r.cpu == q.cpu && r.acia == q.acia && Carries(w.circuit, w.table, r.endpoints, irq, rst)
  {
    var p := PluginsStep(false, b, x);
    NetRaisesLatch(w, p, x, irq, rst);
    var c := R.Signalled(b.cpu, x.before);
    SignalsKeepLatch(c, x.after);
    NoTrigger(R.Signalled(c, x.after));
    hide C.Step, NetStep, Carries, R.Signalled, R.Trigger;
  }

  /** Main result. Through any net that carries the interrupt, settled or not, and
      whatever else is on the board, the wired machine and the machine without a
      netlist have the same processor and the same MC6850 after every cycle. */
  lemma {:induction false} WiredIsDirect(w: Wiring, b: Board, d: Board, xs: seq<Outside>, irq: nat, rst: nat)
    requires w.Wired? && BoardFits(w, b) && Carries(w.circuit, w.table, b.endpoints, irq, rst)
    requires b.cpu == d.cpu && b.acia == d.acia
    ensures var r, q := Run(w, b, xs), Run(Unwired, d, xs);
      r.cpu == q.cpu && r.acia == q.acia && Carries(w.circuit, w.table, r.endpoints, irq, rst)
  {
    if |xs| != 0 {
      hide Cycle, Carries;
      var n := |xs| - 1;
      WiredIsDirect(w, b, d, xs[..n], irq, rst);
      CycleIsDirect(w, Run(w, b, xs[..n]), Run(Unwired, d, xs[..n]), xs[n], irq, rst);
    }
  }

  // ----- the program reads the script

  /** The byte an IN of the data port returns, if it takes one. */
  function Handed(a: A.Acia, event: C.IoEvent, step: nat): seq<A.Receipt> {
    if event.InRead? && event.port == a.dataPort && a.rdrFull then [A.Receipt(event.value, step)] else []
  }

  ghost function Taken(w: Wiring, b: Board, x: Outside): seq<A.Receipt>
    requires BoardFits(w, b)
  {
    var p := BeforeInstruction(w, b, x);
    Handed(p.acia, C.Step(EnvOf(x, p.acia), p.cpu).event, x.step)
  }

  ghost function Log(w: Wiring, b: Board, xs: seq<Outside>): seq<A.Receipt>
    requires BoardFits(w, b)
  {
    if |xs| == 0 then []
    else Log(w, b, xs[..|xs|-1]) + Taken(w, Run(w, b, xs[..|xs|-1]), xs[|xs|-1])
  }

  /** Step numbers never go back and stay clear of 64-bit overflow. */
  predicate Ordered(a: A.Acia, xs: seq<Outside>) {
    forall i | 0 <= i < |xs| :: InOrder(a, xs, i)
  }

  /** No live bytes, only the script. */
  predicate ScriptOnly(xs: seq<Outside>) {
    forall i | 0 <= i < |xs| :: xs[i].live == []
  }

  predicate InOrder(a: A.Acia, xs: seq<Outside>, i: nat)
    requires i < |xs|
  {
    (if i == 0 then a.lastStep else xs[i-1].step) <= xs[i].step && xs[i].step + a.bytegap < A.U64
  }

  lemma OrderedPrefix(a: A.Acia, xs: seq<Outside>)
    requires |xs| > 0 && Ordered(a, xs)
    ensures Ordered(a, xs[..|xs|-1])
    ensures var n := |xs| - 1;
      (if n == 0 then a.lastStep else xs[..n][n-1].step) <= xs[n].step && xs[n].step + a.bytegap < A.U64
  {
    var n := |xs| - 1;
    assert forall i | 0 <= i < n :: InOrder(a, xs, i) ==> InOrder(a, xs[..n], i);
    assert InOrder(a, xs, n);
  }

  /** An IN returns what the port answered. */
  lemma InReadsPort(env: C.Env, c: C.Cpu)
    ensures var event := C.Step(env, c).event;
      event.InRead? && event.port in env.portIn ==> event.value == env.portIn[event.port]
  {
    hide C.SetReg, C.SetPair, C.Store, C.PushWord, C.Skip, Add, Sub, DecimalAdjust, DoubleSub;
  }

  /** The chip's part of one cycle, given what the processor did. */
  lemma GoodAccess(a: A.Acia, log: seq<A.Receipt>, event: C.IoEvent)
    requires A.Good(a, log) && a.ctrlPort != a.dataPort
    requires event.InRead? && event.port in A.PortIn(a) ==> event.value == A.PortIn(a)[event.port]
    ensures A.Good(AfterAccess(a, event), log + Handed(a, event, a.lastStep))
    ensures var r := AfterAccess(a, event);
      r.lastStep == a.lastStep && r.rx == a.rx && r.bytegap == a.bytegap && r.ctrlPort == a.ctrlPort && r.dataPort == a.dataPort
  {
    hide A.Good;
    assert log + [] == log;
    match event
    case NoIo =>
    case InRead(port, value) => A.GoodStep(a, log, A.Read(port));
    case OutWrite(port, value) => A.GoodStep(a, log, A.Write(port, value));
  }

  lemma AciaAfterCycle(w: Wiring, b: Board, x: Outside, log: seq<A.Receipt>)
    requires BoardFits(w, b) && A.Good(b.acia, log) && b.acia.ctrlPort != b.acia.dataPort
    requires b.acia.lastStep <= x.step && x.step + b.acia.bytegap < A.U64 && x.live == []
    ensures A.Good(Cycle(w, b, x).acia, log + Taken(w, b, x))
    ensures var r := Cycle(w, b, x).acia;
      r.lastStep == x.step && r.rx == b.acia.rx && r.bytegap == b.acia.bytegap
      && r.ctrlPort == b.acia.ctrlPort && r.dataPort == b.acia.dataPort
  {
    hide C.Step, BeforeInstruction, A.Good, Handed, AfterAccess, A.MayLoad;
    var p := BeforeInstruction(w, b, x);
    A.GoodStep(b.acia, log, A.Step(x.step, []));
    var env := EnvOf(x, p.acia);
    InReadsPort(env, p.cpu);
    GoodAccess(p.acia, log, C.Step(env, p.cpu).event);
  }

  /** Main result. Whatever program runs, wired or not: the values its reads of
      the data port return while a byte is waiting are exactly the first rxPos
      bytes of the script, in order, none lost and none twice, and taken at least
      bytegap steps apart. */
  lemma {:induction false} ProgramReadsScript(w: Wiring, b: Board, xs: seq<Outside>)
    requires BoardFits(w, b) && b.acia == A.Reset(b.acia) && b.acia.ctrlPort != b.acia.dataPort
    requires b.acia.lastStep + b.acia.bytegap < A.U64 && Ordered(b.acia, xs) && ScriptOnly(xs) && b.acia.rxq == []
    ensures var a := Run(w, b, xs).acia;
      && A.Good(a, Log(w, b, xs))
      && a.rx == b.acia.rx && a.bytegap == b.acia.bytegap && a.ctrlPort == b.acia.ctrlPort && a.dataPort == b.acia.dataPort
      && a.lastStep == if |xs| == 0 then b.acia.lastStep else xs[|xs|-1].step
  {
    if |xs| != 0 {
      var n := |xs| - 1;
      hide Cycle, Taken, A.Good, Ordered;
      OrderedPrefix(b.acia, xs);
      ProgramReadsScript(w, b, xs[..n]);
      AciaAfterCycle(w, Run(w, b, xs[..n]), xs[n], Log(w, b, xs[..n]));
    }
    else {
      assert A.Good(b.acia, []);
    }
  }

  // ----- what the program writes is sent

  /** The byte an OUT to the data port hands over in this cycle. */
  ghost function Output(w: Wiring, b: Board, x: Outside): seq<byte>
    requires BoardFits(w, b)
  {
    var p := BeforeInstruction(w, b, x);
    var event := C.Step(EnvOf(x, p.acia), p.cpu).event;
    if event.OutWrite? && event.port == p.acia.dataPort then [event.value] else []
  }

  ghost function AllOutput(w: Wiring, b: Board, xs: seq<Outside>): seq<byte>
    requires BoardFits(w, b)
  {
    if |xs| == 0 then []
    else AllOutput(w, b, xs[..|xs|-1]) + Output(w, Run(w, b, xs[..|xs|-1]), xs[|xs|-1])
  }

  lemma AccessSends(a: A.Acia, event: C.IoEvent)
    ensures AfterAccess(a, event).sent
      == a.sent + if event.OutWrite? && event.port == a.dataPort then [event.value] else []
  {
    assert a.sent + [] == a.sent;
  }

  lemma CycleSends(w: Wiring, b: Board, x: Outside)
    requires BoardFits(w, b)
    ensures Cycle(w, b, x).acia.sent == b.acia.sent + Output(w, b, x)
  {
    hide C.Step, BeforeInstruction, AfterAccess;
    var p := BeforeInstruction(w, b, x);
    assert p.acia.sent == b.acia.sent;
    AccessSends(p.acia, C.Step(EnvOf(x, p.acia), p.cpu).event);
  }

  /** Every byte the program writes to the data port is sent, once and in order,
      wired or not, whatever comes in meanwhile. */
  lemma {:induction false} ProgramWritesSent(w: Wiring, b: Board, xs: seq<Outside>)
    requires BoardFits(w, b)
    ensures Run(w, b, xs).acia.sent == b.acia.sent + AllOutput(w, b, xs)
  {
    hide Cycle, Output, BoardFits;
    if |xs| != 0 {
      var n := |xs| - 1;
      ProgramWritesSent(w, b, xs[..n]);
      CycleSends(w, Run(w, b, xs[..n]), xs[n]);
    } else {
      assert b.acia.sent + [] == b.acia.sent;
    }
  }

  // ----- no byte, no interrupt; a byte, an interrupt

  predicate Idle(a: A.Acia) {
    !a.rdrFull && a.rxPos >= |a.rx| && a.rxq == []
  }

  predicate NoLatchSignal(signals: seq<R.Signal>) {
    forall i | 0 <= i < |signals| :: signals[i] != R.Interrupt(75, true)
  }

  lemma {:induction false} SignalsLeaveLatch(c: C.Cpu, signals: seq<R.Signal>)
    requires NoLatchSignal(signals)
    ensures R.Signalled(c, signals).lines.r7 == c.lines.r7
  {
    assert forall lines, code, active | code != 75 || !active :: R.Triggered(lines, code, active).r7 == lines.r7;
    hide R.Triggered;
    if |signals| != 0 {
      SignalsLeaveLatch(c, signals[..|signals|-1]);
    }
  }

  /** No instruction and no acceptance sets the RST 7.5 latch. */
  lemma StepNeverLatches(env: C.Env, c: C.Cpu)
    ensures C.Step(env, c).cpu.lines.r7 ==> c.lines.r7
  {
    hide C.Exec, C.Entered, C.Load;
    var d := C.Entered(env, c);
    EnteredNeverLatches(env, c);
    var e := d.(pc := Wrap(d.pc + 1));
    I.ExecFrame(env, e, d.mem[d.pc], C.Load(env, d.mem, d.pc + 1), C.Load(env, d.mem, d.pc + 2));
  }

  lemma EnteredNeverLatches(env: C.Env, c: C.Cpu)
    ensures C.Entered(env, c).lines.r7 ==> c.lines.r7
  {
    if C.Chosen(c).Some? {
      var s := C.Chosen(c).value;
      I.AcceptanceIsExact(env, c, s);
      hide C.Chosen, C.Accept, C.Entered;
      assert I.Pending(C.Entered(env, c).lines, C.Rst75) == (I.Pending(c.lines, C.Rst75) && C.Rst75 != s);
    }
  }

  lemma IdleCycle(b: Board, x: Outside)
    requires Idle(b.acia) && !b.cpu.lines.r7 && NoLatchSignal(x.before) && NoLatchSignal(x.after) && x.live == []
    ensures !BeforeInstruction(Unwired, b, x).cpu.lines.r7
    ensures var r := Cycle(Unwired, b, x); Idle(r.acia) && !r.cpu.lines.r7
  {
    SignalsLeaveLatch(b.cpu, x.before);
    SignalsLeaveLatch(R.Signalled(b.cpu, x.before), x.after);
    var p := PluginsStep(true, b, x);
    StepNeverLatches(EnvOf(x, p.acia), p.cpu);
    hide C.Step, R.Signalled;
  }

  lemma {:induction false} IdleRun(b: Board, xs: seq<Outside>)
    requires Idle(b.acia) && !b.cpu.lines.r7
    requires forall i | 0 <= i < |xs| :: NoLatchSignal(xs[i].before) && NoLatchSignal(xs[i].after) && xs[i].live == []
    ensures var r := Run(Unwired, b, xs); Idle(r.acia) && !r.cpu.lines.r7
  {
    if |xs| != 0 {
      hide Cycle;
      IdleRun(b, xs[..|xs|-1]);
      IdleCycle(Run(Unwired, b, xs[..|xs|-1]), xs[|xs|-1]);
    }
  }

  /** With the script used up, nothing on the wired path ever raises RST 7.5: its
      handler cannot be entered at any cycle of any run. */
  lemma NoByteNoInterrupt(w: Wiring, b: Board, xs: seq<Outside>, x: Outside, irq: nat, rst: nat)
    requires w.Wired? && BoardFits(w, b) && Carries(w.circuit, w.table, b.endpoints, irq, rst)
    requires Idle(b.acia) && !b.cpu.lines.r7
    requires forall i | 0 <= i < |xs| :: NoLatchSignal(xs[i].before) && NoLatchSignal(xs[i].after) && xs[i].live == []
    requires NoLatchSignal(x.before) && NoLatchSignal(x.after) && x.live == []
    ensures C.Chosen(BeforeInstruction(w, Run(w, b, xs), x).cpu) != Some(C.Rst75)
  {
    hide BeforeInstruction, Cycle, Carries, NoLatchSignal;
    WiredIsDirect(w, b, b, xs, irq, rst);
    CycleIsDirect(w, Run(w, b, xs), Run(Unwired, b, xs), x, irq, rst);
    IdleRun(b, xs);
    IdleCycle(Run(Unwired, b, xs), x);
  }

  /** A byte waiting with the receive interrupt on, RST 7.5 unmasked and
      interrupts enabled: this very cycle enters the handler through the wire,
      unless a TRAP is pending. */
  lemma ByteInterrupts(w: Wiring, b: Board, x: Outside, irq: nat, rst: nat)
    requires w.Wired? && BoardFits(w, b) && Carries(w.circuit, w.table, b.endpoints, irq, rst)
    requires A.Irq(A.OnStep(b.acia, x.step, x.live)) && b.cpu.enabled && !b.cpu.masks.r7
    ensures var c := BeforeInstruction(w, b, x).cpu;
      C.Chosen(c) == (if c.lines.trap then Some(C.Trap) else Some(C.Rst75))
  {
    var p := PluginsStep(false, b, x);
    NetRaisesLatch(w, p, x, irq, rst);
    R.SignalsTouchLinesOnly(b.cpu, x.before);
    R.SignalsTouchLinesOnly(R.Signalled(b.cpu, x.before), x.after);
    hide R.Signalled, NetStep;
  }

  // ----- the processor never outruns the timer

  /** T-states charged in a run, on top of `start`. */
  function Clock(c: C.Cpu, inputs: seq<R.Input>, start: nat): nat {
    if |inputs| == 0 then start
    else
      var n := |inputs| - 1;
      Clock(c, inputs[..n], start) + C.Step(inputs[n].env, R.Signalled(R.Run(c, inputs[..n]), inputs[n].signals)).states
  }

  /** What the timer sees before each instruction: the 64-bit total so far. */
  function Readings(c: C.Cpu, inputs: seq<R.Input>, start: nat): (r: seq<P.u64>)
    ensures |r| == |inputs|
  {
    if |inputs| == 0 then []
    else
      var earlier := inputs[..|inputs|-1];
      Readings(c, earlier, start) + [Clock(c, earlier, start) % PM.U64]
  }

  lemma ScaledAtLeast(clkdiv: nat)
    requires clkdiv > 0
    ensures P.Scaled(clkdiv) >= 18
  {
  }

  lemma {:induction false} ReadingsPaced(c: C.Cpu, inputs: seq<R.Input>, clkdiv: P.u64, start: P.u64)
    requires clkdiv > 0 && start + 18 * |inputs| < PM.U64 / 2
    ensures start <= Clock(c, inputs, start) <= start + 18 * |inputs|
    ensures var ts := Readings(c, inputs, start);
      P.Paced(clkdiv, start, ts) && P.Last(start, ts) <= Clock(c, inputs, start) <= P.Last(start, ts) + 18
  {
    hide C.Step, R.Signalled, R.Run, P.Scaled;
    ScaledAtLeast(clkdiv);
    if |inputs| != 0 {
      var n := |inputs| - 1;
      ReadingsPaced(c, inputs[..n], clkdiv, start);
      R.StatesBounded(inputs[n].env, R.Signalled(R.Run(c, inputs[..n]), inputs[n].signals));
      var ts := Readings(c, inputs, start);
      assert ts[..n] == Readings(c, inputs[..n], start);
    }
  }

  /** A timer clocked by the processor never meets its per-step cap: after any
      program, under any signals, it has seen every tick of the elapsed T-states. */
  lemma TimerFollowsProcessor(p: P.Pit, c: C.Cpu, inputs: seq<R.Input>)
    requires p.Valid() && p.clkdiv < PM.U64 / 2 && p.lastTstates + 18 * |inputs| < PM.U64 / 2
    ensures var ts := Readings(c, inputs, p.lastTstates);
      p.lastTstates <= P.Last(p.lastTstates, ts) && P.Steps(p, ts) == P.Jump(p, P.Last(p.lastTstates, ts))
  {
    ReadingsPaced(c, inputs, p.clkdiv, p.lastTstates);
    P.ClockConserved(p, Readings(c, inputs, p.lastTstates));
  }

  // ----- which pin is which line

  /** A high level at a processor pin enters that pin's handler at the next boundary,
      when interrupts are on, nothing is masked and no higher line is pending; SID is
      what RIM then reads in bit 7. */
  lemma PinsReachHandlers(env: C.Env, c: C.Cpu)
    requires c.enabled && c.masks == C.Masks(false, false, false)
    requires !c.lines.trap && !c.lines.r7 && !c.lines.r6 && !c.lines.r5
    ensures K.Enters(env, PinInput(c, CpuPin(TRAP), Level1), 0x24)
    ensures K.Enters(env, PinInput(c, CpuPin(RST75), Level1), 0x3C)
    ensures K.Enters(env, PinInput(c, CpuPin(RST65), Level1), 0x34)
    ensures K.Enters(env, PinInput(c, CpuPin(RST55), Level1), 0x2C)
  {
    hide K.Enters;
    K.HandlersExactly(env, PinInput(c, CpuPin(TRAP), Level1));
    K.HandlersExactly(env, PinInput(c, CpuPin(RST75), Level1));
    K.HandlersExactly(env, PinInput(c, CpuPin(RST65), Level1));
    K.HandlersExactly(env, PinInput(c, CpuPin(RST55), Level1));
  }

  lemma SidReachesRim(c: C.Cpu, level: Level)
    ensures BitOf(C.Rim(PinInput(c, CpuPin(SID), level)).regs.a, 0x80) == (level == Level1)
  {
    var d := PinInput(c, CpuPin(SID), level);
    I.RimBits(d.lines, d.enabled, d.masks);
    hide BitOf, C.RimByte;
  }

  /** The interrupt trigger's codes name the same handlers: 45, 75, 65, 55, and 0 to 7
      for the vector of that number. */
  lemma CodesReachHandlers(env: C.Env, c: C.Cpu, n: nat)
    requires c.enabled && c.masks == C.Masks(false, false, false) && n < 8
    requires !c.lines.trap && !c.lines.r7 && !c.lines.r6 && !c.lines.r5 && !c.lines.intr
    ensures K.Enters(env, R.Trigger(c, 45, true), 0x24) && K.Enters(env, R.Trigger(c, 75, true), 0x3C)
    ensures K.Enters(env, R.Trigger(c, 65, true), 0x34) && K.Enters(env, R.Trigger(c, 55, true), 0x2C)
    ensures K.Enters(env, R.Trigger(c, n, true), 8 * n)
  {
    hide K.Enters;
    K.HandlersExactly(env, R.Trigger(c, 45, true));
    K.HandlersExactly(env, R.Trigger(c, 75, true));
    K.HandlersExactly(env, R.Trigger(c, 65, true));
    K.HandlersExactly(env, R.Trigger(c, 55, true));
    K.HandlersExactly(env, R.Trigger(c, n, true));
  }

  /** A low or unknown level withdraws every line but RST 7.5, whose latch stands. */
  lemma LowWithdraws(c: C.Cpu, level: Level)
    requires level != Level1
    ensures !PinInput(c, CpuPin(TRAP), level).lines.trap && !PinInput(c, CpuPin(RST65), level).lines.r6
    ensures !PinInput(c, CpuPin(RST55), level).lines.r5 && PinInput(c, CpuPin(RST75), level) == c
  {
  }

  /** What SIM puts on SOD drives its pin; the RTS pin is high while /RTS is asserted;
      a processor input drives nothing. */
  lemma OutputPins(c: C.Cpu, acia: A.Acia, x: Outside, line: CpuLine)
    ensures BitOf(c.regs.a, 0x40) ==>
      PinOutput(CpuPin(SOD), C.Sim(c).sod, acia, x) == if BitOf(c.regs.a, 0x80) then Drive1 else Drive0
    ensures PinOutput(AciaRts, c.sod, acia, x) == if acia.rtsAsserted then Drive1 else Drive0
    ensures line != SOD ==> PinOutput(CpuPin(line), c.sod, acia, x) == DriveZ && !PinIsOutput(CpuPin(line), x)
    ensures PinIsOutput(CpuPin(SOD), x) && PinIsOutput(AciaRts, x) && PinIsOutput(AciaIrq, x)
  {
    hide BitOf;
  }
}
