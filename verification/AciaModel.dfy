/** The MC6850 serial chip with scripted and live input: its port handlers and its
    step as functions of values, and what every interleaving of them keeps. */
module AciaModel {
  import opened CpuArith

  const U64 := 0x1_0000_0000_0000_0000

  datatype Acia = Acia(
    ctrlPort: byte, dataPort: byte, rx: seq<byte>, bytegap: nat,
    rxPos: nat, rdrFull: bool, rdrByte: byte, nextArrival: nat, lastStep: nat,
    rxIntEnabled: bool, rtsAsserted: bool, lastTx: int, lastRx: int,
    rxq: seq<byte>, sent: seq<byte>, rtsLog: seq<RtsChange>)

  /** A line of the /RTS log. */
  datatype RtsChange = RtsChange(asserted: bool, step: nat)

  /** Simulator reset: the script starts over, ready to receive. */
  function Reset(a: Acia): Acia {
    a.(rxPos := 0, rdrFull := false, nextArrival := 0, rxIntEnabled := false, rtsAsserted := true)
  }

  /** A scripted byte may enter the receive register now. */
  predicate MayLoad(a: Acia, step: nat) {
    !a.rdrFull && a.rxPos < |a.rx| && a.rtsAsserted && step >= a.nextArrival
  }

  /** Before each instruction: queue the live bytes that came in, then peek the
      next scripted byte when allowed, or else take a live one. */
  function OnStep(a: Acia, step: nat, live: seq<byte>): Acia {
    var b := a.(lastStep := step, rxq := a.rxq + live);
    if MayLoad(b, step) then b.(rdrByte := b.rx[b.rxPos], rdrFull := true)
    else if !b.rdrFull && b.rxq != [] && b.rtsAsserted then b.(rdrByte := b.rxq[0], rxq := b.rxq[1..], rdrFull := true)
    else b
  }

  /** The level of /IRQ, active low: a byte is waiting and interrupts are on. */
  predicate Irq(a: Acia) {
    a.rdrFull && a.rxIntEnabled
  }

  /** What the two ports answer: TDRE and RDRF, or the receive register. */
  function PortIn(a: Acia): map<byte, byte> {
    map[a.dataPort := a.rdrByte, a.ctrlPort := 2 + Bit(a.rdrFull)]
  }

  /** After a read: the data port hands the byte over and moves on. */
  function AfterRead(a: Acia, port: byte): Acia {
    if port == a.dataPort && a.rdrFull then
      a.(lastRx := a.rdrByte, rdrFull := false, rxPos := a.rxPos + 1, nextArrival := (a.lastStep + a.bytegap) % U64)
    else a
  }

  /** /RTS moves to a level; only a change is logged. */
  function SetRts(a: Acia, asserted: bool): Acia {
    if a.rtsAsserted == asserted then a
    else a.(rtsAsserted := asserted, rtsLog := a.rtsLog + [RtsChange(asserted, a.lastStep)])
  }

  /** Low bits 11 are a master reset; otherwise bit 7 enables the receive
      interrupt and bits 6-5 equal to 10 raise /RTS. */
  function WriteControl(a: Acia, value: byte): Acia {
    if value % 4 == 3 then SetRts(a.(rdrFull := false, rxIntEnabled := false), false)
    else SetRts(a.(rxIntEnabled := value >= 0x80), value / 0x20 % 4 != 2)
  }

  function AfterWrite(a: Acia, port: byte, value: byte): Acia {
    if port == a.dataPort then a.(lastTx := value, sent := a.sent + [value])
    else if port == a.ctrlPort then WriteControl(a, value)
    else a
  }

  // ----- whole runs

  datatype Event = Step(step: nat, live: seq<byte>) | Read(port: byte) | Write(port: byte, value: byte)

  function Apply(a: Acia, e: Event): Acia {
    match e
    case Step(step, live) => OnStep(a, step, live)
    case Read(port) => AfterRead(a, port)
    case Write(port, value) => AfterWrite(a, port, value)
  }

  function Run(a: Acia, es: seq<Event>): Acia {
    if |es| == 0 then a else Apply(Run(a, es[..|es|-1]), es[|es|-1])
  }

  /** A byte handed to the processor, with the step at which that happened. */
  datatype Receipt = Receipt(value: byte, step: nat)

  /** The event hands a byte over: a data read while one is waiting. */
  predicate Consumes(a: Acia, e: Event) {
    e.Read? && e.port == a.dataPort && a.rdrFull
  }

  /** The bytes handed over in a run, each as the read returned it. */
  function Received(a: Acia, es: seq<Event>): seq<Receipt> {
    if |es| == 0 then []
    else
      var n := |es| - 1;
      var b := Run(a, es[..n]);
      Received(a, es[..n]) +
        if Consumes(b, es[n]) && es[n].port in PortIn(b) then [Receipt(PortIn(b)[es[n].port], b.lastStep)] else []
  }

  /** Step numbers go up and stay clear of 64-bit overflow. */
  predicate Ordered(a: Acia, es: seq<Event>) {
    forall i | 0 <= i < |es| && es[i].Step? ::
      Run(a, es[..i]).lastStep <= es[i].step && es[i].step + a.bytegap < U64
  }

  /** No live byte is queued, and none comes in. */
  predicate Scripted(a: Acia, es: seq<Event>) {
    a.rxq == [] && forall i | 0 <= i < |es| && es[i].Step? :: es[i].live == []
  }

  ghost predicate Paced(a: Acia, log: seq<Receipt>) {
    forall i | 0 < i < |log| :: log[i].step >= log[i-1].step + a.bytegap
  }

  /** What every run from a reset chip keeps. */
  ghost predicate Good(a: Acia, log: seq<Receipt>) {
    && a.lastStep + a.bytegap < U64 && a.rxq == []
    && a.rxPos == |log| <= |a.rx|
    && (forall i | 0 <= i < |log| :: log[i].value == a.rx[i])
    && (a.rdrFull ==> a.rxPos < |a.rx| && a.rdrByte == a.rx[a.rxPos] && a.lastStep >= a.nextArrival)
    && Paced(a, log)
    && (|log| > 0 ==> a.nextArrival == log[|log|-1].step + a.bytegap)
  }

  lemma {:induction false} RunFrame(a: Acia, es: seq<Event>)
    ensures var r := Run(a, es);
      r.rx == a.rx && r.bytegap == a.bytegap && r.ctrlPort == a.ctrlPort && r.dataPort == a.dataPort
  {
    if |es| != 0 {
      RunFrame(a, es[..|es|-1]);
    }
  }

  lemma GoodStep(a: Acia, log: seq<Receipt>, e: Event)
    requires Good(a, log) && a.ctrlPort != a.dataPort
    requires e.Step? ==> a.lastStep <= e.step && e.step + a.bytegap < U64 && e.live == []
    ensures Consumes(a, e) ==> Good(Apply(a, e), log + [Receipt(PortIn(a)[e.port], a.lastStep)])
    ensures !Consumes(a, e) ==> Good(Apply(a, e), log)
  {
  }

  lemma OrderedPrefix(a: Acia, es: seq<Event>)
    requires |es| > 0 && Ordered(a, es) && Scripted(a, es)
    ensures var n := |es| - 1;
      && Ordered(a, es[..n]) && Scripted(a, es[..n])
      && (es[n].Step? ==> Run(a, es[..n]).lastStep <= es[n].step && es[n].step + a.bytegap < U64 && es[n].live == [])
  {
    hide Run;
    assert forall i | 0 <= i < |es| - 1 :: es[..|es|-1][..i] == es[..i];
  }

  /** Main result: scripted input arrives in order and exactly once. Under any interleaving of steps,
      status and data reads, control writes and master resets, from a reset chip:
      the bytes handed over are exactly the first rxPos bytes of the script; a
      full receive register holds the next one; and consecutive hand-overs are
      at least bytegap steps apart. */
  lemma {:induction false} ReceivesInOrderExactlyOnce(a: Acia, es: seq<Event>)
    requires a.ctrlPort != a.dataPort && a == Reset(a) && a.lastStep + a.bytegap < U64
    requires Ordered(a, es) && Scripted(a, es)
    ensures Good(Run(a, es), Received(a, es))
  {
    if |es| != 0 {
      hide Apply, Good, Ordered, Scripted;
      var n := |es| - 1;
      OrderedPrefix(a, es);
      ReceivesInOrderExactlyOnce(a, es[..n]);
      RunFrame(a, es[..n]);
      GoodStep(Run(a, es[..n]), Received(a, es[..n]), es[n]);
    }
  }

  /** No byte enters the receive register while /RTS is de-asserted, and a scripted
      byte not before its time; only steps enter one. The script position moves
      only when a byte is handed over. */
  lemma LoadsOnlyWhenReady(a: Acia, e: Event)
    ensures !a.rdrFull && Apply(a, e).rdrFull ==> e.Step? && a.rtsAsserted
    ensures !a.rdrFull && Apply(a, e).rdrFull && MayLoad(a, e.step) ==>
      Apply(a, e).rdrByte == a.rx[a.rxPos] && Apply(a, e).rxq == a.rxq + e.live
    ensures TakesLive(a, e) ==> [Apply(a, e).rdrByte] + Apply(a, e).rxq == a.rxq + e.live
    ensures Apply(a, e).rxPos == a.rxPos + if Consumes(a, e) then 1 else 0
  {
  }

  /** A master reset drops a waiting byte from the register; once /RTS is asserted
      again the next step re-enters that same byte. */
  lemma MasterResetKeepsByte(a: Acia, log: seq<Receipt>, reset: byte, ready: byte, step: nat)
    requires Good(a, log) && a.rdrFull && a.lastStep <= step && a.ctrlPort != a.dataPort
    requires reset % 4 == 3 && ready % 4 != 3 && ready / 0x20 % 4 != 2
    ensures var silent := Apply(a, Write(a.ctrlPort, reset));
      && !silent.rdrFull && !Irq(silent)
      && var b := Apply(Apply(silent, Write(a.ctrlPort, ready)), Step(step, []));
         b.rdrFull && b.rdrByte == a.rdrByte && b.rxPos == a.rxPos && Irq(b) == (ready >= 0x80)
  {
  }

  // ----- script and live channels mixed

  /** The event takes a byte off the live queue. */
  predicate TakesLive(a: Acia, e: Event) {
    e.Step? && !a.rdrFull && Apply(a, e).rdrFull && !MayLoad(a, e.step)
  }

  /** The byte last entered in the receive register came from the script. */
  function FromScript(a: Acia, es: seq<Event>): bool {
    |es| > 0 &&
    var b, e := Run(a, es[..|es|-1]), es[|es|-1];
    if !b.rdrFull && Apply(b, e).rdrFull then !TakesLive(b, e) else FromScript(a, es[..|es|-1])
  }

  /** For each byte handed over, whether it came from the script. */
  function Origins(a: Acia, es: seq<Event>): seq<bool> {
    if |es| == 0 then []
    else
      var earlier := es[..|es|-1];
      Origins(a, earlier) + if Consumes(Run(a, earlier), es[|es|-1]) then [FromScript(a, earlier)] else []
  }

  /** The live bytes that arrived, and those taken off the queue, in order. */
  function Arrived(es: seq<Event>): seq<byte> {
    if |es| == 0 then [] else Arrived(es[..|es|-1]) + if es[|es|-1].Step? then es[|es|-1].live else []
  }

  function LiveTaken(a: Acia, es: seq<Event>): seq<byte> {
    if |es| == 0 then []
    else
      var b, e := Run(a, es[..|es|-1]), es[|es|-1];
      LiveTaken(a, es[..|es|-1]) + if TakesLive(b, e) then [Apply(b, e).rdrByte] else []
  }

  /** A byte that stays in the register stays the same there, and the script
      position with it; a byte handed over is the one in the register. */
  lemma OneEvent(a: Acia, e: Event)
    requires a.ctrlPort != a.dataPort
    ensures Apply(a, e).rx == a.rx
    ensures a.rdrFull && Apply(a, e).rdrFull ==> Apply(a, e).rdrByte == a.rdrByte && !Consumes(a, e)
    ensures Consumes(a, e) ==> !Apply(a, e).rdrFull && e.port in PortIn(a) && PortIn(a)[e.port] == a.rdrByte
  {
  }

  /** What a script explains of a run: the script position counts the bytes handed
      over; those that came from the script are its bytes at their places; and so
      is a waiting byte that came from it. */
  ghost predicate Accounted(rx: seq<byte>, b: Acia, log: seq<Receipt>, origins: seq<bool>, fromScript: bool) {
    && b.rxPos == |log| == |origins| && b.rx == rx
    && (forall i | 0 <= i < |log| && origins[i] :: i < |rx| && log[i].value == rx[i])
    && (b.rdrFull && fromScript ==> b.rxPos < |rx| && b.rdrByte == rx[b.rxPos])
  }

  lemma AccountedStep(rx: seq<byte>, b: Acia, log: seq<Receipt>, origins: seq<bool>, fromScript: bool, e: Event)
    requires Accounted(rx, b, log, origins, fromScript) && b.ctrlPort != b.dataPort
    ensures var c := Apply(b, e);
      var from := if !b.rdrFull && c.rdrFull then !TakesLive(b, e) else fromScript;
      if Consumes(b, e) then
        Accounted(rx, c, log + [Receipt(PortIn(b)[e.port], b.lastStep)], origins + [fromScript], from)
      else Accounted(rx, c, log, origins, from)
  {
    OneEvent(b, e);
    LoadsOnlyWhenReady(b, e);
    hide Apply;
  }

  /** Main result for mixed input. The script position counts all bytes handed
      over, so the i-th of them, if it came from the script, is the script's i-th
      byte: a scripted byte is received exactly when its turn does not fall to a
      live byte, and each live byte handed over costs the scripted byte at its
      place. */
  lemma {:induction false} MixedReceipts(a: Acia, es: seq<Event>)
    requires a == Reset(a) && a.ctrlPort != a.dataPort
    ensures Accounted(a.rx, Run(a, es), Received(a, es), Origins(a, es), FromScript(a, es))
  {
    if |es| != 0 {
      hide Apply, Accounted, TakesLive;
      var n := |es| - 1;
      MixedReceipts(a, es[..n]);
      RunFrame(a, es[..n]);
      AccountedStep(a.rx, Run(a, es[..n]), Received(a, es[..n]), Origins(a, es[..n]), FromScript(a, es[..n]), es[n]);
      assert Received(a, es[..n]) + [] == Received(a, es[..n]) && Origins(a, es[..n]) + [] == Origins(a, es[..n]);
    }
  }

  /** Live bytes enter the register first in, first out, none lost on the way. */
  lemma {:induction false} LiveInOrder(a: Acia, es: seq<Event>)
    ensures LiveTaken(a, es) + Run(a, es).rxq == a.rxq + Arrived(es)
  {
    if |es| != 0 {
      var n := |es| - 1;
      LiveInOrder(a, es[..n]);
      var b := Run(a, es[..n]);
      QueueMoves(b, es[n], LiveTaken(a, es[..n]), a.rxq + Arrived(es[..n]));
      hide Apply, TakesLive;
      assert a.rxq + Arrived(es) == a.rxq + Arrived(es[..n]) + if es[n].Step? then es[n].live else [];
    } else {
      assert [] + a.rxq == a.rxq + [];
    }
  }

  /** One event, seen from the live queue. */
  lemma QueueMoves(b: Acia, e: Event, taken: seq<byte>, arrived: seq<byte>)
    requires taken + b.rxq == arrived
    ensures var c := Apply(b, e);
      (taken + if TakesLive(b, e) then [c.rdrByte] else []) + c.rxq == arrived + if e.Step? then e.live else []
  {
    var c := Apply(b, e);
    if e.Step? {
      assert taken + (b.rxq + e.live) == arrived + e.live;
      if TakesLive(b, e) {
        assert [c.rdrByte] + c.rxq == b.rxq + e.live;
        assert (taken + [c.rdrByte]) + c.rxq == taken + ([c.rdrByte] + c.rxq);
      } else {
        assert taken + [] == taken;
      }
    } else {
      assert taken + [] == taken && arrived + [] == arrived;
    }
  }

  /** A run that loses a scripted byte: one live byte read between two scripted
      ones takes the place of the second, which is never received. */
  lemma LiveByteSkipsScript(a: Acia, live: byte)
    requires a == Reset(a) && a.rxq == [] && a.ctrlPort != a.dataPort
    requires |a.rx| == 2 && 2 <= a.bytegap && a.bytegap + 1 < U64
    ensures var b := Apply(Apply(a, Step(0, [])), Read(a.dataPort));
      var c := Apply(Apply(b, Step(1, [live])), Read(a.dataPort));
      && b.lastRx == a.rx[0] && c.lastRx == live && c.rxPos == |c.rx|
      && forall step :: !MayLoad(c, step)
  {
  }

  /** The live bytes handed over, in order. */
  function LiveHanded(a: Acia, es: seq<Event>): seq<byte> {
    if |es| == 0 then []
    else
      var earlier := es[..|es|-1];
      LiveHanded(a, earlier) + LiveConsumed(Run(a, earlier), FromScript(a, earlier), es[|es|-1])
  }

  function LiveConsumed(b: Acia, fromScript: bool, e: Event): seq<byte> {
    if Consumes(b, e) && !fromScript then [b.rdrByte] else []
  }

  /** The live byte in the register, if it holds one. */
  function Waiting(b: Acia, fromScript: bool): seq<byte> {
    if b.rdrFull && !fromScript then [b.rdrByte] else []
  }

  /** The event is a master reset. */
  predicate MasterReset(a: Acia, e: Event) {
    e.Write? && e.port == a.ctrlPort && e.port != a.dataPort && e.value % 4 == 3
  }

  /** The live bytes in the register when a master reset came. */
  function LiveDropped(a: Acia, es: seq<Event>): seq<byte> {
    if |es| == 0 then []
    else
      var earlier := es[..|es|-1];
      var b := Run(a, earlier);
      LiveDropped(a, earlier) + if MasterReset(b, es[|es|-1]) then Waiting(b, FromScript(a, earlier)) else []
  }

  /** Where the live bytes taken off the queue are: handed over, waiting or dropped;
      and in the order they came as long as none is dropped. */
  ghost predicate LiveAccounted(handed: seq<byte>, waiting: seq<byte>, dropped: seq<byte>, taken: seq<byte>) {
    && |handed| + |waiting| + |dropped| == |taken|
    && (dropped == [] ==> handed + waiting == taken)
  }

  lemma LiveStep(b: Acia, fromScript: bool, e: Event, handed: seq<byte>, dropped: seq<byte>, taken: seq<byte>)
    requires b.ctrlPort != b.dataPort && LiveAccounted(handed, Waiting(b, fromScript), dropped, taken)
    ensures var c := Apply(b, e);
      var from := if !b.rdrFull && c.rdrFull then !TakesLive(b, e) else fromScript;
      LiveAccounted(handed + LiveConsumed(b, fromScript, e), Waiting(c, from),
                    dropped + (if MasterReset(b, e) then Waiting(b, fromScript) else []),
                    taken + if TakesLive(b, e) then [c.rdrByte] else [])
  {
    OneEvent(b, e);
    assert handed + [] == handed && dropped + [] == dropped && taken + [] == taken;
    if TakesLive(b, e) {
      assert Waiting(b, fromScript) == [];
      assert LiveConsumed(b, fromScript, e) == [];
    }
    if Consumes(b, e) {
      assert Waiting(Apply(b, e), fromScript) == [];
    }
  }

  lemma {:induction false} LiveAccounting(a: Acia, es: seq<Event>)
    requires a == Reset(a) && a.ctrlPort != a.dataPort
    ensures LiveAccounted(LiveHanded(a, es), Waiting(Run(a, es), FromScript(a, es)), LiveDropped(a, es), LiveTaken(a, es))
  {
    hide Apply, LiveAccounted, TakesLive, LiveConsumed, Waiting, MasterReset;
    if |es| == 0 {
      NoLiveYet(a);
    } else {
      var n := |es| - 1;
      LiveAccounting(a, es[..n]);
      RunFrame(a, es[..n]);
      LiveStep(Run(a, es[..n]), FromScript(a, es[..n]), es[n], LiveHanded(a, es[..n]), LiveDropped(a, es[..n]), LiveTaken(a, es[..n]));
    }
  }

  lemma NoLiveYet(a: Acia)
    requires a == Reset(a)
    ensures LiveAccounted([], Waiting(a, false), [], [])
  {
  }

  /** Main result for live input, for every run from a reset chip: each live byte
      taken off the queue has been handed over, is waiting, or was dropped by a
      master reset while it waited. So the live bytes reach the processor exactly
      as they came, none missing, if and only if no master reset found one in the
      register. */
  lemma LiveDelivery(a: Acia, es: seq<Event>)
    requires a == Reset(a) && a.ctrlPort != a.dataPort
    ensures var handed, waiting, dropped := LiveHanded(a, es), Waiting(Run(a, es), FromScript(a, es)), LiveDropped(a, es);
      && |handed| + |waiting| + |dropped| + |Run(a, es).rxq| == |a.rxq| + |Arrived(es)|
      && (handed + waiting + Run(a, es).rxq == a.rxq + Arrived(es) <==> dropped == [])
  {
    hide Run, Waiting, LiveHanded, LiveDropped, LiveTaken, Arrived, FromScript;
    LiveAccounting(a, es);
    LiveInOrder(a, es);
  }

  /** A run from reset in which a live byte is lost: it arrives, a master reset
      comes before it is read, and once /RTS is asserted again nothing is left to
      receive. */
  lemma MasterResetLosesLiveByte(a: Acia, live: byte, reset: byte, ready: byte, step: nat)
    requires a == Reset(a) && a.ctrlPort != a.dataPort && a.rx == [] && a.rxq == []
    requires reset % 4 == 3 && ready % 4 != 3 && ready / 0x20 % 4 != 2
    ensures var es := [Step(0, [live]), Write(a.ctrlPort, reset), Write(a.ctrlPort, ready), Step(step, [])];
      && Run(a, es[..1]).rdrFull && Run(a, es[..1]).rdrByte == live
      && !Run(a, es).rdrFull && Run(a, es).rxq == [] && Run(a, es).rtsAsserted
      && LiveHanded(a, es) == [] && LiveDropped(a, es) == [live]
  {
    hide Apply, Run, TakesLive, MasterReset, FromScript, LiveHanded, LiveDropped;
    var es := [Step(0, [live]), Write(a.ctrlPort, reset), Write(a.ctrlPort, ready), Step(step, [])];
    LossStates(a, live, reset, ready, step);
    FourEvents(a, es);
    FromScriptNext(a, es, 0);
    LossNext(a, es, 0);
    LossNext(a, es, 1);
    LossNext(a, es, 2);
    LossNext(a, es, 3);
  }

  lemma LossStates(a: Acia, live: byte, reset: byte, ready: byte, step: nat)
    requires a == Reset(a) && a.ctrlPort != a.dataPort && a.rx == [] && a.rxq == []
    requires reset % 4 == 3 && ready % 4 != 3 && ready / 0x20 % 4 != 2
    ensures var b := Apply(a, Step(0, [live]));
      && TakesLive(a, Step(0, [live])) && b.rdrFull && b.rdrByte == live
      && MasterReset(b, Write(a.ctrlPort, reset)) && !MasterReset(a, Step(0, [live]))
      && var c := Apply(b, Write(a.ctrlPort, reset));
      && !MasterReset(c, Write(a.ctrlPort, ready))
      && var d := Apply(Apply(c, Write(a.ctrlPort, ready)), Step(step, []));
      && !MasterReset(Apply(c, Write(a.ctrlPort, ready)), Step(step, []))
      && !d.rdrFull && d.rxq == [] && d.rtsAsserted
  {
  }

  lemma RunNext(a: Acia, es: seq<Event>, i: nat)
    requires i < |es|
    ensures Run(a, es[..i + 1]) == Apply(Run(a, es[..i]), es[i]) && Run(a, es[..0]) == a
  {
    hide Apply;
    assert es[..i + 1][..i] == es[..i];
  }

  lemma FourEvents(a: Acia, es: seq<Event>)
    requires |es| == 4
    ensures Run(a, es[..0]) == a && Run(a, es[..1]) == Apply(a, es[0]) && Run(a, es[..2]) == Apply(Apply(a, es[0]), es[1])
    ensures Run(a, es[..3]) == Apply(Apply(Apply(a, es[0]), es[1]), es[2]) && Run(a, es) == Apply(Run(a, es[..3]), es[3])
    ensures es[..4] == es
  {
    hide Apply;
    RunNext(a, es, 0);
    RunNext(a, es, 1);
    RunNext(a, es, 2);
    RunNext(a, es, 3);
  }

  lemma FromScriptNext(a: Acia, es: seq<Event>, i: nat)
    requires i < |es|
    ensures var b, e := Run(a, es[..i]), es[i];
      FromScript(a, es[..i + 1]) == if !b.rdrFull && Apply(b, e).rdrFull then !TakesLive(b, e) else FromScript(a, es[..i])
  {
    hide Apply, TakesLive;
    assert es[..i + 1][..i] == es[..i];
  }

  lemma LossNext(a: Acia, es: seq<Event>, i: nat)
    requires i < |es|
    ensures var b, e, from := Run(a, es[..i]), es[i], FromScript(a, es[..i]);
      && LiveHanded(a, es[..i + 1]) == LiveHanded(a, es[..i]) + LiveConsumed(b, from, e)
      && LiveDropped(a, es[..i + 1]) == LiveDropped(a, es[..i]) + (if MasterReset(b, e) then Waiting(b, from) else [])
      && LiveHanded(a, es[..0]) == [] && LiveDropped(a, es[..0]) == []
  {
    hide Apply, TakesLive;
    assert es[..i + 1][..i] == es[..i];
  }

  // ----- output

  /** The bytes the run writes to the data port, in order. */
  function Written(a: Acia, es: seq<Event>): seq<byte> {
    if |es| == 0 then []
    else
      var e := es[|es|-1];
      Written(a, es[..|es|-1]) + if e.Write? && e.port == a.dataPort then [e.value] else []
  }

  /** /RTS log entries alternate, and the last one is the level now. */
  ghost predicate RtsLogged(a: Acia) {
    && (forall i | 0 < i < |a.rtsLog| :: a.rtsLog[i].asserted != a.rtsLog[i-1].asserted)
    && (|a.rtsLog| > 0 ==> a.rtsLog[|a.rtsLog|-1].asserted == a.rtsAsserted)
  }

  lemma SetRtsLogged(a: Acia, asserted: bool)
    requires RtsLogged(a)
    ensures RtsLogged(SetRts(a, asserted)) && SetRts(a, asserted).sent == a.sent
  {
  }

  lemma RtsUntouched(a: Acia, b: Acia)
    requires RtsLogged(a) && b.rtsLog == a.rtsLog && b.rtsAsserted == a.rtsAsserted
    ensures RtsLogged(b)
  {
  }

  lemma SendsOne(a: Acia, e: Event)
    requires RtsLogged(a)
    ensures var b := Apply(a, e);
      b.sent == a.sent + (if e.Write? && e.port == a.dataPort then [e.value] else []) && RtsLogged(b)
  {
    hide RtsLogged, SetRts, PortIn, MayLoad;
    assert a.sent + [] == a.sent;
    if e.Write? && e.port == a.ctrlPort && e.port != a.dataPort {
      var b := if e.value % 4 == 3 then a.(rdrFull := false, rxIntEnabled := false) else a.(rxIntEnabled := e.value >= 0x80);
      RtsUntouched(a, b);
      SetRtsLogged(b, e.value % 4 != 3 && e.value / 0x20 % 4 != 2);
    } else {
      RtsUntouched(a, Apply(a, e));
    }
  }

  /** Everything written to the data port is sent, once and in order, whatever
      else happens; and the /RTS log records exactly the changes. */
  lemma {:induction false} SendsWhatIsWritten(a: Acia, es: seq<Event>)
    requires RtsLogged(a)
    ensures Run(a, es).sent == a.sent + Written(a, es) && RtsLogged(Run(a, es))
  {
    if |es| != 0 {
      SendsWhatIsWritten(a, es[..|es|-1]);
      RunFrame(a, es[..|es|-1]);
      SendsOne(Run(a, es[..|es|-1]), es[|es|-1]);
      hide Apply, RtsLogged;
    } else {
      assert a.sent + [] == a.sent;
    }
  }

  // ----- what a program sees and commands

  /** The status port reads 3 while a byte waits and 2 otherwise (the transmitter is
      always ready); the data port reads that byte. Both are what the chip does. */
  lemma StatusAndData(a: Acia)
    requires a.ctrlPort != a.dataPort
    ensures a.ctrlPort in PortIn(a) && PortIn(a)[a.ctrlPort] == (if a.rdrFull then 3 else 2)
    ensures a.dataPort in PortIn(a) && PortIn(a)[a.dataPort] == a.rdrByte
    ensures forall port | port in PortIn(a) :: port == a.ctrlPort || port == a.dataPort
  {
  }

  /** A step fills the register as soon as it may: /RTS asserted, and either a scripted
      byte left whose time has come, or else a live byte in the queue. */
  lemma LoadsExactly(a: Acia, step: nat, live: seq<byte>)
    ensures var r := OnStep(a, step, live); var due := a.rxPos < |a.rx| && step >= a.nextArrival;
      && (r.rdrFull <==> a.rdrFull || (a.rtsAsserted && (due || |a.rxq| + |live| > 0)))
      && (!a.rdrFull && r.rdrFull ==> r.rdrByte == if due then a.rx[a.rxPos] else (a.rxq + live)[0])
      && (a.rdrFull ==> r.rdrByte == a.rdrByte) && r.rxPos == a.rxPos && r.lastStep == step
  {
  }

  /** /IRQ is asserted exactly while a byte waits and the last control byte asked for
      receive interrupts. */
  lemma IrqMeans(a: Acia, value: byte, step: nat, live: seq<byte>)
    requires a.ctrlPort != a.dataPort && value % 4 != 3
    ensures var r := OnStep(AfterWrite(a, a.ctrlPort, value), step, live); Irq(r) <==> r.rdrFull && value >= 0x80
    ensures var r := AfterRead(a, a.dataPort); !Irq(r)
  {
    ControlMeans(a, value);
    hide AfterWrite;
  }

  /** A control byte raises /RTS, that is, stops the sender, when it is a master
      reset or lies in 40-5F or C0-DF; it turns the receive interrupt on from 80 up,
      a master reset apart. Nothing else it says has an effect. */
  lemma ControlMeans(a: Acia, value: byte)
    requires a.ctrlPort != a.dataPort
    ensures var r := AfterWrite(a, a.ctrlPort, value); var reset := value % 4 == 3;
      && r.rtsAsserted == (!reset && !(0x40 <= value < 0x60) && !(0xC0 <= value < 0xE0))
      && r.rxIntEnabled == (!reset && value >= 0x80)
      && r.rdrFull == (a.rdrFull && !reset)
      && r.rxPos == a.rxPos && r.rdrByte == a.rdrByte && r.rxq == a.rxq && r.sent == a.sent && r.nextArrival == a.nextArrival
  {
    assert value / 0x20 % 4 == 2 <==> 0x40 <= value < 0x60 || 0xC0 <= value < 0xE0;
  }

  /** With /RTS raised by such a byte nothing is received until it is asserted. */
  lemma StoppedReceivesNothing(a: Acia, value: byte, step: nat, live: seq<byte>)
    requires a.ctrlPort != a.dataPort && !a.rdrFull
    requires 0x40 <= value < 0x60 || 0xC0 <= value < 0xE0
    ensures var r := OnStep(AfterWrite(a, a.ctrlPort, value), step, live); !r.rdrFull && r.rxPos == a.rxPos && r.rxq == a.rxq + live
  {
    ControlMeans(a, value);
    hide AfterWrite;
  }
}
