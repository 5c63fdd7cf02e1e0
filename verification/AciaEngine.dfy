/** The MC6850 plugin as the program keeps it: one object whose callbacks update
    its fields in place, proved call for call against AciaModel.dfy. */
module AciaEngine {
  import opened CpuArith
  import CpuRuns
  import CpuEngine
  import M = AciaModel

  class Mc6850 {
    const ctrlPort: byte
    const dataPort: byte
    const rx: seq<byte>
    const bytegap: nat
    var rxPos: nat
    var rdrFull: bool
    var rdrByte: byte
    var nextArrival: nat
    var lastStep: nat
    var rxIntEnabled: bool
    var rtsAsserted: bool
    var lastTx: int
    var lastRx: int
    var rxq: seq<byte>
    var sent: seq<byte>
    var rtsLog: seq<M.RtsChange>

    function View(): M.Acia
      reads this
    {
      M.Acia(ctrlPort, dataPort, rx, bytegap, rxPos, rdrFull, rdrByte, nextArrival, lastStep,
             rxIntEnabled, rtsAsserted, lastTx, lastRx, rxq, sent, rtsLog)
    }

    /** Status and control at the base address, data one port up. */
    constructor (base: byte, script: seq<byte>, gap: nat)
      ensures View() == M.Acia(base, (base + 1) % 0x100, script, gap, 0, false, 0, 0, 0, false, true, -1, -1, [], [], [])
      ensures M.Reset(View()) == View() && View().ctrlPort != View().dataPort
    {
      ctrlPort, dataPort, rx, bytegap := base, (base + 1) % 0x100, script, gap;
      rxPos, rdrFull, rdrByte, nextArrival, lastStep := 0, false, 0, 0, 0;
      rxIntEnabled, rtsAsserted, lastTx, lastRx := false, true, -1, -1;
      rxq, sent, rtsLog := [], [], [];
    }

    method OnReset()
      modifies this
      ensures View() == M.Reset(old(View()))
    {
      rxPos, rdrFull, nextArrival := 0, false, 0;
      rxIntEnabled, rtsAsserted := false, true;
    }

    /** Queue what came in on the live channels. */
    method Drain(live: seq<byte>)
      modifies this`rxq
      ensures rxq == old(rxq) + live
    {
      for i := 0 to |live|
        invariant rxq == old(rxq) + live[..i]
      {
        rxq := rxq + [live[i]];
      }
    }

    /** Queue the live bytes, then enter a scripted or a live byte when possible. */
    method Receive(step: nat, live: seq<byte>)
      modifies this
      ensures View() == M.OnStep(old(View()), step, live)
    {
      lastStep := step;
      Drain(live);
      if !rdrFull && rxPos < |rx| && rtsAsserted && step >= nextArrival {
        rdrByte := rx[rxPos];
        rdrFull := true;
      }
      if !rdrFull && rxq != [] && rtsAsserted {
        rdrByte, rxq := rxq[0], rxq[1..];
        rdrFull := true;
      }
    }

    /** Receive, then assert the processor's RST 7.5 latch unless a netlist carries
        the interrupt. */
    method OnStep(state: CpuEngine.State8085, step: nat, live: seq<byte>, wiringActive: bool)
      requires state.Valid()
      modifies this, state`lines
      ensures View() == M.OnStep(old(View()), step, live)
      ensures state.View() == if !wiringActive && M.Irq(View()) then CpuRuns.Trigger(old(state.View()), 75, true) else old(state.View())
    {
      hide M.OnStep;
      Receive(step, live);
      if rdrFull && rxIntEnabled && !wiringActive {
        state.lines := state.lines.(r7 := true);
      }
    }

    /** What a read of the port will find: nothing new on a foreign port. */
    method PreRead(state: CpuEngine.State8085, port: byte)
      requires state.Valid()
      modifies state.io
      ensures state.View() == var was := old(state.View()); var ports := M.PortIn(View());
        if port in ports then was.(io := was.io[port := ports[port]]) else was
    {
      if port == ctrlPort {
        state.io[ctrlPort] := 2 + if rdrFull then 1 else 0;
      } else if port == dataPort {
        state.io[dataPort] := rdrByte;
      }
    }

    method PostRead(port: byte)
      modifies this
      ensures View() == M.AfterRead(old(View()), port)
    {
      if port == dataPort && rdrFull {
        lastRx := rdrByte;
        rdrFull := false;
        rxPos := rxPos + 1;
        nextArrival := (lastStep + bytegap) % M.U64;
      }
    }

    method LogRts(asserted: bool)
      modifies this`rtsLog
      ensures rtsLog == old(rtsLog) + [M.RtsChange(asserted, lastStep)]
    {
      rtsLog := rtsLog + [M.RtsChange(asserted, lastStep)];
    }

    method OnIoWrite(port: byte, value: byte)
      modifies this
      ensures View() == M.AfterWrite(old(View()), port, value)
    {
      if port == dataPort {
        lastTx := value;
        sent := sent + [value];
        return;
      }
      if port == ctrlPort {
        if value % 4 == 3 {
          rdrFull, rxIntEnabled := false, false;
          if rtsAsserted {
            rtsAsserted := false;
            LogRts(false);
          }
          return;
        }
        rxIntEnabled := value / 0x80 == 1;
        var newRts := value / 0x20 % 4 != 2;
        if newRts != rtsAsserted {
          rtsAsserted := newRts;
          LogRts(newRts);
        }
      }
    }
  }
}
