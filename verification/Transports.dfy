// The transport between client and device: transport.py, SimulatorTransport,
// and the scripted line that stands for any other.

module Transports {
  import opened Bytes
  import opened Conversation
  import opened Simulator

  class Transport {
    const simulator: HeatPumpSimulator?
    var rx: seq<Arrival>
    ghost var polls: nat
    ghost var sent: seq<byte>

    // The line this object is.
    ghost function Link(): Line
      reads this, simulator
    {
      Line(if simulator == null then None else Some(simulator.View()), rx, polls, sent)
    }

    constructor Simulated(simulator: HeatPumpSimulator)
      ensures this.simulator == simulator && rx == [] && polls == 0 && sent == []
    {
      this.simulator := simulator;
      rx, polls, sent := [], 0, [];
    }

    // A line on which this will arrive, whatever is written.
    constructor Scripted(rx: seq<Arrival>)
      ensures simulator == null && this.rx == rx && polls == 0 && sent == []
    {
      simulator := null;
      this.rx, polls, sent := rx, 0, [];
    }

    // Named so as not to hide the function it is proved against.
    method Send(data: seq<byte>)
      modifies this, simulator
      ensures Link() == Write(old(Link()), data)
      ensures sent == old(sent) + data && (simulator == null ==> rx == old(rx))
      ensures simulator != null ==> rx == old(rx) + Arrivals(Devices.Feed(old(simulator.View()), data).1)
    {
      sent := sent + data;
      if simulator != null {
        var out := simulator.Feed(data);
        Push(out);
      }
    }

    method Push(out: seq<byte>)
      modifies this`rx
      ensures rx == old(rx) + Arrivals(out)
    {
      for i := 0 to |out|
        invariant rx == old(rx) + Arrivals(out[..i])
      {
        assert Arrivals(out[..i + 1]) == Arrivals(out[..i]) + [Byte(out[i])];
        rx := rx + [Byte(out[i])];
      }
      assert out[..|out|] == out;
    }

    // None is the NoDataAvailable exception.
    method Take() returns (r: Option<byte>)
      modifies this
      ensures (Link(), r) == Get(old(Link()))
    {
      polls := polls + 1;
      if rx == [] {
        return None;
      }
      var first := rx[0];
      rx := rx[1..];
      return Arrived(first);
    }
  }
}
