// The handshake: connector.py, Connector.

module Connectors {
  import opened Bytes
  import opened Escaping
  import opened Framing
  import opened Conversation
  import opened Transports

  class Connector {
    const transport: Transport

    constructor (transport: Transport)
      ensures this.transport == transport
    {
      this.transport := transport;
    }

    ghost function Link(): Line
      reads transport, transport.simulator
    {
      transport.Link()
    }

    // One conversation is one run of the client machine.
    method GetData(message: seq<byte>) returns (r: Result<seq<byte>, Error>)
      modifies transport, transport.simulator
      ensures (Link(), r) == Converse(old(Link()), Talk(message, false))
    {
      ghost var t := Talk(message, false);
      var started := StartCommunication();
      if started.Err? {
        return Err(started.error);
      }
      var established := EstablishRequest(message, t);
      if established.Err? {
        return Err(ProtocolError);
      }
      if !established.value {
        return Ok([]);
      }
      transport.Send([ESCAPE]);
      r := ReceiveData(t);
      if r.Err? {
        return Ok([]);
      }
    }

    method SetData(message: seq<byte>) returns (r: Result<seq<byte>, Error>)
      modifies transport, transport.simulator
      ensures (Link(), r) == Converse(old(Link()), Talk(message, true))
    {
      ghost var t := Talk(message, true);
      var started := StartCommunication();
      if started.Err? {
        return Ok([]);
      }
      var established := EstablishRequest(message, t);
      if established.Err? {
        return Ok([]);
      }
      transport.Send([ESCAPE]);
      r := ReceiveData(t);
    }

    // Greets the device; the byte that comes back must be the escape byte.
    method StartCommunication() returns (r: Result<(), Error>)
      modifies transport, transport.simulator
      ensures var (line, b) := Get(Write(old(Link()), [START_COMMUNICATION]));
              Link() == line && r == if b == Some(ESCAPE) then Ok(()) else Err(ProtocolError)
    {
      transport.Send([START_COMMUNICATION]);
      var response := transport.Take();
      if response.None? {
        return Err(ProtocolError);
      }
      if response.value != ESCAPE {
        return Err(ProtocolError);
      }
      return Ok(());
    }

    // Where the machine goes on after the request.
    static ghost function AfterRequest(t: Talk, r: Result<bool, Error>): At {
      match r
      case Err(_) => HandshakeFailed(t)
      case Ok(yes) => Established(t, yes)
    }

    // Where the machine waits for data: out of patience, it greets again.
    static ghost function Waiting(b0: byte, b1: byte, count: nat, silent: nat, round: nat): At {
      if silent < MAX_RETRY then Poll(b0, b1, count, silent, round) else Regreet(b0, b1, round + 1)
    }

    static ghost function AfterWaiting(t: Talk, r: Result<bool, Error>, b0: byte, b1: byte, round: nat): At {
      match r
      case Err(_) => HandshakeFailed(t)
      case Ok(yes) => if yes then Established(t, true) else Regreet(b0, b1, round + 1)
    }

    // Where it goes on after one call.
    static ghost function AfterPoll(t: Talk, b0: byte, b1: byte, count: nat, silent: nat, round: nat,
                                    r: Option<byte>): At {
      match r
      case None => Waiting(b0, b1, count, silent + 1, round)
      case Some(b) =>
        if count >= INPUT_BUFFER_LENGTH then HandshakeFailed(t)
        else
          var c0, c1 := if count == 0 then b else b0, if count == 1 then b else b1;
          if c0 == ESCAPE && c1 == START_COMMUNICATION then Established(t, true)
          else Poll(c0, c1, count + 1, silent, round)
    }

    static lemma PollStep(line: Line, t: Talk, b0: byte, b1: byte, count: nat, silent: nat, round: nat, end: (Line, At))
      requires silent < MAX_RETRY && Run(line, t, Waiting(b0, b1, count, silent, round)) == end
      ensures var (line', r) := Get(line); Run(line', t, AfterPoll(t, b0, b1, count, silent, round, r)) == end
    {
    }

    // The inner loop of a request: reads until the first two bytes of the
    // buffer say that data is available, or five timeouts have passed.
    method WaitForData(buffer: array<byte>, ghost t: Talk, ghost round: nat) returns (r: Result<bool, Error>)
      requires buffer.Length == INPUT_BUFFER_LENGTH
      modifies transport, buffer
      ensures Run(old(Link()), t, Poll(old(buffer[0]), old(buffer[1]), 0, 0, round)) ==
              Run(Link(), t, AfterWaiting(t, r, buffer[0], buffer[1], round))
      ensures Link().polls <= old(Link()).polls + 1029
    {
      ghost var polls, end := Link().polls, Run(Link(), t, Poll(buffer[0], buffer[1], 0, 0, round));
      var numRead, bufferRetry := 0, 0;
      while bufferRetry < MAX_RETRY
        invariant bufferRetry <= MAX_RETRY && numRead <= buffer.Length
        invariant Run(Link(), t, Waiting(buffer[0], buffer[1], numRead, bufferRetry, round)) == end
        invariant Link().polls + Room(numRead, INPUT_BUFFER_LENGTH) + Room(bufferRetry, MAX_RETRY) <= polls + 1029
        decreases Room(numRead, INPUT_BUFFER_LENGTH) + Room(bufferRetry, MAX_RETRY)
      {
        PollStep(Link(), t, buffer[0], buffer[1], numRead, bufferRetry, round, end);
        ghost var b0, b1 := buffer[0], buffer[1];
        var single := transport.Take();
        ghost var at := AfterPoll(t, b0, b1, numRead, bufferRetry, round, single);
        assert Run(Link(), t, at) == end;
        if single.None? {
          bufferRetry := bufferRetry + 1;
          assert at == Waiting(buffer[0], buffer[1], numRead, bufferRetry, round);
          continue;
        }
        if numRead >= buffer.Length {
          return Err(ProtocolError);
        }
        buffer[numRead] := single.value;
        numRead := numRead + 1;
        if buffer[0] != DATA_AVAILABLE[0] || buffer[1] != DATA_AVAILABLE[1] {
          assert at == Waiting(buffer[0], buffer[1], numRead, bufferRetry, round);
          continue;
        }
        assert at == Established(t, true);
        return Ok(true);
      }
      return Ok(false);
    }

    static ghost function AfterRound(t: Talk, r: Result<bool, Error>, b0: byte, b1: byte, round: nat): At {
      match r
      case Err(_) => HandshakeFailed(t)
      case Ok(yes) => if yes then Established(t, true) else Send(b0, b1, round + 1)
    }

    // One round: sends the request, waits for data, and greets again in vain.
    method Round(message: seq<byte>, buffer: array<byte>, ghost t: Talk, ghost round: nat)
      returns (r: Result<bool, Error>)
      requires buffer.Length == INPUT_BUFFER_LENGTH && t.message == message && round < MAX_RETRY
      modifies transport, transport.simulator, buffer
      ensures Run(old(Link()), t, Send(old(buffer[0]), old(buffer[1]), round)) ==
              Run(Link(), t, AfterRound(t, r, buffer[0], buffer[1], round))
      ensures Link().polls <= old(Link()).polls + 1030
    {
      transport.Send(message);
      r := WaitForData(buffer, t, round);
      if r == Ok(false) {
        RegreetStep(Link(), t, buffer[0], buffer[1], round + 1);
        var again := StartCommunication();
        if again.Err? {
          return Err(again.error);
        }
      }
    }

    // Repeats the request until data is available. The buffer is not cleared
    // between attempts.
    method EstablishRequest(message: seq<byte>, ghost t: Talk) returns (r: Result<bool, Error>)
      requires t.message == message
      modifies transport, transport.simulator
      ensures Run(old(Link()), t, Send(0, 0, 0)) == Run(Link(), t, AfterRequest(t, r))
      ensures Link().polls <= old(Link()).polls + 1030 * MAX_RETRY
    {
      ghost var polls, end := Link().polls, Run(Link(), t, Send(0, 0, 0));
      var buffer := new byte[INPUT_BUFFER_LENGTH](_ => 0);
      for requestRetry := 0 to MAX_RETRY
        invariant Run(Link(), t, Send(buffer[0], buffer[1], requestRetry)) == end
        invariant Link().polls <= polls + 1030 * requestRetry
      {
        r := Round(message, buffer, t, requestRetry);
        if r != Ok(false) {
          return;
        }
      }
      NoMoreRounds(Link(), t, buffer[0], buffer[1]);
      return Ok(false);
    }

    static lemma NoMoreRounds(line: Line, t: Talk, b0: byte, b1: byte)
      ensures Run(line, t, Send(b0, b1, MAX_RETRY)) == Run(line, t, Established(t, false))
    {
    }

    static lemma RegreetStep(line: Line, t: Talk, b0: byte, b1: byte, round: nat)
      ensures var (line', b) := Get(Write(line, [START_COMMUNICATION]));
              Run(line, t, Regreet(b0, b1, round)) ==
              Run(line', t, if b == Some(ESCAPE) then Send(b0, b1, round) else HandshakeFailed(t))
    {
    }

    // Receives bytes up to the footer, or five timeouts.
    method ReceiveData(ghost t: Talk) returns (r: Result<seq<byte>, Error>)
      modifies transport
      ensures Run(old(Link()), t, Receive([], 0)) == (Link(), Received(t, r))
      ensures Link().polls <= old(Link()).polls + RECEIVE_POLLS
    {
      ghost var polls, end := Link().polls, Run(Link(), t, Receive([], 0));
      var buffer := new byte[INPUT_BUFFER_LENGTH](_ => 0);
      var numRead, retry := 0, 0;
      while retry < MAX_RETRY
        invariant numRead <= buffer.Length && retry <= MAX_RETRY
        invariant end == if retry < MAX_RETRY then Run(Link(), t, Receive(buffer[..numRead], retry))
                         else (Link(), Received(t, Ok(Unescape(buffer[..numRead]))))
        invariant Link().polls + Room(numRead, INPUT_BUFFER_LENGTH) + Room(retry, MAX_RETRY)
                  <= polls + RECEIVE_POLLS
        decreases Room(numRead, INPUT_BUFFER_LENGTH) + Room(retry, MAX_RETRY)
      {
        var single := transport.Take();
        if single.None? {
          retry := retry + 1;
          continue;
        }
        if numRead >= buffer.Length {
          return Err(ProtocolError);
        }
        ghost var before := buffer[..numRead];
        buffer[numRead] := single.value;
        numRead := numRead + 1;
        assert buffer[..numRead] == before + [single.value];
        var end := IsFrameEnd(buffer[..], numRead);
        assert buffer[..][..numRead] == buffer[..numRead];
        if numRead > 4 && end {
          break;
        }
      }
      return Ok(Unescape(buffer[..numRead]));
    }
  }
}
