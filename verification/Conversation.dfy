// The client side of one conversation as a state machine, one transport call
// a step: connector.py. Connector, the class, is proved against it.

module Conversation {
  import opened Bytes
  import opened Escaping
  import opened Framing
  import opened Devices

  // ------------------------------------------------------------ the line

  // What the client finds when it asks for a byte: one, or a timeout.
  datatype Arrival = Byte(b: byte) | Silence

  // The transport: what will arrive next, and the simulated device that adds
  // to it. Without a device, rx is the whole future of a line; every run
  // against any peer and any timing is the run on some such line. `polls`
  // counts the calls of get, and `sent` is all that was written.
  datatype Line = Line(device: Option<Device>, rx: seq<Arrival>, polls: nat, sent: seq<byte>)

  function Arrivals(data: seq<byte>): (r: seq<Arrival>)
    ensures |r| == |data|
    ensures forall i :: 0 <= i < |data| ==> r[i] == Byte(data[i])
  {
    seq(|data|, i requires 0 <= i < |data| => Byte(data[i]))
  }

  function Write(line: Line, data: seq<byte>): Line {
    var written := line.(sent := line.sent + data);
    match line.device
    case None => written
    case Some(d) =>
      var (d', out) := Feed(d, data);
      written.(device := Some(d'), rx := line.rx + Arrivals(out))
  }

  // None is NoDataAvailable.
  function Arrived(a: Arrival): Option<byte> {
    match a
    case Byte(b) => Some(b)
    case Silence => None
  }

  function Get(line: Line): (Line, Option<byte>) {
    var polled := line.(polls := line.polls + 1);
    if line.rx == [] then (polled, None)
    else
      (polled.(rx := line.rx[1..]), Arrived(line.rx[0]))
  }

  // --------------------------------------------------------- the machine

  const MAX_RETRY: nat := 5
  const INPUT_BUFFER_LENGTH: nat := 1024

  // Where the client stands between two transport calls. b0 and b1 are the
  // first bytes of the data-available buffer, which outlive a retry.
  datatype At =
    | Greet
    | Greeted
    | Send(b0: byte, b1: byte, round: nat)
    | Poll(b0: byte, b1: byte, count: nat, silent: nat, round: nat)
    | Regreet(b0: byte, b1: byte, round: nat)
    | Regreeted(b0: byte, b1: byte, round: nat)
    | Acknowledge
    | Receive(got: seq<byte>, silent: nat)
    | Done(result: Result<seq<byte>, Error>)

  // A request to talk: the escaped message, and whether it is a set_data,
  // which treats failures differently from a get_data.
  datatype Talk = Talk(message: seq<byte>, writing: bool)

  // The handshake raised: set_data returns no bytes, get_data passes it on.
  function HandshakeFailed(t: Talk): At {
    Done(if t.writing then Ok([]) else Err(ProtocolError))
  }

  // No data available: get_data gives up, set_data carries on regardless.
  function Established(t: Talk, yes: bool): At {
    if yes || t.writing then Acknowledge else Done(Ok([]))
  }

  function Received(t: Talk, r: Result<seq<byte>, Error>): At {
    Done(if r.Err? && !t.writing then Ok([]) else r)
  }

  // After one byte, or a timeout, while waiting for data to become available.
  function Polled(t: Talk, at: At, r: Option<byte>): At
    requires at.Poll?
  {
    match r
    case None =>
      if at.silent + 1 < MAX_RETRY then Poll(at.b0, at.b1, at.count, at.silent + 1, at.round)
      else Regreet(at.b0, at.b1, at.round + 1)
    case Some(b) =>
      if at.count >= INPUT_BUFFER_LENGTH then HandshakeFailed(t)
      else
        var c0, c1 := if at.count == 0 then b else at.b0, if at.count == 1 then b else at.b1;
        if [c0, c1] == DATA_AVAILABLE then Established(t, true)
        else Poll(c0, c1, at.count + 1, at.silent, at.round)
  }

  // After one byte, or a timeout, while receiving a frame.
  function Heard(t: Talk, got: seq<byte>, silent: nat, r: Option<byte>): At {
    match r
    case None =>
      if silent + 1 < MAX_RETRY then Receive(got, silent + 1)
      else Received(t, Ok(Unescape(got)))
    case Some(b) =>
      if |got| >= INPUT_BUFFER_LENGTH then Received(t, Err(ProtocolError))
      else if |got| + 1 > 4 && FrameEnd(got + [b]) then Received(t, Ok(Unescape(got + [b])))
      else Receive(got + [b], silent)
  }

  function Step(line: Line, t: Talk, at: At): (Line, At)
    requires !at.Done?
  {
    match at
    case Greet => (Write(line, [START_COMMUNICATION]), Greeted)
    case Greeted =>
      var (line', r) := Get(line);
      (line', if r == Some(ESCAPE) then Send(0, 0, 0) else HandshakeFailed(t))
    case Send(b0, b1, round) =>
      if round < MAX_RETRY then (Write(line, t.message), Poll(b0, b1, 0, 0, round))
      else (line, Established(t, false))
    case Poll(b0, b1, count, silent, round) =>
      var (line', r) := Get(line);
      (line', Polled(t, at, r))
    case Regreet(b0, b1, round) => (Write(line, [START_COMMUNICATION]), Regreeted(b0, b1, round))
    case Regreeted(b0, b1, round) =>
      var (line', r) := Get(line);
      (line', if r == Some(ESCAPE) then Send(b0, b1, round) else HandshakeFailed(t))
    case Acknowledge => (Write(line, [ESCAPE]), Receive([], 0))
    case Receive(got, silent) =>
      var (line', r) := Get(line);
      (line', Heard(t, got, silent, r))
  }

  // --------------------------------------------------------- termination

  function Room(used: nat, limit: nat): nat {
    if used < limit then limit - used else 0
  }

  // The most get calls of receiving a frame, and of the requests left after
  // some rounds: each waits for at most 1024 bytes and 5 timeouts, and greets.
  const RECEIVE_POLLS: nat := 1029

  function RoundPolls(round: nat): nat {
    1030 * Room(round, MAX_RETRY)
  }

  // The most get calls a conversation can still make.
  function PollsLeft(at: At): nat {
    match at
    case Greet => 1 + RoundPolls(0) + RECEIVE_POLLS
    case Greeted => 1 + RoundPolls(0) + RECEIVE_POLLS
    case Send(_, _, round) => RoundPolls(round) + RECEIVE_POLLS
    case Poll(_, _, count, silent, round) =>
      Room(count, INPUT_BUFFER_LENGTH) + Room(silent, MAX_RETRY) + 1 + RoundPolls(round + 1) + RECEIVE_POLLS
    case Regreet(_, _, round) => 1 + RoundPolls(round) + RECEIVE_POLLS
    case Regreeted(_, _, round) => 1 + RoundPolls(round) + RECEIVE_POLLS
    case Acknowledge => RECEIVE_POLLS
    case Receive(got, silent) => Room(|got|, INPUT_BUFFER_LENGTH) + Room(silent, MAX_RETRY)
    case Done(_) => 0
  }

  // Orders the steps that only write.
  function WritesLeft(at: At): nat {
    match at
    case Greet => 2
    case Send(_, _, _) => 4
    case Poll(_, _, _, _, _) => 3
    case Regreet(_, _, _) => 2
    case Acknowledge => 2
    case Done(_) => 0
    case _ => 1
  }

  // The states the machine can be in.
  predicate Sane(at: At) {
    match at
    case Poll(_, _, count, silent, round) =>
      count <= INPUT_BUFFER_LENGTH && silent < MAX_RETRY && round < MAX_RETRY
    case Receive(got, silent) => |got| <= INPUT_BUFFER_LENGTH && silent < MAX_RETRY
    case _ => true
  }

  lemma WriteKeepsPolls(line: Line, data: seq<byte>)
    ensures Write(line, data).polls == line.polls
  {
  }

  lemma StepProgresses(line: Line, t: Talk, at: At)
    requires !at.Done?
    ensures var (line', at') := Step(line, t, at);
            && (PollsLeft(at') < PollsLeft(at)
                || (PollsLeft(at') == PollsLeft(at) && WritesLeft(at') < WritesLeft(at)))
            && (Sane(at) ==> Sane(at') && line'.polls + PollsLeft(at') <= line.polls + PollsLeft(at))
  {
    WriteKeepsPolls(line, [START_COMMUNICATION]);
    WriteKeepsPolls(line, [ESCAPE]);
    WriteKeepsPolls(line, t.message);
    match at
    case Poll(_, _, _, _, _) => PollProgresses(t, at, Get(line).1);
    case Receive(got, silent) => HearProgresses(t, got, silent, Get(line).1);
    case _ =>
  }

  lemma PollProgresses(t: Talk, at: At, r: Option<byte>)
    requires at.Poll?
    ensures var at' := Polled(t, at, r);
            && (PollsLeft(at') < PollsLeft(at) || (PollsLeft(at') == PollsLeft(at) && WritesLeft(at') < WritesLeft(at)))
            && (Sane(at) ==> Sane(at') && PollsLeft(at') < PollsLeft(at))
  {
  }

  lemma HearProgresses(t: Talk, got: seq<byte>, silent: nat, r: Option<byte>)
    ensures var at, at' := Receive(got, silent), Heard(t, got, silent, r);
            && (PollsLeft(at') < PollsLeft(at) || (PollsLeft(at') == PollsLeft(at) && WritesLeft(at') < WritesLeft(at)))
            && (Sane(at) ==> Sane(at') && PollsLeft(at') < PollsLeft(at))
  {
  }

  function Run(line: Line, t: Talk, at: At): (r: (Line, At))
    ensures r.1.Done?
    decreases PollsLeft(at), WritesLeft(at)
  {
    if at.Done? then (line, at)
    else
      StepProgresses(line, t, at);
      var (line', at') := Step(line, t, at);
      Run(line', t, at')
  }

  // A whole get_data or set_data.
  function Converse(line: Line, t: Talk): (Line, Result<seq<byte>, Error>) {
    var (line', at) := Run(line, t, Greet);
    (line', at.result)
  }

  // On any line whatsoever, a conversation makes a bounded number of get
  // calls: at most 1029 to receive a frame, and 1030 for each of five requests.
  lemma {:induction false} PollsAreBounded(line: Line, t: Talk, at: At)
    requires Sane(at)
    ensures Run(line, t, at).0.polls <= line.polls + PollsLeft(at)
    decreases PollsLeft(at), WritesLeft(at)
  {
    if !at.Done? {
      StepProgresses(line, t, at);
      var (line', at') := Step(line, t, at);
      PollsAreBounded(line', t, at');
    }
  }

  // ------------------------------------------------------ receiving a frame

  // The bytes among some arrivals, and the timeouts among them.
  function BytesOf(rx: seq<Arrival>): seq<byte> {
    if rx == [] then []
    else (match rx[0] case Byte(b) => [b] case Silence => []) + BytesOf(rx[1..])
  }

  function Silences(rx: seq<Arrival>): nat {
    if rx == [] then 0 else (if rx[0].Silence? then 1 else 0) + Silences(rx[1..])
  }

  // Hearing the wire bytes e one by one ends with the frame f, at the last.
  ghost predicate HeardAs(t: Talk, e: seq<byte>, f: seq<byte>) {
    forall n: nat, silent: nat :: n < |e| ==>
      Heard(t, e[..n], silent, Some(e[n])) ==
      if n + 1 == |e| then Done(Ok(f)) else Receive(e[..n + 1], silent)
  }

  lemma HearsByte(t: Talk, e: seq<byte>, n: nat, silent: nat)
    requires 5 <= |e| <= INPUT_BUFFER_LENGTH && n < |e|
    requires FrameEnd(e[..n + 1]) <==> n + 1 == |e|
    ensures Heard(t, e[..n], silent, Some(e[n])) ==
            if n + 1 == |e| then Done(Ok(Unescape(e))) else Receive(e[..n + 1], silent)
  {
    assert e[..n] + [e[n]] == e[..n + 1];
    assert n + 1 == |e| ==> e[..n + 1] == e;
  }

  lemma {:induction false} HearsFrame(t: Talk, f: seq<byte>)
    requires IsFrame(f) && 5 <= |Escape(f)| <= INPUT_BUFFER_LENGTH
    ensures HeardAs(t, Escape(f), f)
  {
    var e := Escape(f);
    EscapeRoundTrip(f);
    forall n: nat, silent: nat | n < |e|
      ensures Heard(t, e[..n], silent, Some(e[n])) ==
              if n + 1 == |e| then Done(Ok(f)) else Receive(e[..n + 1], silent)
    {
      ExactFraming(f, n + 1);
      HearsByte(t, e, n, silent);
    }
  }

  lemma ReceiveStep(line: Line, t: Talk, got: seq<byte>, silent: nat)
    requires line.rx != []
    ensures Run(line, t, Receive(got, silent)) ==
            Run(line.(rx := line.rx[1..], polls := line.polls + 1), t, Heard(t, got, silent, Arrived(line.rx[0])))
  {
  }

  lemma {:induction false} ReceivesWire(line: Line, t: Talk, e: seq<byte>, f: seq<byte>,
                                        n: nat, silent: nat, rx: seq<Arrival>, rest: seq<Arrival>)
    requires HeardAs(t, e, f) && n < |e|
    requires line.rx == rx + rest && BytesOf(rx) == e[n..] && Last(rx).Byte?
    requires silent + Silences(rx) < MAX_RETRY
    ensures Run(line, t, Receive(e[..n], silent)) ==
            (line.(rx := rest, polls := line.polls + |rx|), Done(Ok(f)))
    decreases |rx|
  {
    var more := rx[1..];
    var next := line.(rx := more + rest, polls := line.polls + 1);
    assert line.rx[1..] == more + rest;
    ReceiveStep(line, t, e[..n], silent);
    match rx[0] {
      case Silence =>
        assert more != [] && Last(more) == Last(rx);
        assert BytesOf(rx) == BytesOf(more);
        ReceivesWire(next, t, e, f, n, silent + 1, more, rest);
      case Byte(b) =>
        assert BytesOf(rx) == [b] + BytesOf(more);
        assert b == e[n] && BytesOf(more) == e[n + 1..];
        if more == [] {
          assert more + rest == rest;
        } else {
          assert Last(more) == Last(rx);
          BytesToCome(more);
          ReceivesWire(next, t, e, f, n + 1, silent, more, rest);
        }
    }
  }

  // A frame that fits the receive buffer on the wire.
  predicate Receivable(f: seq<byte>) {
    IsFrame(f) && |f| >= 5 && |Escape(f)| <= INPUT_BUFFER_LENGTH
  }

  // A frame of at most 514 bytes does, whatever they are.
  lemma ShortIsReceivable(f: seq<byte>)
    requires IsFrame(f) && 5 <= |f| <= 514
    ensures Receivable(f)
  {
    EscapeLength(f);
  }

  // A frame that fits the buffer on the wire is received exactly, whatever
  // follows it and wherever up to four timeouts fall between its bytes. The
  // overflow error cannot occur.
  lemma {:induction false} ReceiveDelivered(line: Line, t: Talk, f: seq<byte>, rx: seq<Arrival>, rest: seq<Arrival>)
    requires Receivable(f)
    requires rx != [] && Last(rx).Byte? && line.rx == rx + rest
    requires BytesOf(rx) == Escape(f) && Silences(rx) < MAX_RETRY
    ensures Run(line, t, Receive([], 0)) == (line.(rx := rest, polls := line.polls + |rx|), Done(Ok(f)))
  {
    var e := Escape(f);
    EscapeLength(f);
    HearsFrame(t, f);
    assert e[..0] == [] && e[0..] == e;
    ReceivesWire(line, t, e, f, 0, 0, rx, rest);
  }

  lemma {:induction false} BytesToCome(rx: seq<Arrival>)
    requires rx != [] && Last(rx).Byte?
    ensures BytesOf(rx) != []
  {
    if |rx| > 1 {
      BytesToCome(rx[1..]);
    }
  }

  lemma {:induction false} BytesOfArrivals(data: seq<byte>)
    ensures BytesOf(Arrivals(data)) == data && Silences(Arrivals(data)) == 0
  {
    if data != [] {
      BytesOfArrivals(data[1..]);
      assert Arrivals(data)[1..] == Arrivals(data[1..]);
    }
  }

  // --------------------------------------------------- waiting for data

  lemma PollByte(line: Line, t: Talk, b0: byte, b1: byte, count: nat, silent: nat, round: nat)
    requires line.rx != [] && line.rx[0].Byte? && count < INPUT_BUFFER_LENGTH
    ensures var b := line.rx[0].b;
            var c0, c1 := if count == 0 then b else b0, if count == 1 then b else b1;
            Run(line, t, Poll(b0, b1, count, silent, round)) ==
            Run(line.(rx := line.rx[1..], polls := line.polls + 1), t,
                if [c0, c1] == DATA_AVAILABLE then Acknowledge else Poll(c0, c1, count + 1, silent, round))
  {
  }

  lemma {:induction false} SkipsSilence(line: Line, t: Talk, at: At, n: nat)
    requires at.Poll? && at.silent + n < MAX_RETRY
    requires n <= |line.rx| && forall i :: 0 <= i < n ==> line.rx[i] == Silence
    ensures Run(line, t, at) ==
            Run(line.(rx := line.rx[n..], polls := line.polls + n), t,
                Poll(at.b0, at.b1, at.count, at.silent + n, at.round))
    decreases n
  {
    if n > 0 {
      SkipOne(line, t, at);
      var next := line.(rx := line.rx[1..], polls := line.polls + 1);
      SkipsSilence(next, t, Poll(at.b0, at.b1, at.count, at.silent + 1, at.round), n - 1);
      assert next.rx[n - 1..] == line.rx[n..];
    }
  }

  lemma SkipOne(line: Line, t: Talk, at: At)
    requires at.Poll? && at.silent + 1 < MAX_RETRY && line.rx != [] && line.rx[0] == Silence
    ensures Run(line, t, at) ==
            Run(line.(rx := line.rx[1..], polls := line.polls + 1), t,
                Poll(at.b0, at.b1, at.count, at.silent + 1, at.round))
  {
  }

  // The data-available signal is understood with up to four timeouts around
  // its first byte.
  lemma {:induction false} DataSignalled(line: Line, t: Talk, m: nat, n: nat, rest: seq<Arrival>, round: nat)
    requires m + n < MAX_RETRY
    requires line.rx == Quietly(m) + ([Byte(ESCAPE)] + (Quietly(n) + ([Byte(START_COMMUNICATION)] + rest)))
    ensures Run(line, t, Poll(0, 0, 0, 0, round)) ==
            Run(line.(rx := rest, polls := line.polls + m + n + 2), t, Acknowledge)
  {
    var rx2 := Quietly(n) + ([Byte(START_COMMUNICATION)] + rest);
    SkipsSilence(line, t, Poll(0, 0, 0, 0, round), m);
    assert line.rx[m..] == [Byte(ESCAPE)] + rx2;
    FirstByteSignals(line.(rx := line.rx[m..], polls := line.polls + m), t, m, n, rest, round);
  }

  lemma {:induction false} FirstByteSignals(line: Line, t: Talk, m: nat, n: nat, rest: seq<Arrival>, round: nat)
    requires m + n < MAX_RETRY
    requires line.rx == [Byte(ESCAPE)] + (Quietly(n) + ([Byte(START_COMMUNICATION)] + rest))
    ensures Run(line, t, Poll(0, 0, 0, m, round)) ==
            Run(line.(rx := rest, polls := line.polls + n + 2), t, Acknowledge)
  {
    PollByte(line, t, 0, 0, 0, m, round);
    assert line.rx[1..] == Quietly(n) + ([Byte(START_COMMUNICATION)] + rest);
    SecondByteSignals(line.(rx := line.rx[1..], polls := line.polls + 1), t, m, n, rest, round);
  }

  lemma {:induction false} SecondByteSignals(line: Line, t: Talk, m: nat, n: nat, rest: seq<Arrival>, round: nat)
    requires m + n < MAX_RETRY && line.rx == Quietly(n) + ([Byte(START_COMMUNICATION)] + rest)
    ensures Run(line, t, Poll(ESCAPE, 0, 1, m, round)) ==
            Run(line.(rx := rest, polls := line.polls + n + 1), t, Acknowledge)
  {
    SkipsSilence(line, t, Poll(ESCAPE, 0, 1, m, round), n);
    var line1 := line.(rx := [Byte(START_COMMUNICATION)] + rest, polls := line.polls + n);
    assert line.rx[n..] == line1.rx;
    PollByte(line1, t, ESCAPE, 0, 1, m + n, round);
    assert line1.rx[1..] == rest;
  }

  function Quietly(n: nat): (r: seq<Arrival>)
    ensures |r| == n && forall i :: 0 <= i < n ==> r[i] == Silence
  {
    seq(n, _ => Silence)
  }
}
