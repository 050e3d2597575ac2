// Client and device together: what one conversation does.

module Exchange {
  import opened Bytes
  import opened Escaping
  import opened Framing
  import opened Checksums
  import opened Models
  import opened Devices
  import opened Conversation

  // Between conversations: the device is idle and nothing is on the way.
  ghost predicate Quiet(line: Line, p: Plant) {
    line.rx == [] && line.device.Some? && line.device.value.phase == Idle && line.device.value.plant == p
  }

  // The device has understood the frame and waits for the acknowledgement.
  function Awaiting(p: Plant, f: seq<byte>, rx: seq<Arrival>, polls: nat, sent: seq<byte>): Line {
    Line(Some(Device(AwaitAck, Escape(f), f, p)), rx, polls, sent)
  }

  function Greeting(line: Line): Line
    requires line.device.Some?
  {
    line.(device := Some(line.device.value.(phase := Collecting, buffer := [])),
          polls := line.polls + 1, sent := line.sent + [START_COMMUNICATION])
  }

  lemma GreetingSucceeds(line: Line, p: Plant, t: Talk)
    requires Quiet(line, p)
    ensures Run(line, t, Greet) == Run(Greeting(line), t, Send(0, 0, 0))
  {
    var d := line.device.value;
    FeedOne(d, START_COMMUNICATION);
    var line1 := Write(line, [START_COMMUNICATION]);
    assert line1.rx == [Byte(ESCAPE)];
    assert Run(line, t, Greet) == Run(line1, t, Greeted);
    assert line1.rx[1..] == [];
  }

  lemma RequestIsUnderstood(line: Line, p: Plant, t: Talk, f: seq<byte>)
    requires line.device.Some? && line.rx == [] && line.device.value.plant == p
    requires line.device.value.phase == Collecting && line.device.value.buffer == []
    requires IsFrame(f) && |Escape(f)| >= 6 && t.message == Escape(f)
    ensures Run(line, t, Send(0, 0, 0)) ==
            Run(Awaiting(p, f, Arrivals(DATA_AVAILABLE), line.polls, line.sent + Escape(f)), t, Poll(0, 0, 0, 0, 0))
  {
    FeedFrame(line.device.value, f);
    assert line.rx + Arrivals(DATA_AVAILABLE) == Arrivals(DATA_AVAILABLE);
  }

  lemma DataIsAvailable(line: Line, t: Talk)
    requires line.rx == Arrivals(DATA_AVAILABLE)
    ensures Run(line, t, Poll(0, 0, 0, 0, 0)) ==
            Run(line.(rx := [], polls := line.polls + 2), t, Acknowledge)
  {
    var line1 := line.(rx := [Byte(START_COMMUNICATION)], polls := line.polls + 1);
    assert line.rx[1..] == line1.rx;
    assert Run(line, t, Poll(0, 0, 0, 0, 0)) == Run(line1, t, Poll(ESCAPE, 0, 1, 0, 0));
    SecondByte(line1, t);
  }

  lemma SecondByte(line: Line, t: Talk)
    requires line.rx == [Byte(START_COMMUNICATION)]
    ensures Run(line, t, Poll(ESCAPE, 0, 1, 0, 0)) ==
            Run(line.(rx := [], polls := line.polls + 1), t, Acknowledge)
  {
    assert line.rx[1..] == [];
  }

  // The line when the device has answered with that response.
  function Settled(p: Plant, f: seq<byte>, response: seq<byte>, polls: nat, sent: seq<byte>): Line {
    Line(Some(Device(Idle, Escape(f), f, p)), [], polls + |Escape(response)|, sent + [ESCAPE])
  }

  lemma ResponseIsReceived(p: Plant, t: Talk, f: seq<byte>, p': Plant, response: seq<byte>, polls: nat, sent: seq<byte>)
    requires Respond(p, f) == (p', response) && Receivable(response)
    ensures Run(Awaiting(p, f, [], polls, sent), t, Acknowledge) ==
            (Settled(p', f, response, polls, sent), Done(Ok(response)))
  {
    var e := Escape(response);
    AcknowledgeBrings(p, t, f, polls, sent);
    EscapeLength(response);
    BytesOfArrivals(e);
    assert Arrivals(e) + [] == Arrivals(e);
    ReceiveDelivered(Answering(p', f, e, polls, sent), t, response, Arrivals(e), []);
  }

  // The device has answered with the bytes e.
  function Answering(p: Plant, f: seq<byte>, e: seq<byte>, polls: nat, sent: seq<byte>): Line {
    Line(Some(Device(Idle, Escape(f), f, p)), Arrivals(e), polls, sent + [ESCAPE])
  }

  lemma AcknowledgeBrings(p: Plant, t: Talk, f: seq<byte>, polls: nat, sent: seq<byte>)
    ensures var (p', response) := Respond(p, f);
            Run(Awaiting(p, f, [], polls, sent), t, Acknowledge) ==
            Run(Answering(p', f, Escape(response), polls, sent), t, Receive([], 0))
  {
    var (p', response) := Respond(p, f);
    var e := Escape(response);
    var line0 := Awaiting(p, f, [], polls, sent);
    FeedOne(line0.device.value, ESCAPE);
    assert [] + Arrivals(e) == Arrivals(e);
    assert Write(line0, [ESCAPE]) == Answering(p', f, e, polls, sent);
  }

  // What a conversation writes when it goes well.
  function Transcript(message: seq<byte>): seq<byte> {
    [START_COMMUNICATION] + message + [ESCAPE]
  }

  // One conversation with a quiet device delivers its frame and brings back
  // the device's answer, and the line is quiet again.
  lemma ExchangeFrame(line: Line, p: Plant, f: seq<byte>, writing: bool)
    requires Quiet(line, p) && IsFrame(f) && |Escape(f)| >= 6
    requires var (p', response) := Respond(p, f); Receivable(response)
    ensures var (line', r) := Converse(line, Talk(Escape(f), writing));
            var (p', response) := Respond(p, f);
            Quiet(line', p') && r == Ok(response) && line'.sent == line.sent + Transcript(Escape(f))
  {
    var (p', response) := Respond(p, f);
    AnswerArrives(line, p, Talk(Escape(f), writing), f, p', response);
    SentInAll(line.sent, Escape(f));
  }

  lemma AnswerArrives(line: Line, p: Plant, t: Talk, f: seq<byte>, p': Plant, response: seq<byte>)
    requires Quiet(line, p) && IsFrame(f) && |Escape(f)| >= 6 && t.message == Escape(f)
    requires Respond(p, f) == (p', response) && Receivable(response)
    ensures Run(line, t, Greet) ==
            (Settled(p', f, response, line.polls + 3, line.sent + [START_COMMUNICATION] + Escape(f)),
             Done(Ok(response)))
  {
    var sent := line.sent + [START_COMMUNICATION] + Escape(f);
    RequestIsSent(line, Greeting(line), Awaiting(p, f, Arrivals(DATA_AVAILABLE), line.polls + 1, sent), p, t, f);
    DataIsSent(p, t, f, p', response, line.polls + 1, sent);
  }

  lemma DataIsSent(p: Plant, t: Talk, f: seq<byte>, p': Plant, response: seq<byte>, polls: nat, sent: seq<byte>)
    requires Respond(p, f) == (p', response) && Receivable(response)
    ensures Run(Awaiting(p, f, Arrivals(DATA_AVAILABLE), polls, sent), t, Poll(0, 0, 0, 0, 0)) ==
            (Settled(p', f, response, polls + 2, sent), Done(Ok(response)))
  {
    ResponseIsReceived(p, t, f, p', response, polls + 2, sent);
    DataIsAvailable(Awaiting(p, f, Arrivals(DATA_AVAILABLE), polls, sent), t);
  }

  lemma RequestIsSent(line: Line, greeted: Line, asked: Line, p: Plant, t: Talk, f: seq<byte>)
    requires Quiet(line, p) && IsFrame(f) && |Escape(f)| >= 6 && t.message == Escape(f)
    requires greeted == Greeting(line)
    requires asked == Awaiting(p, f, Arrivals(DATA_AVAILABLE), greeted.polls, greeted.sent + Escape(f))
    ensures Run(line, t, Greet) == Run(asked, t, Poll(0, 0, 0, 0, 0))
  {
    RequestIsUnderstood(greeted, p, t, f);
    GreetingSucceeds(line, p, t);
  }

  lemma SentInAll(before: seq<byte>, message: seq<byte>)
    ensures before + [START_COMMUNICATION] + message + [ESCAPE] == before + Transcript(message)
  {
  }

  // get_data of a configured command returns exactly the stored frame and
  // changes nothing.
  lemma GetReturnsStored(line: Line, p: Plant, c: Command)
    requires Quiet(line, p) && ValidPlant(p) && c in p.commands
    ensures var (line', r) := Converse(line, Talk(RequestMessage(c), false));
            && Quiet(line', p) && r == Ok(p.store[c])
            && line'.sent == line.sent + Transcript(RequestMessage(c))
  {
    GetIsAnswered(p, c);
    AnswerIsFrame(GET, c);
    WellFormedIsFrame(p.store[c], c);
    ShortIsReceivable(p.store[c]);
    ExchangeFrame(line, p, Frame(GET, c), false);
  }

  // What a set frame leaves behind, and whether the device confirmed it.
  function AfterSet(p: Plant, c: Command, u: seq<byte>): Plant
    requires |u| >= 5
  {
    if p.refuses(u).None? then p.(store := p.store[c := Stored(u)]) else p
  }

  // set_data of a frame stores it in the register of the longest command that
  // it carries, and returns the confirmation, or returns the refusal and changes
  // nothing.
  lemma SetReaches(line: Line, p: Plant, c: Command, u: seq<byte>)
    requires Quiet(line, p) && IsFrame(u) && |u| >= 5 && |Escape(u)| >= 6 && u[1] == SET
    requires BestMatch(p.commands, u) == Some(c) && |c| + 5 <= 514
    ensures var (line', r) := Converse(line, Talk(Escape(u), true));
            && Quiet(line', AfterSet(p, c, u)) && r.Ok? && (HeaderCheck(r.value) <==> p.refuses(u).None?)
            && line'.sent == line.sent + Transcript(Escape(u))
  {
    var kind := if p.refuses(u).None? then SET else p.refuses(u).value;
    AnswerIsFrame(kind, c);
    ShortIsReceivable(Frame(kind, c));
    assert Respond(p, u) == (AfterSet(p, c, u), Frame(kind, c));
    ExchangeFrame(line, p, u, true);
  }

  lemma SetStores(line: Line, p: Plant, c: Command, u: seq<byte>)
    requires Quiet(line, p) && ValidPlant(p) && c in p.commands && IsUpdate(u, p.store[c], c)
    requires BestMatch(p.commands, u) == Some(c)
    ensures var (line', r) := Converse(line, Talk(Escape(u), true));
            && Quiet(line', AfterSet(p, c, u)) && ValidPlant(AfterSet(p, c, u))
            && r.Ok? && (HeaderCheck(r.value) <==> p.refuses(u).None?)
            && line'.sent == line.sent + Transcript(Escape(u))
  {
    SetIsAnswered(p, c, u);
    UpdateIsFrame(u, p.store[c], c);
    SetReaches(line, p, c, u);
  }

  // -------------------------------------------------------- scripted peers

  // What a peer sends in a conversation that goes well: it greets, signals data
  // between m and n timeouts, and sends what is received as a frame.
  function Played(m: nat, n: nat, body: seq<Arrival>, rest: seq<Arrival>): seq<Arrival> {
    [Byte(ESCAPE)] + Signalled(m, n, body + rest)
  }

  function Signalled(m: nat, n: nat, rest: seq<Arrival>): seq<Arrival> {
    Quietly(m) + ([Byte(ESCAPE)] + (Quietly(n) + ([Byte(START_COMMUNICATION)] + rest)))
  }

  // The end of such a conversation.
  function Concluded(line: Line, t: Talk, f: seq<byte>, told: seq<byte>, polls: nat, rest: seq<Arrival>): (Line, At) {
    (Line(None, rest, line.polls + polls, line.sent + told), Done(Ok(f)))
  }

  ghost predicate Arrives(body: seq<Arrival>, f: seq<byte>) {
    Receivable(f) && BytesOf(body) == Escape(f) && Silences(body) < MAX_RETRY && body != [] && Last(body).Byte?
  }

  // Whatever the timing, up to four timeouts before the signal and four within the
  // frame, the frame is received, nothing behind it is touched, and the peer is
  // greeted, sent the message and told to go on.
  lemma PeerAnswers(line: Line, t: Talk, f: seq<byte>, m: nat, n: nat, body: seq<Arrival>, rest: seq<Arrival>)
    requires line.device.None? && line.rx == Played(m, n, body, rest) && m + n < MAX_RETRY && Arrives(body, f)
    ensures var (line', r) := Converse(line, t);
            && r == Ok(f) && line'.device.None? && line'.rx == rest
            && line'.polls == line.polls + (m + n + 3) + |body| && line'.sent == line.sent + Transcript(t.message)
  {
    var greeted := Line(None, Signalled(m, n, body + rest), line.polls + 1, line.sent + [START_COMMUNICATION]);
    var asked := greeted.(sent := greeted.sent + t.message);
    var signalled := asked.(rx := body + rest, polls := asked.polls + m + n + 2);
    var end := Concluded(signalled, t, f, [ESCAPE], |body|, rest);
    PeerSends(signalled, t, f, body, rest, end);
    PeerIsPolled(asked, t, m, n, body + rest, end);
    PeerIsAsked(greeted, t, end);
    PeerGreets(line, t, greeted, end);
    SentInAll(line.sent, t.message);
  }

  lemma PeerGreets(line: Line, t: Talk, greeted: Line, end: (Line, At))
    requires line.device.None? && line.rx == [Byte(ESCAPE)] + greeted.rx
    requires greeted == Line(None, greeted.rx, line.polls + 1, line.sent + [START_COMMUNICATION])
    requires Run(greeted, t, Send(0, 0, 0)) == end && end.1.Done?
    ensures Converse(line, t) == (end.0, end.1.result)
  {
    var line1 := line.(sent := line.sent + [START_COMMUNICATION]);
    assert line.rx[1..] == greeted.rx;
    assert Write(line, [START_COMMUNICATION]) == line1;
    assert Run(line, t, Greet) == Run(line1, t, Greeted);
  }

  lemma PeerIsAsked(line: Line, t: Talk, end: (Line, At))
    requires line.device.None? && Run(line.(sent := line.sent + t.message), t, Poll(0, 0, 0, 0, 0)) == end
    ensures Run(line, t, Send(0, 0, 0)) == end
  {
    assert Write(line, t.message) == line.(sent := line.sent + t.message);
  }

  lemma PeerIsPolled(line: Line, t: Talk, m: nat, n: nat, rest: seq<Arrival>, end: (Line, At))
    requires line.rx == Signalled(m, n, rest) && m + n < MAX_RETRY
    requires Run(line.(rx := rest, polls := line.polls + m + n + 2), t, Acknowledge) == end
    ensures Run(line, t, Poll(0, 0, 0, 0, 0)) == end
  {
    DataSignalled(line, t, m, n, rest, 0);
  }

  lemma PeerSends(line: Line, t: Talk, f: seq<byte>, body: seq<Arrival>, rest: seq<Arrival>, end: (Line, At))
    requires line.device.None? && line.rx == body + rest && Arrives(body, f)
    requires end == Concluded(line, t, f, [ESCAPE], |body|, rest)
    ensures Run(line, t, Acknowledge) == end
  {
    var told := line.(sent := line.sent + [ESCAPE]);
    assert Write(line, [ESCAPE]) == told;
    ReceiveDelivered(told, t, f, body, rest);
  }

  // Without any timeout.
  function Prompt(f: seq<byte>, rest: seq<Arrival>): seq<Arrival> {
    Played(0, 0, Arrivals(Escape(f)), rest)
  }

  lemma PromptAnswers(line: Line, t: Talk, f: seq<byte>, rest: seq<Arrival>)
    requires line.device.None? && line.rx == Prompt(f, rest) && Receivable(f)
    ensures var (line', r) := Converse(line, t);
            r == Ok(f) && line'.device.None? && line'.rx == rest && line'.sent == line.sent + Transcript(t.message)
  {
    EscapeLength(f);
    BytesOfArrivals(Escape(f));
    PeerAnswers(line, t, f, 0, 0, Arrivals(Escape(f)), rest);
  }
}
