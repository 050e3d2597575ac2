// Every way a conversation can go: connector.py, get_data and set_data, with the
// bytes and limits written out.

module Outcomes {
  import opened Bytes
  import opened Escaping
  import opened Framing
  import opened Conversation
  import opened Rounds

  // ------------------------------------------------------------- what arrives

  // Behind the last arrival there is silence.
  function ArrivalAt(rx: seq<Arrival>, k: nat): Arrival {
    if k < |rx| then rx[k] else Silence
  }

  // The first n calls of get.
  function Hearing(rx: seq<Arrival>, n: nat): (h: seq<Arrival>)
    ensures |h| == n
  {
    seq(n, k requires 0 <= k < n => ArrivalAt(rx, k))
  }

  // The line after n calls of get.
  function After(line: Line, n: nat): Line {
    line.(rx := if n <= |line.rx| then line.rx[n..] else [], polls := line.polls + n)
  }

  lemma GetNext(line: Line, n: nat)
    ensures Get(After(line, n)) == (After(line, n + 1), Arrived(ArrivalAt(line.rx, n)))
  {
  }

  lemma OneMore(rx: seq<Arrival>, n: nat)
    ensures Hearing(rx, n + 1) == Hearing(rx, n) + [ArrivalAt(rx, n)]
  {
  }

  lemma {:induction false} Counted(h: seq<Arrival>, a: Arrival)
    ensures BytesOf(h + [a]) == BytesOf(h) + (match a case Byte(b) => [b] case Silence => [])
    ensures Silences(h + [a]) == Silences(h) + if a.Silence? then 1 else 0
  {
    if h == [] {
      assert h + [a] == [a] && [a][1..] == [];
    } else {
      assert (h + [a])[1..] == h[1..] + [a];
      Counted(h[1..], a);
    }
  }

  // --------------------------------------------------------------- receiving

  // These arrivals end a reception: the last is the byte that ends a frame of at
  // least five, or one byte too many for the buffer, or the fifth timeout.
  predicate EndsReception(h: seq<Arrival>) {
    h != [] &&
    if Last(h).Silence? then Silences(h) == 5
    else
      var s := BytesOf(h);
      |s| == 1025 || (|s| >= 5 && FrameEnd(s))
  }

  predicate FirstEnd(rx: seq<Arrival>, n: nat) {
    EndsReception(Hearing(rx, n)) && forall m :: 0 <= m < n ==> !EndsReception(Hearing(rx, m))
  }

  // No reception has ended after n calls of get.
  predicate GoesOn(rx: seq<Arrival>, n: nat) {
    forall m :: 0 <= m <= n ==> !EndsReception(Hearing(rx, m))
  }

  lemma {:induction false} StillReceiving(line: Line, t: Talk, n: nat)
    requires GoesOn(line.rx, n)
    ensures Silences(Hearing(line.rx, n)) < 5 && |BytesOf(Hearing(line.rx, n))| <= 1024
    ensures Run(line, t, Receive([], 0)) ==
            Run(After(line, n), t, Receive(BytesOf(Hearing(line.rx, n)), Silences(Hearing(line.rx, n))))
  {
    if n == 0 {
      assert After(line, 0) == line;
    } else {
      var h, a := Hearing(line.rx, n - 1), ArrivalAt(line.rx, n - 1);
      StillReceiving(line, t, n - 1);
      GetNext(line, n - 1);
      OneMore(line.rx, n - 1);
      Counted(h, a);
      assert !EndsReception(h + [a]);
      ReceivesOne(After(line, n - 1), t, h, a);
    }
  }

  lemma ReceivesOne(line: Line, t: Talk, h: seq<Arrival>, a: Arrival)
    requires Get(line).1 == Arrived(a) && Silences(h) < 5 && |BytesOf(h)| <= 1024
    requires BytesOf(h + [a]) == BytesOf(h) + (match a case Byte(b) => [b] case Silence => [])
    requires Silences(h + [a]) == Silences(h) + if a.Silence? then 1 else 0
    requires !EndsReception(h + [a])
    ensures Silences(h + [a]) < 5 && |BytesOf(h + [a])| <= 1024
    ensures Run(line, t, Receive(BytesOf(h), Silences(h))) ==
            Run(Get(line).0, t, Receive(BytesOf(h + [a]), Silences(h + [a])))
  {
    assert Last(h + [a]) == a;
    assert BytesOf(h) + [] == BytesOf(h);
    assert Run(line, t, Receive(BytesOf(h), Silences(h))) ==
           Run(Get(line).0, t, Heard(t, BytesOf(h), Silences(h), Arrived(a)));
  }

  // What a reception returns. Too many bytes are an error, which get_data turns
  // into no bytes.
  function Reply(t: Talk, h: seq<Arrival>): Result<seq<byte>, Error> {
    var s := BytesOf(h);
    if |s| == 1025 then if t.writing then Err(ProtocolError) else Ok([]) else Ok(Unescape(s))
  }

  // A reception takes exactly the arrivals up to the first end, whatever they
  // are, and returns their bytes de-escaped.
  lemma {:induction false} ReceptionExactly(line: Line, t: Talk, n: nat)
    requires FirstEnd(line.rx, n)
    ensures Run(line, t, Receive([], 0)) == (After(line, n), Done(Reply(t, Hearing(line.rx, n))))
  {
    var h, a := Hearing(line.rx, n - 1), ArrivalAt(line.rx, n - 1);
    StillReceiving(line, t, n - 1);
    GetNext(line, n - 1);
    OneMore(line.rx, n - 1);
    Counted(h, a);
    ReceivesLast(After(line, n - 1), t, h, a);
  }

  lemma ReceivesLast(line: Line, t: Talk, h: seq<Arrival>, a: Arrival)
    requires Get(line).1 == Arrived(a) && Silences(h) < 5 && |BytesOf(h)| <= 1024
    requires BytesOf(h + [a]) == BytesOf(h) + (match a case Byte(b) => [b] case Silence => [])
    requires Silences(h + [a]) == Silences(h) + if a.Silence? then 1 else 0
    requires EndsReception(h + [a])
    ensures Run(line, t, Receive(BytesOf(h), Silences(h))) == (Get(line).0, Done(Reply(t, h + [a])))
  {
    assert Last(h + [a]) == a;
    assert BytesOf(h) + [] == BytesOf(h);
    assert Run(line, t, Receive(BytesOf(h), Silences(h))) ==
           Run(Get(line).0, t, Heard(t, BytesOf(h), Silences(h), Arrived(a)));
  }

  // Every reception ends, after at most 1029 calls of get.
  lemma {:induction false} ReceptionEnds(rx: seq<Arrival>, n: nat) returns (end: nat)
    requires forall m :: 0 <= m <= n ==> !EndsReception(Hearing(rx, m))
    ensures n < end <= 1029 && FirstEnd(rx, end)
    decreases 1030 - n
  {
    var line := Line(None, rx, 0, []);
    StillReceiving(line, Talk([], false), n);
    AllCounted(Hearing(rx, n));
    if EndsReception(Hearing(rx, n + 1)) {
      end := n + 1;
    } else {
      end := ReceptionEnds(rx, n + 1);
    }
  }

  lemma {:induction false} AllCounted(h: seq<Arrival>)
    ensures |BytesOf(h)| + Silences(h) == |h|
  {
    if h != [] {
      AllCounted(h[1..]);
    }
  }

  // -------------------------------------------- waiting for data to be available

  // The first two bytes of the buffer are the signal.
  predicate Signals(s: seq<byte>, b0: byte, b1: byte) {
    Left(b0, s, 0) == 0x10 && Left(b1, s, 1) == 0x02
  }

  // These arrivals end a wait: the last is a byte that finds the signal in the
  // buffer, or one byte too many for it, or the fifth timeout.
  predicate EndsWait(h: seq<Arrival>, b0: byte, b1: byte) {
    h != [] &&
    if Last(h).Silence? then Silences(h) == 5
    else |BytesOf(h)| == 1025 || Signals(BytesOf(h), b0, b1)
  }

  predicate FirstWaitEnd(rx: seq<Arrival>, n: nat, b0: byte, b1: byte) {
    EndsWait(Hearing(rx, n), b0, b1) && forall m :: 0 <= m < n ==> !EndsWait(Hearing(rx, m), b0, b1)
  }

  // Where the machine stands after these arrivals.
  function Polling(h: seq<Arrival>, b0: byte, b1: byte, round: nat): At {
    var s := BytesOf(h);
    Poll(Left(b0, s, 0), Left(b1, s, 1), |s|, Silences(h), round)
  }

  lemma {:induction false} StillWaiting(line: Line, t: Talk, b0: byte, b1: byte, round: nat, n: nat)
    requires forall m :: 0 <= m <= n ==> !EndsWait(Hearing(line.rx, m), b0, b1)
    ensures Silences(Hearing(line.rx, n)) < 5 && |BytesOf(Hearing(line.rx, n))| <= 1024
    ensures Wait(line, t, Poll(b0, b1, 0, 0, round)) ==
            Wait(After(line, n), t, Polling(Hearing(line.rx, n), b0, b1, round))
  {
    if n == 0 {
      assert After(line, 0) == line;
    } else {
      var h, a := Hearing(line.rx, n - 1), ArrivalAt(line.rx, n - 1);
      StillWaiting(line, t, b0, b1, round, n - 1);
      GetNext(line, n - 1);
      OneMore(line.rx, n - 1);
      Counted(h, a);
      assert !EndsWait(h + [a], b0, b1);
      WaitsOne(After(line, n - 1), t, h, a, b0, b1, round);
    }
  }

  lemma WaitsOne(line: Line, t: Talk, h: seq<Arrival>, a: Arrival, b0: byte, b1: byte, round: nat)
    requires Get(line).1 == Arrived(a) && Silences(h) < 5 && |BytesOf(h)| <= 1024
    requires BytesOf(h + [a]) == BytesOf(h) + (match a case Byte(b) => [b] case Silence => [])
    requires Silences(h + [a]) == Silences(h) + if a.Silence? then 1 else 0
    requires !EndsWait(h + [a], b0, b1)
    ensures Silences(h + [a]) < 5 && |BytesOf(h + [a])| <= 1024
    ensures Wait(line, t, Polling(h, b0, b1, round)) == Wait(Get(line).0, t, Polling(h + [a], b0, b1, round))
  {
    assert Last(h + [a]) == a;
    assert BytesOf(h) + [] == BytesOf(h);
    WaitStep(line, t, Polling(h, b0, b1, round));
  }

  // A handshake that failed is an error of get_data, and no bytes of set_data.
  function Failure(t: Talk): At {
    Done(if t.writing then Ok([]) else Err(ProtocolError))
  }

  // A wait takes exactly the arrivals up to the first end. Too many bytes fail
  // the handshake, the signal is acknowledged, and after the fifth timeout the
  // device is greeted again.
  lemma {:induction false} WaitExactly(line: Line, t: Talk, b0: byte, b1: byte, round: nat, n: nat)
    requires FirstWaitEnd(line.rx, n, b0, b1)
    ensures var h := Hearing(line.rx, n);
            var s := BytesOf(h);
            Wait(line, t, Poll(b0, b1, 0, 0, round)) ==
            (After(line, n), if Last(h).Silence? then Regreet(Left(b0, s, 0), Left(b1, s, 1), round + 1)
                             else if |s| == 1025 then Failure(t) else Acknowledge)
  {
    var h, a := Hearing(line.rx, n - 1), ArrivalAt(line.rx, n - 1);
    StillWaiting(line, t, b0, b1, round, n - 1);
    GetNext(line, n - 1);
    OneMore(line.rx, n - 1);
    Counted(h, a);
    WaitsLast(After(line, n - 1), t, h, a, b0, b1, round);
  }

  lemma WaitsLast(line: Line, t: Talk, h: seq<Arrival>, a: Arrival, b0: byte, b1: byte, round: nat)
    requires Get(line).1 == Arrived(a) && Silences(h) < 5 && |BytesOf(h)| <= 1024
    requires BytesOf(h + [a]) == BytesOf(h) + (match a case Byte(b) => [b] case Silence => [])
    requires Silences(h + [a]) == Silences(h) + if a.Silence? then 1 else 0
    requires EndsWait(h + [a], b0, b1)
    ensures var s := BytesOf(h + [a]);
            Wait(line, t, Polling(h, b0, b1, round)) ==
            (Get(line).0, if a.Silence? then Regreet(Left(b0, s, 0), Left(b1, s, 1), round + 1)
                          else if |s| == 1025 then Failure(t) else Acknowledge)
  {
    assert Last(h + [a]) == a;
    assert BytesOf(h) + [] == BytesOf(h);
    WaitStep(line, t, Polling(h, b0, b1, round));
  }

  // -------------------------------------------------------- the conversation

  // The device is told to send, and what it sends is received.
  function Reception(line: Line, t: Talk): (Line, At) {
    Run(Write(line, [0x10]), t, Receive([], 0))
  }

  // Unless 0x10 comes back for the first 0x02, nothing else is written and the
  // handshake has failed; if it does, the first round starts.
  lemma {:induction false} GreetingExactly(line: Line, t: Talk)
    ensures var (line1, b) := Get(Write(line, [0x02]));
            Run(line, t, Greet) ==
            if b == Some(0x10) then Run(line1, t, Send(0, 0, 0)) else (line1, Failure(t))
  {
    var line0 := Write(line, [0x02]);
    assert Run(line, t, Greet) == Run(line0, t, Greeted);
  }

  // A round of a request ends it, or the device is greeted again, and the next
  // starts if it answers 0x10. After the fifth, get_data gives up, and set_data
  // receives all the same.
  lemma {:induction false} RoundExactly(line: Line, t: Talk, r: nat)
    requires r < 5 && RoundStart(line, t, r).Some?
    ensures var (line1, b0, b1) := RoundStart(line, t, r).value;
            var (line2, at) := Wait(line1, t, Poll(b0, b1, 0, 0, r));
            var (line3, b) := Get(Write(line2, [0x02]));
            && (at.Acknowledge? ==> Run(line, t, Send(0, 0, 0)) == Reception(line2, t))
            && (at.Done? ==> Run(line, t, Send(0, 0, 0)) == (line2, at))
            && (at.Regreet? && b != Some(0x10) ==> Run(line, t, Send(0, 0, 0)) == (line3, Failure(t)))
            && (at.Regreet? && b == Some(0x10) && r < 4 ==>
                  RoundStart(line, t, r + 1) == Some((Write(line3, t.message), at.b0, at.b1)))
            && (at.Regreet? && b == Some(0x10) && r == 4 ==>
                  Run(line, t, Send(0, 0, 0)) == if t.writing then Reception(line3, t) else (line3, Done(Ok([]))))
  {
    RoundsAreRun(line, t, r);
    var (line1, b0, b1) := RoundStart(line, t, r).value;
    WaitIsRun(line1, t, Poll(b0, b1, 0, 0, r));
    WaitKeepsRound(line1, t, Poll(b0, b1, 0, 0, r));
    var (line2, at) := Wait(line1, t, Poll(b0, b1, 0, 0, r));
    if at.Regreet? {
      RegreetExactly(line2, t, at.b0, at.b1, at.round);
    }
  }

  lemma RegreetExactly(line: Line, t: Talk, b0: byte, b1: byte, round: nat)
    ensures var (line1, b) := Get(Write(line, [0x02]));
            Run(line, t, Regreet(b0, b1, round)) ==
            if b != Some(0x10) then (line1, Failure(t))
            else if round < 5 then Run(Write(line1, t.message), t, Poll(b0, b1, 0, 0, round))
            else if t.writing then Reception(line1, t) else (line1, Done(Ok([])))
  {
    var (line1, b) := Get(Write(line, [0x02]));
    Regreets(line, t, b0, b1, round, Write(line, [0x02]), line1, b);
    if b == Some(0x10) {
      SendsAgain(line1, t, b0, b1, round);
    }
  }

  lemma Regreets(line: Line, t: Talk, b0: byte, b1: byte, round: nat, line0: Line, line1: Line, b: Option<byte>)
    requires line0 == Write(line, [0x02]) && Get(line0) == (line1, b)
    ensures b == Some(0x10) ==> Run(line, t, Regreet(b0, b1, round)) == Run(line1, t, Send(b0, b1, round))
    ensures b != Some(0x10) ==> Run(line, t, Regreet(b0, b1, round)) == (line1, Failure(t))
  {
    assert Step(line, t, Regreet(b0, b1, round)) == (line0, Regreeted(b0, b1, round));
    assert Step(line0, t, Regreeted(b0, b1, round)) ==
           (line1, if b == Some(0x10) then Send(b0, b1, round) else Failure(t));
    assert Run(line, t, Regreet(b0, b1, round)) == Run(line0, t, Regreeted(b0, b1, round));
    if b == Some(0x10) {
      assert Run(line0, t, Regreeted(b0, b1, round)) == Run(line1, t, Send(b0, b1, round));
    } else {
      assert Run(line0, t, Regreeted(b0, b1, round)) == Run(line1, t, Failure(t));
    }
  }

  lemma SendsAgain(line: Line, t: Talk, b0: byte, b1: byte, round: nat)
    ensures Run(line, t, Send(b0, b1, round)) ==
            if round < 5 then Run(Write(line, t.message), t, Poll(b0, b1, 0, 0, round))
            else if t.writing then Reception(line, t) else (line, Done(Ok([])))
  {
    AcknowledgeIsReception(line, t);
    assert Step(line, t, Send(b0, b1, round)) ==
           if round < 5 then (Write(line, t.message), Poll(b0, b1, 0, 0, round))
           else (line, if t.writing then Acknowledge else Done(Ok([])));
  }

  lemma AcknowledgeIsReception(line: Line, t: Talk)
    ensures Run(line, t, Acknowledge) == Reception(line, t)
  {
  }

  // --------------------------------------------------------- what is written

  // n greetings, each followed by the message.
  function Opening(message: seq<byte>, n: nat): seq<byte> {
    if n == 0 then [] else Opening(message, n - 1) + ([0x02] + message)
  }

  // What a conversation has written by then, after n messages and maybe a
  // greeting.
  ghost predicate Said(w: seq<byte>, message: seq<byte>, at: At, n: nat) {
    var asked := Opening(message, n);
    match at
    case Greet => n == 0 && w == []
    case Greeted => n == 0 && w == [0x02]
    case Send(_, _, round) => n == round <= 5 && w == asked + [0x02]
    case Poll(_, _, _, _, round) => n == round + 1 <= 5 && w == asked
    case Regreet(_, _, round) => n == round <= 5 && w == asked
    case Regreeted(_, _, round) => n == round <= 5 && w == asked + [0x02]
    case Acknowledge => 1 <= n <= 5 && (w == asked || (n == 5 && w == asked + [0x02]))
    case Receive(_, _) =>
      1 <= n <= 5 && (w == asked + [0x10] || (n == 5 && w == asked + [0x02] + [0x10]))
    case Done(_) =>
      n <= 5 && (w in {asked, asked + [0x02]}
                 || (n >= 1 && w == asked + [0x10]) || (n == 5 && w == asked + [0x02] + [0x10]))
  }

  lemma {:induction false} RunSays(before: seq<byte>, w: seq<byte>, line: Line, t: Talk, at: At, n: nat)
    returns (w': seq<byte>, n': nat)
    requires line.sent == before + w && Said(w, t.message, at, n)
    ensures var (line', at') := Run(line, t, at); line'.sent == before + w' && Said(w', t.message, at', n')
    decreases PollsLeft(at), WritesLeft(at)
  {
    if at.Done? {
      w', n' := w, n;
    } else {
      StepProgresses(line, t, at);
      var (line1, at1) := Step(line, t, at);
      var w1, n1 := StepSays(before, w, line, t, at, n);
      w', n' := RunSays(before, w1, line1, t, at1, n1);
    }
  }

  lemma StepSays(before: seq<byte>, w: seq<byte>, line: Line, t: Talk, at: At, n: nat) returns (w': seq<byte>, n': nat)
    requires !at.Done? && line.sent == before + w && Said(w, t.message, at, n)
    ensures var (line', at') := Step(line, t, at); line'.sent == before + w' && Said(w', t.message, at', n')
  {
    w', n' := w, n;
    match at
    case Greet => w' := [0x02];
    case Greeted => assert Opening(t.message, 0) + [0x02] == [0x02];
    case Send(_, _, round) =>
      if round < MAX_RETRY {
        w', n' := w + t.message, n + 1;
        assert Opening(t.message, n) + [0x02] + t.message == Opening(t.message, n + 1);
      }
    case Regreet(_, _, _) => w' := w + [0x02];
    case Acknowledge => w' := w + [0x10];
    case _ =>
  }

  // Whatever arrives, a conversation writes greetings and its message in turn, at
  // most five times, perhaps one more greeting, and perhaps the byte that tells the
  // device to send.
  lemma {:induction false} ConverseWrites(line: Line, t: Talk) returns (w: seq<byte>, n: nat)
    ensures Converse(line, t).0.sent == line.sent + w
    ensures n <= 5
    ensures var asked := Opening(t.message, n);
            || w in {asked, asked + [0x02]}
            || (n >= 1 && w == asked + [0x10]) || (n == 5 && w == asked + [0x02] + [0x10])
  {
    assert line.sent == line.sent + [];
    w, n := RunSays(line.sent, [], line, t, Greet, 0);
  }
}
