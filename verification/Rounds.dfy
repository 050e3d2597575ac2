// The data-available signal and the buffer that outlives a round: connector.py,
// _establish_request.

module Rounds {
  import opened Bytes
  import opened Conversation

  // The wait for the signal in one round, from a poll to what follows it.
  function Wait(line: Line, t: Talk, at: At): (Line, At)
    decreases PollsLeft(at), WritesLeft(at)
  {
    if !at.Poll? then (line, at)
    else
      StepProgresses(line, t, at);
      var (line', at') := Step(line, t, at);
      Wait(line', t, at')
  }

  lemma {:induction false} WaitIsRun(line: Line, t: Talk, at: At)
    ensures var (line', at') := Wait(line, t, at);
            !at'.Poll? && Run(line, t, at) == Run(line', t, at')
    decreases PollsLeft(at), WritesLeft(at)
  {
    if at.Poll? {
      StepProgresses(line, t, at);
      var (line', at') := Step(line, t, at);
      WaitIsRun(line', t, at');
    }
  }

  // A round that starts with b0 and b1 in the buffer takes the line to have
  // data.
  predicate Signalled(line: Line, t: Talk, b0: byte, b1: byte, round: nat) {
    Wait(line, t, Poll(b0, b1, 0, 0, round)).1.Acknowledge?
  }

  // n timeouts and then the byte b
  predicate Next(rx: seq<Arrival>, n: nat, b: byte) {
    n < |rx| && rx[n] == Byte(b) && forall i :: 0 <= i < n ==> rx[i] == Silence
  }

  // The signal proper, with m and n timeouts before its bytes.
  predicate Signal(rx: seq<Arrival>, m: nat, n: nat) {
    Next(rx, m, ESCAPE) && Next(rx[m + 1..], n, START_COMMUNICATION)
  }

  ghost predicate OwnSignal(rx: seq<Arrival>, silent: nat) {
    exists m: nat, n: nat :: silent + m + n < MAX_RETRY && Signal(rx, m, n)
  }

  ghost predicate SomeNext(rx: seq<Arrival>, silent: nat, b: byte) {
    exists n: nat :: silent + n < MAX_RETRY && Next(rx, n, b)
  }

  // ------------------------------------------------------- what is signalled

  lemma NextIsByte(rx: seq<Arrival>, silent: nat, b: byte)
    requires rx == [] || rx[0].Byte?
    ensures SomeNext(rx, silent, b) <==> silent < MAX_RETRY && rx != [] && rx[0] == Byte(b)
  {
    if silent < MAX_RETRY && rx != [] && rx[0] == Byte(b) {
      assert Next(rx, 0, b);
    }
  }

  lemma NextAfterSilence(rx: seq<Arrival>, silent: nat, b: byte)
    requires rx != [] && rx[0].Silence?
    ensures SomeNext(rx, silent, b) <==> SomeNext(rx[1..], silent + 1, b)
  {
    if n: nat :| silent + n < MAX_RETRY && Next(rx, n, b) {
      assert Next(rx[1..], n - 1, b);
    }
    if n: nat :| silent + 1 + n < MAX_RETRY && Next(rx[1..], n, b) {
      NextShifts(rx, n, b);
    }
  }

  lemma NextShifts(rx: seq<Arrival>, n: nat, b: byte)
    requires rx != [] && rx[0].Silence?
    ensures Next(rx, n + 1, b) <==> Next(rx[1..], n, b)
  {
    if Next(rx[1..], n, b) {
      forall i | 0 <= i < n + 1
        ensures rx[i] == Silence
      {
        if i > 0 {
          assert rx[i] == rx[1..][i - 1];
        }
      }
    }
  }

  lemma OwnAfterByte(rx: seq<Arrival>, silent: nat)
    requires rx == [] || rx[0].Byte?
    ensures OwnSignal(rx, silent) <==>
            rx != [] && rx[0] == Byte(ESCAPE) && SomeNext(rx[1..], silent, START_COMMUNICATION)
  {
    if m: nat, n: nat :| silent + m + n < MAX_RETRY && Signal(rx, m, n) {
      assert m == 0;
      assert Next(rx[1..], n, START_COMMUNICATION);
    }
    if rx != [] && rx[0] == Byte(ESCAPE) && SomeNext(rx[1..], silent, START_COMMUNICATION) {
      var n: nat :| silent + n < MAX_RETRY && Next(rx[1..], n, START_COMMUNICATION);
      assert Signal(rx, 0, n);
    }
  }

  lemma OwnAfterSilence(rx: seq<Arrival>, silent: nat)
    requires rx != [] && rx[0].Silence?
    ensures OwnSignal(rx, silent) <==> OwnSignal(rx[1..], silent + 1)
  {
    if m: nat, n: nat :| silent + m + n < MAX_RETRY && Signal(rx, m, n) {
      NextShifts(rx, m - 1, ESCAPE);
      assert rx[1..][m..] == rx[m + 1..];
      assert Signal(rx[1..], m - 1, n);
    }
    if m: nat, n: nat :| silent + 1 + m + n < MAX_RETRY && Signal(rx[1..], m, n) {
      NextShifts(rx, m, ESCAPE);
      assert rx[1..][m + 1..] == rx[m + 1 + 1..];
      assert Signal(rx, m + 1, n);
    }
  }

  lemma WaitStep(line: Line, t: Talk, at: At)
    requires at.Poll?
    ensures var (line', r) := Get(line);
            Wait(line, t, at) == Wait(line', t, Polled(t, at, r))
  {
  }

  // Two bytes that are not the signal settle the round.
  lemma {:induction false} TwoBytesSettle(line: Line, t: Talk, at: At)
    requires at.Poll? && at.count >= 2 && [at.b0, at.b1] != DATA_AVAILABLE
    ensures !Wait(line, t, at).1.Acknowledge?
    decreases PollsLeft(at), WritesLeft(at)
  {
    WaitStep(line, t, at);
    var (line', r) := Get(line);
    PollProgresses(t, at, r);
    if Polled(t, at, r).Poll? {
      TwoBytesSettle(line', t, Polled(t, at, r));
    }
  }

  // With its first byte in, a round is signalled by its second.
  lemma {:induction false} SecondSignals(line: Line, t: Talk, b0: byte, b1: byte, silent: nat, round: nat)
    requires silent < MAX_RETRY
    ensures Wait(line, t, Poll(b0, b1, 1, silent, round)).1.Acknowledge?
            <==> b0 == ESCAPE && SomeNext(line.rx, silent, START_COMMUNICATION)
    decreases MAX_RETRY - silent
  {
    var at := Poll(b0, b1, 1, silent, round);
    WaitStep(line, t, at);
    var (line', r) := Get(line);
    if r.Some? {
      NextIsByte(line.rx, silent, START_COMMUNICATION);
      if Polled(t, at, r).Poll? {
        TwoBytesSettle(line', t, Polled(t, at, r));
      }
    } else if line.rx != [] {
      NextAfterSilence(line.rx, silent, START_COMMUNICATION);
      if silent + 1 < MAX_RETRY {
        SecondSignals(line', t, b0, b1, silent + 1, round);
      }
    } else {
      NextIsByte(line.rx, silent, START_COMMUNICATION);
      if silent + 1 < MAX_RETRY {
        SecondSignals(line', t, b0, b1, silent + 1, round);
      }
    }
  }

  // A round whose buffer does not hold 0x02 in its second place is signalled
  // by the signal ...
  lemma {:induction false} FreshRound(line: Line, t: Talk, b0: byte, b1: byte, silent: nat, round: nat)
    requires silent < MAX_RETRY && b1 != START_COMMUNICATION
    ensures Wait(line, t, Poll(b0, b1, 0, silent, round)).1.Acknowledge? <==> OwnSignal(line.rx, silent)
    decreases MAX_RETRY - silent
  {
    var at := Poll(b0, b1, 0, silent, round);
    WaitStep(line, t, at);
    var (line', r) := Get(line);
    if r.Some? {
      OwnAfterByte(line.rx, silent);
      SecondSignals(line', t, r.value, b1, silent, round);
    } else {
      if line.rx != [] {
        OwnAfterSilence(line.rx, silent);
      } else {
        OwnAfterByte(line.rx, silent);
      }
      if silent + 1 < MAX_RETRY {
        FreshRound(line', t, b0, b1, silent + 1, round);
      }
    }
  }

  // ... and one whose buffer does by a single 0x10.
  lemma {:induction false} StaleRound(line: Line, t: Talk, b0: byte, silent: nat, round: nat)
    requires silent < MAX_RETRY
    ensures Wait(line, t, Poll(b0, START_COMMUNICATION, 0, silent, round)).1.Acknowledge?
            <==> SomeNext(line.rx, silent, ESCAPE)
    decreases MAX_RETRY - silent
  {
    var at := Poll(b0, START_COMMUNICATION, 0, silent, round);
    WaitStep(line, t, at);
    var (line', r) := Get(line);
    if r.Some? {
      NextIsByte(line.rx, silent, ESCAPE);
      if Polled(t, at, r).Poll? {
        SecondSignals(line', t, r.value, START_COMMUNICATION, silent, round);
      }
    } else {
      if line.rx != [] {
        NextAfterSilence(line.rx, silent, ESCAPE);
      } else {
        NextIsByte(line.rx, silent, ESCAPE);
      }
      if silent + 1 < MAX_RETRY {
        StaleRound(line', t, b0, silent + 1, round);
      }
    }
  }

  // Exactly when a round is signalled, whatever is in the buffer.
  lemma {:induction false} SignalledExactly(line: Line, t: Talk, b0: byte, b1: byte, round: nat)
    ensures Signalled(line, t, b0, b1, round) <==>
            if b1 == START_COMMUNICATION then SomeNext(line.rx, 0, ESCAPE) else OwnSignal(line.rx, 0)
  {
    if b1 == START_COMMUNICATION {
      StaleRound(line, t, b0, 0, round);
    } else {
      FreshRound(line, t, b0, b1, 0, round);
    }
  }

  // The signal is fresh exactly in rounds that do not start with 0x02 in the
  // second place of the buffer: only on those does every line that signals
  // data start with 0x10 0x02 of its own, after at most four timeouts.
  lemma {:induction false} FreshExactly(t: Talk, b0: byte, b1: byte, round: nat)
    ensures (forall line :: Signalled(line, t, b0, b1, round) ==> OwnSignal(line.rx, 0))
            <==> b1 != START_COMMUNICATION
  {
    forall line
      ensures Signalled(line, t, b0, b1, round) <==>
              if b1 == START_COMMUNICATION then SomeNext(line.rx, 0, ESCAPE) else OwnSignal(line.rx, 0)
    {
      SignalledExactly(line, t, b0, b1, round);
    }
    if b1 == START_COMMUNICATION {
      var one := Line(None, [Byte(ESCAPE)], 0, []);
      assert Next(one.rx, 0, ESCAPE);
      NextIsByte([], 0, START_COMMUNICATION);
      OwnAfterByte(one.rx, 0);
      assert one.rx[1..] == [];
      assert Signalled(one, t, b0, b1, round) && !OwnSignal(one.rx, 0);
    }
  }

  // ------------------------------------------------ what a round leaves behind

  // The buffer after the bytes of a round.
  function Left(b: byte, own: seq<byte>, place: nat): byte {
    if place < |own| then own[place] else b
  }

  // A round that is given up hands on its own first two bytes, as far as it got
  // them, and otherwise what it started with.
  lemma {:induction false} RoundLeaves(line: Line, t: Talk, b0: byte, b1: byte, round: nat) returns (n: nat)
    ensures n <= |line.rx| && Wait(line, t, Poll(b0, b1, 0, 0, round)).0.rx == line.rx[n..]
    ensures var at' := Wait(line, t, Poll(b0, b1, 0, 0, round)).1;
            var own := BytesOf(line.rx[..n]);
            at'.Regreet? ==> at' == Regreet(Left(b0, own, 0), Left(b1, own, 1), round + 1)
  {
    n := WaitLeaves(line, t, Poll(b0, b1, 0, 0, round), b0, b1, []);
    assert [] + BytesOf(line.rx[..n]) == BytesOf(line.rx[..n]);
  }

  lemma {:induction false} WaitLeaves(line: Line, t: Talk, at: At, b0: byte, b1: byte, got: seq<byte>)
    returns (n: nat)
    requires at.Poll? && at.count == |got| && at.b0 == Left(b0, got, 0) && at.b1 == Left(b1, got, 1)
    ensures n <= |line.rx| && Wait(line, t, at).0.rx == line.rx[n..]
    ensures var at' := Wait(line, t, at).1;
            var own := got + BytesOf(line.rx[..n]);
            at'.Regreet? ==> at' == Regreet(Left(b0, own, 0), Left(b1, own, 1), at.round + 1)
    decreases PollsLeft(at), WritesLeft(at)
  {
    WaitStep(line, t, at);
    var (line', r) := Get(line);
    var at' := Polled(t, at, r);
    PollProgresses(t, at, r);
    var taken: nat := if line.rx == [] then 0 else 1;
    var more := if r.Some? then got + [r.value] else got;
    TakenBytes(line.rx, taken, r, 0);
    n := taken;
    if at'.Poll? {
      var m := WaitLeaves(line', t, at', b0, b1, more);
      n := taken + m;
      TakenBytes(line.rx, taken, r, m);
      OneBehind(got, r, BytesOf(line'.rx[..m]));
      assert line'.rx[m..] == line.rx[n..];
    }
  }

  lemma OneBehind(got: seq<byte>, r: Option<byte>, rest: seq<byte>)
    ensures (if r.Some? then got + [r.value] else got) + rest == got + ((if r.Some? then [r.value] else []) + rest)
  {
  }

  lemma TakenBytes(rx: seq<Arrival>, taken: nat, r: Option<byte>, m: nat)
    requires taken == if rx == [] then 0 else 1
    requires r == if rx == [] then None else Arrived(rx[0])
    requires m <= |rx| - taken
    ensures BytesOf(rx[..taken + m]) == (if r.Some? then [r.value] else []) + BytesOf(rx[taken..][..m])
  {
    if rx != [] {
      assert rx[..1 + m][1..] == rx[1..][..m];
    } else {
      assert rx[..taken + m] == [] == rx[taken..][..m];
    }
  }

  // ------------------------------------------------------- the whole handshake

  // Where a round starts: the line, and the first two bytes of the buffer.
  type Entry = (Line, byte, byte)

  // Where round r of a request starts, if it gets that far.
  function RoundStart(line: Line, t: Talk, r: nat): Option<Entry> {
    if r == 0 then Some((Write(line, t.message), 0, 0)) else After(t, RoundStart(line, t, r - 1), r - 1)
  }

  function After(t: Talk, start: Option<Entry>, r: nat): Option<Entry> {
    if start.None? then None
    else NextRound(t, Wait(start.value.0, t, Poll(start.value.1, start.value.2, 0, 0, r)))
  }

  // A round that was given up is followed by another if the device greets again.
  function NextRound(t: Talk, end: (Line, At)): Option<Entry> {
    if !end.1.Regreet? then None
    else
      var (line', b) := Get(Write(end.0, [START_COMMUNICATION]));
      if b == Some(ESCAPE) && end.1.round < MAX_RETRY
      then Some((Write(line', t.message), end.1.b0, end.1.b1)) else None
  }

  lemma NextRoundIsRun(t: Talk, end: (Line, At))
    requires NextRound(t, end).Some?
    ensures var (line', b0, b1) := NextRound(t, end).value;
            Run(end.0, t, end.1) == Run(line', t, Poll(b0, b1, 0, 0, end.1.round))
  {
    var at := end.1;
    var line1 := Write(end.0, [START_COMMUNICATION]);
    assert Run(end.0, t, at) == Run(line1, t, Regreeted(at.b0, at.b1, at.round));
    assert Run(line1, t, Regreeted(at.b0, at.b1, at.round)) == Run(Get(line1).0, t, Send(at.b0, at.b1, at.round));
  }

  lemma {:induction false} WaitKeepsRound(line: Line, t: Talk, at: At)
    requires at.Poll?
    ensures var at' := Wait(line, t, at).1; at'.Regreet? ==> at'.round == at.round + 1
    decreases PollsLeft(at), WritesLeft(at)
  {
    WaitStep(line, t, at);
    var (line', r) := Get(line);
    PollProgresses(t, at, r);
    if Polled(t, at, r).Poll? {
      WaitKeepsRound(line', t, Polled(t, at, r));
    }
  }

  // From the start of the round, if there is one, the request ends as said.
  ghost predicate EndsAs(start: Option<Entry>, t: Talk, r: nat, end: (Line, At)) {
    start.Some? ==> Run(start.value.0, t, Poll(start.value.1, start.value.2, 0, 0, r)) == end
  }

  // The run of the whole request goes through the start of each of its rounds.
  lemma {:induction false} RoundsAreRun(line: Line, t: Talk, r: nat)
    ensures EndsAs(RoundStart(line, t, r), t, r, Run(line, t, Send(0, 0, 0)))
  {
    if r == 0 {
      assert RoundStart(line, t, 0) == Some((Write(line, t.message), 0, 0));
    } else {
      RoundsAreRun(line, t, r - 1);
      NextEndsAs(RoundStart(line, t, r - 1), t, r - 1, Run(line, t, Send(0, 0, 0)));
    }
  }

  lemma NextEndsAs(start: Option<Entry>, t: Talk, r: nat, end: (Line, At))
    requires EndsAs(start, t, r, end)
    ensures EndsAs(After(t, start, r), t, r + 1, end)
  {
    if After(t, start, r).Some? {
      var at := Poll(start.value.1, start.value.2, 0, 0, r);
      WaitIsRun(start.value.0, t, at);
      WaitKeepsRound(start.value.0, t, at);
      NextRoundIsRun(t, Wait(start.value.0, t, at));
    }
  }

  // The bytes round r takes.
  function RoundBytes(line: Line, t: Talk, r: nat): seq<byte>
    requires RoundStart(line, t, r).Some?
  {
    var (line1, b0, b1) := RoundStart(line, t, r).value;
    var left := Wait(line1, t, Poll(b0, b1, 0, 0, r)).0.rx;
    if |left| <= |line1.rx| then BytesOf(line1.rx[..|line1.rx| - |left|]) else []
  }

  // The bytes of each round before r.
  function EarlierBytes(line: Line, t: Talk, r: nat): seq<seq<byte>>
    requires RoundStart(line, t, r).Some?
  {
    if r == 0 then [] else EarlierBytes(line, t, r - 1) + [RoundBytes(line, t, r - 1)]
  }

  // The second byte of the last round that got two.
  function SecondOf(own: seq<seq<byte>>): byte {
    if own == [] then 0 else if |Last(own)| >= 2 then Last(own)[1] else SecondOf(Front(own))
  }

  // Round j got two bytes, the second of them b, and no later one got as many.
  predicate LastSecond(own: seq<seq<byte>>, j: nat, b: byte) {
    j < |own| && |own[j]| >= 2 && own[j][1] == b && forall i :: j < i < |own| ==> |own[i]| < 2
  }

  lemma {:induction false} SecondIsLast(own: seq<seq<byte>>, b: byte)
    requires b != 0
    ensures SecondOf(own) == b <==> exists j: nat :: LastSecond(own, j, b)
  {
    if own != [] {
      SecondIsLast(Front(own), b);
      if SecondOf(own) == b && |Last(own)| >= 2 {
        assert LastSecond(own, |own| - 1, b);
      } else if SecondOf(own) == b {
        var j: nat :| LastSecond(Front(own), j, b);
        assert LastSecond(own, j, b);
      }
      if j: nat {:trigger LastSecond(own, j, b)} :| LastSecond(own, j, b) && j < |own| - 1 {
        assert LastSecond(Front(own), j, b);
      }
    }
  }

  lemma {:induction false} RoundHandsOn(line: Line, t: Talk, r: nat)
    requires RoundStart(line, t, r + 1).Some? && RoundStart(line, t, r).Some?
    ensures RoundStart(line, t, r + 1).value.2 == Left(RoundStart(line, t, r).value.2, RoundBytes(line, t, r), 1)
  {
    var (line1, b0, b1) := RoundStart(line, t, r).value;
    var n := RoundLeaves(line1, t, b0, b1, r);
    var left := Wait(line1, t, Poll(b0, b1, 0, 0, r)).0.rx;
    assert |left| == |line1.rx| - n;
  }

  // What the buffer holds in its second place when a round starts.
  lemma {:induction false} BufferHolds(line: Line, t: Talk, r: nat)
    requires RoundStart(line, t, r).Some?
    ensures RoundStart(line, t, r).value.2 == SecondOf(EarlierBytes(line, t, r))
  {
    if r > 0 {
      BufferHolds(line, t, r - 1);
      NextHolds(line, t, r - 1);
    }
  }

  lemma NextHolds(line: Line, t: Talk, r: nat)
    requires RoundStart(line, t, r + 1).Some? && RoundStart(line, t, r).Some?
    requires RoundStart(line, t, r).value.2 == SecondOf(EarlierBytes(line, t, r))
    ensures RoundStart(line, t, r + 1).value.2 == SecondOf(EarlierBytes(line, t, r + 1))
  {
    RoundHandsOn(line, t, r);
    OneMoreRound(EarlierBytes(line, t, r), RoundBytes(line, t, r));
  }

  lemma OneMoreRound(own: seq<seq<byte>>, last: seq<byte>)
    ensures SecondOf(own + [last]) == Left(SecondOf(own), last, 1)
  {
    assert Front(own + [last]) == own;
  }

  // A stale byte completes the signal of round r: the round takes the line to
  // have data, which does not start with the signal.
  ghost predicate StaleSignal(line: Line, t: Talk, r: nat)
    requires RoundStart(line, t, r).Some?
  {
    var (line1, b0, b1) := RoundStart(line, t, r).value;
    Signalled(line1, t, b0, b1, r) && !OwnSignal(line1.rx, 0)
  }

  // Exactly when that happens: in the last round before it that got two bytes,
  // the second was 0x02, and now a single 0x10 arrives after at most four
  // timeouts, and 0x02 does not follow in time. So it never happens in the first
  // round, nor before two bytes have come in one.
  lemma {:induction false} StaleExactly(line: Line, t: Talk, r: nat)
    requires RoundStart(line, t, r).Some?
    ensures var rx := RoundStart(line, t, r).value.0.rx;
            StaleSignal(line, t, r) <==>
            && SomeNext(rx, 0, ESCAPE) && !OwnSignal(rx, 0)
            && exists j: nat :: LastSecond(EarlierBytes(line, t, r), j, START_COMMUNICATION)
  {
    var (line1, b0, b1) := RoundStart(line, t, r).value;
    SignalledExactly(line1, t, b0, b1, r);
    BufferHolds(line, t, r);
    SecondIsLast(EarlierBytes(line, t, r), START_COMMUNICATION);
  }

  // The first round of a request is always fresh.
  lemma {:induction false} FirstRoundIsFresh(line: Line, t: Talk)
    ensures RoundStart(line, t, 0).Some? && !StaleSignal(line, t, 0)
  {
    StaleExactly(line, t, 0);
    assert EarlierBytes(line, t, 0) == [];
  }

  // A line that sends a stray byte and 0x02, falls silent, greets again and then
  // sends a single 0x10 is taken to have data.
  lemma {:induction false} StaleByteCounts(line: Line, t: Talk)
    requires line.device == None
    requires line.rx == [Byte(0), Byte(START_COMMUNICATION), Silence, Silence, Silence, Silence, Silence,
                         Byte(ESCAPE), Byte(ESCAPE)]
    ensures RoundStart(line, t, 1).Some? && StaleSignal(line, t, 1)
  {
    var asked := Write(line, t.message);
    StrayRound(asked, t);
    var start := Write(Write(From(asked, 8), [START_COMMUNICATION]), t.message);
    assert From(asked, 7).rx[1..] == start.rx == [Byte(ESCAPE)];
    assert RoundStart(line, t, 0) == Some((asked, 0, 0));
    assert RoundStart(line, t, 1) == Some((start, 0, START_COMMUNICATION));
    StaleRoundSignals(start, t);
  }

  lemma StaleRoundSignals(line: Line, t: Talk)
    requires line.rx == [Byte(ESCAPE)]
    ensures Signalled(line, t, 0, START_COMMUNICATION, 1) && !OwnSignal(line.rx, 0)
  {
    SignalledExactly(line, t, 0, START_COMMUNICATION, 1);
    assert Next(line.rx, 0, ESCAPE);
    OwnAfterByte(line.rx, 0);
    assert line.rx[1..] == [];
    NextIsByte([], 0, START_COMMUNICATION);
  }

  lemma {:induction false} StrayRound(line: Line, t: Talk)
    requires |line.rx| >= 7 && line.rx[0] == Byte(0) && line.rx[1] == Byte(START_COMMUNICATION)
    requires forall i :: 2 <= i < 7 ==> line.rx[i] == Silence
    ensures Wait(line, t, Poll(0, 0, 0, 0, 0)) == (From(line, 7), Regreet(0, START_COMMUNICATION, 1))
  {
    TwoStray(line, t);
    FiveTimeouts(line, t, 2, 0, START_COMMUNICATION);
  }

  lemma TwoStray(line: Line, t: Talk)
    requires |line.rx| >= 2 && line.rx[0] == Byte(0) && line.rx[1] == Byte(START_COMMUNICATION)
    ensures Wait(line, t, Poll(0, 0, 0, 0, 0)) == Wait(From(line, 2), t, Poll(0, START_COMMUNICATION, 2, 0, 0))
  {
    assert From(line, 0) == line;
    WaitAt(line, t, 0, Poll(0, 0, 0, 0, 0));
    WaitAt(line, t, 1, Poll(0, 0, 1, 0, 0));
  }

  lemma {:induction false} FiveTimeouts(line: Line, t: Talk, n: nat, b0: byte, b1: byte)
    requires n + 5 <= |line.rx| && forall i :: n <= i < n + 5 ==> line.rx[i] == Silence
    ensures Wait(From(line, n), t, Poll(b0, b1, 2, 0, 0)) == (From(line, n + 5), Regreet(b0, b1, 1))
  {
    for i := 0 to 5
      invariant Wait(From(line, n), t, Poll(b0, b1, 2, 0, 0)) ==
                Wait(From(line, n + i), t, if i < 5 then Poll(b0, b1, 2, i, 0) else Regreet(b0, b1, 1))
    {
      WaitAt(line, t, n + i, Poll(b0, b1, 2, i, 0));
    }
  }

  // The line after n arrivals.
  function From(line: Line, n: nat): Line
    requires n <= |line.rx|
  {
    line.(rx := line.rx[n..], polls := line.polls + n)
  }

  lemma WaitAt(line: Line, t: Talk, n: nat, at: At)
    requires n < |line.rx| && at.Poll?
    ensures Wait(From(line, n), t, at) == Wait(From(line, n + 1), t, Polled(t, at, Arrived(line.rx[n])))
  {
    WaitStep(From(line, n), t, at);
    assert line.rx[n..][1..] == line.rx[n + 1..];
  }
}
