// Where the values of a read come from: consecutive arrivals on the line.

module Provenance {
  import opened Bytes
  import opened Escaping
  import opened Checksums
  import opened Models
  import opened Config
  import opened Readings
  import opened Conversation
  import opened Jobs

  // ------------------------------------------- what was received arrived

  // On a scripted line, bytes received are de-escaped from the bytes among the
  // arrivals taken while receiving, and nothing is taken after them.
  lemma {:induction false} ReceivedArrived(line: Line, t: Talk, got: seq<byte>, silent: nat) returns (n: nat)
    requires line.device == None
    ensures var (line', at') := Run(line, t, Receive(got, silent));
            && n <= |line.rx| && line'.rx == line.rx[n..] && line'.device == None
            && (at'.result.Ok? && at'.result.value != [] ==>
                  at'.result.value == Unescape(got + BytesOf(line.rx[..n])))
    decreases PollsLeft(Receive(got, silent))
  {
    var (line1, r) := Get(line);
    var at1 := Heard(t, got, silent, r);
    HearProgresses(t, got, silent, r);
    assert Run(line, t, Receive(got, silent)) == Run(line1, t, at1);
    var taken: nat := if line.rx == [] then 0 else 1;
    assert line1.rx == line.rx[taken..];
    if at1.Done? {
      n := taken;
      HeardLast(t, got, silent, line.rx);
    } else {
      var m := ReceivedArrived(line1, t, at1.got, at1.silent);
      n := taken + m;
      assert line1.rx[m..] == line.rx[n..];
      HeardMore(t, got, silent, line.rx, m);
    }
  }

  // The arrival that ends a frame belongs to it.
  lemma HeardLast(t: Talk, got: seq<byte>, silent: nat, rx: seq<Arrival>)
    requires Heard(t, got, silent, if rx == [] then None else Arrived(rx[0])).Done?
    ensures var r := Heard(t, got, silent, if rx == [] then None else Arrived(rx[0])).result;
            r.Ok? && r.value != [] ==> r.value == Unescape(got + BytesOf(rx[..if rx == [] then 0 else 1]))
  {
    if rx == [] {
      assert got + BytesOf([]) == got;
    } else {
      BytesOfOne(rx[0]);
      assert rx[..1] == [rx[0]];
      assert got + [] == got;
    }
  }

  lemma BytesOfOne(a: Arrival)
    ensures BytesOf([a]) == match a case Byte(b) => [b] case Silence => []
  {
    assert [a][1..] == [];
  }

  lemma HeardMore(t: Talk, got: seq<byte>, silent: nat, rx: seq<Arrival>, m: nat)
    requires Heard(t, got, silent, if rx == [] then None else Arrived(rx[0])).Receive?
    requires m <= if rx == [] then 0 else |rx| - 1
    ensures var next := Heard(t, got, silent, if rx == [] then None else Arrived(rx[0]));
            var taken := if rx == [] then 0 else 1;
            next.got + BytesOf(rx[taken..][..m]) == got + BytesOf(rx[..taken + m])
  {
    if rx != [] {
      assert rx[..1 + m][1..] == rx[1..][..m];
      match rx[0]
      case Byte(b) => assert (got + [b]) + BytesOf(rx[1..][..m]) == got + ([b] + BytesOf(rx[1..][..m]));
      case Silence =>
    } else {
      assert rx[0..][..m] == rx[..0 + m];
    }
  }

  // The result of a run is what the arrivals i to n carry, and what follows
  // them is left.
  predicate Carried(rx: seq<Arrival>, i: nat, n: nat, end: (Line, At)) {
    && i <= n <= |rx| && end.0.rx == rx[n..] && end.0.device == None
    && (end.1.Done? && end.1.result.Ok? && end.1.result.value != [] ==>
          end.1.result.value == Unescape(BytesOf(rx[i..n])))
  }

  lemma CarriedLater(rx: seq<Arrival>, taken: nat, tail: seq<Arrival>, i: nat, n: nat, end: (Line, At))
    requires taken <= |rx| && tail == rx[taken..] && Carried(tail, i, n, end)
    ensures Carried(rx, taken + i, taken + n, end)
  {
    assert tail[n..] == rx[taken + n..];
    assert tail[i..n] == rx[taken + i..taken + n];
  }

  lemma ReceivingCarries(line: Line, t: Talk, at: At) returns (n: nat)
    requires line.device == None && at.Receive? && at.got == []
    ensures Carried(line.rx, 0, n, Run(line, t, at))
  {
    n := ReceivedArrived(line, t, at.got, at.silent);
    assert line.rx[..n] == line.rx[0..n];
    assert [] + BytesOf(line.rx[..n]) == BytesOf(line.rx[0..n]);
  }

  // So the frame a conversation returns is made of consecutive arrivals, the
  // last of which is the last one taken.
  lemma {:induction false} ReturnedArrived(line: Line, t: Talk, at: At)
    requires line.device == None && !at.Receive? && !at.Done?
    ensures exists i: nat, n: nat :: Carried(line.rx, i, n, Run(line, t, at))
    decreases PollsLeft(at), WritesLeft(at)
  {
    StepProgresses(line, t, at);
    var taken, line1, at1 := StepTakes(line, t, at);
    if at1.Done? {
      NothingCarried(line1, t, at1);
    } else if at1.Receive? {
      var m := ReceivingCarries(line1, t, at1);
    } else {
      ReturnedArrived(line1, t, at1);
    }
    var i: nat, n: nat :| Carried(line1.rx, i, n, Run(line1, t, at1));
    CarriedLater(line.rx, taken, line1.rx, i, n, Run(line1, t, at1));
  }

  lemma NothingCarried(line: Line, t: Talk, at: At)
    requires line.device == None && at.Done? && (at.result.Ok? ==> at.result.value == [])
    ensures Carried(line.rx, 0, 0, Run(line, t, at))
  {
    assert line.rx[0..] == line.rx;
  }

  // A step takes at most one arrival, and a conversation that fails in the
  // handshake returns no bytes.
  lemma StepTakes(line: Line, t: Talk, at: At) returns (taken: nat, line1: Line, at1: At)
    requires line.device == None && !at.Done? && !at.Receive?
    ensures (line1, at1) == Step(line, t, at) && Run(line, t, at) == Run(line1, t, at1)
    ensures line1.device == None && taken <= |line.rx| && line1.rx == line.rx[taken..]
    ensures at1.Receive? ==> at1.got == []
    ensures at1.Done? && at1.result.Ok? ==> at1.result.value == []
  {
    line1, at1 := Step(line, t, at).0, Step(line, t, at).1;
    taken := |line.rx| - |line1.rx|;
  }

  // ------------------------------------------- reading from a scripted line

  // The frame that some consecutive arrivals carry.
  function FrameAt(rx: seq<Arrival>, i: nat, n: nat): seq<byte>
    requires i <= n <= |rx|
  {
    Unescape(BytesOf(rx[i..n]))
  }

  predicate GoodFrame(rx: seq<Arrival>, i: nat, n: nat) {
    i <= n <= |rx| && HeaderCheck(FrameAt(rx, i, n))
  }

  // The values are decoded from one or two valid frames that arrived, the
  // second behind the first.
  ghost predicate Arrive(rx: seq<Arrival>, request: Request, values: Dict) {
    if request.key.command2.None? then
      exists i: nat, n: nat :: GoodFrame(rx, i, n) && values == ParseRecordsOf(FrameAt(rx, i, n), request.records, None)
    else
      exists i: nat, n: nat, j: nat, m: nat ::
        GoodFrame(rx, i, n) && GoodFrame(rx, j, m) && n <= j
        && values == ParseRecordsOf(FrameAt(rx, i, n), request.records, Some(FrameAt(rx, j, m)))
  }

  // A scripted line from arrival n on.
  predicate Rest(line: Line, rx: seq<Arrival>, n: nat) {
    line.device.None? && n <= |rx| && line.rx == rx[n..]
  }

  // What a conversation takes from it, and the arrivals that make its result.
  ghost predicate Takes(line: Line, c: Command, rx: seq<Arrival>, i: nat, n: nat) {
    var (line', r) := Converse(line, GetTalk(c));
    && i <= n && Rest(line', rx, n)
    && (Brings(line, c) ==> GoodFrame(rx, i, n) && FrameAt(rx, i, n) == r.value)
  }

  lemma CarriedIsTaken(line: Line, c: Command, rx: seq<Arrival>, i: nat, n: nat, end: (Line, At))
    requires end.1.Done? && Converse(line, GetTalk(c)) == (end.0, end.1.result) && Carried(rx, i, n, end)
    ensures Takes(line, c, rx, i, n)
  {
  }

  lemma CarriedFrom(rx: seq<Arrival>, taken: nat, tail: seq<Arrival>, a: nat, b: nat, end: (Line, At))
    returns (i: nat, n: nat)
    requires taken <= |rx| && tail == rx[taken..] && Carried(tail, a, b, end)
    ensures taken <= i && Carried(rx, i, n, end)
  {
    i, n := taken + a, taken + b;
    CarriedLater(rx, taken, tail, a, b, end);
  }

  lemma {:induction false} ConverseCarried(line: Line, t: Talk) returns (i: nat, n: nat, end: (Line, At))
    requires line.device == None
    ensures end.1.Done? && Converse(line, t) == (end.0, end.1.result) && Carried(line.rx, i, n, end)
  {
    ReturnedArrived(line, t, Greet);
    end := Run(line, t, Greet);
    i, n :| Carried(line.rx, i, n, Run(line, t, Greet));
  }

  lemma {:induction false} ConversationTakes(line: Line, c: Command, rx: seq<Arrival>, taken: nat)
    returns (i: nat, n: nat)
    requires Rest(line, rx, taken)
    ensures taken <= i && Takes(line, c, rx, i, n)
  {
    var a, b, end := ConverseCarried(line, GetTalk(c));
    i, n := CarriedFrom(rx, taken, line.rx, a, b, end);
    CarriedIsTaken(line, c, rx, i, n, end);
  }

  lemma AttemptEnds(line: Line, request: Request)
    ensures var line1 := Converse(line, GetTalk(request.key.command)).0;
            Attempt(line, request).0 ==
            if Brings(line, request.key.command) && request.key.command2.Some?
            then Converse(line1, GetTalk(request.key.command2.value)).0 else line1
  {
  }

  lemma {:induction false} AttemptTakes(line: Line, request: Request, rx: seq<Arrival>, taken: nat) returns (n: nat)
    requires Rest(line, rx, taken)
    ensures Rest(Attempt(line, request).0, rx, n)
  {
    AttemptEnds(line, request);
    var _, first := ConversationTakes(line, request.key.command, rx, taken);
    n := first;
    if Brings(line, request.key.command) && request.key.command2.Some? {
      var line1 := Converse(line, GetTalk(request.key.command)).0;
      var _, second := ConversationTakes(line1, request.key.command2.value, rx, first);
      n := second;
    }
  }

  lemma {:induction false} OneDecodedArrived(line: Line, request: Request, rx: seq<Arrival>, taken: nat)
    requires Rest(line, rx, taken) && Succeeds(line, request.key) && request.key.command2.None?
    ensures Arrive(rx, request, Decoded(line, request))
  {
    var i, n := ConversationTakes(line, request.key.command, rx, taken);
    assert GoodFrame(rx, i, n);
  }

  lemma {:induction false} TwoDecodedArrived(line: Line, request: Request, rx: seq<Arrival>, taken: nat)
    requires Rest(line, rx, taken) && Succeeds(line, request.key) && request.key.command2.Some?
    ensures Arrive(rx, request, Decoded(line, request))
  {
    var i, n := ConversationTakes(line, request.key.command, rx, taken);
    var line1 := Converse(line, GetTalk(request.key.command)).0;
    var j, m := ConversationTakes(line1, request.key.command2.value, rx, n);
    assert GoodFrame(rx, i, n) && GoodFrame(rx, j, m);
  }

  lemma {:induction false} DecodedArrived(line: Line, request: Request, rx: seq<Arrival>, taken: nat)
    requires Rest(line, rx, taken) && Attempt(line, request).1.Some?
    ensures Arrive(rx, request, Attempt(line, request).1.value)
  {
    AttemptDecodes(line, request);
    if request.key.command2.None? {
      OneDecodedArrived(line, request, rx, taken);
    } else {
      TwoDecodedArrived(line, request, rx, taken);
    }
  }

  ghost predicate AnyValuesArrive(rx: seq<Arrival>, request: Request, outcome: Outcome) {
    outcome.Values? ==> Arrive(rx, request, outcome.values)
  }

  lemma {:induction false} RemainingArrived(line: Line, request: Request, k: nat, rx: seq<Arrival>, taken: nat)
    requires Rest(line, rx, taken)
    ensures AnyValuesArrive(rx, request, Remaining(line, request, k).1)
    decreases Room(k, MAX_TRIES)
  {
    if k < MAX_TRIES {
      if Attempt(line, request).1.Some? {
        DecodedArrived(line, request, rx, taken);
      } else {
        var n := AttemptTakes(line, request, rx, taken);
        RemainingArrived(Attempt(line, request).0, request, k + 1, rx, n);
        assert Remaining(line, request, k) == Remaining(Attempt(line, request).0, request, k + 1);
      }
    }
  }

  // On every scripted line, whatever bytes and timeouts are on it, the values
  // of a read are decoded from consecutive arrivals that make valid frames.
  lemma {:induction false} ReadValuesArrived(line: Line, request: Request)
    requires line.device.None?
    ensures var outcome := Perform(line, ReadJob(request)).1;
            outcome.Values? ==> Arrive(line.rx, request, outcome.values)
  {
    RemainingAttempts(line, request);
    RemainingArrived(line, request, 0, line.rx, 0);
  }
}
