// The device side of the protocol as a transition function on values:
// simulator.py. HeatPumpSimulator, the class, is proved against it.

module Devices {
  import opened Bytes
  import opened Escaping
  import opened Framing
  import opened Checksums
  import opened Models

  datatype Phase = Idle | Collecting | AwaitAck

  // The error codes a device answers with in the get/set position.
  type ErrorCode = c: byte | 1 <= c <= 4 witness 1

  // Whether the device refuses a set frame. The simulator accepts them all;
  // a real heat pump may answer with an error code and change nothing.
  type Policy = seq<byte> -> Option<ErrorCode>

  type Registers = map<Command, seq<byte>>

  // What lasts between conversations: a register per command.
  datatype Plant = Plant(store: Registers, commands: seq<Command>, refuses: Policy)

  datatype Device = Device(phase: Phase, buffer: seq<byte>, pending: seq<byte>, plant: Plant)

  // ------------------------------------------------------------- dispatch

  // frame[3 : 3 + len(command)] == command
  predicate Matches(command: Command, frame: seq<byte>) {
    3 + |command| <= |frame| && frame[3..3 + |command|] == command
  }

  // The longest known command that the frame carries.
  function BestMatch(commands: seq<Command>, frame: seq<byte>): Option<Command> {
    if commands == [] then None
    else
      var best := BestMatch(Front(commands), frame);
      var c := Last(commands);
      if Matches(c, frame) && (best.None? || |c| > |best.value|) then Some(c) else best
  }

  lemma {:induction false} BestMatchIsLongest(commands: seq<Command>, frame: seq<byte>)
    ensures var best := BestMatch(commands, frame);
            && (best.Some? ==> best.value in commands && Matches(best.value, frame))
            && forall c :: c in commands && Matches(c, frame) ==> best.Some? && |c| <= |best.value|
  {
    if commands != [] {
      BestMatchIsLongest(Front(commands), frame);
      assert commands == Front(commands) + [Last(commands)];
    }
  }

  method MatchCommand(commands: seq<Command>, frame: seq<byte>) returns (best: Option<Command>)
    ensures best == BestMatch(commands, frame)
  {
    best := None;
    for i := 0 to |commands|
      invariant best == BestMatch(commands[..i], frame)
    {
      assert Front(commands[..i + 1]) == commands[..i];
      var command := commands[i];
      if Matches(command, frame) {
        if best.None? || |command| > |best.value| {
          best := Some(command);
        }
      }
    }
    assert commands[..|commands|] == commands;
  }

  // Of two matching commands one is a prefix of the other, so the longest
  // match is unique.
  lemma MatchIsPrefix(c: Command, d: Command, frame: seq<byte>)
    requires Matches(c, frame) && Matches(d, frame) && |c| <= |d|
    ensures c <= d
  {
    assert d[..|c|] == frame[3..3 + |c|];
  }

  // No other command begins with this one.
  predicate Unextended(commands: seq<Command>, c: Command) {
    forall d :: d in commands && c <= d ==> d == c
  }

  // A frame reaches the register of a command it carries, exactly when it
  // carries no longer command that begins with it.
  lemma {:induction false} FrameDispatchExact(commands: seq<Command>, c: Command, frame: seq<byte>)
    requires c in commands && Matches(c, frame)
    ensures BestMatch(commands, frame) == Some(c)
            <==> forall d :: d in commands && c <= d && d != c ==> !Matches(d, frame)
  {
    BestMatchIsLongest(commands, frame);
    var best := BestMatch(commands, frame).value;
    MatchIsPrefix(c, best, frame);
    if d :| d in commands && c <= d && d != c && Matches(d, frame) {
      assert |d| > |c|;
    }
  }

  // A set frame reaches its own register whatever data it carries, exactly
  // when no other command extends its command.
  lemma {:induction false} DispatchExact(commands: seq<Command>, c: Command)
    requires c in commands
    ensures (forall data: seq<byte> :: BestMatch(commands, Frame(SET, c + data)) == Some(c))
            <==> Unextended(commands, c)
  {
    if Unextended(commands, c) {
      forall data: seq<byte>
        ensures BestMatch(commands, Frame(SET, c + data)) == Some(c)
      {
        OwnMatch(commands, c, Frame(SET, c + data));
      }
    } else {
      var d :| d in commands && c <= d && d != c;
      var frame := Frame(SET, c + d[|c|..]);
      assert c + d[|c|..] == d;
      assert Matches(d, frame);
      BestMatchIsLongest(commands, frame);
      assert BestMatch(commands, frame) != Some(c);
    }
  }

  // A request reaches its own register although other commands extend its
  // command, unless one does so with the beginning of the footer.
  lemma {:induction false} RequestDispatchExact(commands: seq<Command>, c: Command)
    requires c in commands
    ensures BestMatch(commands, Frame(GET, c)) == Some(c)
            <==> c + [ESCAPE] !in commands && c + FOOTER !in commands
  {
    var frame := Frame(GET, c);
    BestMatchIsLongest(commands, frame);
    assert frame[3..] == c + FOOTER by { assert frame[3..|frame| - 2] == c; }
    MatchesInRequest(c, c);
    MatchesInRequest(c, c + [ESCAPE]);
    MatchesInRequest(c, c + FOOTER);
    var best := BestMatch(commands, frame).value;
    MatchesInRequest(c, best);
  }

  lemma MatchesInRequest(c: Command, d: Command)
    ensures Matches(d, Frame(GET, c)) <==> d <= c + FOOTER
    ensures c <= d <= c + FOOTER ==> d in {c, c + [ESCAPE], c + FOOTER}
  {
    var frame := Frame(GET, c);
    assert frame == frame[..3] + (c + FOOTER) by { assert frame[3..|frame| - 2] == c; }
    if c <= d <= c + FOOTER {
      assert d == (c + FOOTER)[..|d|];
      assert |d| == |c| ==> d == c;
      assert |d| == |c| + 1 ==> d == c + [ESCAPE];
      assert |d| == |c| + 2 ==> d == c + FOOTER;
    }
  }

  lemma OwnMatch(commands: seq<Command>, c: Command, frame: seq<byte>)
    requires c in commands && |frame| >= |c| + 5 && c <= frame[3..|frame| - 2]
    requires Unextended(commands, c)
    ensures Matches(c, frame) && BestMatch(commands, frame) == Some(c)
  {
    assert frame[3..3 + |c|] == frame[3..|frame| - 2][..|c|];
    FrameDispatchExact(commands, c, frame);
  }

  // The commands of one shipped file that share a prefix: the parameters 0A and
  // the clock registers 0A0122 to 0A0126. A set frame of the first whose data
  // begin 01 22 to 01 26 goes to the other they spell; every other set frame of the
  // first goes to its own register.
  const PARAMETERS: Command := [0x0A]
  const CLOCK_REGISTERS: seq<Command> :=
    [[0x0A, 0x01, 0x22], [0x0A, 0x01, 0x23], [0x0A, 0x01, 0x24], [0x0A, 0x01, 0x25], [0x0A, 0x01, 0x26]]

  ghost predicate SharesPrefix(commands: seq<Command>) {
    && PARAMETERS in commands
    && (forall d :: d in CLOCK_REGISTERS ==> d in commands)
    && forall d :: d in commands && PARAMETERS <= d && d != PARAMETERS ==> d in CLOCK_REGISTERS
  }

  // The clock register that a frame of 0A is taken for.
  function Astray(u: seq<byte>): Option<Command>
    requires |u| >= 6
  {
    if u[4] == 0x01 && 0x22 <= u[5] <= 0x26 then Some([0x0A, 0x01, u[5]]) else None
  }

  lemma {:induction false} SharedPrefixDispatch(commands: seq<Command>, u: seq<byte>)
    requires SharesPrefix(commands) && |u| >= 6 && Matches(PARAMETERS, u)
    ensures BestMatch(commands, u) == if Astray(u).Some? then Astray(u) else Some(PARAMETERS)
  {
    assert u[3] == 0x0A by { assert u[3..4][0] == u[3]; }
    assert u[3..6] == [u[3], u[4], u[5]];
    forall i | 0 <= i < |CLOCK_REGISTERS|
      ensures CLOCK_REGISTERS[i] in commands && PARAMETERS <= CLOCK_REGISTERS[i]
      ensures Matches(CLOCK_REGISTERS[i], u) <==> u[4] == 0x01 && u[5] == 0x22 + i
    {
      assert CLOCK_REGISTERS[i] in CLOCK_REGISTERS;
    }
    if Astray(u).Some? {
      assert CLOCK_REGISTERS[u[5] - 0x22] == [0x0A, 0x01, u[5]];
      FrameDispatchExact(commands, [0x0A, 0x01, u[5]], u);
    } else {
      FrameDispatchExact(commands, PARAMETERS, u);
    }
  }

  // ------------------------------------------------------------- responses

  // The stored form of a set frame: the get byte restored, the checksum
  // recomputed.
  function Stored(frame: seq<byte>): seq<byte>
    requires |frame| >= 5
  {
    WithChecksum(frame[1 := GET])
  }

  // A set frame for a register without room for a checksum.
  predicate ShortSet(p: Plant, frame: seq<byte>) {
    |frame| == 4 && BestMatch(p.commands, frame).Some? && frame[1] == SET
  }

  // The answer to a de-escaped frame, and the registers after it. On a short set
  // frame, where the source raises, there is none; no device is ever asked with
  // one.
  function Respond(p: Plant, frame: seq<byte>): (Plant, seq<byte>) {
    if |frame| < 4 then (p, [HEADER_START, GET, 0x00, 0x00] + FOOTER)
    else
      match BestMatch(p.commands, frame)
      case None => (p, Frame(0x03, if |frame| > 4 then frame[3..4] else [0x00]))
      case Some(c) =>
        if frame[1] == SET then
          if |frame| < 5 then (p, [])
          else
            match p.refuses(frame)
            case Some(code) => (p, Frame(code, c))
            case None => (p.(store := p.store[c := Stored(frame)]), Frame(SET, c))
        else (p, if c in p.store then p.store[c] else [])
  }

  // What a device takes in is at least six bytes long, and if four are left of
  // them, the second is escaped: it is never a short set frame.
  lemma {:induction false} NoShortSet(buffer: seq<byte>)
    requires |buffer| >= 6
    ensures |Unescape(buffer)| >= 4
    ensures |Unescape(buffer)| == 4 ==> Unescape(buffer)[1] in {ESCAPE, STUFFED}
    ensures forall p :: !ShortSet(p, Unescape(buffer))
  {
    var body := buffer[..|buffer| - 2];
    PassesAreOneDecoder(body);
    TwoTokens(body);
  }

  lemma {:induction false} TwoTokens(s: seq<byte>)
    requires |s| >= 4
    ensures |Decode(s)| >= 2
    ensures |Decode(s)| == 2 ==> Decode(s)[1] in {ESCAPE, STUFFED}
  {
    OneToken(s[1..]);
    OneToken(s[2..]);
  }

  lemma {:induction false} OneToken(s: seq<byte>)
    requires |s| >= 2
    ensures |Decode(s)| >= 1
    ensures |Decode(s)| == 1 ==> |s| == 2 && Decode(s)[0] in {ESCAPE, STUFFED}
  {
    SomeToken(s[1..]);
    if |s| > 2 {
      SomeToken(s[2..]);
    }
  }

  lemma SomeToken(s: seq<byte>)
    requires s != []
    ensures |Decode(s)| >= 1
  {
  }

  function FeedByte(d: Device, b: byte): (Device, seq<byte>) {
    match d.phase
    case Idle =>
      if b == START_COMMUNICATION then (d.(phase := Collecting, buffer := []), [ESCAPE])
      else (d, [])
    case Collecting =>
      var buffer := d.buffer + [b];
      if |buffer| >= 6 && FrameEnd(buffer) then
        (d.(phase := AwaitAck, buffer := buffer, pending := Unescape(buffer)), DATA_AVAILABLE)
      else (d.(buffer := buffer), [])
    case AwaitAck =>
      if b == ESCAPE then
        var (plant, response) := Respond(d.plant, d.pending);
        (d.(phase := Idle, plant := plant), Escape(response))
      else (d, [])
  }

  function Feed(d: Device, data: seq<byte>): (Device, seq<byte>)
    decreases |data|
  {
    if data == [] then (d, [])
    else
      var (d1, out1) := FeedByte(d, data[0]);
      var (d2, out2) := Feed(d1, data[1..]);
      (d2, out1 + out2)
  }

  lemma FeedOne(d: Device, b: byte)
    ensures Feed(d, [b]) == FeedByte(d, b)
  {
    var (d1, out1) := FeedByte(d, b);
    assert Feed(d1, [][..]) == (d1, []);
    assert out1 + [] == out1;
  }

  lemma FeedByteAt(d: Device, e: seq<byte>, n: nat)
    requires |e| >= 6 && n < |e| && d.phase == Collecting && d.buffer == e[..n]
    requires FrameEnd(e[..n + 1]) <==> n + 1 == |e|
    ensures FeedByte(d, e[n]) ==
            if n + 1 == |e|
            then (d.(phase := AwaitAck, buffer := e, pending := Unescape(e)), DATA_AVAILABLE)
            else (d.(buffer := e[..n + 1]), [])
  {
    assert e[..n] + [e[n]] == e[..n + 1];
    assert n + 1 == |e| ==> e[..n + 1] == e;
  }

  lemma FeedMore(d: Device, data: seq<byte>, n: nat)
    requires n < |data|
    ensures var (d1, out1) := FeedByte(d, data[n]);
            var (d2, out2) := Feed(d1, data[n + 1..]);
            Feed(d, data[n..]) == (d2, out1 + out2)
  {
    assert data[n..][0] == data[n] && data[n..][1..] == data[n + 1..];
  }

  // Bytes that end a frame at the last of them and not before are taken in up
  // to there.
  lemma {:induction false} FeedWire(d: Device, e: seq<byte>, n: nat)
    requires |e| >= 6 && n < |e| && d.phase == Collecting && d.buffer == e[..n]
    requires forall m :: 0 <= m <= |e| ==> (FrameEnd(e[..m]) <==> m == |e|)
    ensures Feed(d, e[n..]) == (d.(phase := AwaitAck, buffer := e, pending := Unescape(e)), DATA_AVAILABLE)
    decreases |e| - n
  {
    FeedByteAt(d, e, n);
    FeedMore(d, e, n);
    if n + 1 < |e| {
      FeedWire(d.(buffer := e[..n + 1]), e, n + 1);
      assert [] + DATA_AVAILABLE == DATA_AVAILABLE;
    } else {
      assert DATA_AVAILABLE + [] == DATA_AVAILABLE;
    }
  }

  // An escaped frame fed to a collecting device is understood exactly at its
  // last byte.
  lemma {:induction false} FeedFrame(d: Device, f: seq<byte>)
    requires IsFrame(f) && |Escape(f)| >= 6
    requires d.phase == Collecting && d.buffer == []
    ensures Feed(d, Escape(f)) ==
            (d.(phase := AwaitAck, buffer := Escape(f), pending := f), DATA_AVAILABLE)
  {
    var e := Escape(f);
    forall m | 0 <= m <= |e|
      ensures FrameEnd(e[..m]) <==> m == |e|
    {
      ExactFraming(f, m);
    }
    EscapeRoundTrip(f);
    assert e[..0] == [] && e[0..] == e;
    FeedWire(d, e, 0);
  }

  // ---------------------------------------------------- well-formed stores

  // A request for c is not taken for one for d: d is not c with the beginning
  // of the footer behind it.
  predicate Clear(c: Command, d: Command) {
    d != c + [ESCAPE] && d != c + FOOTER
  }

  // Requests reach their own registers.
  predicate Requestable(commands: seq<Command>) {
    forall c, d :: c in commands && d in commands ==> Clear(c, d)
  }

  // What every plant keeps: one well-formed frame for each command.
  ghost predicate ValidPlant(p: Plant) {
    && Requestable(p.commands)
    && (forall c :: c in p.commands ==> |c| >= 1)
    && (forall c :: c in p.store <==> c in p.commands)
    && (forall c :: c in p.store ==> WellFormed(p.store[c], c))
  }

  lemma GetIsAnswered(p: Plant, c: Command)
    requires ValidPlant(p) && c in p.commands
    ensures Respond(p, Frame(GET, c)) == (p, p.store[c])
  {
    assert Requestable(p.commands);
    assert Clear(c, c + [ESCAPE]) ==> false;
    assert Clear(c, c + FOOTER) ==> false;
    RequestDispatchExact(p.commands, c);
  }

  // A set frame made from the stored one: same length, command and footer.
  predicate IsUpdate(u: seq<byte>, f: seq<byte>, c: Command) {
    && |u| == |f| && |u| >= |c| + 5
    && u[0] == HEADER_START && u[1] == SET
    && u[3..3 + |c|] == c && LastTwo(u) == FOOTER
  }

  lemma StoredIsWellFormed(u: seq<byte>, f: seq<byte>, c: Command)
    requires WellFormed(f, c) && IsUpdate(u, f, c)
    ensures WellFormed(Stored(u), c)
  {
    var s := Stored(u);
    assert s[3..3 + |c|] == u[3..3 + |c|];
    assert LastTwo(s) == LastTwo(u);
  }

  // Setting a register replaces its frame and keeps the plant valid, unless
  // the device refuses; then nothing changes.
  lemma SetIsAnswered(p: Plant, c: Command, u: seq<byte>)
    requires ValidPlant(p) && c in p.commands
    requires IsUpdate(u, p.store[c], c) && BestMatch(p.commands, u) == Some(c)
    ensures Respond(p, u) == match p.refuses(u)
                             case Some(code) => (p, Frame(code, c))
                             case None => (p.(store := p.store[c := Stored(u)]), Frame(SET, c))
    ensures ValidPlant(p.(store := p.store[c := Stored(u)]))
  {
    StoredIsWellFormed(u, p.store[c], c);
    PutKeepsValid(p, c, Stored(u));
  }

  lemma UpdateMatches(p: Plant, c: Command, u: seq<byte>)
    requires ValidPlant(p) && c in p.commands && Unextended(p.commands, c)
    requires IsUpdate(u, p.store[c], c)
    ensures BestMatch(p.commands, u) == Some(c)
  {
    assert u[3..|u| - 2][..|c|] == u[3..3 + |c|];
    OwnMatch(p.commands, c, u);
  }

  lemma PutKeepsValid(p: Plant, c: Command, f: seq<byte>)
    requires ValidPlant(p) && c in p.commands && WellFormed(f, c)
    ensures ValidPlant(p.(store := p.store[c := f]))
  {
  }

  // Answers are frames, and a header check tells a confirmation from an error.
  lemma AnswerIsFrame(kind: byte, c: Command)
    requires kind in {GET, SET, 1, 2, 3, 4}
    ensures IsFrame(Frame(kind, c))
    ensures HeaderCheck(Frame(kind, c)) <==> kind in {GET, SET}
    ensures |Escape(Frame(kind, c))| >= |c| + 5
  {
    EscapeLength(Frame(kind, c));
  }

  // A frame with an unknown command is answered with an error frame, which the
  // client's header check rejects, and changes nothing.
  lemma UnknownIsRefused(p: Plant, frame: seq<byte>)
    requires |frame| >= 4 && forall c :: c in p.commands ==> !Matches(c, frame)
    ensures Respond(p, frame).0 == p
    ensures IsFrame(Respond(p, frame).1) && !HeaderCheck(Respond(p, frame).1)
  {
    BestMatchIsLongest(p.commands, frame);
    AnswerIsFrame(0x03, if |frame| > 4 then frame[3..4] else [0x00]);
  }

  lemma WellFormedIsFrame(f: seq<byte>, c: Command)
    requires WellFormed(f, c)
    ensures IsFrame(f) && HeaderCheck(f) && 5 <= |f| <= 514
  {
  }

  lemma UpdateIsFrame(u: seq<byte>, f: seq<byte>, c: Command)
    requires IsUpdate(u, f, c) && |c| >= 1
    ensures IsFrame(u) && |Escape(u)| >= 6
  {
    EscapeLength(u);
  }
}
