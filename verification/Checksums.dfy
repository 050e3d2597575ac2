// The additive checksum, header verification and request messages: parser.py,
// calculate_checksum, verify_header and create_request_message.

module Checksums {
  import opened Bytes
  import opened Escaping
  import opened Framing

  function Sum(s: seq<byte>): nat {
    if s == [] then 0 else Sum(Front(s)) + Last(s)
  }

  // What the checksum covers: neither its own slot nor the footer.
  function Summed(f: seq<byte>): seq<byte>
    requires |f| >= 5
  {
    f[..2] + f[3..|f| - 2]
  }

  function Checksum(f: seq<byte>): byte
    requires |f| >= 5
  {
    Sum(Summed(f)) % 256
  }

  method CalculateChecksum(data: seq<byte>) returns (r: Result<byte, Error>)
    ensures r == if |data| < 5 then Err(InvalidData) else Ok(Checksum(data))
  {
    if |data| < 5 {
      return Err(InvalidData);
    }
    var total: nat := 0;
    for i := 0 to |data| - 2
      invariant total == Sum(if i <= 2 then data[..i] else data[..2] + data[3..i])
    {
      ghost var before := if i <= 2 then data[..i] else data[..2] + data[3..i];
      if i == 2 {
        assert data[..2] + data[3..3] == before;
        continue;
      }
      ghost var after := if i < 2 then data[..i + 1] else data[..2] + data[3..i + 1];
      assert after == before + [data[i]] && Front(after) == before;
      total := total + data[i];
    }
    return Ok(total % 256);
  }

  lemma {:induction false} SumAppend(a: seq<byte>, b: seq<byte>)
    ensures Sum(a + b) == Sum(a) + Sum(b)
  {
    if b == [] {
      assert a + b == a;
    } else {
      SumAppend(a, Front(b));
      assert Front(a + b) == a + Front(b);
    }
  }

  lemma {:induction false} SumUpdate(s: seq<byte>, i: nat, x: byte)
    requires i < |s|
    ensures Sum(s[i := x]) == Sum(s) - s[i] + x
  {
    var t := s[i := x];
    if i == |s| - 1 {
      assert Front(t) == Front(s);
    } else {
      SumUpdate(Front(s), i, x);
      assert Front(t) == Front(s)[i := x];
    }
  }

  // Updating one byte moves the checksum by the difference, modulo 256; the
  // checksum slot and the footer do not count.
  lemma {:induction false} ChecksumUpdate(f: seq<byte>, i: nat, x: byte)
    requires |f| >= 5 && i < |f|
    ensures Checksum(f[i := x]) ==
            if i == 2 || i >= |f| - 2 then Checksum(f) else (Checksum(f) + x - f[i]) % 256
  {
    var g := f[i := x];
    if i == 2 || i >= |f| - 2 {
      assert Summed(g) == Summed(f);
    } else {
      var j := if i < 2 then i else i - 1;
      assert Summed(g) == Summed(f)[j := x];
      SumUpdate(Summed(f), j, x);
      assert Summed(f)[j] == f[i];
      ShiftResidue(Sum(Summed(f)), x - f[i]);
    }
  }

  lemma ShiftResidue(a: int, d: int)
    ensures (a + d) % 256 == (a % 256 + d) % 256
  {
    assert a + d == a % 256 + d + 256 * (a / 256);
    AddMultiple(a % 256 + d, a / 256);
  }

  function WithChecksum(f: seq<byte>): (r: seq<byte>)
    requires |f| >= 5
    ensures |r| == |f| && r[2] == Checksum(r)
    ensures forall i :: 0 <= i < |f| && i != 2 ==> r[i] == f[i]
  {
    ChecksumUpdate(f, 2, Checksum(f));
    f[2 := Checksum(f)]
  }

  // Only the slots outside the checksum matter for a recomputed frame.
  lemma WithChecksumAgain(f: seq<byte>, x: byte)
    requires |f| >= 5
    ensures WithChecksum(f[2 := x]) == WithChecksum(f)
    ensures f[2] == Checksum(f) ==> WithChecksum(f) == f
  {
    ChecksumUpdate(f, 2, x);
  }

  // --------------------------------------------------------------- header

  function VerifyHeader(response: seq<byte>): Result<(), Error> {
    if |response| < 4 then Err(ProtocolError)
    else if response[0] != HEADER_START then Err(ProtocolError)
    else if response[1] != GET && response[1] != SET then Err(ProtocolError)
    else if |response| < 5 then Err(InvalidData)
    else if response[2] != Checksum(response) then Err(ProtocolError)
    else Ok(())
  }

  predicate HeaderCheck(response: seq<byte>) {
    VerifyHeader(response).Ok?
  }

  // A single changed byte anywhere in front of the footer is detected; the
  // footer itself is not checked.
  lemma {:induction false} SingleByteCorruption(f: seq<byte>, i: nat, x: byte)
    requires HeaderCheck(f) && i < |f|
    ensures HeaderCheck(f[i := x]) <==> i >= |f| - 2 || x == f[i]
  {
    ChecksumUpdate(f, i, x);
  }

  // ------------------------------------------------------------- requests

  function Frame(kind: byte, body: seq<byte>): (f: seq<byte>)
    ensures |f| == |body| + 5 && f[0] == HEADER_START && f[1] == kind
    ensures f[3..|f| - 2] == body && LastTwo(f) == FOOTER
    ensures f[2] == Checksum(f)
  {
    WithChecksum([HEADER_START, kind, 0x00] + body + FOOTER)
  }

  function RequestMessage(command: seq<byte>): seq<byte> {
    Escape(Frame(GET, command))
  }

  method CreateRequestMessage(command: seq<byte>, getOrSet: byte) returns (message: seq<byte>)
    ensures message == Escape(Frame(getOrSet, command))
  {
    message := [HEADER_START, getOrSet, 0x00];
    message := message + command;
    message := message + FOOTER;
    var checksum := CalculateChecksum(message);
    message := message[2 := checksum.value];
    message := AddDuplicatedBytes(message);
  }

  // ------------------------------------- the "already set" shortcut

  // How much stuffing adds to the sum of a payload: 16 for each 0x10, 24 for
  // each 0x2B, counted here in units of 8.
  function StuffingWeight(s: seq<byte>): nat {
    if s == [] then 0
    else (if s[0] == ESCAPE then 2 else if s[0] == STUFFED then 3 else 0) + StuffingWeight(s[1..])
  }

  lemma {:induction false} StuffSum(s: seq<byte>)
    ensures Sum(Stuff(s)) == Sum(s) + 8 * StuffingWeight(s)
  {
    if s != [] {
      StuffSum(s[1..]);
      assert s == [s[0]] + s[1..];
      SumAppend([s[0]], s[1..]);
      SumAppend(Token(s[0]), Stuff(s[1..]));
      assert Sum([s[0]]) == s[0] by { assert Front([s[0]]) == []; }
      if |Token(s[0])| == 2 {
        SumTwo(Token(s[0])[0], Token(s[0])[1]);
      }
    }
  }

  lemma SumTwo(a: byte, b: byte)
    ensures Sum([a, b]) == a + b
  {
    var s := [a, b];
    assert Front(s) == [a] && Last(s) == b;
    assert Sum([a]) == a by { assert Front([a]) == []; }
  }

  // What the request message escapes: its checksum and the command.
  function RequestPayload(command: seq<byte>): seq<byte> {
    Middle(Frame(GET, command))
  }

  lemma {:induction false} RequestShape(command: seq<byte>)
    ensures var f, m := Frame(GET, command), RequestMessage(command);
            && RequestPayload(command) == [f[2]] + command
            && |m| >= 5 && m[0] == HEADER_START && m[1] == GET && m[2] == f[2]
            && Stuff(RequestPayload(command)) == [m[2]] + m[3..|m| - 2]
            && Summed(m) == [HEADER_START, GET] + m[3..|m| - 2]
            && Summed(f) == [HEADER_START, GET] + command
  {
    var f, m := Frame(GET, command), RequestMessage(command);
    var payload := RequestPayload(command);
    assert payload == [f[2]] + command;
    assert Stuff(payload) == Token(f[2]) + Stuff(command);
    ShapeOf(m, Stuff(payload));
    assert Summed(f) == [HEADER_START, GET] + command;
  }

  lemma ShapeOf(m: seq<byte>, stuffed: seq<byte>)
    requires stuffed != [] && m == [HEADER_START, GET] + stuffed + FOOTER
    ensures |m| >= 5 && stuffed == [m[2]] + m[3..|m| - 2]
    ensures Summed(m) == [HEADER_START, GET] + m[3..|m| - 2]
  {
  }

  // The sums of a request message before and after escaping.
  lemma {:induction false} RequestSums(command: seq<byte>)
    ensures |RequestMessage(command)| >= 5
    ensures Sum(Summed(RequestMessage(command))) ==
            Sum(Summed(Frame(GET, command))) + 8 * StuffingWeight(RequestPayload(command))
  {
    RequestShape(command);
    var f, m := Frame(GET, command), RequestMessage(command);
    SumAppend([m[2]], m[3..|m| - 2]);
    SumAppend([HEADER_START, GET], m[3..|m| - 2]);
    StuffSum(RequestPayload(command));
    SumAppend([f[2]], command);
    SumAppend([HEADER_START, GET], command);
  }

  // A request message can be mistaken for a valid response exactly when its
  // stuffing weighs a multiple of 256. Write shortcuts on such a response.
  lemma {:induction false} RequestLooksLikeResponse(command: seq<byte>)
    ensures HeaderCheck(RequestMessage(command)) <==>
            StuffingWeight(RequestPayload(command)) % 32 == 0
  {
    RequestShape(command);
    RequestSums(command);
    SameResidue(Sum(Summed(Frame(GET, command))), StuffingWeight(RequestPayload(command)));
  }

  lemma SameResidue(a: nat, w: nat)
    ensures a % 256 == (a + 8 * w) % 256 <==> w % 32 == 0
  {
    assert w == 32 * (w / 32) + w % 32;
    var q, r := w / 32, w % 32;
    assert (a + 8 * w) % 256 == (a + 8 * r) % 256 by {
      assert a + 8 * w == (a + 8 * r) + 256 * q;
      AddMultiple(a + 8 * r, q);
    }
  }

  lemma AddMultiple(a: int, q: int)
    ensures (a + 256 * q) % 256 == a % 256
  {
  }

  // A command is safe when the shortcut can only see the bare request.
  predicate ShortcutSafe(command: seq<byte>) {
    var w := StuffingWeight(RequestPayload(command));
    w == 0 || w % 32 != 0
  }

  // No valid response carrying data is taken for the request message, exactly
  // if the command is safe.
  lemma {:induction false} ShortcutExact(command: seq<byte>)
    ensures (forall response :: HeaderCheck(response) && |response| > |command| + 5
                                ==> response != RequestMessage(command))
            <==> ShortcutSafe(command)
  {
    ShortcutUnsafe(command);
  }

  // The request message itself is such a response, or none is.
  lemma {:induction false} ShortcutUnsafe(command: seq<byte>)
    ensures HeaderCheck(RequestMessage(command)) && |RequestMessage(command)| > |command| + 5
            <==> !ShortcutSafe(command)
  {
    RequestLooksLikeResponse(command);
    StuffedLength(RequestPayload(command));
    RequestShape(command);
    var m := RequestMessage(command);
    assert |m| > |command| + 5 <==> StuffingWeight(RequestPayload(command)) > 0;
  }

  // A request message is shaped like a frame.
  lemma {:induction false} RequestIsFrame(command: seq<byte>)
    ensures IsFrame(RequestMessage(command))
  {
    RequestBytes(command);
  }

  // Stuffing lengthens a payload exactly if it weighs something.
  lemma {:induction false} StuffedLength(s: seq<byte>)
    ensures |Stuff(s)| >= |s|
    ensures |Stuff(s)| > |s| <==> StuffingWeight(s) > 0
  {
    if s != [] {
      StuffedLength(s[1..]);
    }
  }

  // Every command of up to nine bytes is safe; the shipped ones have at most
  // three.
  lemma {:induction false} ShortCommandsAreSafe(command: seq<byte>)
    requires |command| <= 9
    ensures ShortcutSafe(command)
  {
    WeightBound(RequestPayload(command));
  }

  lemma {:induction false} WeightBound(s: seq<byte>)
    ensures StuffingWeight(s) <= 3 * |s|
  {
    if s != [] {
      WeightBound(s[1..]);
    }
  }

  // An eleven-byte command that is not.
  lemma {:induction false} AnUnsafeCommand()
    ensures !ShortcutSafe([0x10] + seq(10, _ => 0x2B))
  {
    var tail: seq<byte> := seq(10, _ => 0x2B);
    var command: seq<byte> := [0x10] + tail;
    SumRepeated(10);
    RequestChecksum(command);
    RequestBytes(command);
    SumAppend([0x10], tail);
    assert Sum([0x10]) == 0x10 by { assert Front([ESCAPE]) == []; }
    assert command[1..] == tail;
    PlainWeight(447 % 256);
  }

  lemma {:induction false} SumRepeated(n: nat)
    ensures Sum(seq(n, _ => 0x2B)) == 43 * n
    ensures StuffingWeight(seq(n, _ => 0x2B)) == 3 * n
  {
    var s: seq<byte> := seq(n, _ => 0x2B);
    if n > 0 {
      SumRepeated(n - 1);
      assert Front(s) == seq(n - 1, _ => 0x2B) == s[1..];
    }
  }

  // ------------------------------- the shortcut and well-formed registers

  // A stored frame: header, get, checksum, command, footer, and short enough
  // for the receive buffer.
  predicate WellFormed(f: seq<byte>, c: seq<byte>) {
    && |c| + 5 <= |f| <= 514
    && f[0] == HEADER_START && f[1] == GET && f[2] == Checksum(f)
    && f[3..3 + |c|] == c && LastTwo(f) == FOOTER
  }

  // A command without the 0x10 bytes it ends with.
  function Lead(command: seq<byte>): seq<byte> {
    if command != [] && Last(command) == ESCAPE then Lead(Front(command)) else command
  }

  // No register of the command can equal its request message: unless the command
  // ends in a multiple of sixteen 0x10 bytes and neither the rest of it nor the
  // checksum is stuffed.
  predicate RegisterSafe(command: seq<byte>) {
    var n := TrailingEscapes(command);
    !(&& n > 0 && n % 16 == 0 && |command| + n + 5 <= 514
      && StuffingWeight(Lead(command)) == 0 && (1 + Sum(Lead(command))) % 256 !in {ESCAPE, STUFFED})
  }

  // The read of a write can return the request message as a register that
  // carries data, exactly if the command is not of that form.
  lemma {:induction false} RegisterExact(command: seq<byte>)
    ensures (forall f :: WellFormed(f, command) && |f| > |command| + 5 ==> f != RequestMessage(command))
            <==> RegisterSafe(command)
  {
    var m := RequestMessage(command);
    assert (forall f :: WellFormed(f, command) && |f| > |command| + 5 ==> f != m)
           <==> !(WellFormed(m, command) && |m| > |command| + 5);
    if !RegisterSafe(command) {
      TensAreARegister(command);
    } else if WellFormed(m, command) && |m| > |command| + 5 {
      RegisterIsTens(command);
    }
  }

  function Tens(n: nat): (s: seq<byte>)
    ensures |s| == n && forall i :: 0 <= i < n ==> s[i] == ESCAPE
  {
    seq(n, _ => ESCAPE)
  }

  lemma {:induction false} RunOf(command: seq<byte>)
    ensures command == Lead(command) + Tens(TrailingEscapes(command))
  {
    if command != [] && Last(command) == ESCAPE {
      RunOf(Front(command));
      assert Tens(TrailingEscapes(command)) == Tens(TrailingEscapes(Front(command))) + [ESCAPE];
    }
  }

  lemma {:induction false} StuffTens(n: nat)
    ensures Stuff(Tens(n)) == Tens(2 * n)
    ensures StuffingWeight(Tens(n)) == 2 * n && Sum(Tens(n)) == 16 * n
  {
    if n > 0 {
      StuffTens(n - 1);
      assert Tens(n)[1..] == Tens(n - 1) == Front(Tens(n));
      assert Tens(2 * n) == [ESCAPE, ESCAPE] + Tens(2 * n - 2);
    }
  }

  lemma {:induction false} WeightAppend(a: seq<byte>, b: seq<byte>)
    ensures StuffingWeight(a + b) == StuffingWeight(a) + StuffingWeight(b)
  {
    if a == [] {
      assert a + b == b;
    } else {
      WeightAppend(a[1..], b);
      assert (a + b)[1..] == a[1..] + b;
    }
  }

  lemma {:induction false} WeightlessIsUnstuffed(s: seq<byte>)
    requires StuffingWeight(s) == 0
    ensures Stuff(s) == s
  {
    if s != [] {
      WeightlessIsUnstuffed(s[1..]);
    }
  }

  // The bytes of a request message.
  lemma {:induction false} RequestBytes(command: seq<byte>)
    ensures var k := Frame(GET, command)[2];
            && RequestMessage(command) == [HEADER_START, GET] + (Token(k) + Stuff(command)) + FOOTER
            && StuffingWeight(RequestPayload(command)) == StuffingWeight([k]) + StuffingWeight(command)
  {
    var k := Frame(GET, command)[2];
    var payload := RequestPayload(command);
    assert payload == [k] + command;
    WeightAppend([k], command);
    assert Stuff(payload) == Token(k) + Stuff(command);
  }

  // A command with a run of 0x10 at its end.
  lemma {:induction false} StuffRun(a: seq<byte>, n: nat)
    requires StuffingWeight(a) == 0
    ensures Stuff(a + Tens(n)) == a + Tens(n) + Tens(n) && StuffingWeight(a + Tens(n)) == 2 * n
  {
    StuffTens(n);
    WeightlessIsUnstuffed(a);
    StuffAppend(a, Tens(n));
    WeightAppend(a, Tens(n));
    assert Tens(2 * n) == Tens(n) + Tens(n);
  }

  lemma {:induction false} RunChecksum(a: seq<byte>, n: nat)
    requires n % 16 == 0
    ensures Frame(GET, a + Tens(n))[2] == (1 + Sum(a)) % 256
  {
    RequestChecksum(a + Tens(n));
    SumAppend(a, Tens(n));
    StuffTens(n);
    AddMultiple(1 + Sum(a), n / 16);
  }

  lemma {:induction false} RequestChecksum(command: seq<byte>)
    ensures Frame(GET, command)[2] == (1 + Sum(command)) % 256
  {
    RequestShape(command);
    SumTwo(HEADER_START, GET);
    SumAppend([HEADER_START, GET], command);
  }

  // Its request message is a register.
  lemma {:induction false} RunRequest(a: seq<byte>, n: nat)
    requires StuffingWeight(a) == 0 && n % 16 == 0
    requires (1 + Sum(a)) % 256 !in {ESCAPE, STUFFED}
    ensures RequestMessage(a + Tens(n)) ==
            [HEADER_START, GET, (1 + Sum(a)) % 256] + (a + Tens(n)) + (Tens(n) + FOOTER)
  {
    var c := a + Tens(n);
    RunChecksum(a, n);
    StuffRun(a, n);
    RequestBytes(c);
    PlainRequest(c, Tens(n));
  }

  lemma PlainRequest(c: seq<byte>, extra: seq<byte>)
    requires Frame(GET, c)[2] !in {ESCAPE, STUFFED} && Stuff(c) == c + extra
    ensures RequestMessage(c) == [HEADER_START, GET, Frame(GET, c)[2]] + c + (extra + FOOTER)
  {
    RequestBytes(c);
    Regroup(Frame(GET, c)[2], c, extra);
  }

  lemma Regroup(k: byte, c: seq<byte>, extra: seq<byte>)
    requires k !in {ESCAPE, STUFFED}
    ensures [HEADER_START, GET] + (Token(k) + (c + extra)) + FOOTER ==
            [HEADER_START, GET, k] + c + (extra + FOOTER)
  {
  }

  lemma {:induction false} RunLooksLikeResponse(a: seq<byte>, n: nat)
    requires StuffingWeight(a) == 0 && n % 16 == 0
    requires (1 + Sum(a)) % 256 !in {ESCAPE, STUFFED}
    ensures HeaderCheck(RequestMessage(a + Tens(n)))
  {
    var c := a + Tens(n);
    RunWeighs(a, n);
    RequestLooksLikeResponse(c);
  }

  lemma {:induction false} RunWeighs(a: seq<byte>, n: nat)
    requires StuffingWeight(a) == 0 && n % 16 == 0
    requires (1 + Sum(a)) % 256 !in {ESCAPE, STUFFED}
    ensures StuffingWeight(RequestPayload(a + Tens(n))) % 32 == 0
  {
    RunChecksum(a, n);
    StuffRun(a, n);
    RequestBytes(a + Tens(n));
    PlainWeight((1 + Sum(a)) % 256);
    Doubled(n);
  }

  lemma Doubled(n: nat)
    requires n % 16 == 0
    ensures (2 * n) % 32 == 0
  {
  }

  lemma PlainWeight(k: byte)
    ensures StuffingWeight([k]) == if k == ESCAPE then 2 else if k == STUFFED then 3 else 0
  {
    assert [k][1..] == [];
  }

  lemma {:induction false} TensAreARegister(command: seq<byte>)
    requires !RegisterSafe(command)
    ensures WellFormed(RequestMessage(command), command) && |RequestMessage(command)| > |command| + 5
  {
    var n, a := TrailingEscapes(command), Lead(command);
    RunOf(command);
    RunRequest(a, n);
    RunLooksLikeResponse(a, n);
    LooksWellFormed((1 + Sum(a)) % 256, command, Tens(n));
  }

  lemma LooksWellFormed(k: byte, command: seq<byte>, data: seq<byte>)
    requires var m := [HEADER_START, GET, k] + command + (data + FOOTER); HeaderCheck(m) && |m| <= 514
    ensures WellFormed([HEADER_START, GET, k] + command + (data + FOOTER), command)
  {
    var m := [HEADER_START, GET, k] + command + (data + FOOTER);
    assert m[3..3 + |command|] == command;
    assert LastTwo(m) == FOOTER;
  }

  // A command that its own stuffing, behind a shift, begins with.
  lemma {:induction false} ShiftedByTens(c: seq<byte>, j: nat)
    requires j >= 1 && c <= Tens(j) + Stuff(c)
    ensures c == Tens(|c|)
  {
    if c != [] {
      var whole := Tens(j) + Stuff(c);
      assert c[0] == whole[0] == ESCAPE;
      assert whole[1..] == Tens(j + 1) + Stuff(c[1..]);
      assert c[1..] == whole[1..][..|c| - 1];
      ShiftedByTens(c[1..], j + 1);
    }
  }

  lemma {:induction false} ShiftedByStuffing(c: seq<byte>)
    requires c <= [STUFFING] + Stuff(c)
    ensures StuffingWeight(c) == 0
  {
    if c != [] {
      var whole := [STUFFING] + Stuff(c);
      assert c[0] == whole[0] == STUFFING;
      assert whole[1..] == [STUFFING] + Stuff(c[1..]);
      assert c[1..] == whole[1..][..|c| - 1];
      ShiftedByStuffing(c[1..]);
    }
  }

  // A command that its own stuffing begins with: a run of 0x10 at the end is
  // the only heavy part it can have.
  lemma {:induction false} BeginsItsStuffing(c: seq<byte>)
    requires c <= Stuff(c)
    ensures StuffingWeight(c) in {0, 3} || (StuffingWeight(Lead(c)) == 0 && StuffingWeight(c) == 2 * TrailingEscapes(c))
  {
    if c != [] {
      var rest := Token(c[0])[1..] + Stuff(c[1..]);
      assert Stuff(c)[1..] == rest && c[1..] == rest[..|c| - 1];
      if c[0] == ESCAPE {
        assert rest == Tens(1) + Stuff(c[1..]);
        ShiftedByTens(c[1..], 1);
        assert c == [ESCAPE] + c[1..] == Tens(|c|);
        AllTens(|c|);
        StuffTens(|c|);
      } else if c[0] == STUFFED {
        assert rest == [STUFFING] + Stuff(c[1..]);
        ShiftedByStuffing(c[1..]);
      } else {
        assert rest == Stuff(c[1..]);
        BeginsItsStuffing(c[1..]);
        LeadOneMore(c);
      }
    }
  }

  lemma {:induction false} AllTens(n: nat)
    ensures TrailingEscapes(Tens(n)) == n && Lead(Tens(n)) == []
  {
    if n > 0 {
      AllTens(n - 1);
      assert Front(Tens(n)) == Tens(n - 1);
    }
  }

  // A byte in front that is not 0x10.
  lemma {:induction false} LeadOneMore(c: seq<byte>)
    requires c != [] && c[0] != ESCAPE
    ensures TrailingEscapes(c) == TrailingEscapes(c[1..]) && Lead(c) == [c[0]] + Lead(c[1..])
  {
    if |c| > 1 {
      assert Front(c)[1..] == Front(c[1..]) && Last(c) == Last(c[1..]);
      if Last(c) == ESCAPE {
        LeadOneMore(Front(c));
      }
    }
  }

  lemma {:induction false} RegisterIsTens(command: seq<byte>)
    requires WellFormed(RequestMessage(command), command) && |RequestMessage(command)| > |command| + 5
    ensures !RegisterSafe(command)
  {
    RegisterBegins(command);
    HeavyRegister(command);
    RegisterWeight(command, Frame(GET, command)[2]);
    RunWeight(command);
    HeavyIsUnsafe(command);
  }

  lemma {:induction false} RunWeight(command: seq<byte>)
    requires command <= Stuff(command)
    requires StuffingWeight(command) > 0 && StuffingWeight(command) % 32 == 0
    ensures var n := TrailingEscapes(command);
            n > 0 && n % 16 == 0 && StuffingWeight(Lead(command)) == 0
  {
    BeginsItsStuffing(command);
    Halves(StuffingWeight(command), TrailingEscapes(command));
  }

  lemma Halves(w: nat, n: nat)
    requires w > 0 && w % 32 == 0
    ensures w !in {0, 3}
    ensures w == 2 * n ==> n > 0 && n % 16 == 0
  {
  }

  // What the checksum and the command of such a register can weigh.
  lemma {:induction false} RegisterWeight(command: seq<byte>, k: byte)
    requires k == Frame(GET, command)[2] && command <= Token(k)[1..] + Stuff(command)
    requires var w := StuffingWeight([k]) + StuffingWeight(command); w > 0 && w % 32 == 0
    ensures k !in {ESCAPE, STUFFED} && command <= Stuff(command)
    ensures StuffingWeight(command) > 0 && StuffingWeight(command) % 32 == 0
  {
    PlainWeight(k);
    if k == ESCAPE {
      assert Token(k)[1..] == Tens(1);
      TensAfterTen(command);
      assert false;
    } else if k == STUFFED {
      assert Token(k)[1..] == [STUFFING];
      ShiftedByStuffing(command);
      assert false;
    } else {
      assert Token(k)[1..] + Stuff(command) == Stuff(command);
    }
  }

  lemma {:induction false} HeavyRegister(command: seq<byte>)
    requires WellFormed(RequestMessage(command), command) && |RequestMessage(command)| > |command| + 5
    ensures var w := StuffingWeight([Frame(GET, command)[2]]) + StuffingWeight(command); w > 0 && w % 32 == 0
  {
    RequestLooksLikeResponse(command);
    RequestBytes(command);
    if StuffingWeight(RequestPayload(command)) == 0 {
      WeightlessIsUnstuffed(RequestPayload(command));
    }
  }

  // Behind its header such a register begins with the command, and the request
  // message with the rest of the checksum and the stuffed command.
  lemma {:induction false} RegisterBegins(command: seq<byte>)
    requires WellFormed(RequestMessage(command), command) && |RequestMessage(command)| > |command| + 5
    ensures command <= Token(Frame(GET, command)[2])[1..] + Stuff(command)
  {
    RequestBytes(command);
    BehindHeader(RequestMessage(command), Token(Frame(GET, command)[2]), Stuff(command), command);
  }

  lemma BehindHeader(m: seq<byte>, token: seq<byte>, rest: seq<byte>, c: seq<byte>)
    requires token != [] && m == [HEADER_START, GET] + (token + rest) + FOOTER
    requires |c| + 5 <= |m| && m[3..3 + |c|] == c
    ensures c <= token[1..] + rest
  {
    assert m[3..|m| - 2] == token[1..] + rest;
    assert c == m[3..|m| - 2][..|c|];
  }

  lemma {:induction false} HeavyIsUnsafe(command: seq<byte>)
    requires var n := TrailingEscapes(command);
             n > 0 && n % 16 == 0 && StuffingWeight(Lead(command)) == 0
    requires Frame(GET, command)[2] !in {ESCAPE, STUFFED} && |RequestMessage(command)| <= 514
    ensures !RegisterSafe(command)
  {
    RunOf(command);
    var n, a := TrailingEscapes(command), Lead(command);
    RunChecksum(a, n);
    RequestLength(a, n);
  }

  lemma {:induction false} RequestLength(a: seq<byte>, n: nat)
    requires StuffingWeight(a) == 0
    ensures |RequestMessage(a + Tens(n))| >= |a + Tens(n)| + n + 5
  {
    StuffRun(a, n);
    RequestBytes(a + Tens(n));
  }

  // The checksum of a command of 0x10 bytes alone is odd.
  lemma {:induction false} TensAfterTen(command: seq<byte>)
    requires command <= Tens(1) + Stuff(command)
    ensures Frame(GET, command)[2] != ESCAPE
  {
    ShiftedByTens(command, 1);
    RequestChecksum(command);
    StuffTens(|command|);
  }

  // Fifteen bytes are too short for such a run.
  lemma {:induction false} ShortRegistersAreSafe(command: seq<byte>)
    requires |command| <= 15
    ensures RegisterSafe(command)
  {
    RunOf(command);
  }
}
