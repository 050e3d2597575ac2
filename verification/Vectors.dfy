// The byte vectors of tests/test_parser.py and tests/test_communication.py, as
// facts of the model.

module Vectors {
  import opened Bytes
  import opened Bits
  import opened Escaping
  import opened Checksums
  import opened Models
  import opened Records
  import opened Composition
  import opened Readings
  import opened Conversation
  import opened Exchange
  import opened Jobs
  import opened Writes
  import opened Zones
  import opened Meanings

  // ----------------------------------------------------------------- channels

  function Key(command: Command): RequestKey {
    RequestKey(command, None)
  }

  const COOLING: Channel :=
    Channel("p99CoolingHC1Switch", Key([0x0B, 0x02, 0x87]), Settings, 7, 1, 1.0, 7, 0.0, 1.0, 1.0)
  const START: Channel :=
    Channel("programDhwMo1Start", Key([0x0A, 0x17, 0x11]), Settings, 6, 1, 1.0, 0, -128.0, 95.0, 0.0)
  const END_OF: Channel :=
    Channel("programDhwMo1End", Key([0x0A, 0x17, 0x11]), Settings, 7, 1, 1.0, 0, -128.0, 95.0, 0.0)
  const DAILY_KEY: RequestKey := RequestKey([0x0A, 0x09, 0x1A], Some([0x0A, 0x09, 0x1B]))
  const DAILY: Channel :=
    Channel("electrDHWDay", DAILY_KEY, Sensor, 6, 2, 1.0, 0, 0.0, 0.0, 0.0)
  const INSIDE: Channel :=
    Channel("insideTemperatureRC", Key([0xF4]), Sensor, 36, 2, 0.1, 0, 0.0, 0.0, 0.0)

  // ------------------------------------------------------------------- by hand

  // Byte i, or nothing behind the end.
  function At(s: seq<byte>, i: nat): nat {
    if i < |s| then s[i] else 0
  }

  lemma {:induction false} SumOfSeven(s: seq<byte>)
    requires |s| <= 7
    ensures Sum(s) == At(s, 0) + At(s, 1) + At(s, 2) + At(s, 3) + At(s, 4) + At(s, 5) + At(s, 6)
  {
    if s != [] {
      SumOfSeven(Front(s));
    }
  }

  // The checksum of a frame of up to nine bytes.
  lemma ChecksumOf(f: seq<byte>)
    requires 5 <= |f| <= 10
    ensures Checksum(f) ==
            (f[0] + f[1] + At(Summed(f), 2) + At(Summed(f), 3) + At(Summed(f), 4) + At(Summed(f), 5)
             + At(Summed(f), 6)) % 256
  {
    SumOfSeven(Summed(f));
  }

  // Without 0x10 and 0x2B in between a frame goes over the wire as it is.
  lemma {:induction false} PlainIsSent(f: seq<byte>)
    requires |f| >= 4 && forall i :: 2 <= i < |f| - 2 ==> f[i] !in {0x10, 0x2B}
    ensures Escape(f) == f
  {
    PlainStuff(Middle(f));
  }

  lemma {:induction false} PlainStuff(s: seq<byte>)
    requires forall i :: 0 <= i < |s| ==> s[i] !in {0x10, 0x2B}
    ensures Stuff(s) == s
  {
    if s != [] {
      PlainStuff(s[1..]);
    }
  }

  // -------------------------------------------------------------------- parser

  lemma VersionRequest()
    ensures RequestMessage([0xFD]) == [0x01, 0x00, 0xFE, 0xFD, 0x10, 0x03]
  {
    var f := Frame(GET, [0xFD]);
    ChecksumOf(f);
    assert Summed(f) == [0x01, 0x00, 0xFD];
    assert f == [0x01, 0x00, 0xFE, 0xFD, 0x10, 0x03];
    PlainIsSent(f);
  }

  lemma StuffedFrame(f: seq<byte>)
    requires f == [0x01, 0x00, 0x00, 0x10, 0x2B, 0x05, 0x10, 0x03]
    ensures Escape(f) == [0x01, 0x00, 0x00, 0x10, 0x10, 0x2B, 0x18, 0x05, 0x10, 0x03]
  {
    StuffedFour(f[2..6]);
    assert Middle(f) == f[2..6] && FirstTwo(f) == f[..2] && LastTwo(f) == f[6..];
  }

  lemma StuffedFour(s: seq<byte>)
    requires s == [0x00, 0x10, 0x2B, 0x05]
    ensures Stuff(s) == [0x00, 0x10, 0x10, 0x2B, 0x18, 0x05]
  {
    assert s[..1] + [0x10] == s[..2] && s[..2] + [0x2B] == s[..3] && s[..3] + [0x05] == s;
    PlainStuff(s[..1]);
    StuffOne(s[..1], 0x10);
    StuffOne(s[..2], 0x2B);
    StuffOne(s[..3], 0x05);
  }

  // A response with tenths of a degree.
  const CLIMATE: seq<byte> := [
    0x01, 0x00, 0x5A, 0xF4, 0x00, 0x81, 0x00, 0x00, 0x01, 0x14, 0x00, 0x00, 0x01, 0x19, 0x01, 0x0F,
    0x01, 0x15, 0x00, 0x00, 0x01, 0x01, 0x60, 0x08, 0x00, 0x64, 0x01, 0x00, 0x00, 0x00, 0x00, 0xD4,
    0x00, 0x00, 0x00, 0x00, 0x00, 0xE3, 0x02, 0x00, 0x00, 0x00, 0x00, 0x07, 0x10, 0x03]

  lemma TenthsAreShown()
    ensures ParseRecord(CLIMATE, INSIDE) == Ok(FloatV(22.7))
  {
    assert CLIMATE[36] == 0x00 && CLIMATE[37] == 0xE3;
    ShownExactly(227, 0.1, 2270);
  }

  // Two responses in thousands, and an unused quarter of an hour.
  lemma ResponsesAreParsed()
    ensures ParseOne([0x01, 0x00, 0x2E, 0x0A, 0x09, 0x1A, 0x01, 0xFF, 0x10, 0x03], DAILY,
                     Some([0x01, 0x00, 0x30, 0x0A, 0x09, 0x1B, 0x00, 0x01, 0x10, 0x03])) == Ok(IntV(1511))
    ensures ParseRecord([0x01, 0x00, 0x33, 0x0A, 0x17, 0x11, 0x80, 0x80, 0x10, 0x03], START) == Ok(IntV(-128))
  {
  }

  const SWITCH_OFF: seq<byte> := [0x01, 0x00, 0x96, 0x0B, 0x02, 0x87, 0x00, 0x00, 0x10, 0x03]
  const SWITCH_ON: seq<byte> := [0x01, 0x80, 0x16, 0x0B, 0x02, 0x87, 0x00, 0x01, 0x10, 0x03]
  const QUARTERS_UNSET: seq<byte> := [0x01, 0x00, 0x33, 0x0A, 0x17, 0x11, 0x80, 0x80, 0x10, 0x03]
  const QUARTERS_SET: seq<byte> := [0x01, 0x80, 0x24, 0x0A, 0x17, 0x11, 0x2D, 0x44, 0x10, 0x03]

  lemma SwitchIsComposed(item: Item)
    requires item == Item(BoolV(true), COOLING)
    ensures ComposeAll([item], SWITCH_OFF) == Ok(SWITCH_ON)
  {
    ComposedSwitch(item, SWITCH_OFF, true);
    var stored := SWITCH_OFF[1 := SET][7 := 1];
    ChecksumOf(stored);
    assert Summed(stored) == [0x01, 0x80, 0x0B, 0x02, 0x87, 0x00, 0x01];
    assert WithChecksum(stored) == SWITCH_ON;
  }

  lemma ComposedSwitch(item: Item, f: seq<byte>, on: bool)
    requires on && item.value == BoolV(on) && item.record.bitPosition % 8 == 7
    requires |f| >= 5 && Placed(item, |f|) && f[item.record.position] == 0
    ensures ComposeAll([item], f) == Ok(WithChecksum(f[1 := SET][item.record.position := 1]))
  {
    StoredSwitch(on, f[1 := SET], item.record);
    assert Placed(item, |f|) && AllPlaced([item], |f|);
    ComposeAllStores([item], f);
    StoreAllOne(item, f[1 := SET]);
  }

  lemma StoredSwitch(on: bool, f: seq<byte>, x: Channel)
    requires on && x.position < |f| && f[x.position] == 0 && x.bitPosition % 8 == 7
    ensures Store(BoolV(on), f, x) == f[x.position := 1]
  {
    var p, g := x.position, Store(BoolV(on), f, x);
    forall k | 0 <= k < 8
      ensures Bit(g[p], k) == (k == 0)
    {
      BoolIsStored(on, f, x, k);
      ZeroBit(k);
    }
    LastBit(g[p]);
    assert g == f[p := g[p]];
  }

  lemma LastBit(b: byte)
    requires forall k :: 0 <= k < 8 ==> Bit(b, k) == (k == 0)
    ensures b == 1
  {
    forall k | 0 <= k < 8
      ensures Bit(b, k) == Bit(1, k)
    {
      if k > 0 {
        ZeroBit(k - 1);
      }
    }
    assert Power2(8) == 256;
    BitsDetermine(b, 1, 8);
  }

  lemma QuartersAreComposed(a: Item, b: Item)
    requires a == Item(IntV(45), START) && b == Item(IntV(68), END_OF)
    ensures ComposeAll([a, b], QUARTERS_UNSET) == Ok(QUARTERS_SET)
  {
    var items := [a, b];
    ComposeAllStores(items, QUARTERS_UNSET);
    var stored := StoreAll(items, QUARTERS_UNSET[1 := SET]);
    StoreAllTwo(a, b, QUARTERS_UNSET[1 := SET]);
    assert stored == QUARTERS_SET[2 := 0x33];
    ChecksumOf(stored);
    assert Summed(stored) == [0x01, 0x80, 0x0A, 0x17, 0x11, 0x2D, 0x44];
    assert WithChecksum(stored) == QUARTERS_SET;
    assert AllInRange(items);
  }

  lemma StoreAllTwo(a: Item, b: Item, f: seq<byte>)
    requires Placed(a, |f|) && Placed(b, |f|)
    ensures AllPlaced([a, b], |f|)
    ensures StoreAll([a, b], f) == Store(b.value, Store(a.value, f, a.record), b.record)
  {
    var g := Store(a.value, f, a.record);
    assert [a, b][1..] == [b] && [b][1..] == [];
    assert StoreAll([b], g) == StoreAll([], Store(b.value, g, b.record));
  }

  // --------------------------------------------------------------- on the wire

  // A peer that sends the frames f and g, whatever it is asked.
  function Peer(f: seq<byte>, g: seq<byte>): Line {
    Line(None, Prompt(f, Prompt(g, [])), 0, [])
  }

  // A write then sends the request and the composed frame u, and g decides.
  lemma {:induction false} WriteToPeer(items: seq<Item>, f: seq<byte>, g: seq<byte>, u: seq<byte>)
    requires items != [] && Receivable(f) && Receivable(g) && ComposeAll(items, f) == Ok(u)
    requires f != RequestMessage(items[0].record.key.command)
    ensures var c := items[0].record.key.command;
            var (line', outcome) := Perform(Peer(f, g), WriteJob(items));
            && line'.sent == Transcript(RequestMessage(c)) + Transcript(Escape(u))
            && Decided(items, f, u, Ok(g), outcome)
  {
    var c := items[0].record.key.command;
    var line := Peer(f, g);
    PromptAnswers(line, Talk(RequestMessage(c), false), f, Prompt(g, []));
    PromptAnswers(Fetch(line, items).0, Talk(Escape(u), true), g, []);
    SetExactly(line, items);
    assert [] + Transcript(RequestMessage(c)) == Transcript(RequestMessage(c));
  }

  // Both are plain.
  ghost predicate Dialogue(items: seq<Item>, f: seq<byte>, g: seq<byte>, request: seq<byte>, u: seq<byte>) {
    && items != [] && Receivable(f) && Receivable(g) && f != request
    && RequestMessage(items[0].record.key.command) == request
    && ComposeAll(items, f) == Ok(u) && Escape(u) == u
  }

  lemma {:induction false} PeerDecides(items: seq<Item>, f: seq<byte>, g: seq<byte>, request: seq<byte>, u: seq<byte>)
    requires Dialogue(items, f, g, request, u)
    ensures var (line', outcome) := Perform(Peer(f, g), WriteJob(items));
            && line'.sent == [0x02] + request + [0x10] + [0x02] + u + [0x10]
            && Decided(items, f, u, Ok(g), outcome)
  {
    WriteToPeer(items, f, g, u);
    TwoTranscripts(request, u);
  }

  lemma TwoTranscripts(a: seq<byte>, b: seq<byte>)
    ensures Transcript(a) + Transcript(b) == [0x02] + a + [0x10] + [0x02] + b + [0x10]
  {
  }

  lemma {:induction false} PeerTakes(items: seq<Item>, f: seq<byte>, g: seq<byte>, request: seq<byte>, u: seq<byte>,
                                     d: Dict)
    requires Dialogue(items, f, g, request, u)
    requires HeaderCheck(g) && AllDecode(u, items) && ParseItems(u, items) == Ok(d)
    ensures var (line', outcome) := Perform(Peer(f, g), WriteJob(items));
            outcome == Values(d) && line'.sent == [0x02] + request + [0x10] + [0x02] + u + [0x10]
  {
    PeerDecides(items, f, g, request, u);
  }

  lemma {:induction false} PeerRefuses(items: seq<Item>, f: seq<byte>, g: seq<byte>, request: seq<byte>, u: seq<byte>)
    requires Dialogue(items, f, g, request, u) && !HeaderCheck(g) && AllDecode(f, items)
    ensures var (line', outcome) := Perform(Peer(f, g), WriteJob(items));
            outcome == Raised(NotConfirmed) && line'.sent == [0x02] + request + [0x10] + [0x02] + u + [0x10]
  {
    PeerDecides(items, f, g, request, u);
  }

  lemma PlainIsReceivable(f: seq<byte>)
    requires 6 <= |f| <= 10 && LastTwo(f) == FOOTER && f[0] == 0x01 && f[1] in {0x00, 0x01, 0x80}
    requires forall i :: 2 <= i < |f| - 2 ==> f[i] !in {0x10, 0x2B}
    ensures Receivable(f)
  {
    PlainIsSent(f);
  }

  const SWITCH_REQUEST: seq<byte> := [0x01, 0x00, 0x95, 0x0B, 0x02, 0x87, 0x10, 0x03]
  const SWITCH_TAKEN: seq<byte> := [0x01, 0x80, 0x8C, 0x0B, 0x10, 0x03]
  const SWITCH_REFUSED: seq<byte> := [0x01, 0x01, 0x8C, 0x0B, 0x10, 0x03]

  lemma SwitchRequest()
    ensures RequestMessage([0x0B, 0x02, 0x87]) == SWITCH_REQUEST
  {
    var f := Frame(GET, [0x0B, 0x02, 0x87]);
    ChecksumOf(f);
    assert Summed(f) == [0x01, 0x00, 0x0B, 0x02, 0x87];
    assert f == SWITCH_REQUEST;
    PlainIsSent(f);
  }

  lemma SwitchReads(on: bool)
    ensures ParseRecord(if on then SWITCH_ON else SWITCH_OFF, COOLING) == Ok(BoolV(on))
  {
    var f := if on then SWITCH_ON else SWITCH_OFF;
    DecodedExactly(f, COOLING);
    assert f[7..8] == [if on then 1 else 0];
  }

  lemma SwitchDialogue(g: seq<byte>, item: Item)
    requires Receivable(g) && item == Item(BoolV(true), COOLING)
    ensures Dialogue([item], SWITCH_OFF, g, SWITCH_REQUEST, SWITCH_ON)
  {
    SwitchIsComposed(item);
    SwitchRequest();
    SwitchIsPlain();
  }

  lemma SwitchIsPlain()
    ensures Receivable(SWITCH_OFF) && Escape(SWITCH_ON) == SWITCH_ON && |SWITCH_OFF| != |SWITCH_REQUEST|
  {
    PlainIsReceivable(SWITCH_OFF);
    PlainIsSent(SWITCH_ON);
  }

  lemma SwitchAnswers()
    ensures HeaderCheck(SWITCH_TAKEN) && !HeaderCheck(SWITCH_REFUSED)
  {
    ChecksumOf(SWITCH_TAKEN);
    assert Summed(SWITCH_TAKEN) == [0x01, 0x80, 0x0B];
  }

  // The device confirms the switch: it is told as on.
  lemma SwitchIsTaken(item: Item)
    requires item == Item(BoolV(true), COOLING)
    ensures var (line', outcome) := Perform(Peer(SWITCH_OFF, SWITCH_TAKEN), WriteJob([item]));
            && outcome == Values([("p99CoolingHC1Switch", BoolV(true))])
            && line'.sent == [0x02] + SWITCH_REQUEST + [0x10] + [0x02] + SWITCH_ON + [0x10]
  {
    PlainIsReceivable(SWITCH_TAKEN);
    SwitchDialogue(SWITCH_TAKEN, item);
    SwitchAnswers();
    SwitchReads(true);
    ParsedOne(SWITCH_ON, item);
    PeerTakes([item], SWITCH_OFF, SWITCH_TAKEN, SWITCH_REQUEST, SWITCH_ON, [(item.record.id, item.value)]);
  }

  // The device refuses it: that is not taken for a success.
  lemma SwitchIsRefused(item: Item)
    requires item == Item(BoolV(true), COOLING)
    ensures Perform(Peer(SWITCH_OFF, SWITCH_REFUSED), WriteJob([item])).1 == Raised(NotConfirmed)
  {
    PlainIsReceivable(SWITCH_REFUSED);
    SwitchDialogue(SWITCH_REFUSED, item);
    SwitchAnswers();
    SwitchReads(false);
    DecodesOne(SWITCH_OFF, item);
    PeerRefuses([item], SWITCH_OFF, SWITCH_REFUSED, SWITCH_REQUEST, SWITCH_ON);
  }

  lemma ParsedOne(f: seq<byte>, item: Item)
    requires ParseRecord(f, item.record) == Ok(item.value)
    ensures ParseItems(f, [item]) == Ok([(item.record.id, item.value)]) && AllDecode(f, [item])
  {
    ParseItem(f, item);
  }

  lemma DecodesOne(f: seq<byte>, item: Item)
    requires ParseRecord(f, item.record).Ok?
    ensures AllDecode(f, [item])
  {
  }

  const QUARTERS_REQUEST: seq<byte> := [0x01, 0x00, 0x33, 0x0A, 0x17, 0x11, 0x10, 0x03]
  const QUARTERS_TAKEN: seq<byte> := [0x01, 0x00, 0xA4, 0x0A, 0x17, 0x11, 0x2D, 0x44, 0x10, 0x03]

  lemma QuartersRequest()
    ensures RequestMessage([0x0A, 0x17, 0x11]) == QUARTERS_REQUEST
  {
    var f := Frame(GET, [0x0A, 0x17, 0x11]);
    ChecksumOf(f);
    assert Summed(f) == [0x01, 0x00, 0x0A, 0x17, 0x11];
    assert f == QUARTERS_REQUEST;
    PlainIsSent(f);
  }

  lemma QuartersDialogue(a: Item, b: Item)
    requires a == Item(IntV(45), START) && b == Item(IntV(68), END_OF)
    ensures Dialogue([a, b], QUARTERS_UNSET, QUARTERS_TAKEN, QUARTERS_REQUEST, QUARTERS_SET)
  {
    QuartersAreComposed(a, b);
    QuartersRequest();
    QuartersArePlain();
  }

  lemma QuartersArePlain()
    ensures Receivable(QUARTERS_UNSET) && Receivable(QUARTERS_TAKEN) && Escape(QUARTERS_SET) == QUARTERS_SET
    ensures |QUARTERS_UNSET| != |QUARTERS_REQUEST|
  {
    PlainIsReceivable(QUARTERS_UNSET);
    PlainIsReceivable(QUARTERS_TAKEN);
    PlainIsSent(QUARTERS_SET);
  }

  lemma QuartersAnswer()
    ensures HeaderCheck(QUARTERS_TAKEN)
  {
    ChecksumOf(QUARTERS_TAKEN);
    assert Summed(QUARTERS_TAKEN) == [0x01, 0x00, 0x0A, 0x17, 0x11, 0x2D, 0x44];
    assert Checksum(QUARTERS_TAKEN) == 0xA4;
  }

  // Both ends of a programme in one frame.
  lemma QuartersAreTaken(a: Item, b: Item)
    requires a == Item(IntV(45), START) && b == Item(IntV(68), END_OF)
    ensures var (line', outcome) := Perform(Peer(QUARTERS_UNSET, QUARTERS_TAKEN), WriteJob([a, b]));
            && outcome == Values([("programDhwMo1Start", IntV(45)), ("programDhwMo1End", IntV(68))])
            && line'.sent == [0x02] + QUARTERS_REQUEST + [0x10] + [0x02] + QUARTERS_SET + [0x10]
  {
    QuartersDialogue(a, b);
    QuartersAnswer();
    ParsedTwo(QUARTERS_SET, a, b);
    PeerTakes([a, b], QUARTERS_UNSET, QUARTERS_TAKEN, QUARTERS_REQUEST, QUARTERS_SET,
              [(a.record.id, a.value), (b.record.id, b.value)]);
  }

  lemma ParsedTwo(f: seq<byte>, a: Item, b: Item)
    requires ParseRecord(f, a.record) == Ok(a.value) && ParseRecord(f, b.record) == Ok(b.value)
    requires a.record.id != b.record.id
    ensures ParseItems(f, [a, b]) == Ok([(a.record.id, a.value), (b.record.id, b.value)]) && AllDecode(f, [a, b])
  {
    ParsedOne(f, a);
    assert Front([a, b]) == [a] && Last([a, b]) == b;
    var d: Dict := [(a.record.id, a.value)];
    assert d[1..] == [] && Put([], b.record.id, b.value) == [(b.record.id, b.value)];
    assert Put(d, b.record.id, b.value) == d + [(b.record.id, b.value)];
    assert d + [(b.record.id, b.value)] == [(a.record.id, a.value), (b.record.id, b.value)];
  }
}
