// The registers a configuration gives rise to, and seeding them: simulator.py,
// __init__, _build_frame, set_value and _encode.

module Plants {
  import opened Bytes
  import opened Escaping
  import opened Checksums
  import opened Models
  import opened Records
  import opened Config
  import opened Devices

  // max(position + length), or 5 without records
  function DataEnd(records: seq<Channel>): (end: nat)
    ensures forall r :: r in records ==> r.position + r.length <= end
  {
    if records == [] then 5
    else
      var last := Last(records);
      var end := last.position + last.length;
      assert records == Front(records) + [last];
      if |records| == 1 then end
      else if DataEnd(Front(records)) > end then DataEnd(Front(records)) else end
  }

  lemma {:induction false} EndingRecord(records: seq<Channel>) returns (r: Channel)
    requires records != []
    ensures r in records && r.position + r.length == DataEnd(records)
  {
    r := Last(records);
    if |records| > 1 && DataEnd(Front(records)) > r.position + r.length {
      r := EndingRecord(Front(records));
    }
  }

  // frame[3 : 3 + len(command)] = command, which lengthens a frame that is too
  // short for it.
  function Splice(frame: seq<byte>, command: Command): seq<byte>
    requires |frame| >= 2
  {
    var from := if |frame| < 3 then |frame| else 3;
    var to := if |frame| < 3 + |command| then |frame| else 3 + |command|;
    frame[..from] + command + frame[to..]
  }

  function BuildFrame(records: seq<Channel>, command: Command): Result<seq<byte>, Error> {
    var zeros: seq<byte> := seq(DataEnd(records) + 2, _ => 0);
    var spliced := Splice(zeros[0 := HEADER_START][1 := GET], command);
    var n := |spliced|;
    if n < 5 then Err(InvalidData)
    else Ok(WithChecksum(spliced[n - 2 := ESCAPE][n - 1 := END]))
  }

  // The frame built for a command is well formed exactly when all the command
  // bytes lie in front of the end of the data, and the frame fits the buffer.
  lemma {:induction false} BuildFrameWellFormed(records: seq<Channel>, command: Command)
    ensures BuildFrame(records, command).Ok? && WellFormed(BuildFrame(records, command).value, command)
            <==> 3 + |command| <= DataEnd(records) <= 512
  {
    var n := DataEnd(records) + 2;
    var zeros: seq<byte> := seq(n, _ => 0);
    var headed := zeros[0 := HEADER_START][1 := GET];
    var spliced := Splice(headed, command);
    if 3 + |command| <= n {
      assert |spliced| == n;
      assert spliced[3..3 + |command|] == command;
      if 3 + |command| <= n - 2 {
        var f := BuildFrame(records, command).value;
        assert f[3..3 + |command|] == command;
        assert LastTwo(f) == FOOTER;
      }
    } else {
      assert |spliced| <= 3 + |command|;
    }
  }

  // Behind the command bytes it holds zeros only.
  lemma {:induction false} BuildFrameIsBlank(records: seq<Channel>, command: Command, i: nat)
    requires BuildFrame(records, command).Ok? && 3 + |command| <= DataEnd(records)
    requires 3 + |command| <= i < DataEnd(records)
    ensures |BuildFrame(records, command).value| == DataEnd(records) + 2
    ensures BuildFrame(records, command).value[i] == 0
  {
  }

  // ------------------------------------------------------------ registers

  function AddCommand(commands: seq<Command>, c: Command): seq<Command> {
    if c in commands then commands else commands + [c]
  }

  function CommandsOf(requests: seq<Request>): seq<Command> {
    if requests == [] then []
    else
      var key := Last(requests).key;
      var first := AddCommand(CommandsOf(Front(requests)), key.command);
      if key.command2.Some? then AddCommand(first, key.command2.value) else first
  }

  predicate Buildable(requests: seq<Request>) {
    forall r :: r in requests ==>
      && BuildFrame(r.records, r.key.command).Ok?
      && (r.key.command2.Some? ==> BuildFrame(r.records, r.key.command2.value).Ok?)
  }

  function StoreOf(requests: seq<Request>): map<Command, seq<byte>>
    requires Buildable(requests)
  {
    if requests == [] then map[]
    else
      var r := Last(requests);
      var first := StoreOf(Front(requests))[r.key.command := BuildFrame(r.records, r.key.command).value];
      if r.key.command2.Some? then
        first[r.key.command2.value := BuildFrame(r.records, r.key.command2.value).value]
      else first
  }

  function InitialPlant(requests: seq<Request>, refuses: Policy): Plant
    requires Buildable(requests)
  {
    Plant(StoreOf(requests), CommandsOf(requests), refuses)
  }

  // ------------------------------------------------------ configurations

  // A record lies behind the command bytes and inside a frame that fits the
  // receive buffer.
  predicate ValidChannel(c: Channel) {
    && 1 <= c.length && c.position + c.length <= 512 && c.scale != 0.0
    && (forall command :: command in KeyCommands(c.key) ==>
          1 <= |command| && 3 + |command| <= c.position && RegisterSafe(command))
  }

  function KeyCommands(key: RequestKey): seq<Command> {
    [key.command] + (if key.command2.Some? then [key.command2.value] else [])
  }

  // Different requests have different commands, and no command is another with
  // the beginning of the footer behind it.
  ghost predicate Separate(a: RequestKey, b: RequestKey) {
    forall x, y :: x in KeyCommands(a) && y in KeyCommands(b) ==>
                     (x == y ==> a == b) && Clear(x, y)
  }

  // Unique ids, each command used by one request in one place, requests that
  // reach their registers, and valid channels.
  ghost predicate ValidConfig(channels: seq<Channel>) {
    && UniqueIds(channels)
    && (forall c {:trigger ValidChannel(c)} :: c in channels ==> ValidChannel(c))
    && (forall c, d {:trigger Separate(c.key, d.key)} :: c in channels && d in channels ==> Separate(c.key, d.key))
    && (forall c {:trigger ValidChannel(c)} ::
          c in channels && c.key.command2.Some? ==> c.key.command != c.key.command2.value)
  }

  lemma {:induction false} CommandsCollected(requests: seq<Request>, c: Command)
    ensures c in CommandsOf(requests) <==> exists i :: 0 <= i < |requests| && c in KeyCommands(requests[i].key)
  {
    if requests != [] {
      CommandsCollected(Front(requests), c);
      assert requests == Front(requests) + [Last(requests)];
      if c in CommandsOf(Front(requests)) {
        var i :| 0 <= i < |Front(requests)| && c in KeyCommands(Front(requests)[i].key);
        assert requests[i] == Front(requests)[i];
      }
      if c in KeyCommands(Last(requests).key) {
        assert c in KeyCommands(requests[|requests| - 1].key);
      }
      if i :| 0 <= i < |requests| && c in KeyCommands(requests[i].key) {
        assert i == |requests| - 1 || c in KeyCommands(Front(requests)[i].key);
      }
    }
  }

  lemma {:induction false} StoreHolds(requests: seq<Request>, c: Command)
    requires Buildable(requests)
    ensures c in StoreOf(requests) <==> c in CommandsOf(requests)
  {
    if requests != [] {
      StoreHolds(Front(requests), c);
    }
  }

  lemma {:induction false} StoreBuilt(requests: seq<Request>, c: Command) returns (i: nat)
    requires Buildable(requests) && c in StoreOf(requests)
    ensures i < |requests| && c in KeyCommands(requests[i].key)
    ensures BuildFrame(requests[i].records, c) == Ok(StoreOf(requests)[c])
  {
    var r := Last(requests);
    if c in KeyCommands(r.key) {
      i := |requests| - 1;
    } else {
      i := StoreBuilt(Front(requests), c);
    }
  }

  // Every channel of a group is a channel of the configuration with its key.
  lemma {:induction false} GroupChannels(channels: seq<Channel>, i: nat, c: Channel)
    requires i < |Group(channels)|
    ensures c in Group(channels)[i].records <==> c in channels && c.key == Group(channels)[i].key
  {
    WithKeyContents(channels, Keys(channels)[i], c);
  }

  // The data of a group ends behind its command bytes, within 512 bytes.
  lemma {:induction false} GroupEnd(channels: seq<Channel>, i: nat, command: Command)
    requires ValidConfig(channels) && i < |Group(channels)|
    requires command in KeyCommands(Group(channels)[i].key)
    ensures 3 + |command| <= DataEnd(Group(channels)[i].records) <= 512
  {
    var records := Group(channels)[i].records;
    NoChannelWithoutKey(channels, Keys(channels)[i]);
    var c := EndingRecord(records);
    GroupChannels(channels, i, c);
    ChannelEnd(c, command);
  }

  lemma ChannelEnd(c: Channel, command: Command)
    requires ValidChannel(c) && command in KeyCommands(c.key)
    ensures 3 + |command| < c.position + c.length <= 512 && |command| >= 1
  {
  }

  lemma {:induction false} GroupFrame(channels: seq<Channel>, i: nat, command: Command)
    requires ValidConfig(channels) && i < |Group(channels)|
    requires command in KeyCommands(Group(channels)[i].key)
    ensures var built := BuildFrame(Group(channels)[i].records, command);
            built.Ok? && WellFormed(built.value, command)
  {
    GroupEnd(channels, i, command);
    BuildFrameWellFormed(Group(channels)[i].records, command);
  }

  lemma BuildFrameLength(records: seq<Channel>, command: Command)
    requires 3 + |command| <= DataEnd(records)
    ensures BuildFrame(records, command).Ok?
    ensures |BuildFrame(records, command).value| == DataEnd(records) + 2
  {
  }

  lemma {:induction false} GroupsAreBuildable(channels: seq<Channel>)
    requires ValidConfig(channels)
    ensures Buildable(Group(channels))
  {
    forall r | r in Group(channels)
      ensures BuildFrame(r.records, r.key.command).Ok?
      ensures r.key.command2.Some? ==> BuildFrame(r.records, r.key.command2.value).Ok?
    {
      var i :| 0 <= i < |Group(channels)| && Group(channels)[i] == r;
      GroupFrame(channels, i, r.key.command);
      if r.key.command2.Some? {
        GroupFrame(channels, i, r.key.command2.value);
      }
    }
  }

  // A valid configuration starts as a valid plant, in which each channel's
  // frame has room for all channels of its request.
  lemma {:induction false} InitialPlantIsValid(channels: seq<Channel>, refuses: Policy)
    requires ValidConfig(channels)
    ensures Buildable(Group(channels))
    ensures ValidPlant(InitialPlant(Group(channels), refuses))
  {
    GroupsAreBuildable(channels);
    var requests := Group(channels);
    var p := InitialPlant(requests, refuses);
    forall c
      ensures c in p.store <==> c in p.commands
      ensures c in p.store ==> WellFormed(p.store[c], c)
    {
      StoreHolds(requests, c);
      if c in p.store {
        var i := StoreBuilt(requests, c);
        GroupFrame(channels, i, c);
      }
    }
    InitialCommands(channels);
  }

  lemma {:induction false} InitialCommands(channels: seq<Channel>)
    requires ValidConfig(channels)
    ensures Requestable(CommandsOf(Group(channels)))
    ensures forall c :: c in CommandsOf(Group(channels)) ==> |c| >= 1
  {
    forall c, d | c in CommandsOf(Group(channels)) && d in CommandsOf(Group(channels))
      ensures |c| >= 1 && Clear(c, d)
    {
      CommandsApart(channels, c, d);
    }
  }

  // A command belongs to some channel.
  lemma {:induction false} CommandOwner(channels: seq<Channel>, c: Command) returns (ch: Channel)
    requires c in CommandsOf(Group(channels))
    ensures ch in channels && c in KeyCommands(ch.key)
  {
    CommandsCollected(Group(channels), c);
    var i :| 0 <= i < |Group(channels)| && c in KeyCommands(Group(channels)[i].key);
    NoChannelWithoutKey(channels, Keys(channels)[i]);
    ch := WithKey(channels, Keys(channels)[i])[0];
    WithKeyContents(channels, Keys(channels)[i], ch);
  }

  lemma {:induction false} CommandsApart(channels: seq<Channel>, c: Command, d: Command)
    requires ValidConfig(channels) && c in CommandsOf(Group(channels)) && d in CommandsOf(Group(channels))
    ensures |c| >= 1 && Clear(c, d)
  {
    var a := CommandOwner(channels, c);
    var b := CommandOwner(channels, d);
    assert ValidChannel(a) && Separate(a.key, b.key);
    ChannelEnd(a, c);
  }

  // ------------------------------------------------ plants for a configuration

  predicate HasRegisters(store: Registers, key: RequestKey) {
    key.command in store && (key.command2.Some? ==> key.command2.value in store)
  }

  // The plant has a frame with room for each channel.
  ghost predicate PlantFor(p: Plant, channels: seq<Channel>) {
    && ValidPlant(p)
    && forall c {:trigger HasRoom(p, c)} :: c in channels ==> HasRoom(p, c)
  }

  predicate HasRoom(p: Plant, c: Channel) {
    forall command :: command in KeyCommands(c.key) ==>
      command in p.store && c.position + c.length + 2 <= |p.store[command]|
  }

  lemma ChannelHasRegisters(p: Plant, x: Channel)
    requires HasRoom(p, x)
    ensures HasRegisters(p.store, x.key)
  {
    assert x.key.command in KeyCommands(x.key);
    assert x.key.command2.Some? ==> x.key.command2.value in KeyCommands(x.key);
  }

  lemma {:induction false} GroupHasRegisters(p: Plant, channels: seq<Channel>, r: Request)
    requires PlantFor(p, channels) && r in Group(channels)
    ensures HasRegisters(p.store, r.key)
  {
    NoChannelWithoutKey(channels, r.key);
    var x := WithKey(channels, r.key)[0];
    WithKeyContents(channels, r.key, x);
    assert HasRoom(p, x);
    ChannelHasRegisters(p, x);
  }

  // The second frame of a two-command request.
  function SecondFrame(p: Plant, key: RequestKey): Option<seq<byte>>
    requires HasRegisters(p.store, key)
  {
    if key.command2.Some? then Some(p.store[key.command2.value]) else None
  }

  // The command of a channel is nobody's second command.
  lemma FirstIsNotSecond(channels: seq<Channel>, x: Channel, y: Channel)
    requires ValidConfig(channels) && x in channels && y in channels && x.key.command2.Some?
    ensures x.key.command2.value != y.key.command
  {
    assert ValidChannel(x) && Separate(x.key, y.key);
    assert x.key.command2.value in KeyCommands(x.key) && y.key.command in KeyCommands(y.key);
  }

  // -------------------------------------------------------------- seeding

  // int(value): a float is truncated towards zero.
  function Truncate(x: real): int {
    if x >= 0.0 then x.Floor else -(-x).Floor
  }

  function ToInt(v: Value): int {
    match v
    case BoolV(on) => if on then 1 else 0
    case IntV(n) => n
    case FloatV(x) => Truncate(x)
  }

  // What _encode leaves of a frame, and whether it raises: past the end of the
  // frame, with a zero scale, or between the two bytes of a number.
  function Encoded(v: Value, frame: seq<byte>, record: Channel): (r: (seq<byte>, Option<Error>))
    ensures |r.0| == |frame|
  {
    var p := record.position;
    if v.FloatV? && record.scale == 0.0 then (frame, Some(Crash))
    else if !v.BoolV? && record.length !in {1, 2} then (frame, None)
    else if p >= |frame| then (frame, Some(Crash))
    else if !v.BoolV? && record.length == 2 && p + 1 >= |frame| then
      (frame[p := HighByte(RawValue(v, record))], Some(Crash))
    else (Store(v, frame, record), None)
  }

  // The frame with the get byte and the checksum restored.
  function Seeded(v: Value, frame: seq<byte>, record: Channel): seq<byte>
    requires |frame| >= 5
  {
    Stored(Encoded(v, frame, record).0)
  }

  // The registers of a request are there, and have room for a checksum.
  predicate Seedable(store: Registers, key: RequestKey) {
    && HasRegisters(store, key) && |store[key.command]| >= 5
    && (key.command2.Some? ==> |store[key.command2.value]| >= 5)
  }

  ghost predicate SameShape(store: Registers, store': Registers) {
    store'.Keys == store.Keys && forall c :: c in store ==> |store'[c]| == |store[c]|
  }

  // What set_value does to the registers, and whether it raises: a value of a
  // two-command channel is split into thousands, unless it is a bool. The get
  // bytes and checksums are restored only in the end.
  function SetRegisters(store: Registers, key: RequestKey, record: Channel, v: Value)
    : (r: (Registers, Option<Error>))
    requires Seedable(store, key)
    ensures SameShape(store, r.0)
  {
    var c := key.command;
    if key.command2.Some? && !v.BoolV? then
      var c2 := key.command2.value;
      var (low, failed) := Encoded(IntV(ToInt(v) % 1000), store[c], record);
      var store1 := store[c := low];
      if failed.Some? then (store1, failed)
      else
        var (high, failed2) := Encoded(IntV(ToInt(v) / 1000), store1[c2], record);
        var store2 := store1[c2 := high];
        if failed2.Some? then (store2, failed2)
        else
          var store3 := store2[c2 := Stored(store2[c2])];
          (store3[c := Stored(store3[c])], None)
    else
      var (frame, failed) := Encoded(v, store[c], record);
      (store[c := if failed.Some? then frame else Stored(frame)], failed)
  }

  // On two different commands that both encode.
  lemma PairRegisters(store: Registers, key: RequestKey, record: Channel, v: Value, low: seq<byte>, high: seq<byte>)
    requires Seedable(store, key) && key.command2.Some? && key.command != key.command2.value && !v.BoolV?
    requires Encoded(IntV(ToInt(v) % 1000), store[key.command], record) == (low, None)
    requires Encoded(IntV(ToInt(v) / 1000), store[key.command2.value], record) == (high, None)
    ensures |low| >= 5 && |high| >= 5
    ensures SetRegisters(store, key, record, v) ==
            (store[key.command := Stored(low)][key.command2.value := Stored(high)], None)
  {
    var c, c2 := key.command, key.command2.value;
    var store2 := store[c := low][c2 := high];
    assert store2[c2 := Stored(high)][c := Stored(low)] == store[c := Stored(low)][c2 := Stored(high)];
  }

  function SeededStore(store: Registers, key: RequestKey, record: Channel, v: Value): Registers
    requires Seedable(store, key)
  {
    SetRegisters(store, key, record, v).0
  }

  // ---------------------------------------------------------- many seeds

  predicate AllSeedable(store: Registers, requests: seq<Request>) {
    forall r :: r in requests ==> Seedable(store, r.key)
  }

  lemma ShapeKeepsSeedable(store: Registers, store': Registers, requests: seq<Request>)
    requires AllSeedable(store, requests) && SameShape(store, store')
    ensures AllSeedable(store', requests)
  {
    forall r | r in requests
      ensures Seedable(store', r.key)
    {
      assert Seedable(store, r.key);
    }
  }

  // set_value by channel id; an unknown id is ignored.
  function SetById(store: Registers, channels: seq<Channel>, requests: seq<Request>, id: string, v: Value)
    : (r: (Registers, Option<Error>))
    requires AllSeedable(store, requests)
    ensures SameShape(store, r.0)
  {
    var channel, request := ChannelById(channels, id), RequestFor(requests, id);
    if channel.None? || request.None? then (store, None)
    else SetRegisters(store, request.value.key, channel.value, v)
  }

  type Seeds = seq<(string, Value)>

  predicate Mentions(seeds: Seeds, id: string) {
    exists i :: 0 <= i < |seeds| && seeds[i].0 == id
  }

  // The seeds of the constructor: a version is always among them.
  function WithVersion(seeds: Seeds, version: Value): Seeds {
    if Mentions(seeds, "version") then seeds else seeds + [("version", version)]
  }

  // Seeds in a row, up to the first that raises.
  function SeedAll(store: Registers, channels: seq<Channel>, requests: seq<Request>, seeds: Seeds)
    : (r: (Registers, Option<Error>))
    requires AllSeedable(store, requests)
    ensures SameShape(store, r.0)
    decreases |seeds|
  {
    if seeds == [] then (store, None)
    else
      var (store1, failed) := SetById(store, channels, requests, seeds[0].0, seeds[0].1);
      if failed.Some? then (store1, failed)
      else
        ShapeKeepsSeedable(store, store1, requests);
        SeedAll(store1, channels, requests, seeds[1..])
  }
}
