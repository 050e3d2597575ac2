// Seeding the simulator agrees with writing over the wire, and values that
// span two commands: simulator.py, set_value, and parser.py, parse_records.

module Seeding {
  import opened Bytes
  import opened Escaping
  import opened Checksums
  import opened Models
  import opened Records
  import opened Composition
  import opened Config
  import opened Readings
  import opened Devices
  import opened Conversation
  import opened Exchange
  import opened Jobs
  import opened Refinement
  import opened Plants
  import opened Zones
  import opened Calls

  // A fresh simulator has a frame with room for each channel.
  lemma {:induction false} InitialPlantHasRoom(channels: seq<Channel>, refuses: Policy)
    requires ValidConfig(channels)
    ensures Buildable(Group(channels))
    ensures PlantFor(InitialPlant(Group(channels), refuses), channels)
  {
    InitialPlantIsValid(channels, refuses);
    var p := InitialPlant(Group(channels), refuses);
    forall x | x in channels
      ensures HasRoom(p, x)
    {
      forall c | c in KeyCommands(x.key)
        ensures c in p.store && x.position + x.length + 2 <= |p.store[c]|
      {
        InitialRoom(channels, refuses, x, c);
      }
    }
  }

  lemma {:induction false} InitialRoom(channels: seq<Channel>, refuses: Policy, x: Channel, c: Command)
    requires ValidConfig(channels) && Buildable(Group(channels)) && x in channels && c in KeyCommands(x.key)
    ensures var p := InitialPlant(Group(channels), refuses);
            c in p.store && x.position + x.length + 2 <= |p.store[c]|
  {
    var requests := Group(channels);
    OwnCommand(channels, x, c);
    StoreHolds(requests, c);
    var i := StoreBuilt(requests, c);
    OnlyUser(channels, x, c, i);
    GroupEnd(channels, i, c);
    BuildFrameLength(requests[i].records, c);
  }

  lemma {:induction false} OwnCommand(channels: seq<Channel>, x: Channel, c: Command)
    requires UniqueIds(channels) && x in channels && c in KeyCommands(x.key)
    ensures c in CommandsOf(Group(channels))
  {
    LookupsAgree(channels, x);
    var own := Request(x.key, WithKey(channels, x.key));
    var k :| 0 <= k < |Group(channels)| && Group(channels)[k] == own;
    assert c in KeyCommands(Group(channels)[k].key);
    CommandsCollected(Group(channels), c);
  }

  // A command is used by one request only.
  lemma {:induction false} OnlyUser(channels: seq<Channel>, x: Channel, c: Command, i: nat)
    requires ValidConfig(channels) && x in channels && c in KeyCommands(x.key)
    requires i < |Group(channels)| && c in KeyCommands(Group(channels)[i].key)
    ensures x in Group(channels)[i].records
  {
    NoChannelWithoutKey(channels, Keys(channels)[i]);
    var y := WithKey(channels, Keys(channels)[i])[0];
    WithKeyContents(channels, Keys(channels)[i], y);
    assert Separate(x.key, y.key);
    WithKeyContents(channels, x.key, x);
  }

  // ------------------------------------------------------ seeding is writing

  // Inside the frame nothing raises.
  lemma PlacedIsEncoded(item: Item, f: seq<byte>)
    requires |f| >= 5 && Placed(item, |f|)
    ensures Encoded(item.value, f, item.record) == (Store(item.value, f, item.record), None)
  {
  }

  // A seeded frame is the stored form of the composed one.
  lemma SeededIsStored(item: Item, f: seq<byte>)
    requires |f| >= 5 && Placed(item, |f|)
    ensures Seeded(item.value, f, item.record) == Stored(Updated(f, item))
  {
    PlacedIsEncoded(item, f);
    var stored := Store(item.value, f, item.record);
    assert Store(item.value, f[1 := SET], item.record) == stored[1 := SET];
    var u := Updated(f, item);
    assert u[1 := GET] == stored[1 := GET][2 := u[2]];
    WithChecksumAgain(stored[1 := GET], u[2]);
  }

  // For a value in range, set_value leaves the registers of a one-command
  // channel exactly as a full write over the wire does.
  lemma {:induction false} SeedingIsWriting(line: Line, p: Plant, channels: seq<Channel>, x: Channel, v: Value)
    requires Quiet(line, p) && PlantFor(p, channels) && ValidConfig(channels)
    requires x in channels && x.key.command2 == None && InRange(v, x)
    requires Unextended(p.commands, x.key.command) && forall u :: p.refuses(u) == None
    ensures Seedable(p.store, x.key)
    ensures var (seeded, failed) := SetRegisters(p.store, x.key, x, v);
            failed == None && Quiet(Perform(line, WriteJob([Item(v, x)])).0, p.(store := seeded))
  {
    var item := Item(v, x);
    assert ValidChannel(x) && HasRoom(p, x) && x.key.command in KeyCommands(x.key);
    ChannelSeedable(p, x);
    ChannelSits(p, x, item);
    ApplyOne(p, item);
    PlacedIsEncoded(item, p.store[x.key.command]);
    SeededIsStored(item, p.store[x.key.command]);
    UnextendedDelivers(p, [item]);
    WriteRefines(line, p, [item]);
  }

  lemma ChannelSeedable(p: Plant, x: Channel)
    requires ValidPlant(p) && HasRoom(p, x)
    ensures Seedable(p.store, x.key)
  {
    ChannelHasRegisters(p, x);
    assert WellFormed(p.store[x.key.command], x.key.command);
    if x.key.command2.Some? {
      assert WellFormed(p.store[x.key.command2.value], x.key.command2.value);
    }
  }

  // Seeding keeps the plant in shape.
  lemma {:induction false} SeededIsWellFormed(item: Item, f: seq<byte>, c: Command)
    requires WellFormed(f, c) && Placed(item, |f|) && item.record.position >= 3 + |c|
    ensures WellFormed(Seeded(item.value, f, item.record), c)
    ensures |Seeded(item.value, f, item.record)| == |f|
  {
    PlacedIsEncoded(item, f);
    var g := Seeded(item.value, f, item.record);
    assert g[3..3 + |c|] == f[3..3 + |c|];
    assert LastTwo(g) == LastTwo(f);
  }

  lemma ChannelPlaced(f: seq<byte>, x: Channel, c: Command, v: Value)
    requires ValidChannel(x) && c in KeyCommands(x.key) && x.position + x.length + 2 <= |f|
    ensures Placed(Item(v, x), |f|) && x.position >= 3 + |c|
  {
  }

  lemma SeededFits(p: Plant, x: Channel, c: Command, v: Value)
    requires ValidPlant(p) && HasRoom(p, x) && ValidChannel(x) && c in KeyCommands(x.key)
    ensures c in p.store && c in p.commands && |p.store[c]| >= 5 && Placed(Item(v, x), |p.store[c]|)
    ensures Encoded(v, p.store[c], x) == (Store(v, p.store[c], x), None)
    ensures WellFormed(Seeded(v, p.store[c], x), c) && |Seeded(v, p.store[c], x)| == |p.store[c]|
  {
    ChannelPlaced(p.store[c], x, c, v);
    PlacedIsEncoded(Item(v, x), p.store[c]);
    SeededIsWellFormed(Item(v, x), p.store[c], c);
  }

  lemma PutKeepsLayout(p: Plant, c: Command, f: seq<byte>)
    requires ValidPlant(p) && c in p.commands && WellFormed(f, c) && |f| == |p.store[c]|
    ensures ValidPlant(p.(store := p.store[c := f])) && SameLayout(p, p.(store := p.store[c := f]))
  {
    PutKeepsValid(p, c, f);
  }

  // A channel of a valid configuration is seeded without raising, and the plant
  // keeps a well-formed frame with room for every channel.
  lemma {:induction false} SeedingKeepsPlant(p: Plant, channels: seq<Channel>, x: Channel, v: Value)
    requires PlantFor(p, channels) && ValidConfig(channels) && x in channels
    ensures Seedable(p.store, x.key)
    ensures var (seeded, failed) := SetRegisters(p.store, x.key, x, v);
            failed == None && PlantFor(p.(store := seeded), channels)
  {
    assert ValidChannel(x) && HasRoom(p, x);
    ChannelSeedable(p, x);
    SeedingKeepsLayout(p, x, v);
    LayoutKeepsRoom(p, p.(store := SeededStore(p.store, x.key, x, v)), channels);
  }

  lemma {:induction false} SeedingKeepsLayout(p: Plant, x: Channel, v: Value)
    requires ValidPlant(p) && HasRoom(p, x) && ValidChannel(x) && Seedable(p.store, x.key)
    requires x.key.command2.Some? ==> x.key.command != x.key.command2.value
    ensures var (seeded, failed) := SetRegisters(p.store, x.key, x, v);
            failed == None && ValidPlant(p.(store := seeded)) && SameLayout(p, p.(store := seeded))
  {
    if x.key.command2.Some? && !v.BoolV? {
      PairKeepsLayout(p, x, ToInt(v), v);
    } else {
      assert x.key.command in KeyCommands(x.key);
      SeededFits(p, x, x.key.command, v);
      PutKeepsLayout(p, x.key.command, Seeded(v, p.store[x.key.command], x));
    }
  }

  // On two commands, both frames are the seeded ones.
  lemma {:induction false} SeededPair(p: Plant, x: Channel, v: Value)
    requires ValidPlant(p) && HasRoom(p, x) && ValidChannel(x) && Seedable(p.store, x.key)
    requires x.key.command2.Some? && x.key.command != x.key.command2.value && !v.BoolV?
    ensures var c, c2 := x.key.command, x.key.command2.value;
            SetRegisters(p.store, x.key, x, v) ==
            (p.store[c := Seeded(IntV(ToInt(v) % 1000), p.store[c], x)]
                    [c2 := Seeded(IntV(ToInt(v) / 1000), p.store[c2], x)], None)
  {
    var c, c2 := x.key.command, x.key.command2.value;
    assert c in KeyCommands(x.key) && c2 in KeyCommands(x.key);
    SeededFits(p, x, c, IntV(ToInt(v) % 1000));
    SeededFits(p, x, c2, IntV(ToInt(v) / 1000));
    PairRegisters(p.store, x.key, x, v, Store(IntV(ToInt(v) % 1000), p.store[c], x),
                  Store(IntV(ToInt(v) / 1000), p.store[c2], x));
  }

  lemma {:induction false} PairKeepsLayout(p: Plant, x: Channel, n: int, v: Value)
    requires ValidPlant(p) && HasRoom(p, x) && ValidChannel(x) && Seedable(p.store, x.key)
    requires x.key.command2.Some? && x.key.command != x.key.command2.value && !v.BoolV? && n == ToInt(v)
    ensures var (seeded, failed) := SetRegisters(p.store, x.key, x, v);
            failed == None && ValidPlant(p.(store := seeded)) && SameLayout(p, p.(store := seeded))
  {
    var c, c2 := x.key.command, x.key.command2.value;
    SeededPair(p, x, v);
    assert c in KeyCommands(x.key) && c2 in KeyCommands(x.key);
    SeededFits(p, x, c, IntV(n % 1000));
    SeededFits(p, x, c2, IntV(n / 1000));
    var p1 := p.(store := p.store[c := Seeded(IntV(n % 1000), p.store[c], x)]);
    PutKeepsLayout(p, c, p1.store[c]);
    PutKeepsLayout(p1, c2, Seeded(IntV(n / 1000), p.store[c2], x));
  }

  // -------------------------------------------------------------- all seeds

  lemma {:induction false} PlantIsSeedable(p: Plant, channels: seq<Channel>)
    requires PlantFor(p, channels)
    ensures AllSeedable(p.store, Group(channels))
  {
    forall r | r in Group(channels)
      ensures Seedable(p.store, r.key)
    {
      NoChannelWithoutKey(channels, r.key);
      var x := WithKey(channels, r.key)[0];
      WithKeyContents(channels, r.key, x);
      assert HasRoom(p, x);
      ChannelSeedable(p, x);
    }
  }

  // No seeds of a valid configuration raise, known or not, and the plant they
  // leave has a well-formed frame with room for every channel.
  lemma {:induction false} SeedsKeepPlant(p: Plant, channels: seq<Channel>, seeds: Seeds)
    requires PlantFor(p, channels) && ValidConfig(channels)
    ensures AllSeedable(p.store, Group(channels))
    ensures var (seeded, failed) := SeedAll(p.store, channels, Group(channels), seeds);
            failed == None && PlantFor(p.(store := seeded), channels)
    decreases |seeds|
  {
    PlantIsSeedable(p, channels);
    if seeds != [] {
      OneSeedKeepsPlant(p, channels, seeds[0].0, seeds[0].1);
      var p1 := p.(store := SetById(p.store, channels, Group(channels), seeds[0].0, seeds[0].1).0);
      SeedsKeepPlant(p1, channels, seeds[1..]);
    }
  }

  lemma {:induction false} OneSeedKeepsPlant(p: Plant, channels: seq<Channel>, id: string, v: Value)
    requires PlantFor(p, channels) && ValidConfig(channels) && AllSeedable(p.store, Group(channels))
    ensures var (seeded, failed) := SetById(p.store, channels, Group(channels), id, v);
            failed == None && PlantFor(p.(store := seeded), channels)
  {
    var found := ChannelById(channels, id);
    if found.Some? {
      LookupsAgree(channels, found.value);
      SeedingKeepsPlant(p, channels, found.value, v);
    }
  }

  // What a simulator of a configuration starts with.
  function StartPlant(channels: seq<Channel>, seeds: Seeds, version: Value, refuses: Policy): Plant
    requires Buildable(Group(channels)) && AllSeedable(StoreOf(Group(channels)), Group(channels))
  {
    var p := InitialPlant(Group(channels), refuses);
    p.(store := SeedAll(p.store, channels, Group(channels), WithVersion(seeds, version)).0)
  }

  lemma {:induction false} StartPlantHasRoom(channels: seq<Channel>, seeds: Seeds, version: Value, refuses: Policy)
    requires ValidConfig(channels)
    ensures Buildable(Group(channels)) && AllSeedable(StoreOf(Group(channels)), Group(channels))
    ensures SeedAll(StoreOf(Group(channels)), channels, Group(channels), WithVersion(seeds, version)).1 == None
    ensures PlantFor(StartPlant(channels, seeds, version, refuses), channels)
  {
    InitialPlantHasRoom(channels, refuses);
    SeedsKeepPlant(InitialPlant(Group(channels), refuses), channels, WithVersion(seeds, version));
  }

  // ----------------------------------------------------- two-command values

  // A plain two-byte whole number on two commands.
  predicate IsLongCounter(x: Channel) {
    x.key.command2.Some? && x.length == 2 && x.Kind() == Integer
  }

  lemma ThousandsFit(n: int)
    ensures FitsField(n % 1000, 2)
    ensures FitsField(n / 1000, 2) <==> -32768000 <= n <= 32767999
    ensures n / 1000 * 1000 + n % 1000 == n
  {
  }

  lemma {:induction false} SeededReads(f: seq<byte>, x: Channel, n: int)
    requires Placed(Item(IntV(n), x), |f|) && |f| >= 5 && x.length == 2 && x.Kind() == Integer
    ensures ParseRecord(Seeded(IntV(n), f, x), x) == Ok(IntV(Wrap(n, 65536)))
  {
    PlacedIsEncoded(Item(IntV(n), x), f);
    NumberReadsBack(IntV(n), f, x);
    StoredReadsSame(Store(IntV(n), f, x), x);
  }

  // Both commands of a seeded counter, read in two conversations, give the
  // value back exactly when its thousands fit a signed short.
  lemma {:induction false} CounterRoundTrip(line: Line, p: Plant, q: Plant, channels: seq<Channel>, x: Channel, n: int)
    requires PlantFor(p, channels) && ValidConfig(channels) && x in channels && IsLongCounter(x)
    requires Quiet(line, q)
    ensures Seedable(p.store, x.key)
    ensures q == p.(store := SeededStore(p.store, x.key, x, IntV(n))) ==>
              (Serve(line, channels, ReadChannel(x.id)).1 == Answer(IntV(n)) <==> -32768000 <= n <= 32767999)
  {
    SeedingKeepsPlant(p, channels, x, IntV(n));
    if q == p.(store := SeededStore(p.store, x.key, x, IntV(n))) {
      CallRefines(line, q, channels, ReadChannel(x.id));
      ReadAnswers(q, channels, x);
      assert ValidChannel(x) && HasRoom(p, x);
      CounterReads(p, x, n);
    }
  }

  lemma {:induction false} CounterReads(p: Plant, x: Channel, n: int)
    requires ValidPlant(p) && HasRoom(p, x) && ValidChannel(x) && IsLongCounter(x)
    requires Seedable(p.store, x.key) && x.key.command != x.key.command2.value
    ensures var store := SeededStore(p.store, x.key, x, IntV(n));
            var r := ParseOne(store[x.key.command], x, Some(store[x.key.command2.value]));
            r.Ok? && (r.value == IntV(n) <==> -32768000 <= n <= 32767999)
  {
    var c, c2 := x.key.command, x.key.command2.value;
    assert c in KeyCommands(x.key) && c2 in KeyCommands(x.key);
    ChannelPlaced(p.store[c], x, c, IntV(n % 1000));
    ChannelPlaced(p.store[c2], x, c2, IntV(n / 1000));
    PairReads(p.store[c], p.store[c2], x, n);
    SeededPair(p, x, IntV(n));
  }

  lemma {:induction false} PairReads(f: seq<byte>, g: seq<byte>, x: Channel, n: int)
    requires IsLongCounter(x) && |f| >= 5 && |g| >= 5
    requires Placed(Item(IntV(n % 1000), x), |f|) && Placed(Item(IntV(n / 1000), x), |g|)
    ensures var r := ParseOne(Seeded(IntV(n % 1000), f, x), x, Some(Seeded(IntV(n / 1000), g, x)));
            r.Ok? && (r.value == IntV(n) <==> -32768000 <= n <= 32767999)
  {
    SeededReads(f, x, n % 1000);
    SeededReads(g, x, n / 1000);
    ThousandsFit(n);
    WrapFits(n % 1000);
    WrapFits(n / 1000);
  }

  lemma WrapFits(raw: int)
    ensures Wrap(raw, 65536) == raw <==> FitsField(raw, 2)
  {
  }
}
