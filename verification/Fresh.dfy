// What a simulator reports before anything is written to it: simulator.py,
// _build_frame and the seeds of __init__.

module Fresh {
  import opened Bytes
  import opened Bits
  import opened Scaling
  import opened Models
  import opened Records
  import opened Composition
  import opened Config
  import opened Readings
  import opened Devices
  import opened Conversation
  import opened Exchange
  import opened Plants
  import opened Zones
  import opened Batches
  import opened Calls
  import opened Seeding

  // --------------------------------------------------------- blank registers

  // Nothing but zeros between the command and the footer.
  predicate Blank(f: seq<byte>, c: Command) {
    forall i :: 3 + |c| <= i < |f| - 2 ==> f[i] == 0
  }

  // Every register of a valid configuration starts blank.
  lemma {:induction false} InitiallyBlank(channels: seq<Channel>, refuses: Policy, c: Command)
    requires ValidConfig(channels) && Buildable(Group(channels))
    ensures var p := InitialPlant(Group(channels), refuses);
            c in p.store ==> Blank(p.store[c], c)
  {
    var requests := Group(channels);
    var p := InitialPlant(requests, refuses);
    if c in p.store {
      var i := StoreBuilt(requests, c);
      GroupEnd(channels, i, c);
      BuildFrameLength(requests[i].records, c);
      forall k | 3 + |c| <= k < |p.store[c]| - 2
        ensures p.store[c][k] == 0
      {
        BuildFrameIsBlank(requests[i].records, c, k);
      }
    }
  }

  // 0, 0.0 or false, by the kind of the record. Four bytes are always an integer.
  function Zero(record: Channel): Value {
    if record.length == 4 then IntV(0)
    else
      match record.Kind()
      case Boolean => BoolV(false)
      case Integer => IntV(0)
      case Number => FloatV(0.0)
  }

  // In a blank register every channel that decodes is zero.
  lemma {:induction false} BlankReadsZero(f: seq<byte>, c: Command, x: Channel)
    requires Blank(f, c) && 3 + |c| <= x.position && x.position + x.length + 2 <= |f|
    ensures Readable(x) ==> ParseRecord(f, x) == Ok(Zero(x))
    ensures !Readable(x) ==> ParseRecord(f, x) == Err(InvalidData)
  {
    ReadableParses(f, x);
    if x.bitPosition > 0 && x.length in {1, 2} && x.bitPosition / 8 < x.length {
      GetBitReadsOneBit(f[x.position..x.position + x.length], x.bitPosition);
      ZeroBit(7 - x.bitPosition % 8);
    }
    ZeroStep(x.scale);
  }

  lemma ZeroStep(scale: real)
    ensures Scaled(0, scale) == 0.0
  {
    assert 0.0 * scale * 100.0 == 0.0;
  }

  // ---------------------------------------------------- what seeding leaves alone

  // Setting the channel of that id does not touch the zone of the register c.
  ghost predicate SeedSpares(channels: seq<Channel>, id: string, v: Value, c: Command, zone: Zone) {
    var found := ChannelById(channels, id);
    found.Some? && c in KeyCommands(found.value.key) ==> Spares(Item(v, found.value), zone)
  }

  lemma {:induction false} SeededSameOn(item: Item, f: seq<byte>, zone: Zone)
    requires |f| >= 5 && Placed(item, |f|) && Spares(item, zone)
    ensures SameOn(f, Seeded(item.value, f, item.record), zone)
  {
    PlacedIsEncoded(item, f);
    var g := Seeded(item.value, f, item.record);
    forall i, k | 3 <= i < |f| && 0 <= k < 8 && zone(i, k)
      ensures Bit(f[i], k) == Bit(g[i], k)
    {
      StoreBits(item.value, f, item.record, i, k);
    }
  }

  // A number takes the same bytes whatever it is.
  lemma SparesAsNumber(x: Channel, v: Value, n: int, zone: Zone)
    requires !v.BoolV? && Spares(Item(v, x), zone)
    ensures Spares(Item(IntV(n), x), zone)
  {
    forall i: nat, k: nat | k < 8
      ensures !(CoveredBy(Item(IntV(n), x), i, k) && zone(i, k))
    {
      assert CoveredBy(Item(IntV(n), x), i, k) == CoveredBy(Item(v, x), i, k);
    }
  }

  lemma {:induction false} SettingKeepsZone(p: Plant, channels: seq<Channel>, x: Channel, v: Value,
                                            c: Command, zone: Zone)
    requires PlantFor(p, channels) && ValidConfig(channels) && x in channels && c in p.store
    requires c in KeyCommands(x.key) ==> Spares(Item(v, x), zone)
    ensures Seedable(p.store, x.key)
    ensures var seeded := SetRegisters(p.store, x.key, x, v).0; c in seeded && SameOn(p.store[c], seeded[c], zone)
  {
    assert ValidChannel(x) && HasRoom(p, x);
    ChannelSeedable(p, x);
    if c !in KeyCommands(x.key) {
      OtherRegisterStays(p.store, x, v, c);
    } else if x.key.command2.Some? && !v.BoolV? {
      SeededPair(p, x, v);
      PairKeepsZone(p, x, v, c, zone);
    } else {
      OneKeepsZone(p, x, v, c, zone);
    }
  }

  // On one command, its frame is the seeded one.
  lemma SeededOne(store: Registers, x: Channel, v: Value)
    requires Seedable(store, x.key) && (x.key.command2.None? || v.BoolV?)
    requires Encoded(v, store[x.key.command], x).1 == None
    ensures SetRegisters(store, x.key, x, v).0 ==
            store[x.key.command := Seeded(v, store[x.key.command], x)]
  {
  }

  lemma {:induction false} OneKeepsZone(p: Plant, x: Channel, v: Value, c: Command, zone: Zone)
    requires ValidPlant(p) && HasRoom(p, x) && ValidChannel(x) && Seedable(p.store, x.key)
    requires (x.key.command2.None? || v.BoolV?) && c in p.store && Spares(Item(v, x), zone)
    ensures SameOn(p.store[c], SetRegisters(p.store, x.key, x, v).0[c], zone)
  {
    assert x.key.command in KeyCommands(x.key);
    SeededFits(p, x, x.key.command, v);
    SeededOne(p.store, x, v);
    if c == x.key.command {
      SeededSameOn(Item(v, x), p.store[c], zone);
    }
  }

  lemma OtherRegisterStays(store: Registers, x: Channel, v: Value, c: Command)
    requires Seedable(store, x.key) && c in store && c !in KeyCommands(x.key)
    ensures SetRegisters(store, x.key, x, v).0[c] == store[c]
  {
    assert x.key.command in KeyCommands(x.key);
    assert x.key.command2.Some? ==> x.key.command2.value in KeyCommands(x.key);
  }

  lemma {:induction false} PairKeepsZone(p: Plant, x: Channel, v: Value, c: Command, zone: Zone)
    requires ValidPlant(p) && HasRoom(p, x) && ValidChannel(x) && c in KeyCommands(x.key) && c in p.store
    requires !v.BoolV? && Spares(Item(v, x), zone)
    ensures |p.store[c]| >= 5
    ensures forall n :: SameOn(p.store[c], Seeded(IntV(n), p.store[c], x), zone)
  {
    SeededFits(p, x, c, IntV(0));
    forall n
      ensures SameOn(p.store[c], Seeded(IntV(n), p.store[c], x), zone)
    {
      SeededFits(p, x, c, IntV(n));
      SparesAsNumber(x, v, n, zone);
      SeededSameOn(Item(IntV(n), x), p.store[c], zone);
    }
  }

  // Seeds that spare a zone leave it as it was.
  lemma {:induction false} SeedsKeepZone(p: Plant, channels: seq<Channel>, seeds: Seeds, c: Command, zone: Zone)
    requires PlantFor(p, channels) && ValidConfig(channels) && c in p.store
    requires forall i :: 0 <= i < |seeds| ==> SeedSpares(channels, seeds[i].0, seeds[i].1, c, zone)
    ensures AllSeedable(p.store, Group(channels))
    ensures var seeded := SeedAll(p.store, channels, Group(channels), seeds).0;
            c in seeded && SameOn(p.store[c], seeded[c], zone)
    decreases |seeds|
  {
    PlantIsSeedable(p, channels);
    if seeds != [] {
      var (id, v) := seeds[0];
      OneSeedKeepsPlant(p, channels, id, v);
      OneSeedKeepsZone(p, channels, id, v, c, zone);
      var p1 := p.(store := SetById(p.store, channels, Group(channels), id, v).0);
      SeedsKeepZone(p1, channels, seeds[1..], c, zone);
      SameOnTransitive(p.store[c], p1.store[c], SeedAll(p.store, channels, Group(channels), seeds).0[c], zone);
    }
  }

  lemma {:induction false} OneSeedKeepsZone(p: Plant, channels: seq<Channel>, id: string, v: Value,
                                            c: Command, zone: Zone)
    requires PlantFor(p, channels) && ValidConfig(channels) && c in p.store
    requires AllSeedable(p.store, Group(channels)) && SeedSpares(channels, id, v, c, zone)
    ensures var seeded := SetById(p.store, channels, Group(channels), id, v).0;
            c in seeded && SameOn(p.store[c], seeded[c], zone)
  {
    var found := ChannelById(channels, id);
    if found.Some? {
      LookupsAgree(channels, found.value);
      SettingKeepsZone(p, channels, found.value, v, c, zone);
    }
  }

  // ----------------------------------------------------------- seeds that raise

  // A value is not encoded exactly if its scale is zero or a byte of it lies behind
  // the frame. Then the frame is as it was, except perhaps for the first byte of two.
  lemma EncodingFails(v: Value, f: seq<byte>, x: Channel)
    ensures var (g, failed) := Encoded(v, f, x);
            && (failed.Some? <==>
                  || (v.FloatV? && x.scale == 0.0)
                  || ((v.BoolV? || x.length in {1, 2}) && x.position >= |f|)
                  || (!v.BoolV? && x.length == 2 && x.position + 1 >= |f|))
            && (failed.None? ==> Storable(v, x, |f|) && g == Store(v, f, x))
            && (failed.Some? ==> failed == Some(Crash) && |g| == |f|
                                 && forall i :: 0 <= i < |f| && (i != x.position || i + 1 < |f|) ==> g[i] == f[i])
  {
  }

  // Seeds are set in turn, and the first that raises is the last.
  lemma {:induction false} SeedsStop(store: Registers, channels: seq<Channel>, seeds: Seeds, i: nat)
    requires AllSeedable(store, Group(channels)) && i < |seeds|
    requires SeedAll(store, channels, Group(channels), seeds[..i]).1 == None
    ensures var store1 := SeedAll(store, channels, Group(channels), seeds[..i]).0;
            && AllSeedable(store1, Group(channels))
            && var (store2, failed) := SetById(store1, channels, Group(channels), seeds[i].0, seeds[i].1);
               && (failed.Some? ==> SeedAll(store, channels, Group(channels), seeds) == (store2, failed))
               && SeedAll(store, channels, Group(channels), seeds[..i + 1]) == (store2, failed)
    decreases i
  {
    var requests := Group(channels);
    var (store1, failed) := SetById(store, channels, requests, seeds[0].0, seeds[0].1);
    ShapeKeepsSeedable(store, SeedAll(store, channels, requests, seeds[..i]).0, requests);
    if i == 0 {
      OneSeed(store, channels, seeds[..1]);
    } else {
      assert seeds[..i][1..] == seeds[1..][..i - 1] && seeds[..i][0] == seeds[0];
      assert seeds[..i + 1][1..] == seeds[1..][..i];
      ShapeKeepsSeedable(store, store1, requests);
      SeedsStop(store1, channels, seeds[1..], i - 1);
    }
  }

  lemma OneSeed(store: Registers, channels: seq<Channel>, seeds: Seeds)
    requires AllSeedable(store, Group(channels)) && |seeds| == 1
    ensures SeedAll(store, channels, Group(channels), seeds) ==
            SetById(store, channels, Group(channels), seeds[0].0, seeds[0].1)
  {
    var store1 := SetById(store, channels, Group(channels), seeds[0].0, seeds[0].1).0;
    ShapeKeepsSeedable(store, store1, Group(channels));
    assert seeds[1..] == [];
  }

  // ------------------------------------------------------- what is then read

  // The seeds leave alone what x is decoded from.
  ghost predicate AllSpare(channels: seq<Channel>, seeds: Seeds, x: Channel) {
    forall i, c :: 0 <= i < |seeds| && c in KeyCommands(x.key) ==>
      SeedSpares(channels, seeds[i].0, seeds[i].1, c, ReadingZone(x))
  }

  // Each frame of x then decodes as before.
  lemma {:induction false} SparedReadsSame(p: Plant, channels: seq<Channel>, seeds: Seeds, x: Channel)
    requires PlantFor(p, channels) && ValidConfig(channels) && x in channels && AllSpare(channels, seeds, x)
    ensures AllSeedable(p.store, Group(channels))
    ensures var seeded := SeedAll(p.store, channels, Group(channels), seeds).0;
            forall c :: c in KeyCommands(x.key) ==>
              c in p.store && c in seeded && ParseRecord(seeded[c], x) == ParseRecord(p.store[c], x)
  {
    PlantIsSeedable(p, channels);
    assert ValidChannel(x) && HasRoom(p, x);
    forall c | c in KeyCommands(x.key)
      ensures var seeded := SeedAll(p.store, channels, Group(channels), seeds).0;
              c in p.store && c in seeded && ParseRecord(seeded[c], x) == ParseRecord(p.store[c], x)
    {
      SeedsKeepZone(p, channels, seeds, c, ReadingZone(x));
      SameReading(p.store[c], SeedAll(p.store, channels, Group(channels), seeds).0[c], x);
    }
  }

  lemma SamePartsSameReading(p: Plant, q: Plant, x: Channel)
    requires HasRegisters(p.store, x.key) && HasRegisters(q.store, x.key)
    requires ReadsAs(p, x) == ReadsAs(q, x)
    requires x.key.command2.Some? ==>
               ParseRecord(p.store[x.key.command2.value], x) == ParseRecord(q.store[x.key.command2.value], x)
    ensures ReadingOf(p, x) == ReadingOf(q, x)
  {
  }

  // The channel itself then reads as before.
  lemma {:induction false} SparedKeepsReading(p: Plant, channels: seq<Channel>, seeds: Seeds, x: Channel)
    requires PlantFor(p, channels) && ValidConfig(channels) && x in channels && AllSpare(channels, seeds, x)
    ensures AllSeedable(p.store, Group(channels)) && HasRegisters(p.store, x.key)
    ensures var q := p.(store := SeedAll(p.store, channels, Group(channels), seeds).0);
            HasRegisters(q.store, x.key) && ReadingOf(q, x) == ReadingOf(p, x)
  {
    SparedReadsSame(p, channels, seeds, x);
    var q := p.(store := SeedAll(p.store, channels, Group(channels), seeds).0);
    var c, c2 := x.key.command, x.key.command2;
    assert c in KeyCommands(x.key) && (c2.Some? ==> c2.value in KeyCommands(x.key));
    assert ParseRecord(q.store[c], x) == ParseRecord(p.store[c], x);
    assert HasRegisters(p.store, x.key) && HasRegisters(q.store, x.key);
    SamePartsSameReading(q, p, x);
  }

  lemma {:induction false} BlankRegisterReadsZero(channels: seq<Channel>, refuses: Policy, x: Channel, c: Command)
    requires ValidConfig(channels) && Buildable(Group(channels)) && x in channels && c in KeyCommands(x.key)
    requires HasRoom(InitialPlant(Group(channels), refuses), x)
    ensures var p := InitialPlant(Group(channels), refuses);
            c in p.store && ParseRecord(p.store[c], x) == if Readable(x) then Ok(Zero(x)) else Err(InvalidData)
  {
    var p := InitialPlant(Group(channels), refuses);
    assert ValidChannel(x);
    InitiallyBlank(channels, refuses, c);
    BlankReadsZero(p.store[c], c, x);
  }

  lemma ZeroThousands(f: seq<byte>, x: Channel, second: Option<seq<byte>>)
    requires ParseRecord(f, x) == if Readable(x) then Ok(Zero(x)) else Err(InvalidData)
    requires second.Some? ==> ParseRecord(second.value, x) == ParseRecord(f, x)
    ensures ParseOne(f, x, second) == ParseRecord(f, x)
  {
  }

  lemma {:induction false} BlankPlantReadsZero(channels: seq<Channel>, refuses: Policy, x: Channel)
    requires ValidConfig(channels) && x in channels
    ensures Buildable(Group(channels))
    ensures var p := InitialPlant(Group(channels), refuses);
            && PlantFor(p, channels) && HasRegisters(p.store, x.key)
            && ReadingOf(p, x) == if Readable(x) then Some(Zero(x)) else None
  {
    InitialPlantHasRoom(channels, refuses);
    var p := InitialPlant(Group(channels), refuses);
    assert HasRoom(p, x);
    ChannelHasRegisters(p, x);
    forall c | c in KeyCommands(x.key)
      ensures c in p.store && ParseRecord(p.store[c], x) == if Readable(x) then Ok(Zero(x)) else Err(InvalidData)
    {
      BlankRegisterReadsZero(channels, refuses, x, c);
    }
    assert x.key.command in KeyCommands(x.key);
    assert x.key.command2.Some? ==> x.key.command2.value in KeyCommands(x.key);
    ZeroThousands(p.store[x.key.command], x, SecondFrame(p, x.key));
  }

  // A default version is seeded unless one is given.
  predicate NoVersion(seeds: Seeds) {
    forall i :: 0 <= i < |seeds| ==> seeds[i].0 != "version"
  }

  lemma WithVersionSeeds(seeds: Seeds, version: Value)
    ensures WithVersion(seeds, version) == if NoVersion(seeds) then seeds + [("version", version)] else seeds
  {
  }

  lemma {:induction false} AnswersReading(line: Line, p: Plant, channels: seq<Channel>, x: Channel)
    requires Quiet(line, p) && PlantFor(p, channels) && ValidConfig(channels) && x in channels
    ensures HasRegisters(p.store, x.key)
    ensures Serve(line, channels, ReadChannel(x.id)).1 ==
            match ReadingOf(p, x)
            case Some(v) => Answer(v)
            case None => Refused(ChannelNotFound)
  {
    ReadAnswers(p, channels, x);
    CallRefines(line, p, channels, ReadChannel(x.id));
  }

  // A simulator that has just started answers a channel no seed touches, the
  // default version included, with 0, 0.0 or false.
  lemma {:induction false} UnseededIsZero(line: Line, channels: seq<Channel>, seeds: Seeds, version: Value,
                                          refuses: Policy, x: Channel)
    requires ValidConfig(channels) && x in channels && AllSpare(channels, seeds, x)
    requires NoVersion(seeds) ==> AllSpare(channels, [("version", version)], x)
    ensures Buildable(Group(channels)) && AllSeedable(StoreOf(Group(channels)), Group(channels))
    ensures Quiet(line, StartPlant(channels, seeds, version, refuses)) ==>
              Serve(line, channels, ReadChannel(x.id)).1 ==
              if Readable(x) then Answer(Zero(x)) else Refused(ChannelNotFound)
  {
    StartPlantHasRoom(channels, seeds, version, refuses);
    WithVersionSeeds(seeds, version);
    assert AllSpare(channels, WithVersion(seeds, version), x) by {
      assert NoVersion(seeds) ==> [("version", version)][0] == ("version", version);
    }
    BlankPlantReadsZero(channels, refuses, x);
    SparedKeepsReading(InitialPlant(Group(channels), refuses), channels, WithVersion(seeds, version), x);
    if Quiet(line, StartPlant(channels, seeds, version, refuses)) {
      AnswersReading(line, StartPlant(channels, seeds, version, refuses), channels, x);
    }
  }

  // The channel can hold the value: its record can represent it, or its thousands
  // fit the second command.
  ghost predicate CanHold(x: Channel, v: Value) {
    if x.key.command2 == None then Faithful(v, x)
    else IsLongCounter(x) && v.IntV? && -32768000 <= v.n <= 32767999
  }

  lemma {:induction false} SetIsRead(p: Plant, channels: seq<Channel>, x: Channel, v: Value)
    requires PlantFor(p, channels) && ValidConfig(channels) && x in channels && CanHold(x, v)
    ensures Seedable(p.store, x.key)
    ensures var q := p.(store := SeededStore(p.store, x.key, x, v));
            HasRegisters(q.store, x.key) && ReadingOf(q, x) == Some(v)
  {
    SeedingKeepsPlant(p, channels, x, v);
    assert ValidChannel(x) && HasRoom(p, x);
    if x.key.command2.Some? {
      CounterReads(p, x, v.n);
    } else {
      var c := x.key.command;
      assert c in KeyCommands(x.key);
      SeededFits(p, x, c, v);
      FaithfulReadsBack(v, p.store[c], x);
      StoredReadsSame(Store(v, p.store[c], x), x);
    }
  }

  lemma {:induction false} FirstSeedIsRead(p: Plant, channels: seq<Channel>, seeds: Seeds, x: Channel)
    requires PlantFor(p, channels) && ValidConfig(channels) && x in channels
    requires seeds != [] && seeds[0].0 == x.id && CanHold(x, seeds[0].1) && AllSpare(channels, seeds[1..], x)
    ensures AllSeedable(p.store, Group(channels)) && HasRegisters(p.store, x.key)
    ensures var q := p.(store := SeedAll(p.store, channels, Group(channels), seeds).0);
            HasRegisters(q.store, x.key) && ReadingOf(q, x) == Some(seeds[0].1)
  {
    PlantIsSeedable(p, channels);
    OneSeedKeepsPlant(p, channels, seeds[0].0, seeds[0].1);
    LookupsAgree(channels, x);
    SetIsRead(p, channels, x, seeds[0].1);
    SparedKeepsReading(p.(store := SeededStore(p.store, x.key, x, seeds[0].1)), channels, seeds[1..], x);
  }

  // Seed i is read, if no later seed touches its channel.
  lemma {:induction false} SeedIsRead(p: Plant, channels: seq<Channel>, seeds: Seeds, i: nat, x: Channel)
    requires PlantFor(p, channels) && ValidConfig(channels) && x in channels
    requires i < |seeds| && seeds[i].0 == x.id && CanHold(x, seeds[i].1)
    requires AllSpare(channels, seeds[i + 1..], x)
    ensures AllSeedable(p.store, Group(channels)) && HasRegisters(p.store, x.key)
    ensures var q := p.(store := SeedAll(p.store, channels, Group(channels), seeds).0);
            HasRegisters(q.store, x.key) && ReadingOf(q, x) == Some(seeds[i].1)
    decreases i
  {
    if i == 0 {
      FirstSeedIsRead(p, channels, seeds, x);
    } else {
      assert HasRoom(p, x);
      ChannelHasRegisters(p, x);
      var p1 := FirstSeedGone(p, channels, seeds);
      assert seeds[1..][i..] == seeds[i + 1..];
      SeedIsRead(p1, channels, seeds[1..], i - 1, x);
    }
  }

  lemma FirstSeedGone(p: Plant, channels: seq<Channel>, seeds: Seeds) returns (p1: Plant)
    requires PlantFor(p, channels) && ValidConfig(channels) && seeds != []
    ensures PlantFor(p1, channels) && AllSeedable(p.store, Group(channels)) && AllSeedable(p1.store, Group(channels))
    ensures p1 == p.(store := p1.store)
    ensures SeedAll(p.store, channels, Group(channels), seeds) ==
            SeedAll(p1.store, channels, Group(channels), seeds[1..])
  {
    PlantIsSeedable(p, channels);
    OneSeedKeepsPlant(p, channels, seeds[0].0, seeds[0].1);
    p1 := p.(store := SetById(p.store, channels, Group(channels), seeds[0].0, seeds[0].1).0);
    PlantIsSeedable(p1, channels);
  }

  // A simulator that has just started answers a channel with the value it was
  // seeded with, if its record can represent it and no later seed touches it.
  lemma {:induction false} SeedIsAnswered(line: Line, channels: seq<Channel>, seeds: Seeds, version: Value,
                                          refuses: Policy, i: nat, x: Channel)
    requires ValidConfig(channels) && x in channels
    requires i < |seeds| && seeds[i].0 == x.id && CanHold(x, seeds[i].1) && AllSpare(channels, seeds[i + 1..], x)
    requires NoVersion(seeds) ==> AllSpare(channels, [("version", version)], x)
    ensures Buildable(Group(channels)) && AllSeedable(StoreOf(Group(channels)), Group(channels))
    ensures Quiet(line, StartPlant(channels, seeds, version, refuses)) ==>
              Serve(line, channels, ReadChannel(x.id)).1 == Answer(seeds[i].1)
  {
    var all := WithVersion(seeds, version);
    WithVersionSeeds(seeds, version);
    assert AllSpare(channels, all[i + 1..], x) by {
      assert NoVersion(seeds) ==> all[i + 1..] == seeds[i + 1..] + [("version", version)];
      assert NoVersion(seeds) ==> [("version", version)][0] == ("version", version);
    }
    InitialPlantHasRoom(channels, refuses);
    StartPlantHasRoom(channels, seeds, version, refuses);
    SeedIsRead(InitialPlant(Group(channels), refuses), channels, all, i, x);
    if Quiet(line, StartPlant(channels, seeds, version, refuses)) {
      AnswersReading(line, StartPlant(channels, seeds, version, refuses), channels, x);
    }
  }

  // Without a version among the seeds it answers the default one.
  lemma {:induction false} VersionIsAnswered(line: Line, channels: seq<Channel>, seeds: Seeds, version: Value,
                                             refuses: Policy, x: Channel)
    requires ValidConfig(channels) && x in channels && NoVersion(seeds)
    requires x.id == "version" && CanHold(x, version)
    ensures Buildable(Group(channels)) && AllSeedable(StoreOf(Group(channels)), Group(channels))
    ensures Quiet(line, StartPlant(channels, seeds, version, refuses)) ==>
              Serve(line, channels, ReadChannel(x.id)).1 == Answer(version)
  {
    var all := WithVersion(seeds, version);
    WithVersionSeeds(seeds, version);
    assert all[|seeds|] == ("version", version) && all[|seeds| + 1..] == [];
    InitialPlantHasRoom(channels, refuses);
    StartPlantHasRoom(channels, seeds, version, refuses);
    SeedIsRead(InitialPlant(Group(channels), refuses), channels, all, |seeds|, x);
    if Quiet(line, StartPlant(channels, seeds, version, refuses)) {
      AnswersReading(line, StartPlant(channels, seeds, version, refuses), channels, x);
    }
  }
}
