// The commands 0A and 0A0122 to 0A0126 of device_configs/LWZ_THZ303_4_19.xml: when
// a write to the first goes to its own register.

module Parameters {
  import opened Bytes
  import opened Checksums
  import opened Models
  import opened Records
  import opened Composition
  import opened Config
  import opened Devices
  import opened Plants
  import opened Conversation
  import opened Exchange
  import opened Jobs
  import opened Refinement
  import opened Zones
  import opened Calls
  import opened Seeding

  const PARAMETER_KEY: RequestKey := RequestKey(PARAMETERS, None)

  // A channel of command 0A, by where it lies: only p55, from 1 to 288 at position
  // 5, is written to byte 5, and no channel is a switch.
  predicate IsParameter(x: Channel) {
    && x.key == PARAMETER_KEY && x.bitPosition == 0 && !x.IsSwitch()
    && (|| (x.position == 4 && x.length == 1)
        || (x.position == 5 && x.length == 2 && x.scale == 1.0 && x.min == 1.0 && x.max == 288.0)
        || (x.position >= 7 && x.length == 2))
  }

  // --------------------------------------------------------------- one write

  // A write to 0A reaches its register exactly if its composed frame does not
  // carry 01 22 to 01 26 behind the command.
  lemma {:induction false} DeliversExactly(p: Plant, items: seq<Item>)
    requires ValidPlant(p) && SharesPrefix(p.commands) && items != [] && Fits(p, WriteJob(items))
    requires WriteJob(items).Command() == PARAMETERS
    ensures Delivers(p, items) <==>
            var composed := ComposeAll(items, p.store[PARAMETERS]);
            composed.Ok? ==> |composed.value| >= 6 && Astray(composed.value).None?
  {
    if ComposeAll(items, p.store[PARAMETERS]).Ok? {
      var u := ComposeAll(items, p.store[PARAMETERS]).value;
      ComposedIsUpdate(items, p.store[PARAMETERS], PARAMETERS);
      SharedPrefixDispatch(p.commands, u);
    }
  }

  // Byte 5 of the register does not belong to a clock register.
  predicate ByteFiveClear(p: Plant) {
    PARAMETERS in p.store && |p.store[PARAMETERS]| > 5 && !(0x22 <= p.store[PARAMETERS][5] <= 0x26)
  }

  // A number written to a channel of 0A leaves it so, and is delivered.
  lemma {:induction false} ParametersAreDelivered(p: Plant, item: Item)
    requires ValidPlant(p) && SharesPrefix(p.commands) && IsParameter(item.record) && !item.value.BoolV?
    requires item.value.FloatV? ==> item.record.position != 5
    requires Fits(p, WriteJob([item])) && ByteFiveClear(p)
    ensures Delivers(p, [item]) && ByteFiveClear(Apply(p, WriteJob([item])).0)
  {
    ApplyOne(p, item);
    DeliversExactly(p, [item]);
    if InRange(item.value, item.record) {
      ByteFive(p.store[PARAMETERS], item);
    }
  }

  lemma ByteFive(f: seq<byte>, item: Item)
    requires |f| >= 6 && Placed(item, |f|) && IsParameter(item.record) && !item.value.BoolV?
    requires item.value.FloatV? ==> item.record.position != 5
    requires InRange(item.value, item.record)
    ensures Updated(f, item)[5] in {f[5], 0, 1} && Stored(Updated(f, item))[5] == Updated(f, item)[5]
  {
  }

  // ------------------------------------------------------------- whole runs

  // A configuration in which 0A and its clock registers are the only commands
  // that share a prefix, as far as they are written to.
  ghost predicate ParameterConfig(commands: seq<Command>, channels: seq<Channel>) {
    && ValidConfig(channels) && SharesPrefix(commands)
    && forall x {:trigger ParameterChannel(commands, x)} :: x in channels ==> ParameterChannel(commands, x)
  }

  predicate ParameterChannel(commands: seq<Command>, x: Channel) {
    if PARAMETERS in KeyCommands(x.key) then IsParameter(x)
    else x.Writable() ==> Unextended(commands, x.key.command)
  }

  // What is written to a channel of 0A is a number, a whole one for p55.
  lemma CoercedParameter(x: Channel, v: Value)
    requires IsParameter(x)
    ensures !Coerce(x, v).BoolV? && (Coerce(x, v).FloatV? ==> x.position != 5)
  {
  }

  lemma {:induction false} CallIsDelivered(p: Plant, channels: seq<Channel>, call: Call)
    requires PlantFor(p, channels) && ParameterConfig(p.commands, channels) && ByteFiveClear(p)
    ensures Delivered(p, channels, call) && ByteFiveClear(ServeMap(p, channels, call).0)
  {
    if Prepare(channels, call).Err? {
    } else if call.WriteChannel? {
      WriteIsDelivered(p, channels, call);
    } else if call.ReadChannels? {
      BatchChangesNothing(p, channels, call);
    } else {
      MapApplies(p, channels, call);
    }
  }

  lemma {:induction false} WriteIsDelivered(p: Plant, channels: seq<Channel>, call: Call)
    requires PlantFor(p, channels) && ParameterConfig(p.commands, channels) && ByteFiveClear(p)
    requires call.WriteChannel? && Prepare(channels, call).Ok?
    ensures Delivered(p, channels, call) && ByteFiveClear(ServeMap(p, channels, call).0)
  {
    var x := ChannelById(channels, call.id).value;
    assert ParameterChannel(p.commands, x) && x.key.command in KeyCommands(x.key);
    MapApplies(p, channels, call);
    SafeCommand(channels, call);
    if IsParameter(x) {
      CoercedParameter(x, call.value);
      ParametersAreDelivered(p, Item(Coerce(x, call.value), x));
    } else {
      UnambiguousIsDelivered(p, p, channels, call);
      OtherRegister(p, Item(Coerce(x, call.value), x));
    }
  }

  lemma OtherRegister(p: Plant, item: Item)
    requires Known(p, WriteJob([item])) && PARAMETERS in p.store && item.record.key.command != PARAMETERS
    ensures var q := Apply(p, WriteJob([item])).0;
            PARAMETERS in q.store && q.store[PARAMETERS] == p.store[PARAMETERS]
  {
  }

  // From a plant whose byte 5 is clear, every sequence of calls is delivered.
  lemma {:induction false} CallsAreDelivered(p: Plant, channels: seq<Channel>, calls: seq<Call>)
    requires PlantFor(p, channels) && ParameterConfig(p.commands, channels) && ByteFiveClear(p)
    ensures AllDelivered(p, channels, calls) && ByteFiveClear(ServeMapAll(p, channels, calls).0)
  {
    if calls != [] {
      CallsAreDelivered(p, channels, Front(calls));
      CallIsDelivered(ServeMapAll(p, channels, Front(calls)).0, channels, Last(calls));
    }
  }

  // ----------------------------------------------------- the fresh simulator

  // The default version is not a value of 0A.
  predicate VersionElsewhere(channels: seq<Channel>) {
    var found := ChannelById(channels, "version");
    found.Some? ==> PARAMETERS !in KeyCommands(found.value.key)
  }

  lemma {:induction false} BuiltByteFive(records: seq<Channel>)
    requires BuildFrame(records, PARAMETERS).Ok?
    ensures var f := BuildFrame(records, PARAMETERS).value; |f| > 5 ==> f[5] in {0, ESCAPE, END}
  {
  }

  lemma {:induction false} FreshIsClear(channels: seq<Channel>, version: Value, refuses: Policy)
    requires ParameterConfig(CommandsOf(Group(channels)), channels) && VersionElsewhere(channels)
    ensures Buildable(Group(channels)) && AllSeedable(StoreOf(Group(channels)), Group(channels))
    ensures ByteFiveClear(StartPlant(channels, [], version, refuses))
    ensures StartPlant(channels, [], version, refuses).commands == CommandsOf(Group(channels))
    ensures PlantFor(StartPlant(channels, [], version, refuses), channels)
  {
    StartPlantHasRoom(channels, [], version, refuses);
    InitialPlantIsValid(channels, refuses);
    var requests := Group(channels);
    var p := InitialPlant(requests, refuses);
    assert PARAMETERS in p.commands && WellFormed(p.store[PARAMETERS], PARAMETERS);
    var i := StoreBuilt(requests, PARAMETERS);
    BuiltByteFive(requests[i].records);
    VersionLeaves(p.store, channels, version);
  }

  lemma {:induction false} VersionLeaves(store: Registers, channels: seq<Channel>, version: Value)
    requires UniqueIds(channels) && AllSeedable(store, Group(channels)) && PARAMETERS in store
    requires VersionElsewhere(channels)
    ensures var seeded := SeedAll(store, channels, Group(channels), WithVersion([], version)).0;
            PARAMETERS in seeded && seeded[PARAMETERS] == store[PARAMETERS]
  {
    var seeds := WithVersion([], version);
    assert seeds == [("version", version)] && seeds[1..] == [];
    var found := ChannelById(channels, "version");
    if found.Some? {
      LookupsAgree(channels, found.value);
      KeysOf(found.value.key);
    }
  }

  lemma KeysOf(key: RequestKey)
    ensures key.command in KeyCommands(key) && (key.command2.Some? ==> key.command2.value in KeyCommands(key))
  {
  }

  // On a fresh simulator of such a configuration, every sequence of calls does
  // on the wire what it does on the map.
  lemma {:induction false} FreshRunsRefine(line: Line, channels: seq<Channel>, version: Value, refuses: Policy,
                                           calls: seq<Call>)
    requires ParameterConfig(CommandsOf(Group(channels)), channels) && VersionElsewhere(channels)
    ensures Buildable(Group(channels)) && AllSeedable(StoreOf(Group(channels)), Group(channels))
    ensures var p := StartPlant(channels, [], version, refuses);
            && PlantFor(p, channels)
            && (Quiet(line, p) ==>
                  var (line', replies) := ServeAll(line, channels, calls);
                  var (p', expected) := ServeMapAll(p, channels, calls);
                  Quiet(line', p') && replies == expected)
  {
    FreshIsClear(channels, version, refuses);
    var p := StartPlant(channels, [], version, refuses);
    CallsAreDelivered(p, channels, calls);
    if Quiet(line, p) {
      CallsRefine(line, p, channels, calls);
    }
  }

  // ------------------------------------------------------- a seeded register

  // The register holds the beginning of a clock register behind its command.
  predicate Shadowed(p: Plant) {
    PARAMETERS in p.store && |p.store[PARAMETERS]| >= 6 && Astray(p.store[PARAMETERS]).Some?
  }

  // Then no accepted write to a channel behind those bytes is delivered. It
  // overwrites the clock register and leaves its own as it was, and the caller is
  // told that it succeeded.
  lemma {:induction false} ShadowedWriteStrays(line: Line, p: Plant, item: Item)
    requires Quiet(line, p) && ValidPlant(p) && SharesPrefix(p.commands) && Shadowed(p)
    requires item.record.key.command == PARAMETERS && Fits(p, WriteJob([item])) && item.record.position >= 6
    requires InRange(item.value, item.record) && Readable(item.record) && forall u :: p.refuses(u) == None
    ensures !Delivers(p, [item])
    ensures var f := p.store[PARAMETERS];
            && Placed(item, |f|)
            && var u, d := Updated(f, item), Astray(f).value;
               var (line', outcome) := Perform(line, WriteJob([item]));
               && d != PARAMETERS && Quiet(line', p.(store := p.store[d := Stored(u)]))
               && ParseRecord(u, item.record).Ok?
               && outcome == Values([(item.record.id, ParseRecord(u, item.record).value)])
  {
    ShadowedFrame(p, item);
    var f := p.store[PARAMETERS];
    var u := Updated(f, item);
    StrayWrite(line, p, [item], Astray(f).value);
    StrayOutcome(u, f, item);
  }

  lemma {:induction false} ShadowedFrame(p: Plant, item: Item)
    requires ValidPlant(p) && SharesPrefix(p.commands) && Shadowed(p)
    requires item.record.key.command == PARAMETERS && Fits(p, WriteJob([item])) && item.record.position >= 6
    requires InRange(item.value, item.record)
    ensures var f := p.store[PARAMETERS];
            && Placed(item, |f|) && ComposeAll([item], f) == Ok(Updated(f, item))
            && BestMatch(p.commands, Updated(f, item)) == Astray(f) && Astray(f) != Some(PARAMETERS)
    ensures !Delivers(p, [item])
  {
    ApplyOne(p, item);
    var f := p.store[PARAMETERS];
    var u := Updated(f, item);
    assert u[4] == f[4] && u[5] == f[5];
    ComposedIsUpdate([item], f, PARAMETERS);
    SharedPrefixDispatch(p.commands, u);
  }

  lemma StrayOutcome(u: seq<byte>, f: seq<byte>, item: Item)
    requires Placed(item, |u|) && |u| >= 2 && Readable(item.record)
    ensures ParseRecord(u, item.record).Ok?
    ensures Answered([item], u, f, true) == Values([(item.record.id, ParseRecord(u, item.record).value)])
  {
    ParseItem(u, item);
    ReadableParses(u, item.record);
  }

  // A call of the service on such a plant: the write is answered with its value,
  // but the register of the channel is not written.
  lemma {:induction false} ShadowedCallStrays(line: Line, p: Plant, channels: seq<Channel>, x: Channel, v: Value)
    returns (q: Plant)
    requires Quiet(line, p) && PlantFor(p, channels) && ValidConfig(channels)
    requires SharesPrefix(p.commands) && Shadowed(p) && forall u :: p.refuses(u) == None
    requires x in channels && x.Writable() && x.key == PARAMETER_KEY && x.position >= 6 && Readable(x)
    requires InRange(Coerce(x, v), x) && Faithful(Coerce(x, v), x)
    ensures !Delivered(p, channels, WriteChannel(x.id, v))
    ensures var (line', reply) := Serve(line, channels, WriteChannel(x.id, v));
            reply == Answer(Coerce(x, v)) && Quiet(line', q)
    ensures PARAMETERS in q.store && q.store[PARAMETERS] == p.store[PARAMETERS]
  {
    PreparedWrite(p, channels, x, v);
    ShadowedFrame(p, Item(Coerce(x, v), x));
    q := ShadowedValueStrays(line, p, Item(Coerce(x, v), x));
    StrayAnswer(line, channels, x, v);
  }

  lemma {:induction false} ShadowedValueStrays(line: Line, p: Plant, item: Item) returns (q: Plant)
    requires Quiet(line, p) && ValidPlant(p) && SharesPrefix(p.commands) && Shadowed(p)
    requires item.record.key.command == PARAMETERS && Fits(p, WriteJob([item])) && item.record.position >= 6
    requires InRange(item.value, item.record) && Readable(item.record) && forall u :: p.refuses(u) == None
    requires Faithful(item.value, item.record)
    ensures var (line', outcome) := Perform(line, WriteJob([item]));
            Quiet(line', q) && outcome == Values([(item.record.id, item.value)])
    ensures PARAMETERS in q.store && q.store[PARAMETERS] == p.store[PARAMETERS]
  {
    ShadowedWriteStrays(line, p, item);
    var f := p.store[PARAMETERS];
    UpdatedReads(f, item);
    q := p.(store := p.store[Astray(f).value := Stored(Updated(f, item))]);
  }

  lemma PreparedWrite(p: Plant, channels: seq<Channel>, x: Channel, v: Value)
    requires PlantFor(p, channels) && ValidConfig(channels) && x in channels && x.Writable()
    ensures Prepare(channels, WriteChannel(x.id, v)) == Ok([WriteJob([Item(Coerce(x, v), x)])])
    ensures Fits(p, WriteJob([Item(Coerce(x, v), x)]))
  {
    WriteApplies(p, channels, x, v);
    SafeCommand(channels, WriteChannel(x.id, v));
  }

  lemma StrayAnswer(line: Line, channels: seq<Channel>, x: Channel, v: Value)
    requires UniqueIds(channels) && x in channels && x.Writable()
    requires Perform(line, WriteJob([Item(Coerce(x, v), x)])).1 == Values([(x.id, Coerce(x, v))])
    ensures Serve(line, channels, WriteChannel(x.id, v)) ==
            (Perform(line, WriteJob([Item(Coerce(x, v), x)])).0, Answer(Coerce(x, v)))
  {
    LookupsAgree(channels, x);
    ServeWrite(line, channels, x.id, v);
  }

  lemma UpdatedReads(f: seq<byte>, item: Item)
    requires |f| >= 5 && Placed(item, |f|) && Faithful(item.value, item.record) && InRange(item.value, item.record)
    ensures ParseRecord(Updated(f, item), item.record) == Ok(item.value)
  {
    ComposedReadsSame(item.value, f, item.record);
    FaithfulReadsBack(item.value, f, item.record);
  }

  // --------------------------------------------- how a register gets there

  // set_value does not check the range: seeding p54 with 1 and p55 with 0x2200
  // puts 01 22 behind the command.
  lemma {:induction false} SeedParameter(p: Plant, channels: seq<Channel>, x: Channel, n: int)
    requires PlantFor(p, channels) && ValidConfig(channels) && x in channels && x.key == PARAMETER_KEY
    requires AllSeedable(p.store, Group(channels))
    ensures PARAMETERS in p.store && |p.store[PARAMETERS]| >= 5 && Placed(Item(IntV(n), x), |p.store[PARAMETERS]|)
    ensures SetById(p.store, channels, Group(channels), x.id, IntV(n)) ==
            (p.store[PARAMETERS := Stored(Store(IntV(n), p.store[PARAMETERS], x))], None)
  {
    LookupsAgree(channels, x);
    assert ValidChannel(x) && HasRoom(p, x) && PARAMETERS in KeyCommands(x.key);
    SeededFits(p, x, PARAMETERS, IntV(n));
  }

  const SHADOW: int := 0x2200

  function ShadowSeeds(a: Channel, b: Channel): Seeds {
    [(a.id, IntV(1)), (b.id, IntV(SHADOW))]
  }

  lemma {:induction false} SeedsShadow(p: Plant, channels: seq<Channel>, a: Channel, b: Channel)
    requires PlantFor(p, channels) && ValidConfig(channels) && a in channels && b in channels
    requires a.key == PARAMETER_KEY && a.position == 4 && a.length == 1
    requires b.key == PARAMETER_KEY && b.position == 5 && b.length == 2
    ensures AllSeedable(p.store, Group(channels))
    ensures Shadowed(p.(store := SeedAll(p.store, channels, Group(channels), ShadowSeeds(a, b)).0))
  {
    var seeds := ShadowSeeds(a, b);
    PlantIsSeedable(p, channels);
    SeedParameter(p, channels, a, 1);
    OneSeedKeepsPlant(p, channels, a.id, IntV(1));
    var p1 := p.(store := SetById(p.store, channels, Group(channels), a.id, IntV(1)).0);
    PlantIsSeedable(p1, channels);
    SeedParameter(p1, channels, b, SHADOW);
    SeedTwo(p.store, channels, seeds);
    ShadowBytes(p.store[PARAMETERS], a, b);
  }

  lemma SeedTwo(store: Registers, channels: seq<Channel>, seeds: Seeds)
    requires AllSeedable(store, Group(channels)) && |seeds| == 2
    ensures var (store1, failed) := SetById(store, channels, Group(channels), seeds[0].0, seeds[0].1);
            && AllSeedable(store1, Group(channels))
            && (failed.None? ==>
                  SeedAll(store, channels, Group(channels), seeds).0 ==
                  SetById(store1, channels, Group(channels), seeds[1].0, seeds[1].1).0)
  {
    var (store1, failed) := SetById(store, channels, Group(channels), seeds[0].0, seeds[0].1);
    ShapeKeepsSeedable(store, store1, Group(channels));
    var (store2, failed2) := SetById(store1, channels, Group(channels), seeds[1].0, seeds[1].1);
    ShapeKeepsSeedable(store1, store2, Group(channels));
    assert seeds[1..][0] == seeds[1] && seeds[1..][1..] == [];
    assert SeedAll(store2, channels, Group(channels), []).0 == store2;
  }

  lemma ShadowBytes(f: seq<byte>, a: Channel, b: Channel)
    requires |f| >= 5 && Placed(Item(IntV(1), a), |f|) && a.position == 4 && a.length == 1
    requires Placed(Item(IntV(SHADOW), b), |f|) && b.position == 5 && b.length == 2
    ensures var g := Stored(Store(IntV(1), f, a));
            |g| == |f| && Astray(Stored(Store(IntV(SHADOW), g, b))) == Some([0x0A, 0x01, 0x22])
  {
  }
}
