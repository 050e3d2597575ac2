// Configurations the theorems apply to.

module Examples {
  import opened Bytes
  import opened Checksums
  import opened Models
  import opened Config
  import opened Devices
  import opened Plants
  import opened Records
  import opened Conversation
  import opened Exchange
  import opened Calls
  import opened Seeding
  import opened Parameters

  const CLOCK: RequestKey := RequestKey([0xFC], None)
  const DAY: RequestKey := RequestKey([0x0A, 0x01, 0x22], None)
  const COUNTER: RequestKey := RequestKey([0x0A, 0x09, 0x1A], Some([0x0A, 0x09, 0x1B]))

  // Four channels as in device_configs/LWZ_THZ504_7_59.xml: two fields of the
  // clock register, the writable register of the day, and a two-command counter.
  const SHIPPED: seq<Channel> := [
    Channel("hours", CLOCK, Settings, 5, 1, 1.0, 0, 0.0, 23.0, 1.0),
    Channel("minutes", CLOCK, Settings, 6, 1, 1.0, 0, 0.0, 59.0, 1.0),
    Channel("pClockDay", DAY, Settings, 6, 1, 1.0, 0, 1.0, 31.0, 1.0),
    Channel("electrDHWDay", COUNTER, Sensor, 6, 2, 1.0, 0, 0.0, 0.0, 0.0)
  ]

  lemma KeysAreSeparate(a: RequestKey, b: RequestKey)
    requires a in {CLOCK, DAY, COUNTER} && b in {CLOCK, DAY, COUNTER}
    ensures Separate(a, b)
  {
    forall x, y | x in KeyCommands(a) && y in KeyCommands(b)
      ensures (x == y ==> a == b) && Clear(x, y)
    {
      ShippedCommand(a, x);
      ShippedCommand(b, y);
      assert x == y ==> x[0] == y[0] && (|x| == 3 ==> x[2] == y[2]);
      assert (x + FOOTER)[0] == x[0];
    }
  }

  lemma ShippedCommand(key: RequestKey, x: Command)
    requires key in {CLOCK, DAY, COUNTER} && x in KeyCommands(key)
    ensures key == CLOCK ==> x == [0xFC]
    ensures key == DAY ==> x == [0x0A, 0x01, 0x22]
    ensures key == COUNTER ==> x in {[0x0A, 0x09, 0x1A], [0x0A, 0x09, 0x1B]}
  {
  }

  lemma ShippedChannel(c: Channel)
    requires c.key in {CLOCK, DAY, COUNTER} && c.scale == 1.0 && 1 <= c.length <= 2
    requires (if c.key == CLOCK then 4 else 6) <= c.position <= 10
    ensures ValidChannel(c)
  {
    forall command | command in KeyCommands(c.key)
      ensures 1 <= |command| && 3 + |command| <= c.position && RegisterSafe(command)
    {
      ShippedCommand(c.key, command);
      ShortRegistersAreSafe(command);
    }
  }

  lemma ShippedIds()
    ensures UniqueIds(SHIPPED)
  {
    assert SHIPPED[0].id[0] == 'h' && SHIPPED[1].id[0] == 'm';
    assert SHIPPED[2].id[0] == 'p' && SHIPPED[3].id[0] == 'e';
  }

  lemma ShippedChannels(c: Channel)
    requires c in SHIPPED
    ensures c.key in {CLOCK, DAY, COUNTER} && ValidChannel(c)
    ensures c.key.command2.Some? ==> c.key.command != c.key.command2.value
  {
    assert c.key in {CLOCK, DAY, COUNTER} && c.scale == 1.0 && 1 <= c.length <= 2;
    ShippedChannel(c);
  }

  lemma {:induction false} ShippedIsValid()
    ensures ValidConfig(SHIPPED)
  {
    ShippedIds();
    var channels := SHIPPED;
    forall c | c in channels
      ensures ValidChannel(c)
      ensures c.key.command2.Some? ==> c.key.command != c.key.command2.value
    {
      ShippedChannels(c);
    }
    forall c, d | c in channels && d in channels
      ensures Separate(c.key, d.key)
    {
      ShippedChannels(c);
      ShippedChannels(d);
      KeysAreSeparate(c.key, d.key);
    }
  }

  // ------------------------------------------- commands that share a prefix

  const P54: Channel := Channel("p54minStartupCycles", PARAMETER_KEY, Settings, 4, 1, 1.0, 0, 1.0, 24.0, 1.0)
  const P55: Channel := Channel("p55maxStartupCycles", PARAMETER_KEY, Settings, 5, 2, 1.0, 0, 1.0, 288.0, 1.0)
  const P56: Channel :=
    Channel("p56OutsideTemperatureMaxHeatingCycles", PARAMETER_KEY, Settings, 7, 2, 0.1, 0, 0.0, 20.0, 0.1)

  function ClockChannel(id: string, last: byte, min: real, max: real): Channel {
    Channel(id, RequestKey([0x0A, 0x01, last], None), Settings, 6, 1, 1.0, 0, min, max, 1.0)
  }

  // Eight channels as in device_configs/LWZ_THZ303_4_19.xml: three of command 0A
  // and the five clock registers, whose commands begin with it.
  const SHARED: seq<Channel> := [
    P54,
    P55,
    P56,
    ClockChannel("pClockDay", 0x22, 1.0, 31.0),
    ClockChannel("pClockMonth", 0x23, 1.0, 12.0),
    ClockChannel("pClockYear", 0x24, 0.0, 99.0),
    ClockChannel("pClockHour", 0x25, 0.0, 23.0),
    ClockChannel("pClockMinutes", 0x26, 0.0, 59.0)
  ]

  // Their lengths tell the ids apart, but for two pairs.
  const LENGTHS: seq<nat> := [19, 19, 37, 9, 11, 10, 10, 13]

  lemma SharedLength(i: nat)
    requires i < |SHARED|
    ensures |SHARED[i].id| == LENGTHS[i]
  {
  }

  lemma SameLength()
    ensures SHARED[0].id[2] == '4' && SHARED[1].id[2] == '5' && SHARED[5].id[6] == 'Y' && SHARED[6].id[6] == 'H'
  {
  }

  lemma {:induction false} SharedIds()
    ensures UniqueIds(SHARED) && ChannelById(SHARED, "version") == None
  {
    var channels := SHARED;
    SameLength();
    forall i, j | 0 <= i < j < |channels|
      ensures channels[i].id != channels[j].id
    {
      SharedLength(i);
      SharedLength(j);
    }
    forall c | c in channels
      ensures c.id != "version"
    {
      var i :| 0 <= i < |channels| && channels[i] == c;
      SharedLength(i);
    }
    var found := ChannelById(channels, "version");
  }

  lemma SharedChannel(x: Channel)
    requires x in SHARED
    ensures ValidChannel(x) && x.key.command2 == None && x.Writable()
    ensures IsParameter(x) || (exists last: byte :: 0x22 <= last <= 0x26 && x.key.command == [0x0A, 0x01, last])
  {
    assert x in {P54, P55, P56} || x.key.command in CLOCK_REGISTERS;
    assert |x.key.command| <= 3 && 3 + |x.key.command| <= x.position;
    ShortRegistersAreSafe(x.key.command);
    forall command | command in KeyCommands(x.key)
      ensures command == x.key.command
    {
    }
  }

  lemma {:induction false} SharedIsValid()
    ensures ValidConfig(SHARED)
  {
    SharedIds();
    var channels := SHARED;
    forall c | c in channels
      ensures ValidChannel(c)
      ensures c.key.command2.Some? ==> c.key.command != c.key.command2.value
    {
      SharedChannel(c);
    }
    forall c, d | c in channels && d in channels
      ensures Separate(c.key, d.key)
    {
      SharedApart(c, d);
    }
  }

  lemma SharedApart(c: Channel, d: Channel)
    requires c in SHARED && d in SHARED
    ensures Separate(c.key, d.key)
  {
    SharedKey(c);
    SharedKey(d);
    ClearCommands(c.key.command, d.key.command);
    forall x, y | x in KeyCommands(c.key) && y in KeyCommands(d.key)
      ensures (x == y ==> c.key == d.key) && Clear(x, y)
    {
      assert x == c.key.command && y == d.key.command;
    }
  }

  lemma SharedKey(x: Channel)
    requires x in SHARED
    ensures x.key == RequestKey(x.key.command, None) && IsShared(x.key.command)
  {
  }

  predicate IsShared(c: Command) {
    c == PARAMETERS || (|c| == 3 && c[0] == 0x0A && c[1] == 0x01)
  }

  lemma ClearCommands(c: Command, d: Command)
    requires IsShared(c) && IsShared(d)
    ensures Clear(c, d)
  {
    assert (c + [ESCAPE])[|c|] == ESCAPE && (c + FOOTER)[|c|] == ESCAPE;
  }

  lemma {:induction false} SharedCommand(c: Command)
    ensures c in CommandsOf(Group(SHARED)) <==> c == PARAMETERS || c in CLOCK_REGISTERS
  {
    SharedIds();
    if c in CommandsOf(Group(SHARED)) {
      var x := CommandOwner(SHARED, c);
      SharedChannel(x);
      ClockRegister(c);
    }
    if c == PARAMETERS {
      OwnCommand(SHARED, P54, c);
    }
    if c in CLOCK_REGISTERS {
      var i :| 0 <= i < |CLOCK_REGISTERS| && c == CLOCK_REGISTERS[i];
      assert SHARED[3 + i].key.command == c;
      OwnCommand(SHARED, SHARED[3 + i], c);
    }
  }

  lemma ClockRegister(c: Command)
    ensures c in CLOCK_REGISTERS <==> exists last: byte :: 0x22 <= last <= 0x26 && c == [0x0A, 0x01, last]
  {
    if last: byte :| 0x22 <= last <= 0x26 && c == [0x0A, 0x01, last] {
      assert CLOCK_REGISTERS[last - 0x22] == c;
    }
  }

  lemma {:induction false} SharedPrefixes()
    ensures SharesPrefix(CommandsOf(Group(SHARED)))
  {
    var commands := CommandsOf(Group(SHARED));
    forall c
      ensures c in commands <==> c == PARAMETERS || c in CLOCK_REGISTERS
    {
      SharedCommand(c);
    }
  }

  lemma {:induction false} SharedUnextended(c: Command)
    requires c in CLOCK_REGISTERS
    ensures Unextended(CommandsOf(Group(SHARED)), c)
  {
    ClockRegister(c);
    forall d | d in CommandsOf(Group(SHARED)) && c <= d
      ensures d == c
    {
      SharedCommand(d);
      ClockRegister(d);
    }
  }

  // The theorems about 0A apply to it.
  lemma {:induction false} SharedIsParameterConfig()
    ensures ParameterConfig(CommandsOf(Group(SHARED)), SHARED) && VersionElsewhere(SHARED)
  {
    SharedIsValid();
    SharedIds();
    SharedPrefixes();
    var commands, channels := CommandsOf(Group(SHARED)), SHARED;
    forall x | x in channels
      ensures ParameterChannel(commands, x)
    {
      SharedChannel(x);
      if !IsParameter(x) {
        ClockRegister(x.key.command);
        SharedUnextended(x.key.command);
      }
    }
  }

  // On its simulator with p54 seeded as 1 and p55 as 0x2200, every value that p56
  // accepts and can represent is answered as written, and is not.
  lemma {:induction false} SeededWriteStrays(line: Line, version: Value, v: Value) returns (q: Plant)
    requires InRange(Coerce(P56, v), P56) && Faithful(Coerce(P56, v), P56)
    requires Buildable(Group(SHARED)) && AllSeedable(StoreOf(Group(SHARED)), Group(SHARED))
    requires Quiet(line, StartPlant(SHARED, ShadowSeeds(P54, P55), version, _ => None))
    ensures var p := StartPlant(SHARED, ShadowSeeds(P54, P55), version, _ => None);
            var (line', reply) := Serve(line, SHARED, WriteChannel(P56.id, v));
            && reply == Answer(Coerce(P56, v)) && Quiet(line', q)
            && PARAMETERS in q.store && PARAMETERS in p.store && q.store[PARAMETERS] == p.store[PARAMETERS]
  {
    SharedIsParameterConfig();
    var seeds := ShadowSeeds(P54, P55);
    var p := StartPlant(SHARED, seeds, version, _ => None);
    StartPlantHasRoom(SHARED, seeds, version, _ => None);
    SharedIsShadowed(version, _ => None);
    q := ShadowedCallStrays(line, p, SHARED, P56, v);
  }

  lemma {:induction false} SharedIsShadowed(version: Value, refuses: Policy)
    requires Buildable(Group(SHARED)) && AllSeedable(StoreOf(Group(SHARED)), Group(SHARED))
    ensures Shadowed(StartPlant(SHARED, ShadowSeeds(P54, P55), version, refuses))
  {
    SharedIds();
    SharedIsValid();
    InitialPlantHasRoom(SHARED, refuses);
    var p := InitialPlant(Group(SHARED), refuses);
    SeedsShadow(p, SHARED, P54, P55);
    VersionIsLast(version);
    UnknownSeed(p.store, SHARED, ShadowSeeds(P54, P55), "version", version);
  }

  lemma VersionIsLast(version: Value)
    ensures WithVersion(ShadowSeeds(P54, P55), version) == ShadowSeeds(P54, P55) + [("version", version)]
  {
    assert P54.id[0] == 'p' && P55.id[0] == 'p' && "version"[0] == 'v';
  }

  // A seed for an unknown channel changes nothing.
  lemma {:induction false} UnknownSeed(store: Registers, channels: seq<Channel>, seeds: Seeds, id: string, v: Value)
    requires AllSeedable(store, Group(channels)) && ChannelById(channels, id) == None
    ensures SeedAll(store, channels, Group(channels), seeds + [(id, v)]) ==
            SeedAll(store, channels, Group(channels), seeds)
    decreases |seeds|
  {
    var all := seeds + [(id, v)];
    if seeds == [] {
      assert all[1..] == [];
    } else {
      assert all[0] == seeds[0] && all[1..] == seeds[1..] + [(id, v)];
      var (store1, failed) := SetById(store, channels, Group(channels), seeds[0].0, seeds[0].1);
      ShapeKeepsSeedable(store, store1, Group(channels));
      UnknownSeed(store1, channels, seeds[1..], id, v);
    }
  }
}
