// What the caller of the service is told on every line, whatever arrives:
// service.py, read_channel, read_channels and write_channel.

module Replies {
  import opened Bytes
  import opened Checksums
  import opened Models
  import opened Records
  import opened Composition
  import opened Config
  import opened Readings
  import opened Devices
  import opened Conversation
  import opened Exchange
  import opened Jobs
  import opened Refinement
  import opened Plants
  import opened Writes
  import opened Ranges
  import opened Batches
  import opened Calls

  // ----------------------------------------------------------------- refusals

  // No call that names an unknown channel sends anything.
  lemma {:induction false} UnknownIsRefused(line: Line, channels: seq<Channel>, id: string, v: Value, ids: seq<string>)
    requires forall x :: x in channels ==> x.id != id
    ensures Serve(line, channels, ReadChannel(id)) == (line, Refused(ChannelNotFound))
    ensures Serve(line, channels, WriteChannel(id, v)) == (line, Refused(ChannelNotFound))
    ensures id in ids ==> Serve(line, channels, ReadChannels(ids)) == (line, Refused(ChannelNotFound))
  {
    assert ChannelById(channels, id).None?;
    assert Prepare(channels, ReadChannel(id)) == Err(ChannelNotFound);
    assert Prepare(channels, WriteChannel(id, v)) == Err(ChannelNotFound);
    if id in ids {
      var i :| 0 <= i < |ids| && ids[i] == id;
      assert ChannelById(channels, ids[i]).None?;
      assert Prepare(channels, ReadChannels(ids)) == Err(ChannelNotFound);
    }
  }

  // Nor does a write to a sensor or a status channel.
  lemma {:induction false} ReadOnlyIsRefused(line: Line, channels: seq<Channel>, x: Channel, v: Value)
    requires UniqueIds(channels) && x in channels && x.dataType in {Sensor, Status}
    ensures Serve(line, channels, WriteChannel(x.id, v)) == (line, Refused(ChannelNotWritable))
  {
    LookupsAgree(channels, x);
  }

  // -------------------------------------------------------------------- writes

  // A write of a settings channel makes the one write job of its coerced value.
  // The caller is told that value if the device sent the request back, and what the
  // frame that was set holds if the device confirmed it; otherwise why not.
  lemma {:induction false} SettingIsWritten(line: Line, channels: seq<Channel>, x: Channel, v: Value)
    requires UniqueIds(channels) && x in channels && x.dataType == Settings
    ensures var items := [Item(Coerce(x, v), x)];
            var (line1, outcome) := Perform(line, WriteJob(items));
            var (line', reply) := Serve(line, channels, WriteChannel(x.id, v));
            && line' == line1
            && (Echoed(line, items) ==> reply == Answer(Coerce(x, v)))
            && (Confirmed(line, items) ==>
                  && ParseRecord(SetFrame(line, items), x).Ok?
                  && reply == Answer(ParseRecord(SetFrame(line, items), x).value))
            && (!Echoed(line, items) && !Confirmed(line, items) ==>
                  outcome.Raised? && reply == Refused(Failed(outcome.error)))
  {
    var item := Item(Coerce(x, v), x);
    LookupsAgree(channels, x);
    ServeWrite(line, channels, x.id, v);
    NothingFetched(line, [item]);
    WriteSucceedsExactly(line, [item]);
    if Confirmed(line, [item]) {
      OneReports(line, item);
    }
  }

  lemma {:induction false} OneReports(line: Line, item: Item)
    requires Confirmed(line, [item])
    ensures var outcome, v := Perform(line, WriteJob([item])).1, ParseRecord(SetFrame(line, [item]), item.record);
            outcome.Values? && v.Ok? && Lookup(outcome.values, item.record.id) == Some(v.value)
  {
    assert item in [item];
    WriteReports(line, [item], item);
  }

  // It is refused as out of range exactly if its job is.
  lemma {:induction false} RangeIsTold(line: Line, channels: seq<Channel>, x: Channel, v: Value)
    requires UniqueIds(channels) && x in channels && x.dataType == Settings
    ensures var (line1, outcome) := Perform(line, WriteJob([Item(Coerce(x, v), x)]));
            var (line', reply) := Serve(line, channels, WriteChannel(x.id, v));
            line' == line1 && (reply == Refused(Failed(OutOfRange)) <==> outcome == Raised(OutOfRange))
  {
    SettingIsWritten(line, channels, x, v);
    WriteSucceedsExactly(line, [Item(Coerce(x, v), x)]);
  }

  // On a quiet plant that is so exactly if the coerced value is a number beyond the
  // limits of the channel. Then no register has changed.
  lemma {:induction false} BeyondIsRefused(line: Line, p: Plant, channels: seq<Channel>, x: Channel, v: Value)
    requires Quiet(line, p) && PlantFor(p, channels) && ValidConfig(channels)
    requires x in channels && x.dataType == Settings
    ensures var (line', reply) := Serve(line, channels, WriteChannel(x.id, v));
            && (reply == Refused(Failed(OutOfRange)) <==> Beyond(Item(Coerce(x, v), x)))
            && (reply == Refused(Failed(OutOfRange)) ==> Quiet(line', p))
  {
    var item := Item(Coerce(x, v), x);
    assert ValidChannel(x) && HasRoom(p, x);
    assert x.key.command in KeyCommands(x.key);
    ChannelSits(p, x, item);
    RangeIsTold(line, channels, x, v);
    OneBeyond(line, p, item);
  }

  lemma {:induction false} OneBeyond(line: Line, p: Plant, item: Item)
    requires Quiet(line, p) && ValidPlant(p) && Sits(p, WriteJob([item]))
    requires RegisterSafe(item.record.key.command)
    ensures var (line', outcome) := Perform(line, WriteJob([item]));
            && (outcome == Raised(OutOfRange) <==> Beyond(item))
            && (outcome == Raised(OutOfRange) ==> Quiet(line', p))
  {
    AnyOfOne(item);
    assert [item][0] == item;
    QuietOutOfRange(line, p, [item]);
  }

  lemma AnyOfOne(item: Item)
    ensures (exists other :: other in [item] && Beyond(other)) <==> Beyond(item)
  {
    assert item in [item];
  }

  // --------------------------------------------------------------------- reads

  // The frames that attempt k of a read has brought.
  function FirstFrame(line: Line, key: RequestKey): seq<byte>
    requires Succeeds(line, key)
  {
    Converse(line, GetTalk(key.command)).1.value
  }

  function SecondFrameOf(line: Line, key: RequestKey): Option<seq<byte>>
    requires Succeeds(line, key)
  {
    match key.command2
    case None => None
    case Some(c2) => Some(Converse(Converse(line, GetTalk(key.command)).0, GetTalk(c2)).1.value)
  }

  // The reply is the channel as those frames hold it, in the first attempt in which
  // all of them pass the header check.
  ghost predicate ReadFrom(line: Line, request: Request, x: Channel, k: nat, reply: Reply) {
    && Works(line, request, k) && NoneWorks(line, request, k)
    && var line1 := AfterAttempts(line, request, k);
       reply == match ParseOne(FirstFrame(line1, request.key), x, SecondFrameOf(line1, request.key))
                case Ok(v) => Answer(v)
                case Err(_) => Refused(ChannelNotFound)
  }

  lemma {:induction false} DecodedHolds(line: Line, request: Request, x: Channel)
    requires Succeeds(line, request.key) && UniqueIds(request.records) && x in request.records
    ensures Lookup(Decoded(line, request), x.id) ==
            match ParseOne(FirstFrame(line, request.key), x, SecondFrameOf(line, request.key))
            case Ok(v) => Some(v)
            case Err(_) => None
  {
    LookupParsed(FirstFrame(line, request.key), request.records, SecondFrameOf(line, request.key), x);
  }

  // A read of a channel is answered from one of three attempts, or fails if none
  // brings verified frames.
  lemma {:induction false} ChannelIsRead(line: Line, channels: seq<Channel>, x: Channel)
    requires UniqueIds(channels) && x in channels
    ensures var request := Request(x.key, WithKey(channels, x.key));
            var (line', reply) := Serve(line, channels, ReadChannel(x.id));
            && line' == Perform(line, ReadJob(request)).0
            && ((exists k: nat :: k < 3 && ReadFrom(line, request, x, k, reply))
                || (NoneWorks(line, request, 3) && reply == Refused(Failed(ProtocolError))))
  {
    var request := Request(x.key, WithKey(channels, x.key));
    LookupsAgree(channels, x);
    WithKeyUnique(channels, x.key);
    ServeRead(line, channels, x.id);
    ReadSafety(line, request);
    var outcome := Perform(line, ReadJob(request)).1;
    if outcome.Values? {
      var k: nat :| k < MAX_TRIES && FirstToWork(line, request, k, outcome.values);
      DecodedHolds(AfterAttempts(line, request, k), request, x);
      assert ReadFrom(line, request, x, k, Serve(line, channels, ReadChannel(x.id)).1);
    }
  }

  // --------------------------------------------------------- several channels

  // Requests are issued in the order in which the ids first ask for them.
  lemma {:induction false} NeededInOrder(requests: seq<Request>, ids: seq<string>, i: nat, j: nat) returns (a: nat)
    requires i < j < |RequestsFor(requests, ids)|
    ensures a < |ids| && RequestFor(requests, ids[a]) == Some(RequestsFor(requests, ids)[i])
    ensures forall b :: 0 <= b <= a ==> RequestFor(requests, ids[b]) != Some(RequestsFor(requests, ids)[j])
  {
    var before := RequestsFor(requests, Front(ids));
    if j < |before| {
      a := NeededInOrder(requests, Front(ids), i, j);
    } else {
      NeededOnce(requests, Front(ids));
      assert before[i] in before;
      a :| 0 <= a < |Front(ids)| && RequestFor(requests, Front(ids)[a]) == Some(before[i]);
    }
  }

  // Of what was read, exactly the wanted channels are answered, in the order read.
  lemma {:induction false} WantedInOrder(data: Dict, ids: seq<string>, i: nat, j: nat) returns (a: nat, b: nat)
    requires i < j < |Wanted(data, ids)|
    ensures a < b < |data| && data[a] == Wanted(data, ids)[i] && data[b] == Wanted(data, ids)[j]
  {
    if j < |Wanted(Front(data), ids)| {
      a, b := WantedInOrder(Front(data), ids, i, j);
    } else {
      a := WantedAt(Front(data), ids, i);
      b := |data| - 1;
    }
  }

  lemma {:induction false} WantedAt(data: Dict, ids: seq<string>, i: nat) returns (a: nat)
    requires i < |Wanted(data, ids)|
    ensures a < |data| && data[a] == Wanted(data, ids)[i]
  {
    if i < |Wanted(Front(data), ids)| {
      a := WantedAt(Front(data), ids, i);
    } else {
      a := |data| - 1;
    }
  }

  lemma ServeMany(line: Line, channels: seq<Channel>, ids: seq<string>)
    requires forall i :: 0 <= i < |ids| ==> ChannelById(channels, ids[i]).Some?
    ensures var (line', read) := Gather(line, ReadTask(RequestsFor(Group(channels), ids)), []);
            Serve(line, channels, ReadChannels(ids)) ==
            (line', if read.Raised? then Refused(Failed(read.error)) else Answers(Wanted(read.values, ids)))
  {
    assert Prepare(channels, ReadChannels(ids)) == Ok(ReadTask(RequestsFor(Group(channels), ids)));
  }

  // A read of several known channels makes the reads of their requests in a row. It
  // fails with the first that fails; otherwise each wanted channel is answered as it
  // was read, and no other is.
  lemma {:induction false} ChannelsAreRead(line: Line, channels: seq<Channel>, ids: seq<string>, id: string)
    requires forall i :: 0 <= i < |ids| ==> exists x :: x in channels && x.id == ids[i]
    ensures var (line1, read) := Gather(line, ReadTask(RequestsFor(Group(channels), ids)), []);
            var (line', reply) := Serve(line, channels, ReadChannels(ids));
            && line' == line1
            && (read.Raised? ==> reply == Refused(Failed(read.error)))
            && (read.Values? ==> reply == Answers(Wanted(read.values, ids))
                                 && Lookup(reply.values, id) == if id in ids then Lookup(read.values, id) else None)
  {
    ServeMany(line, channels, ids);
    var read := Gather(line, ReadTask(RequestsFor(Group(channels), ids)), []).1;
    if read.Values? {
      LookupWanted(read.values, ids, id);
    }
  }
}
