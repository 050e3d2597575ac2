// Calls of the service, on the wire and on the plain map of registers:
// service.py. HeatPumpService, the class, is proved against it.

module Calls {
  import opened Bytes
  import opened Checksums
  import opened Models
  import opened Records
  import opened Composition
  import opened Config
  import opened Readings
  import opened Devices
  import opened Conversation
  import opened Exchange
  import opened Jobs
  import opened Refinement
  import opened Plants
  import opened Zones
  import opened Batches

  datatype Call =
    | ReadChannel(id: string)
    | WriteChannel(id: string, value: Value)
    | ReadChannels(ids: seq<string>)

  datatype CallError = ChannelNotFound | ChannelNotWritable | Failed(error: Error)

  datatype Reply = Answer(value: Value) | Answers(values: Dict) | Refused(reason: CallError)

  // _coerce, without the strings it also accepts.
  function Coerce(record: Channel, v: Value): Value {
    match record.Kind()
    case Boolean =>
      (match v
       case BoolV(_) => v
       case IntV(n) => BoolV(n != 0)
       case FloatV(x) => BoolV(x != 0.0))
    case Number =>
      (match v
       case BoolV(on) => FloatV(if on then 1.0 else 0.0)
       case IntV(n) => FloatV(n as real)
       case FloatV(_) => v)
    case Integer => IntV(ToInt(v))
  }

  // Coercion gives the kind of the channel, leaves a value of that kind alone,
  // and otherwise keeps its number: exactly, up to truncation towards zero, or
  // as being zero or not.
  lemma CoerceKeepsValue(record: Channel, v: Value)
    ensures var w := Coerce(record, v);
            && KindOf(w) == record.Kind()
            && (KindOf(v) == record.Kind() ==> w == v)
            && (w.FloatV? ==> w.x == Amount(v))
            && (w.BoolV? ==> (w.on <==> Amount(v) != 0.0))
            && (w.IntV? && Amount(v) >= 0.0 ==> w.n as real <= Amount(v) < w.n as real + 1.0)
            && (w.IntV? && Amount(v) <= 0.0 ==> w.n as real - 1.0 < Amount(v) <= w.n as real)
  {
  }

  // The number a value stands for.
  function Amount(v: Value): real {
    match v
    case BoolV(on) => if on then 1.0 else 0.0
    case IntV(n) => n as real
    case FloatV(x) => x
  }

  // The jobs of a call, if it gets that far: what it does under the lock.
  function Prepare(channels: seq<Channel>, call: Call): (r: Result<Task, CallError>)
    ensures r.Ok? ==> ValidTask(r.value) && (call.ReadChannels? || |r.value| == 1)
  {
    match call
    case ReadChannel(id) =>
      (match RequestFor(Group(channels), id)
       case None => Err(ChannelNotFound)
       case Some(request) =>
         if ChannelById(channels, id).None? then Err(ChannelNotFound) else Ok([ReadJob(request)]))
    case WriteChannel(id, v) =>
      (match ChannelById(channels, id)
       case None => Err(ChannelNotFound)
       case Some(record) =>
         if record.Writable() then Ok([WriteJob([Item(Coerce(record, v), record)])]) else Err(ChannelNotWritable))
    case ReadChannels(ids) =>
      if exists i :: 0 <= i < |ids| && ChannelById(channels, ids[i]).None? then Err(ChannelNotFound)
      else Ok(ReadTask(RequestsFor(Group(channels), ids)))
  }

  // What the caller gets for the outcomes of its jobs.
  function Report(channels: seq<Channel>, call: Call, outcomes: seq<Outcome>): Reply
    requires call.ReadChannels? || outcomes != []
  {
    var outcome := if call.ReadChannels? then Merge(outcomes, []) else outcomes[0];
    if outcome.Raised? then Refused(Failed(outcome.error))
    else
      match call
      case ReadChannel(id) =>
        (match Lookup(outcome.values, id)
         case Some(v) => Answer(v)
         case None => Refused(ChannelNotFound))
      case WriteChannel(id, v) =>
        (match Lookup(outcome.values, id)
         case Some(w) => Answer(w)
         case None =>
           match ChannelById(channels, id)
           case None => Refused(ChannelNotFound)
           case Some(record) => Answer(Coerce(record, v)))
      case ReadChannels(ids) => Answers(Wanted(outcome.values, ids))
  }

  // A call on the wire ...
  function Serve(line: Line, channels: seq<Channel>, call: Call): (Line, Reply) {
    match Prepare(channels, call)
    case Err(e) => (line, Refused(e))
    case Ok(task) =>
      var (line', outcomes) := PerformTask(line, task);
      (line', Report(channels, call, outcomes))
  }

  // A read and a write on the wire, as their one job.
  lemma ServeRead(line: Line, channels: seq<Channel>, id: string)
    requires ChannelById(channels, id).Some? && RequestFor(Group(channels), id).Some?
    ensures var (line', outcome) := Perform(line, ReadJob(RequestFor(Group(channels), id).value));
            Serve(line, channels, ReadChannel(id)) == (line', Report(channels, ReadChannel(id), [outcome]))
  {
    PerformTaskOne(line, ReadJob(RequestFor(Group(channels), id).value));
  }

  lemma ServeWrite(line: Line, channels: seq<Channel>, id: string, v: Value)
    requires ChannelById(channels, id).Some? && ChannelById(channels, id).value.Writable()
    ensures var record := ChannelById(channels, id).value;
            var (line', outcome) := Perform(line, WriteJob([Item(Coerce(record, v), record)]));
            Serve(line, channels, WriteChannel(id, v)) == (line', Report(channels, WriteChannel(id, v), [outcome]))
  {
    var record := ChannelById(channels, id).value;
    PerformTaskOne(line, WriteJob([Item(Coerce(record, v), record)]));
  }

  // ... and on the map.
  function ServeMap(p: Plant, channels: seq<Channel>, call: Call): (Plant, Reply)
    requires PlantFor(p, channels) && ValidConfig(channels)
  {
    match Prepare(channels, call)
    case Err(e) => (p, Refused(e))
    case Ok(task) =>
      PreparedSits(p, channels, call);
      var (p', outcomes) := ApplyTask(p, task);
      (p', Report(channels, call, outcomes))
  }

  ghost predicate AllSit(p: Plant, task: Task) {
    TaskKnown(p, task) && forall job :: job in task ==> Sits(p, job)
  }

  // Every job of a call is a read of a configured request, or writes one
  // configured channel.
  lemma {:induction false} PreparedSits(p: Plant, channels: seq<Channel>, call: Call)
    requires PlantFor(p, channels) && ValidConfig(channels)
    ensures var r := Prepare(channels, call); r.Ok? ==> TaskKnown(p, r.value) && AllSit(p, r.value)
  {
    match call
    case ReadChannel(id) => ReadSits(p, channels, call);
    case WriteChannel(_, _) => WriteSits(p, channels, call);
    case ReadChannels(_) => BatchSits(p, channels, call);
  }

  lemma ReadSits(p: Plant, channels: seq<Channel>, call: Call)
    requires PlantFor(p, channels) && call.ReadChannel?
    ensures var r := Prepare(channels, call); r.Ok? ==> AllSit(p, r.value)
  {
    if Prepare(channels, call).Ok? {
      GroupHasRegisters(p, channels, RequestFor(Group(channels), call.id).value);
    }
  }

  lemma WriteSits(p: Plant, channels: seq<Channel>, call: Call)
    requires PlantFor(p, channels) && ValidConfig(channels) && call.WriteChannel?
    ensures var r := Prepare(channels, call); r.Ok? ==> AllSit(p, r.value)
  {
    if Prepare(channels, call).Ok? {
      var c := ChannelById(channels, call.id).value;
      ChannelSits(p, c, Item(Coerce(c, call.value), c));
      OneSits(p, Prepare(channels, call).value);
    }
  }

  lemma OneSits(p: Plant, task: Task)
    requires |task| == 1 && task[0].Valid() && Sits(p, task[0])
    ensures AllSit(p, task)
  {
    assert forall job :: job in task ==> job == task[0];
  }

  lemma BatchSits(p: Plant, channels: seq<Channel>, call: Call)
    requires PlantFor(p, channels) && call.ReadChannels?
    ensures var r := Prepare(channels, call); r.Ok? ==> AllSit(p, r.value)
  {
    NeededIsIssuable(p, channels, call.ids);
    ReadsKnown(p, RequestsFor(Group(channels), call.ids));
  }

  lemma ChannelSits(p: Plant, c: Channel, item: Item)
    requires ValidChannel(c) && HasRoom(p, c) && item.record == c
    ensures Sits(p, WriteJob([item]))
  {
    assert c.key.command in KeyCommands(c.key);
  }

  // The set frame of the call, if it sends one, reaches its register.
  ghost predicate Delivered(p: Plant, channels: seq<Channel>, call: Call)
    requires PlantFor(p, channels) && ValidConfig(channels)
  {
    if call.WriteChannel? && Prepare(channels, call).Ok? then
      PreparedIsKnown(p, channels, call);
      Delivers(p, Prepare(channels, call).value[0].items)
    else true
  }

  lemma PreparedIsKnown(p: Plant, channels: seq<Channel>, call: Call)
    requires PlantFor(p, channels) && ValidConfig(channels) && Prepare(channels, call).Ok? && call.WriteChannel?
    ensures var job := Prepare(channels, call).value[0]; job.WriteJob? && job.Valid() && Known(p, job)
  {
    MapApplies(p, channels, call);
  }

  // So it does in every state of the registers, if no command of the plant
  // begins with the one written to.
  predicate Unambiguous(p: Plant, channels: seq<Channel>, call: Call) {
    call.WriteChannel? ==>
      var found := ChannelById(channels, call.id);
      found.Some? ==> Unextended(p.commands, found.value.key.command)
  }

  lemma {:induction false} UnambiguousIsDelivered(p: Plant, q: Plant, channels: seq<Channel>, call: Call)
    requires Unambiguous(p, channels, call) && SameLayout(p, q)
    requires PlantFor(q, channels) && ValidConfig(channels)
    ensures Delivered(q, channels, call)
  {
    if call.WriteChannel? && Prepare(channels, call).Ok? {
      MapApplies(q, channels, call);
      SafeCommand(channels, call);
      UnextendedDelivers(q, Prepare(channels, call).value[0].items);
    }
  }

  lemma SafeCommand(channels: seq<Channel>, call: Call)
    requires ValidConfig(channels) && call.WriteChannel? && Prepare(channels, call).Ok?
    ensures var job := Prepare(channels, call).value[0];
            && job.WriteJob? && RegisterSafe(job.Command())
            && job.Command() == ChannelById(channels, call.id).value.key.command
  {
    var c := ChannelById(channels, call.id).value;
    assert ValidChannel(c) && c.key.command in KeyCommands(c.key);
  }

  // The registers after a call that is no read of several channels.
  lemma {:induction false} MapApplies(p: Plant, channels: seq<Channel>, call: Call)
    requires PlantFor(p, channels) && ValidConfig(channels) && Prepare(channels, call).Ok?
    requires !call.ReadChannels?
    ensures var job := Prepare(channels, call).value[0];
            && Sits(p, job) && (call.WriteChannel? ==> job.WriteJob?)
            && ServeMap(p, channels, call) == (Apply(p, job).0, Report(channels, call, [Apply(p, job).1]))
  {
    PreparedSits(p, channels, call);
    ApplyTaskOne(p, Prepare(channels, call).value);
  }

  lemma OnlyReads(channels: seq<Channel>, call: Call)
    requires Prepare(channels, call).Ok? && !call.WriteChannel?
    ensures forall job :: job in Prepare(channels, call).value ==> job.ReadJob?
  {
  }

  lemma SittingReadsFit(p: Plant, task: Task)
    requires AllSit(p, task) && forall job :: job in task ==> job.ReadJob?
    ensures TaskFits(p, task)
  {
    forall job | job in task
      ensures job.Valid() && Fits(p, job)
    {
      assert Sits(p, job);
    }
  }

  lemma {:induction false} LayoutKeepsRoom(p: Plant, q: Plant, channels: seq<Channel>)
    requires PlantFor(p, channels) && ValidPlant(q) && SameLayout(p, q)
    ensures PlantFor(q, channels)
  {
    forall c | c in channels
      ensures HasRoom(q, c)
    {
      assert HasRoom(p, c);
    }
  }

  // One call on a quiet line does what it does on the map.
  lemma {:induction false} CallRefines(line: Line, p: Plant, channels: seq<Channel>, call: Call)
    requires Quiet(line, p) && PlantFor(p, channels) && ValidConfig(channels) && Delivered(p, channels, call)
    ensures var (line', reply) := Serve(line, channels, call);
            var (p', expected) := ServeMap(p, channels, call);
            Quiet(line', p') && reply == expected
  {
    if Prepare(channels, call).Ok? {
      if call.WriteChannel? {
        WriteCallRefines(line, p, channels, call);
      } else {
        ReadCallRefines(line, p, channels, call);
      }
    }
  }

  lemma {:induction false} WriteCallRefines(line: Line, p: Plant, channels: seq<Channel>, call: Call)
    requires Quiet(line, p) && PlantFor(p, channels) && ValidConfig(channels) && Delivered(p, channels, call)
    requires call.WriteChannel? && Prepare(channels, call).Ok?
    ensures var (line', reply) := Serve(line, channels, call);
            var (p', expected) := ServeMap(p, channels, call);
            Quiet(line', p') && reply == expected
  {
    MapApplies(p, channels, call);
    SafeCommand(channels, call);
    ServeWrite(line, channels, call.id, call.value);
    WriteRefines(line, p, Prepare(channels, call).value[0].items);
  }

  lemma {:induction false} ReadCallRefines(line: Line, p: Plant, channels: seq<Channel>, call: Call)
    requires Quiet(line, p) && PlantFor(p, channels) && ValidConfig(channels)
    requires !call.WriteChannel? && Prepare(channels, call).Ok?
    ensures var (line', reply) := Serve(line, channels, call);
            var (p', expected) := ServeMap(p, channels, call);
            Quiet(line', p') && reply == expected
  {
    PreparedSits(p, channels, call);
    OnlyReads(channels, call);
    SittingReadsFit(p, Prepare(channels, call).value);
    ReadsDeliver(p, Prepare(channels, call).value);
    TaskRefines(line, p, Prepare(channels, call).value);
  }

  // On the map, a call keeps the plant in shape.
  lemma {:induction false} MapKeepsPlant(p: Plant, channels: seq<Channel>, call: Call)
    requires PlantFor(p, channels) && ValidConfig(channels)
    ensures PlantFor(ServeMap(p, channels, call).0, channels) && SameLayout(p, ServeMap(p, channels, call).0)
  {
    var r := Prepare(channels, call);
    if r.Ok? {
      PreparedSits(p, channels, call);
      TaskKeepsValid(p, r.value);
      LayoutKeepsRoom(p, ApplyTask(p, r.value).0, channels);
    }
  }

  // ------------------------------------------------------------ whole runs

  function ServeAll(line: Line, channels: seq<Channel>, calls: seq<Call>): (Line, seq<Reply>) {
    if calls == [] then (line, [])
    else
      var (line1, replies) := ServeAll(line, channels, Front(calls));
      var (line2, reply) := Serve(line1, channels, Last(calls));
      (line2, replies + [reply])
  }

  function ServeMapAll(p: Plant, channels: seq<Channel>, calls: seq<Call>): (r: (Plant, seq<Reply>))
    requires PlantFor(p, channels) && ValidConfig(channels)
    ensures PlantFor(r.0, channels) && SameLayout(p, r.0)
  {
    if calls == [] then (p, [])
    else
      var (p1, replies) := ServeMapAll(p, channels, Front(calls));
      MapKeepsPlant(p1, channels, Last(calls));
      var (p2, reply) := ServeMap(p1, channels, Last(calls));
      (p2, replies + [reply])
  }

  // So does each of the set frames of a run, in the registers as they are then.
  ghost predicate AllDelivered(p: Plant, channels: seq<Channel>, calls: seq<Call>)
    requires PlantFor(p, channels) && ValidConfig(channels)
  {
    calls != [] ==>
      && AllDelivered(p, channels, Front(calls))
      && Delivered(ServeMapAll(p, channels, Front(calls)).0, channels, Last(calls))
  }

  predicate AllUnambiguous(p: Plant, channels: seq<Channel>, calls: seq<Call>) {
    forall i :: 0 <= i < |calls| ==> Unambiguous(p, channels, calls[i])
  }

  lemma {:induction false} UnambiguousAreDelivered(p: Plant, channels: seq<Channel>, calls: seq<Call>)
    requires PlantFor(p, channels) && ValidConfig(channels) && AllUnambiguous(p, channels, calls)
    ensures AllDelivered(p, channels, calls)
  {
    if calls != [] {
      UnambiguousAreDelivered(p, channels, Front(calls));
      UnambiguousIsDelivered(p, ServeMapAll(p, channels, Front(calls)).0, channels, Last(calls));
    }
  }

  // Over every sequence of calls the service on the simulator behaves exactly
  // like the map of registers: same replies, same registers, quiet line.
  lemma {:induction false} CallsRefine(line: Line, p: Plant, channels: seq<Channel>, calls: seq<Call>)
    requires Quiet(line, p) && PlantFor(p, channels) && ValidConfig(channels) && AllDelivered(p, channels, calls)
    ensures var (line', replies) := ServeAll(line, channels, calls);
            var (p', expected) := ServeMapAll(p, channels, calls);
            Quiet(line', p') && replies == expected
  {
    if calls != [] {
      CallsRefine(line, p, channels, Front(calls));
      var line1, p1 := ServeAll(line, channels, Front(calls)).0, ServeMapAll(p, channels, Front(calls)).0;
      CallRefines(line1, p1, channels, Last(calls));
    }
  }

  // --------------------------------------------------------- reading channels

  // A read answers with the channel decoded from the frames of its commands.
  lemma {:induction false} ReadAnswers(p: Plant, channels: seq<Channel>, x: Channel)
    requires PlantFor(p, channels) && ValidConfig(channels) && x in channels
    ensures HasRegisters(p.store, x.key)
    ensures ServeMap(p, channels, ReadChannel(x.id)) ==
            (p, match ReadingOf(p, x)
                case Some(v) => Answer(v)
                case None => Refused(ChannelNotFound))
  {
    LookupsAgree(channels, x);
    assert HasRoom(p, x);
    ChannelHasRegisters(p, x);
    WithKeyUnique(channels, x.key);
    LookupParsed(p.store[x.key.command], WithKey(channels, x.key), SecondFrame(p, x.key), x);
    var job := ReadJob(Request(x.key, WithKey(channels, x.key)));
    PreparedSits(p, channels, ReadChannel(x.id));
    ApplyTaskOne(p, [job]);
  }

  // On the simulator read_channels returns each wanted channel exactly once,
  // with the value its frames hold, and nothing else.
  lemma {:induction false} ReadManyAnswers(line: Line, p: Plant, channels: seq<Channel>, ids: seq<string>, x: Channel)
    requires Quiet(line, p) && PlantFor(p, channels) && ValidConfig(channels) && x in channels
    requires forall i :: 0 <= i < |ids| ==> ChannelById(channels, ids[i]).Some?
    ensures HasRegisters(p.store, x.key)
    ensures var (line', reply) := Serve(line, channels, ReadChannels(ids));
            && Quiet(line', p) && reply.Answers? && DistinctKeys(reply.values)
            && Lookup(reply.values, x.id) == if x.id in ids then ReadingOf(p, x) else None
  {
    CallRefines(line, p, channels, ReadChannels(ids));
    MapAnswersMany(p, channels, ids, x);
  }

  lemma {:induction false} MapAnswersMany(p: Plant, channels: seq<Channel>, ids: seq<string>, x: Channel)
    requires PlantFor(p, channels) && ValidConfig(channels) && x in channels
    requires forall i :: 0 <= i < |ids| ==> ChannelById(channels, ids[i]).Some?
    ensures HasRegisters(p.store, x.key)
    ensures var (p', reply) := ServeMap(p, channels, ReadChannels(ids));
            && p' == p && reply.Answers? && DistinctKeys(reply.values)
            && Lookup(reply.values, x.id) == if x.id in ids then ReadingOf(p, x) else None
  {
    BatchAnswers(p, channels, ids, x);
    assert Prepare(channels, ReadChannels(ids)) == Ok(ReadTask(RequestsFor(Group(channels), ids)));
  }

  // -------------------------------------------------------- last write wins

  // The call does not touch what x is decoded from.
  ghost predicate Harmless(channels: seq<Channel>, x: Channel, call: Call) {
    var r := Prepare(channels, call);
    r.Ok? ==> forall job :: job in r.value ==> Leaves(job, x.key.command, ReadingZone(x))
  }

  // What x reads as in the register of its command.
  function ReadsAs(p: Plant, x: Channel): Result<Value, Error>
    requires x.key.command in p.store
  {
    ParseRecord(p.store[x.key.command], x)
  }

  // The frames a channel is decoded from give the same.
  ghost predicate SameFrames(p: Plant, q: Plant, x: Channel) {
    && HasRegisters(p.store, x.key) && HasRegisters(q.store, x.key)
    && ReadsAs(p, x) == ReadsAs(q, x) && SecondFrame(p, x.key) == SecondFrame(q, x.key)
  }

  // A call that leaves the bits of a channel alone changes neither what it
  // reads as nor its second frame.
  lemma {:induction false} HarmlessKeepsReading(p: Plant, channels: seq<Channel>, x: Channel, call: Call)
    requires PlantFor(p, channels) && ValidConfig(channels) && x in channels
    requires Harmless(channels, x, call)
    ensures SameFrames(p, ServeMap(p, channels, call).0, x)
  {
    assert ValidChannel(x) && HasRoom(p, x);
    ChannelHasRegisters(p, x);
    var r := Prepare(channels, call);
    if r.Ok? && call.ReadChannels? {
      BatchChangesNothing(p, channels, call);
    } else if r.Ok? {
      SingleKeepsReading(p, channels, x, call);
    }
  }

  lemma {:induction false} BatchChangesNothing(p: Plant, channels: seq<Channel>, call: Call)
    requires PlantFor(p, channels) && ValidConfig(channels) && call.ReadChannels?
    ensures ServeMap(p, channels, call).0 == p
  {
    NeededIsIssuable(p, channels, call.ids);
    ReadsCollect(p, RequestsFor(Group(channels), call.ids), []);
  }

  lemma {:induction false} SingleKeepsReading(p: Plant, channels: seq<Channel>, x: Channel, call: Call)
    requires PlantFor(p, channels) && ValidConfig(channels) && x in channels
    requires HasRegisters(p.store, x.key) && x.position >= 3
    requires Harmless(channels, x, call) && Prepare(channels, call).Ok? && !call.ReadChannels?
    ensures SameFrames(p, ServeMap(p, channels, call).0, x)
  {
    MapApplies(p, channels, call);
    OwnCommandOnly(channels, x, call);
    JobKeepsFrames(p, x, Prepare(channels, call).value[0]);
  }

  // No call writes to the second command of a channel.
  lemma {:induction false} OwnCommandOnly(channels: seq<Channel>, x: Channel, call: Call)
    requires ValidConfig(channels) && x in channels && Prepare(channels, call).Ok? && !call.ReadChannels?
    ensures var job := Prepare(channels, call).value[0];
            job.WriteJob? && x.key.command2.Some? ==> job.Command() != x.key.command2.value
  {
    if call.WriteChannel? && x.key.command2.Some? {
      FirstIsNotSecond(channels, x, ChannelById(channels, call.id).value);
    }
  }

  lemma {:induction false} JobKeepsFrames(p: Plant, x: Channel, job: Job)
    requires ValidPlant(p) && HasRegisters(p.store, x.key) && x.position >= 3
    requires job.Valid() && Sits(p, job) && Leaves(job, x.key.command, ReadingZone(x))
    requires job.WriteJob? && x.key.command2.Some? ==> job.Command() != x.key.command2.value
    ensures SameFrames(p, Apply(p, job).0, x)
  {
    JobKeepsZone(p, job, x.key.command, ReadingZone(x));
    SameReading(p.store[x.key.command], Apply(p, job).0.store[x.key.command], x);
    ApplyKeepsLayout(p, job);
  }

  ghost predicate AllHarmless(channels: seq<Channel>, x: Channel, calls: seq<Call>) {
    forall i :: 0 <= i < |calls| ==> Harmless(channels, x, calls[i])
  }

  lemma {:induction false} HarmlessKeepReading(p: Plant, channels: seq<Channel>, x: Channel, calls: seq<Call>)
    requires PlantFor(p, channels) && ValidConfig(channels) && x in channels && AllHarmless(channels, x, calls)
    ensures SameFrames(p, ServeMapAll(p, channels, calls).0, x)
  {
    assert HasRoom(p, x);
    ChannelHasRegisters(p, x);
    if calls != [] {
      HarmlessKeepReading(p, channels, x, Front(calls));
      HarmlessKeepsReading(ServeMapAll(p, channels, Front(calls)).0, channels, x, Last(calls));
    }
  }

  // What a read returns of a channel that was reported as v: v itself, or v and
  // the thousands in the second register.
  function ReadBack(p: Plant, x: Channel, v: Value): Reply
    requires HasRegisters(p.store, x.key)
  {
    match WithThousands(v, x, SecondFrame(p, x.key))
    case Ok(w) => Answer(w)
    case Err(_) => Refused(ChannelNotFound)
  }

  // The reply to an accepted write is what the channel then reads as ...
  lemma {:induction false} WriteIsTold(p: Plant, channels: seq<Channel>, x: Channel, v: Value)
    requires PlantFor(p, channels) && ValidConfig(channels) && x in channels && x.Writable()
    ensures HasRegisters(p.store, x.key)
    ensures var (p', reply) := ServeMap(p, channels, WriteChannel(x.id, v));
            reply.Answer? ==>
              && HasRegisters(p'.store, x.key) && ReadsAs(p', x) == Ok(reply.value)
              && SecondFrame(p', x.key) == SecondFrame(p, x.key)
  {
    WriteApplies(p, channels, x, v);
    assert ValidChannel(x) && HasRoom(p, x);
    ChannelHasRegisters(p, x);
    OwnCommandOnly(channels, x, WriteChannel(x.id, v));
    if ServeMap(p, channels, WriteChannel(x.id, v)).1.Answer? {
      ItemIsTold(p, Item(Coerce(x, v), x));
    }
  }

  lemma {:induction false} ItemIsTold(p: Plant, item: Item)
    requires ValidPlant(p) && Sits(p, WriteJob([item])) && HasRegisters(p.store, item.record.key)
    requires item.record.key.command2.Some? ==> item.record.key.command2.value != item.record.key.command
    ensures var (p', told) := Apply(p, WriteJob([item]));
            var x := item.record;
            && HasRegisters(p'.store, x.key) && SecondFrame(p', x.key) == SecondFrame(p, x.key)
            && (told.Values? ==>
                  ReadsAs(p', x).Ok? && Lookup(told.values, x.id) == Some(ReadsAs(p', x).value))
  {
    OneIsLasting(item);
    AcceptedIsWritten(p, WriteJob([item]), item);
    ApplyKeepsLayout(p, WriteJob([item]));
  }

  lemma {:induction false} WriteApplies(p: Plant, channels: seq<Channel>, x: Channel, v: Value)
    requires PlantFor(p, channels) && ValidConfig(channels) && x in channels && x.Writable()
    ensures var write, job := WriteChannel(x.id, v), WriteJob([Item(Coerce(x, v), x)]);
            && Prepare(channels, write) == Ok([job]) && Sits(p, job)
            && ServeMap(p, channels, write) == (Apply(p, job).0, Report(channels, write, [Apply(p, job).1]))
            && (ServeMap(p, channels, write).1.Answer? <==> Apply(p, job).1.Values?)
  {
    LookupsAgree(channels, x);
    MapApplies(p, channels, WriteChannel(x.id, v));
  }

  // ... and the value written, if the record can represent it.
  lemma {:induction false} WriteIsRead(p: Plant, channels: seq<Channel>, x: Channel, v: Value)
    requires PlantFor(p, channels) && ValidConfig(channels) && x in channels && x.Writable()
    requires Faithful(Coerce(x, v), x)
    ensures var (p', reply) := ServeMap(p, channels, WriteChannel(x.id, v));
            reply.Answer? ==>
              && reply == Answer(Coerce(x, v))
              && x.key.command in p'.store && ReadsAs(p', x) == Ok(Coerce(x, v))
  {
    WriteApplies(p, channels, x, v);
    WriteIsTold(p, channels, x, v);
    if ServeMap(p, channels, WriteChannel(x.id, v)).1.Answer? {
      FaithfulIsTold(p, Item(Coerce(x, v), x));
    }
  }

  // After any further calls that leave its bits alone, a read returns what the
  // last accepted write of the channel was answered with, whatever the value;
  // on two commands, with the thousands of the second register, which no call
  // changes.
  lemma {:induction false} LastWriteWins(line: Line, p: Plant, channels: seq<Channel>, x: Channel, v: Value,
                                         calls: seq<Call>)
    requires Quiet(line, p) && PlantFor(p, channels) && ValidConfig(channels)
    requires x in channels && x.Writable() && AllHarmless(channels, x, calls)
    requires var write := WriteChannel(x.id, v);
             Delivered(p, channels, write) && AllDelivered(AfterCall(p, channels, write), channels, calls)
    ensures HasRegisters(p.store, x.key)
    ensures var (written, reply) := Serve(line, channels, WriteChannel(x.id, v));
            var later := ServeAll(written, channels, calls).0;
            reply.Answer? ==>
              && Serve(later, channels, ReadChannel(x.id)).1 == ReadBack(p, x, reply.value)
              && (Faithful(Coerce(x, v), x) ==> reply == Answer(Coerce(x, v)))
  {
    var write := WriteChannel(x.id, v);
    WrittenReads(p, channels, x, v);
    CallRefines(line, p, channels, write);
    var (p1, reply) := ServeMap(p, channels, write);
    if reply.Answer? {
      ReadsLater(Serve(line, channels, write).0, p1, channels, x, calls, reply.value);
    }
  }

  // The registers after the write.
  lemma {:induction false} WrittenReads(p: Plant, channels: seq<Channel>, x: Channel, v: Value)
    requires PlantFor(p, channels) && ValidConfig(channels) && x in channels && x.Writable()
    ensures HasRegisters(p.store, x.key)
    ensures var (p1, reply) := ServeMap(p, channels, WriteChannel(x.id, v));
            && PlantFor(p1, channels)
            && (reply.Answer? ==>
                  && HasRegisters(p1.store, x.key) && ReadsAs(p1, x) == Ok(reply.value)
                  && SecondFrame(p1, x.key) == SecondFrame(p, x.key)
                  && (Faithful(Coerce(x, v), x) ==> reply == Answer(Coerce(x, v))))
  {
    MapKeepsPlant(p, channels, WriteChannel(x.id, v));
    WriteIsTold(p, channels, x, v);
    if Faithful(Coerce(x, v), x) {
      WriteIsRead(p, channels, x, v);
    }
  }

  function AfterCall(p: Plant, channels: seq<Channel>, call: Call): (p': Plant)
    requires PlantFor(p, channels) && ValidConfig(channels)
    ensures PlantFor(p', channels)
  {
    MapKeepsPlant(p, channels, call);
    ServeMap(p, channels, call).0
  }

  lemma {:induction false} ReadsLater(line: Line, p: Plant, channels: seq<Channel>, x: Channel,
                                      calls: seq<Call>, v: Value)
    requires Quiet(line, p) && PlantFor(p, channels) && ValidConfig(channels) && AllDelivered(p, channels, calls)
    requires x in channels && HasRegisters(p.store, x.key) && ReadsAs(p, x) == Ok(v)
    requires AllHarmless(channels, x, calls)
    ensures var later := ServeAll(line, channels, calls).0;
            Serve(later, channels, ReadChannel(x.id)).1 == ReadBack(p, x, v)
  {
    CallsRefine(line, p, channels, calls);
    var later, p2 := ServeAll(line, channels, calls).0, ServeMapAll(p, channels, calls).0;
    HarmlessKeepReading(p, channels, x, calls);
    CallRefines(later, p2, channels, ReadChannel(x.id));
    ReadAnswers(p2, channels, x);
    ParsedWithThousands(p2.store[x.key.command], x, SecondFrame(p2, x.key));
  }
}
