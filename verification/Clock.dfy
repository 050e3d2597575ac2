// Setting the clock: communication.py, _set_time_via_registers and
// _set_time_via_frame. The time is a parameter.

module Clock {
  import opened Bytes
  import opened Escaping
  import opened Checksums
  import opened Models
  import opened Records
  import opened Composition
  import opened Config
  import opened Readings
  import opened Devices
  import opened Conversation
  import opened Exchange
  import opened Jobs
  import opened Refinement
  import opened Zones
  import opened Connectors
  import opened Communication

  // ------------------------------------------------- one register a field

  // One write after the other, into one dictionary; the first failure ends it.
  method SetTimeViaRegisters(service: CommunicationService, fields: seq<Item>) returns (r: Outcome)
    modifies service.connector.transport, service.connector.transport.simulator
    ensures (service.Link(), r) == Gather(old(service.Link()), WriteTask(fields), [])
  {
    var written: Dict := [];
    assert fields[0..] == fields;
    for i := 0 to |fields|
      invariant Gather(service.Link(), WriteTask(fields[i..]), written) ==
                Gather(old(service.Link()), WriteTask(fields), [])
    {
      GatherWrites(service.Link(), fields, i, written);
      var values := service.WriteValues([fields[i]]);
      if values.Raised? {
        return values;
      }
      written := Update(written, values.values);
    }
    GatherNothing(service.Link(), written);
    return Values(written);
  }

  // The register holds the bits of the item, and reads as its value if the
  // record can represent it.
  ghost predicate Holds(p: Plant, item: Item) {
    var c := item.record.key.command;
    && c in p.store && Inscribed(p.store[c], item)
    && (Faithful(item.value, item.record) ==> ParseRecord(p.store[c], item.record) == Ok(item.value))
  }

  ghost predicate HoldsFirst(p: Plant, items: seq<Item>, k: nat) {
    forall i :: 0 <= i < k && i < |items| ==> Holds(p, items[i])
  }

  // The first k items leave that zone of the register c alone.
  ghost predicate SparedByFirst(items: seq<Item>, k: nat, c: Command, zone: Zone) {
    forall i :: 0 <= i < k && i < |items| && items[i].record.key.command == c ==> Spares(items[i], zone)
  }

  // Whatever the first k items leave alone is as it was, and so are the
  // registers none of them is in.
  ghost predicate RestUntouched(p: Plant, p': Plant, items: seq<Item>, k: nat) {
    && p'.store.Keys == p.store.Keys
    && (forall c, zone {:trigger SparedByFirst(items, k, c, zone)} ::
          c in p.store && SparedByFirst(items, k, c, zone) ==> SameOn(p.store[c], p'.store[c], zone))
    && (forall c :: c in p.store && (forall i :: 0 <= i < k && i < |items| ==> items[i].record.key.command != c)
                    ==> p'.store[c] == p.store[c])
  }

  // The items write to different bits, and none to bits another is read from.
  ghost predicate Apart(items: seq<Item>) {
    forall i, j :: 0 <= i < |items| && 0 <= j < |items| && i != j ==> ApartFrom(items[i], items[j])
  }

  ghost predicate ApartFrom(a: Item, b: Item) {
    a.record.key.command == b.record.key.command ==> Spares(b, Footprint(a))
  }

  // On a quiet plant, setting the clock through its registers writes a field
  // after the other. If it succeeds, every field is in its register and nothing
  // else has changed. If a field is refused or out of range, exactly the fields
  // before it are. If a record never decodes, its field is too, unless it is
  // refused.
  lemma {:induction false} ClockRegisters(line: Line, p: Plant, items: seq<Item>) returns (k: nat, p': Plant)
    requires Quiet(line, p) && ValidPlant(p) && Apart(items)
    requires TaskFits(p, WriteTask(items)) && TaskDelivers(p, WriteTask(items))
    ensures var (line', outcome) := Gather(line, WriteTask(items), []);
            && Quiet(line', p') && ValidPlant(p') && WritesFirst(p, items, k, p', outcome)
  {
    TaskRefines(line, p, WriteTask(items));
    WritesOnMap(p, items, []);
    k :| MapWrites(p, items, k, []);
    p' := ApplyTask(p, WriteTask(items)).0;
  }

  // The first k fields are written, and nothing else is.
  ghost predicate JustFirst(p: Plant, p': Plant, items: seq<Item>, k: nat) {
    HoldsFirst(p', items, k) && RestUntouched(p, p', items, k)
  }

  // So is field k perhaps: if it was not refused, the register holds its bits.
  ghost predicate FirstAndNext(p: Plant, p': Plant, items: seq<Item>, k: nat) {
    && k < |items| && HoldsFirst(p', items, k) && RestUntouched(p, p', items, k + 1)
    && var c := items[k].record.key.command;
       c in p'.store && (RestUntouched(p, p', items, k) || Inscribed(p'.store[c], items[k]))
  }

  ghost predicate WritesFirst(p: Plant, items: seq<Item>, k: nat, p': Plant, outcome: Outcome) {
    && k <= |items| && (outcome.Values? <==> k == |items|)
    && (outcome.Raised? ==> outcome.error in {NotConfirmed, OutOfRange, InvalidData})
    && (outcome == Raised(InvalidData) ==>
          k < |items| && !Readable(items[k].record) && FirstAndNext(p, p', items, k))
    && (outcome != Raised(InvalidData) ==> JustFirst(p, p', items, k))
  }

  // The same on the map.
  ghost predicate MapWrites(p: Plant, items: seq<Item>, k: nat, data: Dict)
    requires TaskKnown(p, WriteTask(items))
  {
    var (p', outcomes) := ApplyTask(p, WriteTask(items));
    WritesFirst(p, items, k, p', Merge(outcomes, data))
  }

  lemma {:induction false} WritesOnMap(p: Plant, items: seq<Item>, data: Dict)
    requires ValidPlant(p) && TaskFits(p, WriteTask(items)) && Apart(items)
    ensures exists k: nat :: MapWrites(p, items, k, data)
    decreases |items|
  {
    if items == [] {
      NoWrites(p, data);
    } else {
      var p1, outcome := WriteFirst(p, items);
      if outcome.Values? {
        WritesOnMap(p1, items[1..], Update(data, outcome.values));
        var m: nat :| MapWrites(p1, items[1..], m, Update(data, outcome.values));
        ThenTheRest(p, items, p1, outcome, m, data);
      } else {
        FirstFails(p, items, p1, outcome, data);
      }
    }
  }

  lemma NoWrites(p: Plant, data: Dict)
    ensures MapWrites(p, [], 0, data)
  {
    NothingTouched(p, []);
  }

  lemma WriteFirst(p: Plant, items: seq<Item>) returns (p1: Plant, outcome: Outcome)
    requires ValidPlant(p) && TaskFits(p, WriteTask(items)) && Apart(items) && items != []
    ensures FirstIs(p, items, p1, outcome)
    ensures ValidPlant(p1) && TaskFits(p1, WriteTask(items[1..])) && Apart(items[1..])
  {
    var task := WriteTask(items);
    assert task[1..] == WriteTask(items[1..]) && task[0] == WriteJob([items[0]]);
    TaskTail(p, task);
    ApartRest(items);
    p1, outcome := Apply(p, task[0]).0, Apply(p, task[0]).1;
  }

  // The first write and what it leaves.
  ghost predicate FirstIs(p: Plant, items: seq<Item>, p1: Plant, outcome: Outcome) {
    && items != [] && Fits(p, WriteJob([items[0]]))
    && Apply(p, WriteJob([items[0]])) == (p1, outcome)
  }

  // What the task comes to after its first write.
  lemma FirstEnds(p: Plant, items: seq<Item>, p1: Plant, outcome: Outcome, data: Dict)
    requires ValidPlant(p) && TaskFits(p, WriteTask(items)) && FirstIs(p, items, p1, outcome) && outcome.Raised?
    ensures var (p', outcomes) := ApplyTask(p, WriteTask(items)); p' == p1 && Merge(outcomes, data) == outcome
  {
    var task := WriteTask(items);
    assert task[0] == WriteJob([items[0]]);
    TaskTail(p, task);
  }

  lemma FirstGoesOn(p: Plant, items: seq<Item>, p1: Plant, outcome: Outcome, data: Dict)
    requires ValidPlant(p) && TaskFits(p, WriteTask(items)) && FirstIs(p, items, p1, outcome) && outcome.Values?
    requires TaskFits(p1, WriteTask(items[1..]))
    ensures var (p', outcomes) := ApplyTask(p, WriteTask(items));
            var (q, rest) := ApplyTask(p1, WriteTask(items[1..]));
            p' == q && Merge(outcomes, data) == Merge(rest, Update(data, outcome.values))
  {
    var task := WriteTask(items);
    assert task[1..] == WriteTask(items[1..]) && task[0] == WriteJob([items[0]]);
    TaskTail(p, task);
    MergeMore(outcome, ApplyTask(p1, task[1..]).1, data);
  }

  lemma FirstFails(p: Plant, items: seq<Item>, p1: Plant, outcome: Outcome, data: Dict)
    requires ValidPlant(p) && TaskFits(p, WriteTask(items)) && FirstIs(p, items, p1, outcome) && outcome.Raised?
    ensures MapWrites(p, items, 0, data)
  {
    FirstEnds(p, items, p1, outcome, data);
    FirstWrite(p, items[0]);
    if outcome == Raised(InvalidData) {
      UndecodedWrite(p, items, p1);
    } else {
      NothingTouched(p, items);
    }
  }

  // A write that ends in InvalidData is either stored or refused.
  lemma UndecodedWrite(p: Plant, items: seq<Item>, p1: Plant)
    requires ValidPlant(p) && FirstIs(p, items, p1, Raised(InvalidData))
    ensures FirstAndNext(p, p1, items, 0)
  {
    OnlyFirst(p, items, p1);
    UndecodedIsStored(p, items[0], p1);
    if p1 == p {
      NothingTouched(p, items);
    } else {
      NothingHeld(p1, items);
    }
  }

  lemma OnlyFirst(p: Plant, items: seq<Item>, p1: Plant)
    requires ValidPlant(p) && FirstIs(p, items, p1, Raised(InvalidData))
    ensures RestUntouched(p, p1, items, 1)
  {
    ApplyKeepsLayout(p, WriteJob([items[0]]));
    forall c, zone {:trigger SparedByFirst(items, 1, c, zone)} | c in p.store && SparedByFirst(items, 1, c, zone)
      ensures SameOn(p.store[c], p1.store[c], zone)
    {
      FirstSpares(p, items, p1, c, zone);
    }
    FirstInItsRegister(p, items, p1);
  }

  lemma FirstSpares(p: Plant, items: seq<Item>, p1: Plant, c: Command, zone: Zone)
    requires ValidPlant(p) && FirstIs(p, items, p1, Raised(InvalidData))
    requires c in p.store && SparedByFirst(items, 1, c, zone)
    ensures c in p1.store && SameOn(p.store[c], p1.store[c], zone)
  {
    SparedByAll(items, 0, c, zone);
    JobKeepsZone(p, WriteJob([items[0]]), c, zone);
  }

  lemma FirstInItsRegister(p: Plant, items: seq<Item>, p1: Plant)
    requires FirstIs(p, items, p1, Raised(InvalidData))
    ensures forall c :: c in p.store && items[0].record.key.command != c ==> c in p1.store && p1.store[c] == p.store[c]
  {
  }

  lemma NothingHeld(p: Plant, items: seq<Item>)
    ensures HoldsFirst(p, items, 0)
  {
  }

  lemma UndecodedIsStored(p: Plant, item: Item, p1: Plant)
    requires ValidPlant(p) && Fits(p, WriteJob([item])) && Apply(p, WriteJob([item])) == (p1, Raised(InvalidData))
    ensures item.record.key.command in p1.store
    ensures p1 == p || Inscribed(p1.store[item.record.key.command], item)
  {
    ApplyOne(p, item);
    ApplyKeepsLayout(p, WriteJob([item]));
    if p.refuses(Updated(p.store[item.record.key.command], item)).None? {
      OneIsLasting(item);
      ComposedIsInscribed([item], p.store[item.record.key.command], item);
    }
  }

  // An accepted first write, and then m of the rest.
  lemma ThenTheRest(p: Plant, items: seq<Item>, p1: Plant, outcome: Outcome, m: nat, data: Dict)
    requires ValidPlant(p) && TaskFits(p, WriteTask(items)) && Apart(items)
    requires FirstIs(p, items, p1, outcome) && outcome.Values? && TaskFits(p1, WriteTask(items[1..]))
    requires MapWrites(p1, items[1..], m, Update(data, outcome.values))
    ensures MapWrites(p, items, m + 1, data)
  {
    FirstGoesOn(p, items, p1, outcome, data);
    FirstWrite(p, items[0]);
    ByLayoutAfter(p, WriteJob([items[0]]));
    var (p', rest) := ApplyTask(p1, WriteTask(items[1..]));
    OneMoreWritten(p, p1, p', items, m, Merge(rest, Update(data, outcome.values)));
  }

  lemma ByLayoutAfter(p: Plant, job: Job)
    requires job.Valid() && Fits(p, job)
    ensures Fits(Apply(p, job).0, job)
  {
    ApplyKeepsLayout(p, job);
    ByLayout(p, Apply(p, job).0, job);
  }

  lemma ApartRest(items: seq<Item>)
    requires items != [] && Apart(items)
    ensures Apart(items[1..])
  {
    forall i, j | 0 <= i < |items| - 1 && 0 <= j < |items| - 1 && i != j
      ensures ApartFrom(items[1..][i], items[1..][j])
    {
      assert ApartFrom(items[i + 1], items[j + 1]);
    }
  }

  // The first write was accepted and left p1.
  ghost predicate Accepted(p: Plant, items: seq<Item>, p1: Plant) {
    && ValidPlant(p) && items != [] && Fits(p, WriteJob([items[0]])) && Apart(items)
    && p1 == Apply(p, WriteJob([items[0]])).0 && p1.store.Keys == p.store.Keys && Holds(p1, items[0])
    && ValidPlant(p1) && Fits(p1, WriteJob([items[0]]))
  }

  lemma OneMoreWritten(p: Plant, p1: Plant, p': Plant, items: seq<Item>, m: nat, outcome: Outcome)
    requires Accepted(p, items, p1) && WritesFirst(p1, items[1..], m, p', outcome)
    ensures WritesFirst(p, items, m + 1, p', outcome)
  {
    if outcome == Raised(InvalidData) {
      OneMoreAndNext(p, p1, p', items, m);
    } else {
      OneMoreHeld(p, p1, p', items, m);
    }
  }

  lemma MergeMore(outcome: Outcome, outcomes: seq<Outcome>, data: Dict)
    requires outcome.Values?
    ensures Merge([outcome] + outcomes, data) == Merge(outcomes, Update(data, outcome.values))
  {
    assert ([outcome] + outcomes)[1..] == outcomes;
  }

  lemma NothingTouched(p: Plant, items: seq<Item>)
    ensures JustFirst(p, p, items, 0)
  {
  }

  // What one write does.
  lemma {:induction false} FirstWrite(p: Plant, item: Item)
    requires ValidPlant(p) && Fits(p, WriteJob([item]))
    ensures var (p1, outcome) := Apply(p, WriteJob([item]));
            && ValidPlant(p1) && p1.store.Keys == p.store.Keys
            && (outcome.Values? ==> Holds(p1, item))
            && (outcome.Raised? ==> outcome.error in {NotConfirmed, OutOfRange, InvalidData})
            && (outcome == Raised(InvalidData) ==> !Readable(item.record))
            && (outcome in {Raised(NotConfirmed), Raised(OutOfRange)} ==> p1 == p)
  {
    ApplyKeepsValid(p, WriteJob([item]));
    ApplyKeepsLayout(p, WriteJob([item]));
    WriteOutcomes(p, [item]);
    if Apply(p, WriteJob([item])).1.Values? {
      AcceptedHolds(p, item);
    }
  }

  lemma AcceptedHolds(p: Plant, item: Item)
    requires ValidPlant(p) && Fits(p, WriteJob([item])) && Apply(p, WriteJob([item])).1.Values?
    ensures Holds(Apply(p, WriteJob([item])).0, item)
  {
    OneIsLasting(item);
    AcceptedIsWritten(p, WriteJob([item]), item);
    ApplyKeepsLayout(p, WriteJob([item]));
    assert item in [item];
    var f := Apply(p, WriteJob([item])).0.store[item.record.key.command];
    if Faithful(item.value, item.record) {
      InscribedReads(f, item);
    }
  }

  // One more item in front of m others that hold.
  lemma {:induction false} OneMoreHeld(p: Plant, p1: Plant, p': Plant, items: seq<Item>, m: nat)
    requires Accepted(p, items, p1) && m < |items| && JustFirst(p1, p', items[1..], m)
    ensures JustFirst(p, p', items, m + 1)
  {
    FirstStillHolds(p1, p', items, m);
    FirstAndRestHold(p', items, m);
    RestStaysUntouched(p, p1, p', items, m);
  }

  lemma {:induction false} OneMoreAndNext(p: Plant, p1: Plant, p': Plant, items: seq<Item>, m: nat)
    requires Accepted(p, items, p1) && FirstAndNext(p1, p', items[1..], m)
    ensures FirstAndNext(p, p', items, m + 1)
  {
    FirstStillHolds(p1, p', items, m + 1);
    FirstAndRestHold(p', items, m);
    RestStaysUntouched(p, p1, p', items, m + 1);
    assert items[1..][m] == items[m + 1];
    if RestUntouched(p1, p', items[1..], m) {
      RestStaysUntouched(p, p1, p', items, m);
    }
  }

  lemma FirstAndRestHold(p: Plant, items: seq<Item>, m: nat)
    requires items != [] && Holds(p, items[0]) && HoldsFirst(p, items[1..], m)
    ensures HoldsFirst(p, items, m + 1)
  {
    forall i | 0 <= i < m + 1 && i < |items|
      ensures Holds(p, items[i])
    {
      assert i > 0 ==> items[1..][i - 1] == items[i];
    }
  }

  lemma {:induction false} FirstStillHolds(p1: Plant, p': Plant, items: seq<Item>, m: nat)
    requires items != [] && Holds(p1, items[0]) && Apart(items) && m < |items|
    requires ValidPlant(p1) && Fits(p1, WriteJob([items[0]]))
    requires RestUntouched(p1, p', items[1..], m)
    ensures Holds(p', items[0])
  {
    var item := items[0];
    var c := item.record.key.command;
    OthersSpare(items, m);
    assert SameOn(p1.store[c], p'.store[c], Footprint(item));
    InscribedSame(p1.store[c], p'.store[c], item);
    assert item in [item];
    if Faithful(item.value, item.record) {
      WellFormedIsFrame(p1.store[c], c);
      InscribedReads(p'.store[c], item);
    }
  }

  lemma OthersSpare(items: seq<Item>, m: nat)
    requires items != [] && Apart(items)
    ensures SparedByFirst(items[1..], m, items[0].record.key.command, Footprint(items[0]))
  {
    forall i | 0 <= i < m && i < |items[1..]| && items[1..][i].record.key.command == items[0].record.key.command
      ensures Spares(items[1..][i], Footprint(items[0]))
    {
      assert ApartFrom(items[0], items[i + 1]);
    }
  }

  lemma {:induction false} RestStaysUntouched(p: Plant, p1: Plant, p': Plant, items: seq<Item>, m: nat)
    requires ValidPlant(p) && items != [] && Fits(p, WriteJob([items[0]])) && m < |items|
    requires p1 == Apply(p, WriteJob([items[0]])).0 && p1.store.Keys == p.store.Keys
    requires RestUntouched(p1, p', items[1..], m)
    ensures RestUntouched(p, p', items, m + 1)
  {
    forall c, zone {:trigger SparedByFirst(items, m + 1, c, zone)} |
      c in p.store && SparedByFirst(items, m + 1, c, zone)
      ensures SameOn(p.store[c], p'.store[c], zone)
    {
      ZoneStays(p, p1, p', items, m, c, zone);
    }
    forall c | c in p.store && forall i :: 0 <= i < m + 1 && i < |items| ==> items[i].record.key.command != c
      ensures p'.store[c] == p.store[c]
    {
      RegisterStays(p, p1, p', items, m, c);
    }
  }

  lemma {:induction false} ZoneStays(p: Plant, p1: Plant, p': Plant, items: seq<Item>, m: nat, c: Command, zone: Zone)
    requires ValidPlant(p) && items != [] && Fits(p, WriteJob([items[0]])) && m < |items|
    requires p1 == Apply(p, WriteJob([items[0]])).0 && p1.store.Keys == p.store.Keys
    requires RestUntouched(p1, p', items[1..], m)
    requires c in p.store && SparedByFirst(items, m + 1, c, zone)
    ensures SameOn(p.store[c], p'.store[c], zone)
  {
    SparedByAll(items, m, c, zone);
    JobKeepsZone(p, WriteJob([items[0]]), c, zone);
    SameOnTransitive(p.store[c], p1.store[c], p'.store[c], zone);
  }

  lemma SparedByAll(items: seq<Item>, m: nat, c: Command, zone: Zone)
    requires items != [] && SparedByFirst(items, m + 1, c, zone)
    ensures Leaves(WriteJob([items[0]]), c, zone) && SparedByFirst(items[1..], m, c, zone)
  {
    forall i | 0 <= i < m && i < |items[1..]| && items[1..][i].record.key.command == c
      ensures Spares(items[1..][i], zone)
    {
      assert items[1..][i] == items[i + 1];
    }
  }

  lemma {:induction false} RegisterStays(p: Plant, p1: Plant, p': Plant, items: seq<Item>, m: nat, c: Command)
    requires items != [] && m < |items| && Known(p, WriteJob([items[0]]))
    requires p1 == Apply(p, WriteJob([items[0]])).0 && p1.store.Keys == p.store.Keys
    requires RestUntouched(p1, p', items[1..], m)
    requires c in p.store && forall i :: 0 <= i < m + 1 && i < |items| ==> items[i].record.key.command != c
    ensures p'.store[c] == p.store[c]
  {
    assert items[0].record.key.command != c && p1.store[c] == p.store[c];
    forall i | 0 <= i < m && i < |items[1..]|
      ensures items[1..][i].record.key.command != c
    {
      assert items[1..][i] == items[i + 1];
    }
  }

  // ------------------------------------------------ all fields in one frame

  // The records of the request that are clock fields, with their values.
  function ClockItems(records: seq<Channel>, now: map<string, int>): seq<Item> {
    if records == [] then []
    else
      ClockItems(Front(records), now)
      + (if Last(records).id in now then [Item(IntV(now[Last(records).id]), Last(records))] else [])
  }

  function Claimed(records: seq<Channel>, now: map<string, int>): Dict {
    if records == [] then []
    else if Last(records).id in now then
      Put(Claimed(Front(records), now), Last(records).id, IntV(now[Last(records).id]))
    else Claimed(Front(records), now)
  }

  // Reads the frame, composes all fields and sets it. What the device answers
  // to the set frame is not looked at.
  function WriteFrame(line: Line, request: Request, now: map<string, int>): (Line, Outcome) {
    var (line1, r) := Converse(line, GetTalk(request.key.command));
    if r.Err? then (line1, Raised(r.error))
    else if !HeaderCheck(r.value) then (line1, Values([]))
    else SendClock(line1, request.records, now, r.value)
  }

  function SendClock(line: Line, records: seq<Channel>, now: map<string, int>, before: seq<byte>): (Line, Outcome) {
    var composed := ComposeAll(ClockItems(records, now), before);
    if composed.Err? then (line, Raised(composed.error))
    else
      var (line', answer) := Converse(line, Talk(Escape(composed.value), true));
      (line', if answer.Err? then Raised(answer.error) else Values(Claimed(records, now)))
  }

  method SetTimeViaFrame(connector: Connector, request: Request, now: map<string, int>) returns (r: Outcome)
    modifies connector.transport, connector.transport.simulator
    ensures (connector.Link(), r) == WriteFrame(old(connector.Link()), request, now)
  {
    var message := CreateRequestMessage(request.key.command, GET);
    var response := connector.GetData(message);
    if response.Err? {
      return Raised(response.error);
    }
    if !HeaderCheck(response.value) {
      return Values([]);
    }
    r := ComposeAndSend(connector, request.records, now, response.value);
  }

  method ComposeAndSend(connector: Connector, records: seq<Channel>, now: map<string, int>, before: seq<byte>)
    returns (r: Outcome)
    modifies connector.transport, connector.transport.simulator
    ensures (connector.Link(), r) == SendClock(old(connector.Link()), records, now, before)
  {
    var update := new byte[|before|](i requires 0 <= i < |before| => before[i]);
    assert update[..] == before;
    var composed := ComposeClock(update, records, now);
    if composed.Err? {
      return Raised(composed.error);
    }
    var message := AddDuplicatedBytes(update[..]);
    var answer := connector.SetData(message);
    if answer.Err? {
      return Raised(answer.error);
    }
    return Values(composed.value);
  }

  // The loop over the records of the request.
  method ComposeClock(update: array<byte>, records: seq<Channel>, now: map<string, int>)
    returns (r: Result<Dict, Error>)
    modifies update
    ensures match ComposeAll(ClockItems(records, now), old(update[..]))
            case Ok(u) => r == Ok(Claimed(records, now)) && update[..] == u
            case Err(e) => r == Err(e)
  {
    var written: Dict := [];
    for i := 0 to |records|
      invariant written == Claimed(records[..i], now)
      invariant ComposeAll(ClockItems(records[..i], now), old(update[..])) == Ok(update[..])
    {
      var record := records[i];
      assert Front(records[..i + 1]) == records[..i] && Last(records[..i + 1]) == record;
      if record.id in now {
        var item := Item(IntV(now[record.id]), record);
        ComposeOneMore(ClockItems(records[..i], now), item, old(update[..]));
        var composed := ComposeRecord(item.value, update, record);
        if composed.Err? {
          ClockPrefix(records, now, i + 1, old(update[..]));
          return Err(composed.error);
        }
        written := Put(written, record.id, item.value);
      } else {
        assert ClockItems(records[..i + 1], now) == ClockItems(records[..i], now);
      }
    }
    assert records[..|records|] == records;
    return Ok(written);
  }

  lemma {:induction false} ComposeOneMore(items: seq<Item>, item: Item, f: seq<byte>)
    ensures ComposeAll(items + [item], f) ==
            var before := ComposeAll(items, f);
            if before.Err? then before else Compose(item.value, before.value, item.record)
  {
    if items == [] {
      var one := Compose(item.value, f, item.record);
      assert (items + [item])[1..] == [];
      assert one.Ok? ==> ComposeAll([], one.value) == one;
    } else {
      assert (items + [item])[1..] == items[1..] + [item];
      var first := Compose(items[0].value, f, items[0].record);
      if first.Ok? {
        ComposeOneMore(items[1..], item, first.value);
      }
    }
  }

  // An error among the first records is the error of all.
  lemma {:induction false} ClockPrefix(records: seq<Channel>, now: map<string, int>, n: nat, f: seq<byte>)
    requires n <= |records| && ComposeAll(ClockItems(records[..n], now), f).Err?
    ensures ComposeAll(ClockItems(records, now), f) == ComposeAll(ClockItems(records[..n], now), f)
  {
    if n < |records| {
      assert Front(records)[..n] == records[..n];
      ClockPrefix(Front(records), now, n, f);
      var last := Last(records);
      if last.id in now {
        ComposeOneMore(ClockItems(Front(records), now), Item(IntV(now[last.id]), last), f);
      } else {
        assert ClockItems(records, now) == ClockItems(Front(records), now);
      }
    } else {
      assert records[..n] == records;
    }
  }

  // The frame write reports the same values whether the device takes the set
  // frame or refuses it. Only if it takes it do the registers hold them.
  lemma {:induction false} ClockReport(line: Line, p: Plant, request: Request, now: map<string, int>, item: Item)
    requires Quiet(line, p) && ValidPlant(p)
    requires var items := ClockItems(request.records, now);
             && item in items && Fits(p, WriteJob(items)) && Delivers(p, items)
             && AllInRange(items) && AllDisjoint(items)
             && WriteJob(items).Command() == request.key.command
    requires Faithful(item.value, item.record)
    ensures var c := request.key.command;
            var composed := ComposeAll(ClockItems(request.records, now), p.store[c]);
            var (line', outcome) := WriteFrame(line, request, now);
            && outcome == Values(Claimed(request.records, now))
            && composed.Ok? && |composed.value| >= 5
            && if p.refuses(composed.value).Some? then Quiet(line', p)
               else Quiet(line', p.(store := p.store[c := Stored(composed.value)]))
                    && ParseRecord(Stored(composed.value), item.record) == Ok(item.value)
  {
    var c := request.key.command;
    var items := ClockItems(request.records, now);
    var f := p.store[c];
    WellFormedIsFrame(f, c);
    ComposeAllStores(items, f);
    ComposedLength(items, f);
    var u := ComposeAll(items, f).value;
    ComposedIsUpdate(items, f, c);
    ClockExchange(line, p, request, now, u);
    assert Placed(item, |f|);
    ComposedValuesReadBack(items, f, item);
    StoredReadsSame(u, item.record);
  }

  lemma {:induction false} ClockExchange(line: Line, p: Plant, request: Request, now: map<string, int>, u: seq<byte>)
    requires Quiet(line, p) && ValidPlant(p)
    requires var c := request.key.command;
             && c in p.store && IsUpdate(u, p.store[c], c) && BestMatch(p.commands, u) == Some(c)
             && ComposeAll(ClockItems(request.records, now), p.store[c]) == Ok(u)
    ensures var (line', outcome) := WriteFrame(line, request, now);
            && outcome == Values(Claimed(request.records, now))
            && Quiet(line', AfterSet(p, request.key.command, u))
  {
    var c := request.key.command;
    GetReturnsStored(line, p, c);
    WellFormedIsFrame(p.store[c], c);
    SetStores(Converse(line, GetTalk(c)).0, p, c, u);
  }
}
