// Reading requests and writing values with retries: communication.py,
// CommunicationService.

module Communication {
  import opened Bytes
  import opened Escaping
  import opened Checksums
  import opened Records
  import opened Composition
  import opened Config
  import opened Readings
  import opened Conversation
  import opened Jobs
  import opened Connectors

  class CommunicationService {
    const connector: Connector

    constructor (connector: Connector)
      ensures this.connector == connector
    {
      this.connector := connector;
    }

    ghost function Link(): Line
      reads connector.transport, connector.transport.simulator
    {
      connector.Link()
    }

    // Reads a request, with up to three attempts.
    method ReadRequest(request: Request) returns (r: Outcome)
      modifies connector.transport, connector.transport.simulator
      ensures (Link(), r) == Perform(old(Link()), ReadJob(request))
      ensures Verified(old(Link()), request, r)
      ensures Link().polls <= old(Link()).polls + 6 * 6180
    {
      ghost var job := ReadJob(request);
      ghost var start := Link();
      ReadSafety(start, request);
      var attempt := 1;
      while attempt <= MAX_TRIES
        invariant 1 <= attempt <= MAX_TRIES + 1
        invariant Perform(start, job) == Complete(Link(), job, Retry(job, attempt - 1), Greet)
      {
        var values := TryRead(request, attempt);
        if values.Ok? {
          return Values(values.value);
        }
        attempt := attempt + 1;
      }
      return Raised(ProtocolError);
    }

    // One attempt. A failure is the ProtocolError that makes the caller retry.
    method TryRead(request: Request, ghost attempt: nat) returns (r: Result<Dict, Error>)
      modifies connector.transport, connector.transport.simulator
      ensures var job := ReadJob(request);
              Complete(old(Link()), job, Talking(First(attempt), GetTalk(job.Command())), Greet) ==
              Complete(Link(), job, if r.Ok? then Finished(Values(r.value)) else Retry(job, attempt), Greet)
    {
      ghost var job := ReadJob(request);
      TalkStep(Link(), job, First(attempt), GetTalk(job.Command()));
      var message := CreateRequestMessage(request.key.command, GET);
      var response := connector.GetData(message);
      if response.Err? || !HeaderCheck(response.value) {
        Fails(request, First(attempt), response);
        return Err(ProtocolError);
      }
      FirstAdvances(request, attempt, response.value);
      if request.key.command2.None? {
        var values := ParseRecords(response.value, request.records, None);
        return Ok(values);
      }
      r := TryReadSecond(request, attempt, response.value);
    }

    method TryReadSecond(request: Request, ghost attempt: nat, response: seq<byte>) returns (r: Result<Dict, Error>)
      requires request.key.command2.Some?
      modifies connector.transport, connector.transport.simulator
      ensures var job := ReadJob(request);
              var work := Talking(Second(attempt, response), GetTalk(request.key.command2.value));
              Complete(old(Link()), job, work, Greet) ==
              Complete(Link(), job, if r.Ok? then Finished(Values(r.value)) else Retry(job, attempt), Greet)
    {
      ghost var stage := Second(attempt, response);
      TalkStep(Link(), ReadJob(request), stage, GetTalk(request.key.command2.value));
      var message := CreateRequestMessage(request.key.command2.value, GET);
      var response2 := connector.GetData(message);
      if response2.Err? || !HeaderCheck(response2.value) {
        Fails(request, stage, response2);
        return Err(ProtocolError);
      }
      SecondAdvances(request, attempt, response, response2.value);
      var values := ParseRecords(response, request.records, Some(response2.value));
      return Ok(values);
    }

    // Reads the current frame, composes the values into it and sets it.
    method WriteValues(items: seq<Item>) returns (r: Outcome)
      requires items != []
      modifies connector.transport, connector.transport.simulator
      ensures (Link(), r) == Perform(old(Link()), WriteJob(items))
    {
      ghost var job := WriteJob(items);
      var request := CreateRequestMessage(items[0].record.key.command, GET);
      TalkStep(Link(), job, Reading, GetTalk(job.Command()));
      var response := connector.GetData(request);
      if response.Err? {
        return Raised(response.error);
      }
      if request == response.value {
        return Values([]);
      }
      if response.value == [] {
        return Raised(ProtocolError);
      }
      r := ComposeAndSet(items, response.value);
    }

    // Composes into a copy of the frame that was read.
    method ComposeAndSet(items: seq<Item>, before: seq<byte>) returns (r: Outcome)
      requires items != []
      modifies connector.transport, connector.transport.simulator
      ensures (Link(), r) ==
              match ComposeAll(items, before)
              case Err(e) => (old(Link()), Raised(e))
              case Ok(u) =>
                Complete(old(Link()), WriteJob(items), Talking(Setting(u, before), Talk(Escape(u), true)), Greet)
    {
      var update := new byte[|before|](i requires 0 <= i < |before| => before[i]);
      assert update[..] == before;
      var composed := ComposeValues(items, update);
      if composed.Err? {
        return Raised(composed.error);
      }
      r := SetAndConfirm(items, update[..], before);
    }

    // Sets the composed frame and reports what the device then holds.
    method SetAndConfirm(items: seq<Item>, update: seq<byte>, before: seq<byte>) returns (r: Outcome)
      requires items != []
      modifies connector.transport, connector.transport.simulator
      ensures (Link(), r) == Complete(old(Link()), WriteJob(items),
                                      Talking(Setting(update, before), Talk(Escape(update), true)), Greet)
    {
      var message := AddDuplicatedBytes(update);
      TalkStep(Link(), WriteJob(items), Setting(update, before), Talk(message, true));
      var answer := connector.SetData(message);
      if answer.Err? {
        return Raised(answer.error);
      }
      var confirmed := HeaderCheck(answer.value);
      SettingAdvances(items, update, before, answer.value, confirmed);
      var values := ParseEach(if confirmed then update else before, items);
      if values.Err? {
        return Raised(values.error);
      }
      return if confirmed then Values(values.value) else Raised(NotConfirmed);
    }

    static method ParseEach(frame: seq<byte>, items: seq<Item>) returns (r: Result<Dict, Error>)
      ensures r == ParseItems(frame, items)
    {
      var d: Dict := [];
      for i := 0 to |items|
        invariant ParseItems(frame, items[..i]) == Ok(d)
      {
        assert Front(items[..i + 1]) == items[..i];
        var value := ParseRecord(frame, items[i].record);
        if value.Err? {
          ParseStopsAtError(frame, items, i + 1);
          return Err(value.error);
        }
        d := Put(d, items[i].record.id, value.value);
      }
      assert items[..|items|] == items;
      return Ok(d);
    }

    static lemma {:induction false} ParseStopsAtError(frame: seq<byte>, items: seq<Item>, n: nat)
      requires n <= |items| && ParseItems(frame, items[..n]).Err?
      ensures ParseItems(frame, items) == ParseItems(frame, items[..n])
    {
      if n < |items| {
        assert Front(items)[..n] == items[..n];
        ParseStopsAtError(frame, Front(items), n);
      } else {
        assert items[..n] == items;
      }
    }

    // Reads several requests into one dictionary; the first failure ends it.
    method ReadRequests(requests: seq<Request>) returns (r: Outcome)
      modifies connector.transport, connector.transport.simulator
      ensures (Link(), r) == Gather(old(Link()), ReadTask(requests), [])
    {
      var data: Dict := [];
      assert requests[0..] == requests;
      for i := 0 to |requests|
        invariant Gather(Link(), ReadTask(requests[i..]), data) == Gather(old(Link()), ReadTask(requests), [])
      {
        GatherReads(Link(), requests, i, data);
        var values := ReadRequest(requests[i]);
        if values.Raised? {
          return values;
        }
        data := Update(data, values.values);
      }
      GatherNothing(Link(), data);
      return Values(data);
    }
  }
}
