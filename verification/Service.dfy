// The facade: service.py, HeatPumpService, on top of all layers.

module Service {
  import opened Bytes
  import opened Models
  import opened Composition
  import opened Config
  import opened Readings
  import opened Devices
  import opened Conversation
  import opened Exchange
  import opened Plants
  import opened Calls
  import opened Batches
  import opened Replies
  import opened Seeding
  import opened Simulator
  import opened Transports
  import opened Connectors
  import opened Communication

  // The lock around each conversation is the subject of Locking and Callers;
  // here a call has the object to itself.
  class HeatPumpService {
    const channels: seq<Channel>
    const requests: seq<Request>
    const communication: CommunicationService

    ghost function Link(): Line
      reads communication.connector.transport, communication.connector.transport.simulator
    {
      communication.Link()
    }

    ghost predicate Ready() {
      requests == Group(channels)
    }

    constructor (channels: seq<Channel>, requests: seq<Request>, transport: Transport)
      requires requests == Group(channels)
      ensures Ready() && this.channels == channels
      ensures communication.connector.transport == transport
      ensures fresh(communication) && fresh(communication.connector)
    {
      this.channels := channels;
      this.requests := requests;
      var connector := new Connector(transport);
      communication := new CommunicationService(connector);
    }

    // A service on a simulated heat pump: a valid configuration starts quiet,
    // with the default version seeded and a well-formed frame for every command.
    static method OnSimulator(channels: seq<Channel>, version: Value, refuses: Policy)
      returns (service: HeatPumpService)
      requires ValidConfig(channels)
      ensures service.Ready() && service.channels == channels
      ensures Buildable(Group(channels)) && AllSeedable(StoreOf(Group(channels)), Group(channels))
      ensures Quiet(service.Link(), StartPlant(channels, [], version, refuses))
      ensures PlantFor(StartPlant(channels, [], version, refuses), channels)
    {
      StartPlantHasRoom(channels, [], version, refuses);
      var requests := GroupRequests(channels);
      var simulator := new HeatPumpSimulator(channels, requests, refuses);
      var failed := simulator.Seed([], version);
      var transport := new Transport.Simulated(simulator);
      service := new HeatPumpService(channels, requests, transport);
    }

    method ReadChannel(id: string) returns (r: Reply)
      requires Ready()
      modifies communication.connector.transport, communication.connector.transport.simulator
      ensures (Link(), r) == Serve(old(Link()), channels, Calls.ReadChannel(id))
    {
      var record := ChannelById(channels, id);
      if record.None? {
        return Refused(ChannelNotFound);
      }
      var request := RequestFor(requests, id);
      if request.None? {
        return Refused(ChannelNotFound);
      }
      ServeRead(Link(), channels, id);
      var data := communication.ReadRequest(request.value);
      if data.Raised? {
        return Refused(Failed(data.error));
      }
      var value := Lookup(data.values, id);
      if value.None? {
        return Refused(ChannelNotFound);
      }
      return Answer(value.value);
    }

    method WriteChannel(id: string, value: Value) returns (r: Reply)
      requires Ready()
      modifies communication.connector.transport, communication.connector.transport.simulator
      ensures (Link(), r) == Serve(old(Link()), channels, Calls.WriteChannel(id, value))
    {
      var record := ChannelById(channels, id);
      if record.None? {
        return Refused(ChannelNotFound);
      }
      if !record.value.Writable() {
        return Refused(ChannelNotWritable);
      }
      var coerced := Coerce(record.value, value);
      ServeWrite(Link(), channels, id, value);
      var data := communication.WriteValues([Item(coerced, record.value)]);
      if data.Raised? {
        return Refused(Failed(data.error));
      }
      var result := Lookup(data.values, id);
      return Answer(if result.Some? then result.value else coerced);
    }

    // Every id must be known; the results come in the order they were read.
    method ReadChannels(ids: seq<string>) returns (r: Reply)
      requires Ready()
      modifies communication.connector.transport, communication.connector.transport.simulator
      ensures (Link(), r) == Serve(old(Link()), channels, Calls.ReadChannels(ids))
    {
      var known := AllKnown(ids);
      if !known {
        return Refused(ChannelNotFound);
      }
      ServeMany(Link(), channels, ids);
      var needed := NeededRequests(ids);
      var data := communication.ReadRequests(needed);
      if data.Raised? {
        return Refused(Failed(data.error));
      }
      var results := Select(data.values, ids);
      return Answers(results);
    }

    method AllKnown(ids: seq<string>) returns (known: bool)
      ensures known <==> forall i :: 0 <= i < |ids| ==> ChannelById(channels, ids[i]).Some?
    {
      for i := 0 to |ids|
        invariant forall j :: 0 <= j < i ==> ChannelById(channels, ids[j]).Some?
      {
        if ChannelById(channels, ids[i]).None? {
          return false;
        }
      }
      return true;
    }

    static method Select(data: Dict, ids: seq<string>) returns (results: Dict)
      ensures results == Wanted(data, ids)
    {
      results := [];
      for i := 0 to |data|
        invariant results == Wanted(data[..i], ids)
      {
        assert Front(data[..i + 1]) == data[..i];
        if data[i].0 in ids {
          results := results + [data[i]];
        }
      }
      assert data[..|data|] == data;
    }

    method NeededRequests(ids: seq<string>) returns (needed: seq<Request>)
      ensures needed == RequestsFor(requests, ids)
    {
      needed := [];
      for i := 0 to |ids|
        invariant needed == RequestsFor(requests, ids[..i])
      {
        assert Front(ids[..i + 1]) == ids[..i];
        var request := RequestFor(requests, ids[i]);
        if request.Some? && request.value !in needed {
          needed := needed + [request.value];
        }
      }
      assert ids[..|ids|] == ids;
    }
  }
}
