// The simulated heat pump: simulator.py, HeatPumpSimulator.

module Simulator {
  import opened Bytes
  import opened Bits
  import opened Escaping
  import opened Framing
  import opened Checksums
  import opened Models
  import opened Records
  import opened Config
  import opened Devices
  import opened Plants

  class HeatPumpSimulator {
    const channels: seq<Channel>
    const requests: seq<Request>
    // Set frames the device refuses: none in the simulator proper.
    const refuses: Policy
    var commands: seq<Command>
    var store: Registers
    var state: Phase
    var frameBuffer: seq<byte>
    var pending: seq<byte>

    // The device this object is.
    ghost function View(): Device
      reads this
    {
      Device(state, frameBuffer, pending, Plant(store, commands, refuses))
    }

    constructor (channels: seq<Channel>, requests: seq<Request>, refuses: Policy)
      requires Buildable(requests)
      ensures this.channels == channels && this.requests == requests
      ensures View() == Device(Idle, [], [], InitialPlant(requests, refuses))
    {
      this.channels := channels;
      this.requests := requests;
      this.refuses := refuses;
      commands, store := [], map[];
      state, frameBuffer, pending := Idle, [], [];
      new;
      for i := 0 to |requests|
        invariant this.channels == channels && this.requests == requests && this.refuses == refuses
        invariant commands == CommandsOf(requests[..i])
        invariant Buildable(requests[..i]) && store == StoreOf(requests[..i])
        invariant state == Idle && frameBuffer == [] && pending == []
      {
        var request := requests[i];
        var key := request.key;
        assert Front(requests[..i + 1]) == requests[..i] && Last(requests[..i + 1]) == request;
        store := store[key.command := BuildFrame(request.records, key.command).value];
        commands := AddCommand(commands, key.command);
        if key.command2.Some? {
          store := store[key.command2.value := BuildFrame(request.records, key.command2.value).value];
          commands := AddCommand(commands, key.command2.value);
        }
      }
      assert requests[..|requests|] == requests;
    }

    // Seeds the values a channel reports next, a version by default, up to the
    // first that raises.
    method Seed(seeds: Seeds, version: Value) returns (failed: Option<Error>)
      requires AllSeedable(store, requests)
      modifies this`store
      ensures (store, failed) == SeedAll(old(store), channels, requests, WithVersion(seeds, version))
    {
      var all := WithVersion(seeds, version);
      for i := 0 to |all|
        invariant AllSeedable(store, requests)
        invariant SeedAll(store, channels, requests, all[i..]) == SeedAll(old(store), channels, requests, all)
      {
        assert all[i..][0] == all[i] && all[i..][1..] == all[i + 1..];
        ghost var before := store;
        failed := SetValue(all[i].0, all[i].1);
        if failed.Some? {
          return;
        }
        ShapeKeepsSeedable(before, store, requests);
      }
      return None;
    }

    // Seeds the value a channel reports next.
    method SetValue(id: string, value: Value) returns (failed: Option<Error>)
      requires AllSeedable(store, requests)
      modifies this`store
      ensures (store, failed) == SetById(old(store), channels, requests, id, value)
    {
      var found := ChannelById(channels, id);
      var request := RequestFor(requests, id);
      if found.None? || request.None? {
        return None;
      }
      assert Seedable(store, request.value.key);
      failed := SetIn(request.value.key, found.value, value);
    }

    method SetIn(key: RequestKey, record: Channel, value: Value) returns (failed: Option<Error>)
      requires Seedable(store, key)
      modifies this`store
      ensures (store, failed) == SetRegisters(old(store), key, record, value)
    {
      var frame: seq<byte>;
      if key.command2.Some? && !value.BoolV? {
        var number := ToInt(value);
        frame, failed := Encode(store[key.command], record, IntV(number % 1000));
        store := store[key.command := frame];
        if failed.Some? {
          return;
        }
        frame, failed := Encode(store[key.command2.value], record, IntV(number / 1000));
        store := store[key.command2.value := frame];
        if failed.Some? {
          return;
        }
        frame := Restore(frame);
        store := store[key.command2.value := frame];
        frame := Restore(store[key.command]);
        store := store[key.command := frame];
      } else {
        frame, failed := Encode(store[key.command], record, value);
        if failed.None? {
          frame := Restore(frame);
        }
        store := store[key.command := frame];
      }
    }

    // Encodes a value into a frame.
    static method Encode(frame: seq<byte>, record: Channel, value: Value)
      returns (r: seq<byte>, failed: Option<Error>)
      ensures (r, failed) == Encoded(value, frame, record)
    {
      r, failed := frame, None;
      var p := record.position;
      if value.BoolV? {
        if p >= |r| {
          return r, Some(Crash);
        }
        r := r[p := if record.bitPosition > 0 then SetBit(r[p], record.bitPosition, value.on)
                    else if value.on then 1 else 0];
        return;
      }
      if value.FloatV? && record.scale == 0.0 {
        return r, Some(Crash);
      }
      var short := RawValue(value, record);
      if record.length == 1 {
        if p >= |r| {
          return r, Some(Crash);
        }
        r := r[p := LowByte(short)];
      } else if record.length == 2 {
        if p >= |r| {
          return r, Some(Crash);
        }
        r := r[p := HighByte(short)];
        if p + 1 >= |r| {
          return r, Some(Crash);
        }
        r := r[p + 1 := LowByte(short)];
      }
    }

    // Restores the get byte and the checksum.
    static method Restore(frame: seq<byte>) returns (r: seq<byte>)
      requires |frame| >= 5
      ensures r == Stored(frame)
    {
      r := frame[1 := GET];
      var checksum := CalculateChecksum(r);
      r := r[2 := checksum.value];
    }

    method Feed(data: seq<byte>) returns (out: seq<byte>)
      modifies this
      ensures (View(), out) == Devices.Feed(old(View()), data)
    {
      out := [];
      assert data[0..] == data && [] + Devices.Feed(View(), data).1 == Devices.Feed(View(), data).1;
      for i := 0 to |data|
        invariant var (d, rest) := Devices.Feed(View(), data[i..]);
                  (d, out + rest) == Devices.Feed(old(View()), data)
      {
        assert data[i..][0] == data[i] && data[i..][1..] == data[i + 1..];
        var answer := FeedByte(data[i]);
        ghost var rest := Devices.Feed(View(), data[i + 1..]).1;
        assert out + (answer + rest) == (out + answer) + rest;
        out := out + answer;
      }
      assert data[|data|..] == [] && out + [] == out;
    }

    method FeedByte(b: byte) returns (out: seq<byte>)
      modifies this
      ensures (View(), out) == Devices.FeedByte(old(View()), b)
    {
      match state
      case Idle =>
        if b == START_COMMUNICATION {
          state := Collecting;
          frameBuffer := [];
          return [ESCAPE];
        }
        return [];
      case Collecting =>
        frameBuffer := frameBuffer + [b];
        var end := IsFrameEnd(frameBuffer, |frameBuffer|);
        assert frameBuffer[..|frameBuffer|] == frameBuffer;
        if |frameBuffer| >= 6 && end {
          pending := Unescape(frameBuffer);
          state := AwaitAck;
          return DATA_AVAILABLE;
        }
        return [];
      case AwaitAck =>
        if b == ESCAPE {
          var response := BuildResponse(pending);
          state := Idle;
          if response.Err? {
            return [];
          }
          out := AddDuplicatedBytes(response.value);
          return;
        }
        return [];
    }

    // The answer to a frame. On a set frame without room for a checksum the
    // calculation of one raises; such a frame is never taken in.
    method BuildResponse(frame: seq<byte>) returns (r: Result<seq<byte>, Error>)
      modifies this`store
      ensures if ShortSet(old(View().plant), frame) then r == Err(InvalidData) && View() == old(View())
              else r.Ok? && (View().plant, r.value) == Respond(old(View().plant), frame)
    {
      if |frame| < 4 {
        return Ok([HEADER_START, GET, 0x00, 0x00] + FOOTER);
      }
      var match_ := MatchCommand(commands, frame);
      if match_.None? {
        return Ok(Frame(0x03, if |frame| > 4 then frame[3..4] else [0x00]));
      }
      var command := match_.value;
      if frame[1] == SET {
        if |frame| < 5 {
          return Err(InvalidData);
        }
        var refusal := refuses(frame);
        if refusal.Some? {
          return Ok(Frame(refusal.value, command));
        }
        var updated := frame[1 := GET];
        var checksum := CalculateChecksum(updated);
        updated := updated[2 := checksum.value];
        store := store[command := updated];
        return Ok(Frame(SET, command));
      }
      return Ok(if command in store then store[command] else []);
    }
  }
}
