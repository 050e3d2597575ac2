// What setting the clock in one frame sends, stores and reports, whatever
// arrives: communication.py, _set_time_via_frame.

module Times {
  import opened Bytes
  import opened Bits
  import opened Escaping
  import opened Checksums
  import opened Models
  import opened Records
  import opened Composition
  import opened Config
  import opened Readings
  import opened Devices
  import opened Conversation
  import opened Exchange
  import opened Jobs
  import opened Zones
  import opened Writes
  import opened Clock

  type Time = map<string, int>

  // A record of the request is a field of the clock if the time has its id.
  predicate IsField(r: Channel, records: seq<Channel>, now: Time) {
    r in records && r.id in now
  }

  function Field(r: Channel, now: Time): Item
    requires r.id in now
  {
    Item(IntV(now[r.id]), r)
  }

  predicate FieldsPlaced(records: seq<Channel>, now: Time, n: nat) {
    forall r :: r in records && r.id in now ==> Placed(Field(r, now), n)
  }

  ghost predicate FieldsApart(records: seq<Channel>, now: Time) {
    forall a, b :: IsField(a, records, now) && IsField(b, records, now) && a != b ==>
      Disjoint(Field(a, now), Field(b, now))
  }

  predicate BeyondLimits(r: Channel, now: Time)
    requires r.id in now
  {
    (now[r.id] as real) < r.min || (now[r.id] as real) > r.max
  }

  predicate AnyField(records: seq<Channel>, now: Time) {
    exists r :: r in records && r.id in now
  }

  predicate AnyBeyond(records: seq<Channel>, now: Time) {
    exists r :: r in records && r.id in now && BeyondLimits(r, now)
  }

  // ----------------------------------------------------------- what is reported

  // Each field with its value, under its id, and nothing else.
  ghost predicate Reported(values: Dict, records: seq<Channel>, now: Time) {
    && DistinctKeys(values)
    && forall id :: Lookup(values, id) ==
                    if id in now && (exists r :: r in records && r.id == id) then Some(IntV(now[id])) else None
  }

  lemma {:induction false} ClaimedIsReported(records: seq<Channel>, now: Time)
    ensures Reported(Claimed(records, now), records, now)
  {
    if records != [] {
      var before, last := Claimed(Front(records), now), Last(records);
      ClaimedIsReported(Front(records), now);
      assert records == Front(records) + [last];
      forall id
        ensures Lookup(Claimed(records, now), id) ==
                if id in now && (exists r :: r in records && r.id == id) then Some(IntV(now[id])) else None
      {
        if last.id in now {
          LookupPut(before, last.id, IntV(now[last.id]), id);
        }
      }
      if last.id in now {
        PutKeepsDistinct(before, last.id, IntV(now[last.id]));
      }
    }
  }

  // ----------------------------------------------------------- the frame that is set

  lemma {:induction false} ClockItemsAreFields(records: seq<Channel>, now: Time, item: Item)
    ensures item in ClockItems(records, now)
            <==> IsField(item.record, records, now) && item == Field(item.record, now)
  {
    if records != [] {
      ClockItemsAreFields(Front(records), now, item);
      assert records == Front(records) + [Last(records)];
    }
  }

  // The frame f with the time in it: a valid set frame in which every field reads as
  // its value, if its record can represent it, and every bit outside the fields is
  // the one of f.
  ghost predicate HoldsTime(u: seq<byte>, f: seq<byte>, records: seq<Channel>, now: Time) {
    && |u| == |f| >= 5 && u[0] == f[0] && u[1] == 0x80 && u[|f| - 2..] == f[|f| - 2..]
    && (HeaderCheck(u) <==> f[0] == 0x01)
    && (forall r :: r in records && r.id in now && Faithful(IntV(now[r.id]), r) ==>
          ParseRecord(u, r) == Ok(IntV(now[r.id])))
    && (forall i, k :: 3 <= i < |f| && 0 <= k < 8
                       && (forall r :: IsField(r, records, now) ==> !CoveredBy(Field(r, now), i, k))
                       ==> Bit(u[i], k) == Bit(f[i], k))
  }

  lemma {:induction false} FieldsAreItems(records: seq<Channel>, now: Time, n: nat)
    requires FieldsPlaced(records, now, n)
    ensures AllPlaced(ClockItems(records, now), n)
    ensures AllInRange(ClockItems(records, now)) <==> !AnyBeyond(records, now)
    ensures AnyField(records, now) <==> ClockItems(records, now) != []
  {
    var items := ClockItems(records, now);
    forall item | item in items
      ensures Placed(item, n) && IsField(item.record, records, now) && item == Field(item.record, now)
    {
      ClockItemsAreFields(records, now, item);
    }
    forall r | IsField(r, records, now)
      ensures Field(r, now) in items
    {
      ClockItemsAreFields(records, now, Field(r, now));
    }
    if items != [] {
      assert items[0] in items;
    }
    if AnyBeyond(records, now) {
      var r :| r in records && r.id in now && BeyondLimits(r, now);
      assert IsField(r, records, now) && !InRange(Field(r, now).value, Field(r, now).record);
    }
  }

  lemma {:induction false} ItemsAreApart(records: seq<Channel>, now: Time)
    requires FieldsApart(records, now)
    ensures AllDisjoint(ClockItems(records, now))
  {
    var items := ClockItems(records, now);
    forall a, b | a in items && b in items && a != b
      ensures Disjoint(a, b)
    {
      ClockItemsAreFields(records, now, a);
      ClockItemsAreFields(records, now, b);
    }
  }

  lemma {:induction false} TimeIsComposed(records: seq<Channel>, now: Time, f: seq<byte>)
    requires |f| >= 5 && FieldsPlaced(records, now, |f|) && FieldsApart(records, now) && AnyField(records, now)
    ensures if AnyBeyond(records, now) then ComposeAll(ClockItems(records, now), f) == Err(OutOfRange)
            else ComposeAll(ClockItems(records, now), f).Ok?
                 && HoldsTime(ComposeAll(ClockItems(records, now), f).value, f, records, now)
  {
    var items := ClockItems(records, now);
    FieldsAreItems(records, now, |f|);
    ItemsAreApart(records, now);
    ComposeAllStores(items, f);
    if !AnyBeyond(records, now) {
      ComposedFrame(items, f);
      FieldsReadBack(records, now, f);
      BitsOutsideStay(records, now, f);
    }
  }

  lemma {:induction false} FieldsReadBack(records: seq<Channel>, now: Time, f: seq<byte>)
    requires var items := ClockItems(records, now);
             |f| >= 5 && AllPlaced(items, |f|) && AllDisjoint(items) && AllInRange(items)
    ensures forall r :: r in records && r.id in now && Faithful(IntV(now[r.id]), r) ==>
              var u := ComposeAll(ClockItems(records, now), f);
              u.Ok? && ParseRecord(u.value, r) == Ok(IntV(now[r.id]))
  {
    forall r | r in records && r.id in now && Faithful(IntV(now[r.id]), r)
      ensures var u := ComposeAll(ClockItems(records, now), f);
              u.Ok? && ParseRecord(u.value, r) == Ok(IntV(now[r.id]))
    {
      ClockItemsAreFields(records, now, Field(r, now));
      ComposedValuesReadBack(ClockItems(records, now), f, Field(r, now));
    }
  }

  lemma {:induction false} BitsOutsideStay(records: seq<Channel>, now: Time, f: seq<byte>)
    requires var items := ClockItems(records, now);
             |f| >= 5 && items != [] && AllPlaced(items, |f|) && AllInRange(items)
    ensures var u := ComposeAll(ClockItems(records, now), f);
            && u.Ok? && |u.value| == |f|
            && forall i, k :: 3 <= i < |f| && 0 <= k < 8
                              && (forall r :: IsField(r, records, now) ==> !CoveredBy(Field(r, now), i, k))
                              ==> Bit(u.value[i], k) == Bit(f[i], k)
  {
    var items := ClockItems(records, now);
    ComposedFrame(items, f);
    forall i, k | 3 <= i < |f| && 0 <= k < 8
                  && (forall r :: IsField(r, records, now) ==> !CoveredBy(Field(r, now), i, k))
      ensures Bit(ComposeAll(items, f).value[i], k) == Bit(f[i], k)
    {
      forall item | item in items
        ensures !CoveredBy(item, i, k)
      {
        ClockItemsAreFields(records, now, item);
      }
    }
  }

  // ----------------------------------------------------------------- on any line

  function Ask(line: Line, request: Request): (Line, Result<seq<byte>, Error>) {
    Converse(line, Talk(RequestMessage(request.key.command), false))
  }

  // Without a valid frame to put the time into, no more is sent: a failed read is
  // raised, and an invalid frame is taken for a clock that cannot be set.
  lemma {:induction false} NoFrameNoTime(line: Line, request: Request, now: Time)
    ensures var (line1, r) := Ask(line, request);
            && (r.Err? ==> WriteFrame(line, request, now) == (line1, Raised(ProtocolError)))
            && (r.Ok? && !HeaderCheck(r.value) ==> WriteFrame(line, request, now) == (line1, Values([])))
  {
    ConversationError(line, Talk(RequestMessage(request.key.command), false), Greet);
  }

  // Behind a valid frame f the frame u is set, which is f with the time in it. The
  // time is reported unless that conversation fails; what the device answers is not
  // looked at.
  ghost predicate SetsTime(line: Line, request: Request, now: Time, f: seq<byte>, u: seq<byte>) {
    && HoldsTime(u, f, request.records, now)
    && var (line2, answer) := Converse(Ask(line, request).0, Talk(Escape(u), true));
       var (line', outcome) := WriteFrame(line, request, now);
       && line' == line2
       && if answer.Err? then outcome == Raised(ProtocolError)
          else outcome.Values? && Reported(outcome.values, request.records, now)
  }

  // Whatever arrives: with a valid frame that has room for the fields, the clock is
  // out of range exactly if a field is, with nothing sent, and otherwise set.
  lemma {:induction false} TimeIsSent(line: Line, request: Request, now: Time, f: seq<byte>)
    requires Ask(line, request).1 == Ok(f) && HeaderCheck(f)
    requires AnyField(request.records, now) && FieldsPlaced(request.records, now, |f|)
    requires FieldsApart(request.records, now)
    ensures if AnyBeyond(request.records, now)
            then WriteFrame(line, request, now) == (Ask(line, request).0, Raised(OutOfRange))
            else exists u :: SetsTime(line, request, now, f, u)
  {
    TimeIsComposed(request.records, now, f);
    if !AnyBeyond(request.records, now) {
      var u := ComposeAll(ClockItems(request.records, now), f).value;
      ConversationError(Ask(line, request).0, Talk(Escape(u), true), Greet);
      ClaimedIsReported(request.records, now);
      assert SetsTime(line, request, now, f, u);
    }
  }

  // A request without fields of the clock sends the frame back as it was read.
  lemma {:induction false} NoFieldNoTime(line: Line, request: Request, now: Time, f: seq<byte>)
    requires Ask(line, request).1 == Ok(f) && HeaderCheck(f) && !AnyField(request.records, now)
    ensures var (line2, answer) := Converse(Ask(line, request).0, Talk(Escape(f), true));
            WriteFrame(line, request, now) ==
            (line2, if answer.Err? then Raised(ProtocolError) else Values([]))
  {
    NoItems(request.records, now);
    ConversationError(Ask(line, request).0, Talk(Escape(f), true), Greet);
  }

  lemma {:induction false} NoItems(records: seq<Channel>, now: Time)
    requires !AnyField(records, now)
    ensures ClockItems(records, now) == [] && Claimed(records, now) == []
  {
    if records != [] {
      assert Last(records) in records && forall r :: r in Front(records) ==> r in records;
      NoItems(Front(records), now);
    }
  }

  // -------------------------------------------------------------- on a quiet plant

  // The set frame u holds the time, and is for the register c.
  lemma {:induction false} TimeIsUpdate(u: seq<byte>, f: seq<byte>, c: Command, records: seq<Channel>, now: Time)
    requires WellFormed(f, c) && HoldsTime(u, f, records, now)
    requires forall r :: IsField(r, records, now) ==> r.position >= 3 + |c|
    requires FieldsPlaced(records, now, |f|)
    ensures IsUpdate(u, f, c)
  {
    forall i | 3 <= i < 3 + |c|
      ensures u[i] == f[i]
    {
      forall k | 0 <= k < 8
        ensures Bit(u[i], k) == Bit(f[i], k)
      {
        assert forall r :: IsField(r, records, now) ==> !CoveredBy(Field(r, now), i, k);
      }
      assert SameBits(u, f, i);
      SameBitsSameByte(u, f, i);
    }
    assert u[3..3 + |c|] == f[3..3 + |c|];
    WellFormedIsFrame(f, c);
  }

  // On a quiet plant exactly one frame u is set. If it reaches its register and the
  // device takes it, the register reads as the time in every field, with every bit
  // outside the fields as before; if the device refuses it, no register changes.
  // The caller is told the time in both cases.
  lemma {:induction false} TimeIsSet(line: Line, p: Plant, request: Request, now: Time) returns (u: seq<byte>)
    requires Quiet(line, p) && ValidPlant(p) && request.key.command in p.store
    requires AnyField(request.records, now) && !AnyBeyond(request.records, now)
    requires FieldsPlaced(request.records, now, |p.store[request.key.command]|)
    requires FieldsApart(request.records, now)
    requires forall r :: IsField(r, request.records, now) ==> r.position >= 3 + |request.key.command|
    ensures HoldsTime(u, p.store[request.key.command], request.records, now)
    ensures BestMatch(p.commands, u) == Some(request.key.command) ==>
              var c := request.key.command;
              var (line', outcome) := WriteFrame(line, request, now);
              && Quiet(line', if p.refuses(u).None? then p.(store := p.store[c := Stored(u)]) else p)
              && StoresTime(u, request.records, now)
              && outcome.Values? && Reported(outcome.values, request.records, now)
              && line'.sent == line.sent + Transcript(RequestMessage(c)) + Transcript(Escape(u))
  {
    var c := request.key.command;
    var f := p.store[c];
    GetReturnsStored(line, p, c);
    WellFormedIsFrame(f, c);
    TimeIsSent(line, request, now, f);
    u :| SetsTime(line, request, now, f, u);
    TimeIsUpdate(u, f, c, request.records, now);
    TimeIsStored(u, f, request.records, now);
    if BestMatch(p.commands, u) == Some(c) {
      SetStores(Ask(line, request).0, p, c, u);
    }
  }

  // What is stored differs from the set frame in the header only.
  ghost predicate StoresTime(u: seq<byte>, records: seq<Channel>, now: Time) {
    && |u| >= 5 && Stored(u)[3..] == u[3..]
    && forall r :: r in records && r.id in now && Faithful(IntV(now[r.id]), r) ==>
         ParseRecord(Stored(u), r) == Ok(IntV(now[r.id]))
  }

  lemma {:induction false} TimeIsStored(u: seq<byte>, f: seq<byte>, records: seq<Channel>, now: Time)
    requires HoldsTime(u, f, records, now) && FieldsPlaced(records, now, |f|)
    ensures StoresTime(u, records, now)
  {
    forall r | r in records && r.id in now && Faithful(IntV(now[r.id]), r)
      ensures ParseRecord(Stored(u), r) == Ok(IntV(now[r.id]))
    {
      assert Placed(Field(r, now), |f|);
      StoredReadsSame(u, r);
    }
  }
}
