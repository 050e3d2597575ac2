// What a write leaves alone: bits of a register that it does not cover.

module Zones {
  import opened Bytes
  import opened Bits
  import opened Checksums
  import opened Models
  import opened Records
  import opened Composition
  import opened Readings
  import opened Devices
  import opened Exchange
  import opened Jobs
  import opened Refinement

  // Some bits of a frame, by byte and place.
  type Zone = (nat, nat) -> bool

  // The bits a record is decoded from, and those an item is written to.
  function ReadingZone(x: Channel): Zone {
    (i: nat, k: nat) => Reads(x, i, k)
  }

  function Footprint(item: Item): Zone {
    (i: nat, k: nat) => CoveredBy(item, i, k)
  }

  // The frames agree there, behind the checksum.
  ghost predicate SameOn(f: seq<byte>, g: seq<byte>, zone: Zone) {
    |f| == |g| && forall i, k :: 3 <= i < |f| && 0 <= k < 8 && zone(i, k) ==> Bit(f[i], k) == Bit(g[i], k)
  }

  ghost predicate Spares(item: Item, zone: Zone) {
    forall i: nat, k: nat :: k < 8 ==> !(CoveredBy(item, i, k) && zone(i, k))
  }

  // The job does not touch that zone of the register c.
  ghost predicate Leaves(job: Job, c: Command, zone: Zone) {
    job.Valid() && (job.WriteJob? && job.Command() == c ==> forall item :: item in job.items ==> Spares(item, zone))
  }

  lemma {:induction false} SameReading(f: seq<byte>, g: seq<byte>, x: Channel)
    requires x.position >= 3 && SameOn(f, g, ReadingZone(x))
    ensures ParseRecord(f, x) == ParseRecord(g, x)
  {
    forall i, k | 0 <= i < |f| && 0 <= k < 8 && Reads(x, i, k)
      ensures Bit(f[i], k) == Bit(g[i], k)
    {
      assert ReadingZone(x)(i, k);
    }
    ParseIsLocal(f, g, x);
  }

  lemma SameOnTransitive(f: seq<byte>, g: seq<byte>, h: seq<byte>, zone: Zone)
    requires SameOn(f, g, zone) && SameOn(g, h, zone)
    ensures SameOn(f, h, zone)
  {
  }

  // The stored form of a set frame differs from it in the header only.
  lemma StoredSameOn(u: seq<byte>, zone: Zone)
    requires |u| >= 5
    ensures SameOn(u, Stored(u), zone)
  {
  }

  lemma {:induction false} ComposedSameOn(items: seq<Item>, f: seq<byte>, zone: Zone)
    requires |f| >= 5 && items != [] && AllPlaced(items, |f|) && ComposeAll(items, f).Ok?
    requires forall item :: item in items ==> Spares(item, zone)
    ensures SameOn(f, ComposeAll(items, f).value, zone)
  {
    ComposeAllStores(items, f);
    ComposedFrame(items, f);
    var g := ComposeAll(items, f).value;
    forall i, k | 3 <= i < |f| && 0 <= k < 8 && zone(i, k)
      ensures Bit(f[i], k) == Bit(g[i], k)
    {
      assert forall item :: item in items ==> !CoveredBy(item, i, k);
    }
  }

  // A job leaves the bits it spares as they are.
  lemma {:induction false} JobKeepsZone(p: Plant, job: Job, c: Command, zone: Zone)
    requires ValidPlant(p) && job.Valid() && Sits(p, job) && c in p.store && Leaves(job, c, zone)
    ensures c in Apply(p, job).0.store && SameOn(p.store[c], Apply(p, job).0.store[c], zone)
  {
    if job.WriteJob? && job.Command() == c {
      var f := p.store[c];
      WellFormedIsFrame(f, c);
      var composed := ComposeAll(job.items, f);
      if composed.Ok? {
        ComposedLength(job.items, f);
        ComposedSameOn(job.items, f, zone);
        StoredSameOn(composed.value, zone);
        SameOnTransitive(f, composed.value, Stored(composed.value), zone);
      }
    }
  }

  // ------------------------------------------------------------- one write

  // The frame a single value makes of a stored one.
  function Updated(f: seq<byte>, item: Item): seq<byte>
    requires Placed(item, |f|) && |f| >= 5
  {
    WithChecksum(Store(item.value, f[1 := SET], item.record))
  }

  lemma {:induction false} ApplyOne(p: Plant, item: Item)
    requires ValidPlant(p) && Sits(p, WriteJob([item]))
    ensures var f := p.store[item.record.key.command];
            && |f| >= 5 && Placed(item, |f|)
            && var u := Updated(f, item);
               ComposeAll([item], f) == (if InRange(item.value, item.record) then Ok(u) else Err(OutOfRange))
               && Apply(p, WriteJob([item])) ==
                  if InRange(item.value, item.record)
                  then (AfterSet(p, item.record.key.command, u), Answered([item], u, f, p.refuses(u).None?))
                  else (p, Raised(OutOfRange))
  {
    var f := p.store[item.record.key.command];
    assert item in [item];
    WellFormedIsFrame(f, item.record.key.command);
    assert Placed(item, |f|);
    ComposeAllStores([item], f);
    StoreAllOne(item, f[1 := SET]);
    assert AllInRange([item]) <==> InRange(item.value, item.record);
  }

  lemma StoreAllOne(item: Item, f: seq<byte>)
    requires Placed(item, |f|)
    ensures AllPlaced([item], |f|) && StoreAll([item], f) == Store(item.value, f, item.record)
  {
    assert StoreAll([item][1..], Store(item.value, f, item.record)) == Store(item.value, f, item.record);
  }

  lemma ParseItem(f: seq<byte>, item: Item)
    ensures ParseItems(f, [item]) == match ParseRecord(f, item.record)
                                     case Err(e) => Err(e)
                                     case Ok(v) => Ok([(item.record.id, v)])
  {
    assert Front([item]) == [];
  }

  // The frame holds every bit of the item.
  ghost predicate Inscribed(f: seq<byte>, item: Item) {
    && (item.value.FloatV? ==> item.record.scale != 0.0)
    && forall i, k :: 3 <= i < |f| && 0 <= k < 8 && CoveredBy(item, i, k) ==>
         (Bit(f[i], k) <==> WrittenBit(item.value, item.record, i, k))
  }

  lemma InscribedSame(f: seq<byte>, g: seq<byte>, item: Item)
    requires Inscribed(f, item) && SameOn(f, g, Footprint(item))
    ensures Inscribed(g, item)
  {
    forall i, k | 3 <= i < |g| && 0 <= k < 8 && CoveredBy(item, i, k)
      ensures Bit(g[i], k) <==> WrittenBit(item.value, item.record, i, k)
    {
      assert Footprint(item)(i, k);
    }
  }

  // The frame is what an accepted write of the item left: it holds its bits,
  // and what the caller was told of its channel is what it reads as.
  ghost predicate WrittenBy(f: seq<byte>, item: Item, told: Outcome) {
    && Inscribed(f, item)
    && ParseRecord(f, item.record).Ok?
    && told.Values? && Lookup(told.values, item.record.id) == Some(ParseRecord(f, item.record).value)
  }

  // The other items of the write touch none of its bits and are for other
  // channels.
  ghost predicate Lasting(items: seq<Item>, item: Item) {
    && item in items && item.record.key.command == items[0].record.key.command
    && forall other :: other in items && other != item ==>
         Disjoint(other, item) && (other.record.id == item.record.id ==> other.record == item.record)
  }

  lemma OneIsLasting(item: Item)
    ensures Lasting([item], item)
  {
  }

  // The job writes the item, among others perhaps.
  ghost predicate WritesItem(job: Job, item: Item) {
    job.WriteJob? && job.Valid() && Lasting(job.items, item)
  }

  lemma ItemSits(p: Plant, job: Job, item: Item)
    requires WritesItem(job, item) && Sits(p, job)
    ensures Sits(p, WriteJob([item]))
  {
  }

  lemma {:induction false} ComposedIsInscribed(items: seq<Item>, f: seq<byte>, item: Item)
    requires |f| >= 5 && AllPlaced(items, |f|) && ComposeAll(items, f).Ok? && Lasting(items, item)
    ensures |ComposeAll(items, f).value| >= 5 && Inscribed(Stored(ComposeAll(items, f).value), item)
  {
    ComposeAllStores(items, f);
    var start := f[1 := SET];
    var stored := StoreAll(items, start);
    var g := Stored(ComposeAll(items, f).value);
    assert Placed(item, |f|);
    forall i, k | 3 <= i < |g| && 0 <= k < 8 && CoveredBy(item, i, k)
      ensures Bit(g[i], k) <==> WrittenBit(item.value, item.record, i, k)
    {
      assert g[i] == stored[i];
      BitOfItem(items, start, item, i, k);
    }
  }

  // Where the item writes, no other does.
  lemma {:induction false} BitOfItem(items: seq<Item>, f: seq<byte>, item: Item, i: nat, k: nat)
    requires AllPlaced(items, |f|) && Lasting(items, item) && i < |f| && k < 8 && CoveredBy(item, i, k)
    ensures item.value.FloatV? ==> item.record.scale != 0.0
    ensures Bit(StoreAll(items, f)[i], k) == WrittenBit(item.value, item.record, i, k)
  {
    assert Placed(item, |f|);
    StoreAllBits(items, f, i, k);
    if b :| b in items && CoveredBy(b, i, k) && Bit(StoreAll(items, f)[i], k) == WrittenBit(b.value, b.record, i, k) {
      assert b == item || Disjoint(b, item);
    }
  }

  // What the caller is told of a channel is what the frame holds.
  lemma {:induction false} ParsedItem(f: seq<byte>, items: seq<Item>, item: Item)
    requires ParseItems(f, items).Ok? && item in items
    requires forall other :: other in items && other.record.id == item.record.id ==> other.record == item.record
    ensures ParseRecord(f, item.record).Ok?
    ensures Lookup(ParseItems(f, items).value, item.record.id) == Some(ParseRecord(f, item.record).value)
  {
    var last := Last(items);
    assert items == Front(items) + [last];
    LookupPut(ParseItems(f, Front(items)).value, last.record.id, ParseRecord(f, last.record).value, item.record.id);
    if last.record.id != item.record.id {
      ParsedItem(f, Front(items), item);
    }
  }

  // Restoring the get byte does not touch a value.
  lemma StoredReadsSame(u: seq<byte>, x: Channel)
    requires |u| >= 5 && x.position >= 3
    ensures ParseRecord(Stored(u), x) == ParseRecord(u, x)
  {
    var g := Stored(u);
    if |u| >= x.position + x.length {
      assert g[x.position..x.position + x.length] == u[x.position..x.position + x.length];
    }
  }

  // An accepted write: whatever the values, the bits of each item are in the
  // register, and the caller is told what the register now reads as.
  lemma {:induction false} AcceptedIsWritten(p: Plant, job: Job, item: Item)
    requires ValidPlant(p) && WritesItem(job, item) && Sits(p, job)
    ensures var (p', told) := Apply(p, job);
            var c := item.record.key.command;
            c in p'.store && (told.Values? ==> WrittenBy(p'.store[c], item, told))
  {
    WriteOutcomes(p, job.items);
    ApplyKeepsLayout(p, job);
    if Apply(p, job).1.Values? {
      WrittenFrame(p.store[job.Command()], job.items, item);
    }
  }

  lemma {:induction false} WrittenFrame(f: seq<byte>, items: seq<Item>, item: Item)
    requires |f| >= 5 && AllPlaced(items, |f|) && ComposeAll(items, f).Ok? && Lasting(items, item)
    ensures |ComposeAll(items, f).value| >= 5
    ensures var u := ComposeAll(items, f).value;
            ParseItems(u, items).Ok? ==> WrittenBy(Stored(u), item, Values(ParseItems(u, items).value))
  {
    ComposedIsInscribed(items, f, item);
    var u := ComposeAll(items, f).value;
    assert Placed(item, |f|);
    if ParseItems(u, items).Ok? {
      ParsedItem(u, items, item);
      StoredReadsSame(u, item.record);
    }
  }

  // A frame that holds the bits of a value its record can represent reads as
  // that value.
  lemma {:induction false} InscribedReads(f: seq<byte>, item: Item)
    requires Placed(item, |f|) && |f| >= 5 && Inscribed(f, item) && Faithful(item.value, item.record)
    ensures ParseRecord(f, item.record) == Ok(item.value)
  {
    var g := Store(item.value, f, item.record);
    forall i, k | 0 <= i < |f| && 0 <= k < 8
      ensures Bit(g[i], k) == Bit(f[i], k)
    {
      StoreBits(item.value, f, item.record, i, k);
    }
    SameFrame(g, f);
    FaithfulReadsBack(item.value, f, item.record);
  }

  // What the caller is told is the value it wrote, if the record can represent
  // it.
  lemma {:induction false} FaithfulIsTold(p: Plant, item: Item)
    requires ValidPlant(p) && Sits(p, WriteJob([item])) && Faithful(item.value, item.record)
    ensures var told := Apply(p, WriteJob([item])).1;
            told.Values? ==> Lookup(told.values, item.record.id) == Some(item.value)
  {
    OneIsLasting(item);
    AcceptedIsWritten(p, WriteJob([item]), item);
    ApplyKeepsLayout(p, WriteJob([item]));
    assert item in [item];
    if Apply(p, WriteJob([item])).1.Values? {
      InscribedReads(Apply(p, WriteJob([item])).0.store[item.record.key.command], item);
    }
  }
}
