// The limits of a channel and what is sent for a write: parser.py,
// compose_record, and communication.py, _write_values.

module Ranges {
  import opened Bytes
  import opened Escaping
  import opened Checksums
  import opened Records
  import opened Composition
  import opened Devices
  import opened Conversation
  import opened Exchange
  import opened Jobs
  import opened Refinement
  import opened Writes

  // A number below the lower or above the upper limit of its record; a bool is
  // never checked.
  predicate Beyond(item: Item) {
    match item.value
    case BoolV(_) => false
    case IntV(n) => (n as real) < item.record.min || (n as real) > item.record.max
    case FloatV(x) => x < item.record.min || x > item.record.max
  }

  // The value does not fit a frame of n bytes.
  predicate Misfits(item: Item, n: nat) {
    var p := item.record.position;
    match item.value
    case BoolV(_) => p >= n
    case IntV(_) => (item.record.length == 1 && p >= n) || (item.record.length == 2 && p + 1 >= n)
    case FloatV(_) =>
      item.record.scale == 0.0 || (item.record.length == 1 && p >= n) || (item.record.length == 2 && p + 1 >= n)
  }

  // Every way composing a value can fail.
  lemma ComposingFails(item: Item, f: seq<byte>)
    ensures var r := Compose(item.value, f, item.record);
            && (r == Err(OutOfRange) <==> |f| >= 2 && Beyond(item))
            && (r == Err(Crash) <==> |f| < 2 || (!Beyond(item) && Misfits(item, |f|)))
            && (r == Err(InvalidData) <==> 2 <= |f| < 5 && !Beyond(item) && !Misfits(item, |f|))
            && (r.Ok? <==> |f| >= 5 && !Beyond(item) && !Misfits(item, |f|))
  {
  }

  lemma ComposeAllOne(item: Item, f: seq<byte>)
    ensures ComposeAll([item], f) == Compose(item.value, f, item.record)
  {
    var g := Compose(item.value, f, item.record);
    assert g.Ok? ==> ComposeAll([item][1..], g.value) == g;
  }

  // Whatever arrives, a write is out of range exactly if a frame comes that is not
  // its own request and the number is beyond the limits. Then nothing is set.
  lemma {:induction false} OutOfRangeExactly(line: Line, item: Item)
    ensures var (line1, r) := Fetch(line, [item]);
            var (line', outcome) := Perform(line, WriteJob([item]));
            && (outcome == Raised(OutOfRange) <==>
                  r.Ok? && |r.value| >= 2 && !Echoed(line, [item]) && Beyond(item))
            && (outcome == Raised(OutOfRange) ==> line' == line1)
  {
    NothingFetched(line, [item]);
    var r := Fetch(line, [item]).1;
    if r.Ok? {
      ComposingFails(item, r.value);
      ComposeAllOne(item, r.value);
    }
    if Composed(line, [item]) {
      SetExactly(line, [item]);
    } else {
      NotComposed(line, [item]);
    }
  }

  // On a quiet plant, a write of any number of values is out of range exactly if
  // one of them is beyond its limits. Then no register has changed, and no more was
  // sent than the request.
  lemma {:induction false} QuietOutOfRange(line: Line, p: Plant, items: seq<Item>)
    requires Quiet(line, p) && ValidPlant(p) && items != [] && Sits(p, WriteJob(items))
    requires RegisterSafe(items[0].record.key.command)
    ensures var (line', outcome) := Perform(line, WriteJob(items));
            && (outcome == Raised(OutOfRange) <==> exists item :: item in items && Beyond(item))
            && (outcome == Raised(OutOfRange) ==>
                  && Quiet(line', p)
                  && line'.sent == line.sent + Transcript(RequestMessage(items[0].record.key.command)))
  {
    var c := items[0].record.key.command;
    GetReturnsStored(line, p, c);
    FrameIsNotRequest(p, items);
    WellFormedIsFrame(p.store[c], c);
    ComposeAllStores(items, p.store[c]);
    RangeOfAll(items);
    if AllInRange(items) {
      SetExactly(line, items);
    } else {
      NotComposed(line, items);
    }
  }

  lemma RangeOfAll(items: seq<Item>)
    ensures AllInRange(items) <==> !exists item :: item in items && Beyond(item)
  {
    forall item | item in items
      ensures InRange(item.value, item.record) <==> !Beyond(item)
    {
    }
  }

  // The frame that is then set: the one read, with the values in it.
  lemma {:induction false} QuietFrame(line: Line, p: Plant, items: seq<Item>)
    requires Quiet(line, p) && ValidPlant(p) && items != [] && Sits(p, WriteJob(items))
    requires RegisterSafe(items[0].record.key.command) && forall item :: item in items ==> !Beyond(item)
    ensures var c := items[0].record.key.command;
            && AllPlaced(items, |p.store[c]|) && |p.store[c]| >= 5
            && Composed(line, items) && Fetch(line, items).1 == Ok(p.store[c])
            && SetFrame(line, items) == WithChecksum(StoreAll(items, p.store[c][1 := 0x80]))
  {
    var c := items[0].record.key.command;
    GetReturnsStored(line, p, c);
    FrameIsNotRequest(p, items);
    WellFormedIsFrame(p.store[c], c);
    ComposeAllStores(items, p.store[c]);
    RangeOfAll(items);
  }

  // Exactly one frame is set.
  lemma {:induction false} QuietWriteSends(line: Line, p: Plant, items: seq<Item>)
    requires Quiet(line, p) && ValidPlant(p) && items != [] && Sits(p, WriteJob(items))
    requires RegisterSafe(items[0].record.key.command) && Delivers(p, items)
    requires forall item :: item in items ==> !Beyond(item)
    ensures var c := items[0].record.key.command;
            && AllPlaced(items, |p.store[c]|) && |p.store[c]| >= 5
            && var u := WithChecksum(StoreAll(items, p.store[c][1 := 0x80]));
               Perform(line, WriteJob(items)).0.sent ==
               line.sent + Transcript(RequestMessage(c)) + Transcript(Escape(u))
  {
    var c := items[0].record.key.command;
    QuietFrame(line, p, items);
    SetExactly(line, items);
    GetReturnsStored(line, p, c);
    ComposedIsUpdate(items, p.store[c], c);
    SetStores(Fetch(line, items).0, p, c, SetFrame(line, items));
  }
}
