// Composing several values into one frame, as time programmes and the clock
// do: communication.py, _write_values and _set_time_via_frame.

module Composition {
  import opened Bytes
  import opened Bits
  import opened Checksums
  import opened Models
  import opened Records

  datatype Item = Item(value: Value, record: Channel)

  // The record lies between the checksum and the footer of a frame of n bytes.
  predicate Placed(item: Item, n: nat) {
    && 3 <= item.record.position
    && 1 <= item.record.length
    && item.record.position + item.record.length <= n - 2
    && item.record.scale != 0.0
  }

  predicate AllPlaced(items: seq<Item>, n: nat) {
    forall item :: item in items ==> Placed(item, n)
  }

  predicate CoveredBy(item: Item, i: nat, k: nat) {
    Covers(item.value, item.record, i, k)
  }

  ghost predicate Disjoint(a: Item, b: Item) {
    forall i: nat, k: nat :: k < 8 ==> !(CoveredBy(a, i, k) && CoveredBy(b, i, k))
  }

  ghost predicate AllDisjoint(items: seq<Item>) {
    forall a, b :: a in items && b in items && a != b ==> Disjoint(a, b)
  }

  function ComposeAll(items: seq<Item>, f: seq<byte>): Result<seq<byte>, Error> {
    if items == [] then Ok(f)
    else
      match Compose(items[0].value, f, items[0].record)
      case Err(e) => Err(e)
      case Ok(g) => ComposeAll(items[1..], g)
  }

  function StoreAll(items: seq<Item>, f: seq<byte>): (g: seq<byte>)
    requires AllPlaced(items, |f|)
    ensures |g| == |f|
  {
    if items == [] then f
    else
      assert Placed(items[0], |f|);
      StoreAll(items[1..], Store(items[0].value, f, items[0].record))
  }

  predicate AllInRange(items: seq<Item>) {
    forall item :: item in items ==> InRange(item.value, item.record)
  }

  // The checksum slot does not matter until the end.
  lemma {:induction false} StoreAllKeepsSlots(items: seq<Item>, f: seq<byte>, i: nat, x: byte)
    requires AllPlaced(items, |f|) && i < 3 && i < |f|
    ensures StoreAll(items, f[i := x]) == StoreAll(items, f)[i := x]
    ensures StoreAll(items, f)[i] == f[i]
  {
    if items != [] {
      assert Placed(items[0], |f|);
      var g := Store(items[0].value, f, items[0].record);
      assert Store(items[0].value, f[i := x], items[0].record) == g[i := x];
      StoreAllKeepsSlots(items[1..], g, i, x);
    }
  }

  // Composing item by item, with a checksum each time, is storing all values
  // and then recomputing the checksum once.
  lemma {:induction false} ComposeAllStores(items: seq<Item>, f: seq<byte>)
    requires |f| >= 5 && items != [] && AllPlaced(items, |f|)
    ensures ComposeAll(items, f) ==
            if AllInRange(items) then Ok(WithChecksum(StoreAll(items, f[1 := SET])))
            else Err(OutOfRange)
  {
    var first, rest := items[0], items[1..];
    assert Placed(first, |f|);
    assert items == [first] + rest;
    if InRange(first.value, first.record) {
      var g := Store(first.value, f[1 := SET], first.record);
      var c := WithChecksum(g);
      assert StoreAll(items, f[1 := SET]) == StoreAll(rest, g);
      if rest == [] {
        assert StoreAll(rest, g) == g;
        assert ComposeAll(rest, c) == Ok(c);
      } else {
        ComposeAllStores(rest, c);
        assert c[1 := SET] == c && c == g[2 := c[2]];
        StoreAllKeepsSlots(rest, g, 2, c[2]);
        WithChecksumAgain(StoreAll(rest, g), c[2]);
      }
    }
  }

  // A bit of the result is the bit some item wrote there, or the old one.
  lemma {:induction false} StoreAllBits(items: seq<Item>, f: seq<byte>, i: nat, k: nat)
    requires AllPlaced(items, |f|) && i < |f| && k < 8
    ensures var bit := Bit(StoreAll(items, f)[i], k);
            || (bit == Bit(f[i], k) && forall item :: item in items ==> !CoveredBy(item, i, k))
            || exists item :: item in items && CoveredBy(item, i, k)
                              && bit == WrittenBit(item.value, item.record, i, k)
  {
    if items != [] {
      var first := items[0];
      assert Placed(first, |f|);
      var g := Store(first.value, f, first.record);
      StoreBits(first.value, f, first.record, i, k);
      StoreAllBits(items[1..], g, i, k);
      assert items == [first] + items[1..];
      if CoveredBy(first, i, k) {
        assert first in items;
      }
    }
  }

  lemma {:induction false} SameFrame(f: seq<byte>, g: seq<byte>)
    requires |f| == |g|
    requires forall i, k :: 0 <= i < |f| && 0 <= k < 8 ==> Bit(f[i], k) == Bit(g[i], k)
    ensures f == g
  {
    forall i | 0 <= i < |f|
      ensures f[i] == g[i]
    {
      assert SameBits(f, g, i);
      SameBitsSameByte(f, g, i);
    }
  }

  // Two items that cover the same bit write the same there.
  lemma AgreeOnBit(items: seq<Item>, a: Item, b: Item, i: nat, k: nat)
    requires AllDisjoint(items) && a in items && b in items && k < 8
    requires CoveredBy(a, i, k) && CoveredBy(b, i, k)
    ensures a == b
  {
    assert a == b || Disjoint(a, b);
  }

  lemma {:induction false} StoreAnyOrder(items: seq<Item>, others: seq<Item>, f: seq<byte>)
    requires AllPlaced(items, |f|) && AllDisjoint(items) && AllPlaced(others, |f|)
    requires forall item :: item in items <==> item in others
    ensures StoreAll(items, f) == StoreAll(others, f)
  {
    var g, h := StoreAll(items, f), StoreAll(others, f);
    forall i, k | 0 <= i < |f| && 0 <= k < 8
      ensures Bit(g[i], k) == Bit(h[i], k)
    {
      StoreAllBits(items, f, i, k);
      StoreAllBits(others, f, i, k);
      if a :| a in items && CoveredBy(a, i, k) && Bit(g[i], k) == WrittenBit(a.value, a.record, i, k) {
        var b :| b in others && CoveredBy(b, i, k) && Bit(h[i], k) == WrittenBit(b.value, b.record, i, k);
        AgreeOnBit(items, a, b, i, k);
      }
    }
    SameFrame(g, h);
  }

  // Items with disjoint footprints can be composed in any order, and any
  // number of times: only the set of items matters.
  lemma {:induction false} ComposeAnyOrder(items: seq<Item>, others: seq<Item>, f: seq<byte>)
    requires |f| >= 5 && AllPlaced(items, |f|) && AllDisjoint(items)
    requires forall item :: item in items <==> item in others
    ensures ComposeAll(items, f) == ComposeAll(others, f)
  {
    assert items != [] ==> items[0] in others;
    assert others != [] ==> others[0] in items;
    if items != [] {
      ComposeAllStores(items, f);
      ComposeAllStores(others, f);
      if AllInRange(items) {
        StoreAnyOrder(items, others, f[1 := SET]);
      }
    }
  }

  // Storing an item again changes nothing.
  lemma {:induction false} ItemIsStored(items: seq<Item>, f: seq<byte>, item: Item)
    requires AllPlaced(items, |f|) && AllDisjoint(items) && item in items
    ensures Placed(item, |f|)
    ensures Store(item.value, StoreAll(items, f), item.record) == StoreAll(items, f)
  {
    assert Placed(item, |f|);
    var g := StoreAll(items, f);
    forall i, k | 0 <= i < |f| && 0 <= k < 8
      ensures Bit(Store(item.value, g, item.record)[i], k) == Bit(g[i], k)
    {
      StoreBits(item.value, g, item.record, i, k);
      StoreAllBits(items, f, i, k);
    }
    SameFrame(Store(item.value, g, item.record), g);
  }

  lemma {:induction false} StoreKeepsSlot(item: Item, f: seq<byte>, i: nat, x: byte)
    requires Placed(item, |f|) && i < 3
    ensures Store(item.value, f[i := x], item.record) == Store(item.value, f, item.record)[i := x]
  {
  }

  // Every item is decoded to its own value from the composed frame.
  lemma {:induction false} ComposedValuesReadBack(items: seq<Item>, f: seq<byte>, item: Item)
    requires |f| >= 5 && AllPlaced(items, |f|) && AllDisjoint(items) && AllInRange(items)
    requires item in items && Faithful(item.value, item.record)
    ensures ComposeAll(items, f).Ok?
    ensures ParseRecord(ComposeAll(items, f).value, item.record) == Ok(item.value)
  {
    var start := f[1 := SET];
    ComposeAllStores(items, f);
    var stored := StoreAll(items, start);
    var g := WithChecksum(stored);
    assert g == stored[2 := g[2]];
    ItemIsStored(items, start, item);
    StoreKeepsSlot(item, stored, 2, g[2]);
    assert Store(item.value, g, item.record) == g;
    FaithfulReadsBack(item.value, g, item.record);
  }

  // Where items do overlap, the last one stands.
  lemma {:induction false} LastItemStands(items: seq<Item>, f: seq<byte>, n: nat, i: nat, k: nat)
    requires AllPlaced(items, |f|) && n < |items| && i < |f| && k < 8 && CoveredBy(items[n], i, k)
    requires forall m :: n < m < |items| ==> !CoveredBy(items[m], i, k)
    ensures Placed(items[n], |f|)
    ensures Bit(StoreAll(items, f)[i], k) == WrittenBit(items[n].value, items[n].record, i, k)
  {
    assert items[0] in items && items[n] in items;
    var g := Store(items[0].value, f, items[0].record);
    if n > 0 {
      LastItemStands(items[1..], g, n - 1, i, k);
    } else {
      StoreBits(items[0].value, f, items[0].record, i, k);
      StoreAllBits(items[1..], g, i, k);
      forall item | item in items[1..]
        ensures !CoveredBy(item, i, k)
      {
        var m :| 0 <= m < |items| - 1 && items[1..][m] == item;
        assert items[m + 1] == item;
      }
    }
  }

  // The composed frame is a valid set frame, and every bit no item covers is
  // the one that was read, apart from the get byte and the checksum.
  lemma {:induction false} ComposedFrame(items: seq<Item>, f: seq<byte>)
    requires |f| >= 5 && items != [] && AllPlaced(items, |f|) && AllInRange(items)
    ensures ComposeAll(items, f).Ok?
    ensures var g := ComposeAll(items, f).value;
            && |g| == |f| && g[0] == f[0] && g[1] == SET && g[|f| - 2..] == f[|f| - 2..]
            && (HeaderCheck(g) <==> f[0] == HEADER_START)
            && forall i, k :: 3 <= i < |f| && 0 <= k < 8
                              && (forall item :: item in items ==> !CoveredBy(item, i, k))
                              ==> Bit(g[i], k) == Bit(f[i], k)
  {
    var start := f[1 := SET];
    ComposeAllStores(items, f);
    StoreAllKeepsSlots(items, start, 0, 0);
    StoreAllKeepsSlots(items, start, 1, 0);
    var g := WithChecksum(StoreAll(items, start));
    forall i, k | 3 <= i < |f| && 0 <= k < 8
      ensures (forall item :: item in items ==> !CoveredBy(item, i, k)) ==> Bit(g[i], k) == Bit(f[i], k)
    {
      StoreAllBits(items, start, i, k);
    }
    assert forall item :: item in items ==> Placed(item, |f|);
    UntouchedByte(items, start, |f| - 2);
    UntouchedByte(items, start, |f| - 1);
  }

  // Bytes outside the fields of all records stay as they are.
  lemma {:induction false} UntouchedByte(items: seq<Item>, f: seq<byte>, i: nat)
    requires AllPlaced(items, |f|) && i < |f|
    requires forall item :: item in items ==>
               i < item.record.position || i >= item.record.position + item.record.length
    ensures StoreAll(items, f)[i] == f[i]
  {
    if items != [] {
      assert Placed(items[0], |f|);
      UntouchedByte(items[1..], Store(items[0].value, f, items[0].record), i);
    }
  }

  // Composing in place, item by item.
  method ComposeValues(items: seq<Item>, update: array<byte>) returns (r: Result<(), Error>)
    modifies update
    ensures match ComposeAll(items, old(update[..]))
            case Ok(g) => r == Ok(()) && update[..] == g
            case Err(e) => r == Err(e)
  {
    for i := 0 to |items|
      invariant ComposeAll(items[i..], update[..]) == ComposeAll(items, old(update[..]))
    {
      assert items[i..][1..] == items[i + 1..];
      r := ComposeRecord(items[i].value, update, items[i].record);
      if r.Err? {
        return r;
      }
    }
    return Ok(());
  }
}
