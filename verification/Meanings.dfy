// What the bytes of a frame mean, place by place: parser.py, verify_header,
// parse_record and compose_record.

module Meanings {
  import opened Bytes
  import opened Bits
  import opened Escaping
  import opened Framing
  import opened Checksums
  import opened Models
  import opened Scaling
  import opened Records
  import opened Config
  import opened Readings

  // ------------------------------------------------------------------- framing

  // Between its first and last two bytes a frame is stuffed byte by byte. Short
  // inputs are not copied: the two ends overlap.
  lemma {:induction false} EscapedExactly(f: seq<byte>, i: nat)
    ensures |f| >= 4 ==> Escape(f) == f[..2] + Stuff(f[2..|f| - 2]) + f[|f| - 2..]
    ensures |f| == 3 ==> Escape(f) == [f[0], f[1], f[1], f[2]]
    ensures |f| <= 2 ==> Escape(f) == f + f
    ensures i < |f| ==> Stuff(f) == Stuff(f[..i]) + (if f[i] == 0x10 then [0x10, 0x10]
                                                      else if f[i] == 0x2B then [0x2B, 0x18] else [f[i]])
                                    + Stuff(f[i + 1..])
  {
    if i < |f| {
      assert f == f[..i] + [f[i]] + f[i + 1..];
      StuffAppend(f[..i] + [f[i]], f[i + 1..]);
      StuffOne(f[..i], f[i]);
    }
  }

  // s ends in exactly k bytes of 0x10.
  predicate EndsInRun(s: seq<byte>, k: nat) {
    && k <= |s| && (forall i :: |s| - k <= i < |s| ==> s[i] == 0x10)
    && (k < |s| ==> s[|s| - k - 1] != 0x10)
  }

  lemma {:induction false} RunIsCounted(s: seq<byte>, k: nat)
    requires EndsInRun(s, k)
    ensures TrailingEscapes(s) == k
  {
    if k > 0 {
      assert Last(s) == 0x10;
      RunIsCounted(Front(s), k - 1);
    }
  }

  lemma {:induction false} CountIsRun(s: seq<byte>)
    ensures EndsInRun(s, TrailingEscapes(s))
  {
    if s != [] && Last(s) == 0x10 {
      CountIsRun(Front(s));
    }
  }

  // Bytes end a frame exactly if the last is 0x03 and an odd run of 0x10 is in front
  // of it.
  lemma {:induction false} FrameEndExactly(s: seq<byte>)
    ensures FrameEnd(s) <==>
              s != [] && Last(s) == 0x03 && exists k: nat :: k % 2 == 1 && EndsInRun(Front(s), k)
  {
    if s != [] {
      CountIsRun(Front(s));
      forall k: nat | EndsInRun(Front(s), k)
        ensures k == TrailingEscapes(Front(s))
      {
        RunIsCounted(Front(s), k);
      }
    }
  }

  // Whatever bytes were received, the pairs 10 10 and 2B 18 become single bytes from
  // left to right, in front of a new footer.
  lemma {:induction false} UnescapedExactly(data: seq<byte>)
    ensures |data| < 2 ==> Unescape(data) == data
    ensures |data| >= 2 ==> Unescape(data) == Decode(data[..|data| - 2]) + [0x10, 0x03]
  {
    if |data| >= 2 {
      PassesAreOneDecoder(data[..|data| - 2]);
    }
  }

  lemma {:induction false} DecodedPairs(s: seq<byte>)
    ensures Decode([0x10, 0x10] + s) == [0x10] + Decode(s)
    ensures Decode([0x2B, 0x18] + s) == [0x2B] + Decode(s)
    ensures s != [] && !(|s| >= 2 && s[..2] in {[0x10, 0x10], [0x2B, 0x18]}) ==> Decode(s) == [s[0]] + Decode(s[1..])
  {
    assert ([0x10, 0x10] + s)[2..] == s && ([0x2B, 0x18] + s)[2..] == s;
    if |s| >= 2 {
      assert s[..2] == [s[0], s[1]];
    }
  }

  // --------------------------------------------------------------------- header

  // A header is accepted exactly if it starts with 0x01 and 0x00 or 0x80, and the
  // third byte is the sum of all others but the last two, modulo 256.
  lemma {:induction false} HeaderExactly(f: seq<byte>)
    ensures HeaderCheck(f) <==>
              && |f| >= 5 && f[0] == 0x01 && f[1] in {0x00, 0x80}
              && f[2] == (Sum(f[..2]) + Sum(f[3..|f| - 2])) % 256
    ensures VerifyHeader(f) == Err(InvalidData) <==> |f| == 4 && f[0] == 0x01 && f[1] in {0x00, 0x80}
    ensures VerifyHeader(f).Err? ==> VerifyHeader(f).error in {InvalidData, ProtocolError}
  {
    if |f| >= 5 {
      SumAppend(f[..2], f[3..|f| - 2]);
    }
  }

  // -------------------------------------------------------------------- numbers

  // Bytes as an unsigned number, the first the most significant.
  function Unsigned(s: seq<byte>): (n: nat) {
    if s == [] then 0 else 256 * Unsigned(Front(s)) + Last(s)
  }

  // The same number in two's complement.
  function Signed(s: seq<byte>): int {
    if s != [] && s[0] >= 128 then Unsigned(s) - Modulus(|s|) else Unsigned(s)
  }

  function Modulus(bytes: nat): nat {
    if bytes == 0 then 1 else 256 * Modulus(bytes - 1)
  }

  lemma UnsignedOf(s: seq<byte>)
    ensures |s| == 1 ==> Unsigned(s) == s[0] && Modulus(|s|) == 256
    ensures |s| == 2 ==> Unsigned(s) == s[0] as int * 256 + s[1] && Modulus(|s|) == 65536
    ensures |s| == 4 ==> Unsigned(s) == ((s[0] as int * 256 + s[1]) * 256 + s[2]) * 256 + s[3]
                         && Modulus(|s|) == 0x1_0000_0000
  {
    if |s| == 4 {
      assert Front(s)[..2] == s[..2] && Front(Front(s)) == s[..2];
      UnsignedOf(s[..2]);
      assert Modulus(2) == 65536;
    } else if |s| == 2 {
      assert Front(Front(s)) == [];
      assert Modulus(1) == 256;
    } else if |s| == 1 {
      assert Front(s) == [];
    }
  }

  // ------------------------------------------------------------------- decoding

  // What a record holds, from its bytes.
  function Meaning(s: seq<byte>, record: Channel): Value
    requires |s| == record.length && (record.bitPosition > 0 && record.length != 4 ==> record.bitPosition / 8 < |s|)
  {
    if record.length == 4 then IntV(Signed(s))
    else if record.bitPosition > 0 then BoolV(Bit(s[record.bitPosition / 8], 7 - record.bitPosition % 8))
    else if record.scale == 1.0 && record.min == 0.0 && record.max == 1.0 && record.step == 0.0 then
      BoolV(Unsigned(s) != 0)
    else if record.scale == 1.0 then IntV(Signed(s))
    else FloatV(Scaled(Signed(s), record.scale))
  }

  // A record is decoded from its own bytes, the first the most significant and in
  // two's complement; a bit, counted from the left; a full byte that is 0 or 1, as
  // being zero or not. It cannot be decoded exactly if the frame is too short, the
  // length is none of 1, 2 and 4, or the bit lies outside.
  lemma {:induction false} DecodedExactly(f: seq<byte>, record: Channel)
    ensures ParseRecord(f, record) ==
            if |f| >= 2 && record.position + record.length <= |f| && Readable(record)
            then Ok(Meaning(f[record.position..record.position + record.length], record))
            else Err(InvalidData)
  {
    if |f| >= 2 && record.position + record.length <= |f| && Readable(record) {
      var s := f[record.position..record.position + record.length];
      if record.bitPosition > 0 && record.length != 4 {
        GetBitReadsOneBit(s, record.bitPosition);
      } else {
        NumberIsDecoded(f, record);
      }
    }
  }

  lemma {:induction false} NumberIsDecoded(f: seq<byte>, record: Channel)
    requires |f| >= 2 && record.position + record.length <= |f| && record.length in {1, 2, 4}
    requires record.bitPosition == 0 || record.length == 4
    ensures ParseRecord(f, record) == Ok(Meaning(f[record.position..record.position + record.length], record))
  {
    UnsignedOf(f[record.position..record.position + record.length]);
  }

  // ------------------------------------------------------------------- encoding

  // A number n is stored in the bytes of its record, modulo their size, the first
  // the most significant, and no other byte changes. A float is stored as the step
  // it lies next to.
  lemma {:induction false} NumberIsStored(v: Value, f: seq<byte>, record: Channel, n: int)
    requires Storable(v, record, |f|) && record.position + record.length <= |f| && record.length in {1, 2}
    requires v == IntV(n) || (v.FloatV? && -0.5 <= v.x / record.scale - n as real < 0.5)
    ensures var p := record.position;
            var g := Store(v, f, record);
            && Unsigned(g[p..p + record.length]) == n % Modulus(record.length)
            && g[..p] == f[..p] && g[p + record.length..] == f[p + record.length..]
  {
    var p := record.position;
    var g := Store(v, f, record);
    assert RawValue(v, record) == n;
    UnsignedOf(g[p..p + record.length]);
    var q := n / 256;
    assert n == 256 * q + n % 256 && q == 256 * (q / 256) + q % 256;
  }

  // What a step shows has two decimals, and is the nearest such number; halfway,
  // the greater.
  lemma ShownExactly(k: int, scale: real, hundredths: int)
    ensures Scaled(k, scale) == hundredths as real / 100.0
            <==> -0.5 <= k as real * scale * 100.0 - hundredths as real < 0.5
  {
    var y := k as real * scale * 100.0;
    RoundBounds(y);
    Hundredths(Round(y), hundredths);
  }

  lemma Hundredths(a: int, b: int)
    ensures a as real / 100.0 == b as real / 100.0 <==> a == b
  {
    assert a as real == a as real / 100.0 * 100.0;
  }

  // A bool sets its bit, counted from the left, or makes the whole byte 0 or 1.
  lemma {:induction false} BoolIsStored(on: bool, f: seq<byte>, record: Channel, k: nat)
    requires Storable(BoolV(on), record, |f|) && k < 8
    ensures var p := record.position;
            var g := Store(BoolV(on), f, record);
            && g[..p] == f[..p] && g[p + 1..] == f[p + 1..]
            && if record.bitPosition == 0 then g[p] == if on then 1 else 0
               else Bit(g[p], k) == if k == 7 - record.bitPosition % 8 then on else Bit(f[p], k)
  {
    if record.bitPosition > 0 {
      SetBitWritesOneBit(f[record.position], record.bitPosition, on, k);
    }
  }

  // ---------------------------------------------------------- all of a response

  // One channel of a response: a whole number of at most two bytes is completed with
  // the thousands in the second response, if there is one, and is missing if that
  // cannot be decoded; every other value is that of the first.
  lemma {:induction false} ThousandsExactly(f: seq<byte>, x: Channel, second: Option<seq<byte>>)
    ensures var first, r := ParseRecord(f, x), ParseOne(f, x, second);
            if first.Ok? && first.value.IntV? && x.length in {1, 2} && second.Some? then
              var high := ParseRecord(second.value, x);
              if high.Ok? then high.value.IntV? && r == Ok(IntV(1000 * high.value.n + first.value.n)) else r == high
            else r == first
  {
    if second.Some? && ParseRecord(f, x).Ok? && ParseRecord(second.value, x).Ok? {
      SameKind(f, second.value, x);
    }
  }

  // The channels that can be decoded, each with its value.
  function Decodable(f: seq<byte>, records: seq<Channel>, second: Option<seq<byte>>): Dict {
    if records == [] then []
    else
      var r := ParseOne(f, Last(records), second);
      Decodable(f, Front(records), second) + (if r.Ok? then [(Last(records).id, r.value)] else [])
  }

  // With unique ids a response gives exactly those, in the order of the records.
  lemma {:induction false} ResponseExactly(f: seq<byte>, records: seq<Channel>, second: Option<seq<byte>>)
    requires UniqueIds(records)
    ensures ParseRecordsOf(f, records, second) ==
            if |f| >= 2 && (second.Some? ==> |second.value| >= 2) then Decodable(f, records, second) else []
  {
    AllDecodable(f, records, second);
  }

  lemma {:induction false} AllDecodable(f: seq<byte>, records: seq<Channel>, second: Option<seq<byte>>)
    requires UniqueIds(records)
    ensures ParseAll(f, records, second) == Decodable(f, records, second)
  {
    if records != [] {
      var last := Last(records);
      assert records == Front(records) + [last];
      AllDecodable(f, Front(records), second);
      OnlyTheirIds(f, Front(records), second);
      var d := Decodable(f, Front(records), second);
      forall i | 0 <= i < |d|
        ensures d[i].0 != last.id
      {
        assert d[i] in d;
        var x :| x in Front(records) && x.id == d[i].0;
        var k :| 0 <= k < |Front(records)| && Front(records)[k] == x;
        assert records[k].id != records[|records| - 1].id;
      }
      if ParseOne(f, last, second).Ok? {
        PutAtEnd(d, last.id, ParseOne(f, last, second).value);
      }
    }
  }

  lemma {:induction false} OnlyTheirIds(f: seq<byte>, records: seq<Channel>, second: Option<seq<byte>>)
    ensures forall entry :: entry in Decodable(f, records, second) ==>
              exists x :: x in records && x.id == entry.0
  {
    if records != [] {
      OnlyTheirIds(f, Front(records), second);
      assert records == Front(records) + [Last(records)];
      assert Last(records) in records;
    }
  }

  lemma {:induction false} PutAtEnd(d: Dict, id: string, v: Value)
    requires forall i :: 0 <= i < |d| ==> d[i].0 != id
    ensures Put(d, id, v) == d + [(id, v)]
  {
    if d != [] {
      PutAtEnd(d[1..], id, v);
      assert [d[0]] + (d[1..] + [(id, v)]) == d + [(id, v)];
    }
  }
}
