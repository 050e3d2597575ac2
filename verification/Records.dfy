// Decoding a record from a frame and composing one into it: parser.py,
// parse_record, parse_records and compose_record.

module Records {
  import opened Bytes
  import opened Bits
  import opened Checksums
  import opened Models
  import opened Scaling

  // ------------------------------------------------------------- decoding

  function SignedByte(b: byte): int {
    if b >= 128 then b - 256 else b
  }

  // struct.unpack(">h") and (">i")
  function Short(hi: byte, lo: byte): int {
    SignedByte(hi) * 256 + lo
  }

  function Long(a: byte, b: byte, c: byte, d: byte): int {
    Short(a, b) * 65536 + c * 256 + d
  }

  function Interpret(raw: seq<byte>, number: int, record: Channel): Result<Value, Error> {
    if record.bitPosition > 0 then
      match GetBit(raw, record.bitPosition)
      case None => Err(InvalidData)
      case Some(on) => Ok(BoolV(on))
    else if record.IsSwitch() then Ok(BoolV(number != 0))
    else if record.scale != 1.0 then Ok(FloatV(Scaled(number, record.scale)))
    else Ok(IntV(number))
  }

  function ParseRecord(response: seq<byte>, record: Channel): Result<Value, Error> {
    var p := record.position;
    if |response| < 2 || |response| < p + record.length then Err(InvalidData)
    else if record.length == 1 then
      Interpret(response[p..p + 1], SignedByte(response[p]), record)
    else if record.length == 2 then
      Interpret(response[p..p + 2], Short(response[p], response[p + 1]), record)
    else if record.length == 4 then
      Ok(IntV(Long(response[p], response[p + 1], response[p + 2], response[p + 3])))
    else Err(InvalidData)
  }

  // A decoded value has the kind the channel advertises, except that a
  // four-byte record is always an integer.
  lemma KindPromise(response: seq<byte>, record: Channel)
    requires ParseRecord(response, record).Ok?
    ensures KindOf(ParseRecord(response, record).value) == record.Kind()
            <==> record.length != 4 || record.Kind() == Integer
  {
  }

  // A frame with room for the record decodes, whatever its bytes.
  predicate Readable(record: Channel) {
    && record.length in {1, 2, 4}
    && (record.bitPosition > 0 && record.length != 4 ==> record.bitPosition / 8 < record.length)
  }

  // Exactly these decode, and nothing else is raised.
  lemma ReadableParses(f: seq<byte>, record: Channel)
    requires |f| >= 2 && record.position + record.length <= |f|
    ensures ParseRecord(f, record).Ok? <==> Readable(record)
    ensures ParseRecord(f, record).Err? ==> ParseRecord(f, record).error == InvalidData
  {
  }

  // ------------------------------------------------------------ composing

  function RawValue(v: Value, record: Channel): int
    requires v.FloatV? ==> record.scale != 0.0
  {
    match v
    case BoolV(on) => One(on)
    case IntV(n) => n
    case FloatV(x) => ScaledToRaw(x, record.scale)
  }

  function LowByte(raw: int): byte {
    raw % 256
  }

  function HighByte(raw: int): byte {
    (raw / 256) % 256
  }

  // Neither an IndexError nor a ZeroDivisionError in a frame of n bytes.
  predicate Storable(v: Value, record: Channel, n: nat) {
    && (v.FloatV? ==> record.scale != 0.0)
    && (v.BoolV? || record.length == 1 || record.length == 2 ==> record.position < n)
    && (!v.BoolV? && record.length == 2 ==> record.position + 1 < n)
  }

  // The bytes a value puts into a frame.
  function Store(v: Value, f: seq<byte>, record: Channel): (g: seq<byte>)
    requires Storable(v, record, |f|)
    ensures |g| == |f|
  {
    var p := record.position;
    if v.BoolV? then
      f[p := if record.bitPosition > 0 then SetBit(f[p], record.bitPosition, v.on) else One(v.on)]
    else if record.length == 1 then f[p := LowByte(RawValue(v, record))]
    else if record.length == 2 then
      f[p := HighByte(RawValue(v, record))][p + 1 := LowByte(RawValue(v, record))]
    else f
  }

  predicate InRange(v: Value, record: Channel) {
    match v
    case BoolV(_) => true
    case IntV(n) => record.min <= n as real <= record.max
    case FloatV(x) => record.min <= x <= record.max
  }

  function Compose(v: Value, f: seq<byte>, record: Channel): Result<seq<byte>, Error> {
    if |f| < 2 then Err(Crash)
    else if !InRange(v, record) then Err(OutOfRange)
    else if !Storable(v, record, |f|) then Err(Crash)
    else if |f| < 5 then Err(InvalidData)
    else Ok(WithChecksum(Store(v, f[1 := SET], record)))
  }

  // Turns the frame read from the device into the frame to be set, in place.
  // A refused value leaves nothing behind but the set byte.
  method ComposeRecord(v: Value, response: array<byte>, record: Channel)
    returns (r: Result<(), Error>)
    modifies response
    ensures match Compose(v, old(response[..]), record)
            case Ok(f) => r == Ok(()) && response[..] == f
            case Err(e) => r == Err(e)
    ensures r == Err(OutOfRange) <==>
              && response.Length >= 2
              && match v
                 case BoolV(_) => false
                 case IntV(n) => (n as real) < record.min || (n as real) > record.max
                 case FloatV(x) => x < record.min || x > record.max
    ensures r == Err(OutOfRange) ==> response[..] == old(response[..])[1 := SET]
  {
    if response.Length < 2 {
      return Err(Crash);
    }
    response[1] := SET;
    var p := record.position;
    ghost var started := old(response[..])[1 := SET];
    assert response[..] == started;
    if v.BoolV? {
      if p >= response.Length {
        return Err(Crash);
      }
      response[p] := if record.bitPosition > 0
                     then SetBit(response[p], record.bitPosition, v.on) else One(v.on);
    } else {
      if !InRange(v, record) {
        return Err(OutOfRange);
      }
      if v.FloatV? && record.scale == 0.0 {
        return Err(Crash);
      }
      var short := RawValue(v, record);
      if record.length == 1 {
        if p >= response.Length {
          return Err(Crash);
        }
        response[p] := LowByte(short);
      } else if record.length == 2 {
        if p + 1 >= response.Length {
          return Err(Crash);
        }
        response[p] := HighByte(short);
        response[p + 1] := LowByte(short);
      }
    }
    assert response[..] == Store(v, started, record);
    var checksum := CalculateChecksum(response[..]);
    if checksum.Err? {
      return Err(checksum.error);
    }
    response[2] := checksum.value;
    return Ok(());
  }

  // ------------------------------------------- what a value writes, bitwise

  predicate Covers(v: Value, record: Channel, i: nat, k: nat) {
    if v.BoolV? then i == record.position && (record.bitPosition > 0 ==> k == 7 - record.bitPosition % 8)
    else if record.length == 1 then i == record.position
    else if record.length == 2 then i == record.position || i == record.position + 1
    else false
  }

  // The bit does not depend on the frame written to.
  predicate WrittenBit(v: Value, record: Channel, i: nat, k: nat)
    requires v.FloatV? ==> record.scale != 0.0
  {
    if v.BoolV? then if record.bitPosition > 0 then v.on else Bit(One(v.on), k)
    else if record.length == 2 && i == record.position then Bit(HighByte(RawValue(v, record)), k)
    else Bit(LowByte(RawValue(v, record)), k)
  }

  // Writing a value sets exactly the bits of its footprint.
  lemma {:induction false} StoreBits(v: Value, f: seq<byte>, record: Channel, i: nat, k: nat)
    requires Storable(v, record, |f|) && i < |f| && k < 8
    ensures Bit(Store(v, f, record)[i], k) ==
            if Covers(v, record, i, k) then WrittenBit(v, record, i, k) else Bit(f[i], k)
  {
    if v.BoolV? && record.bitPosition > 0 && i == record.position {
      SetBitWritesOneBit(f[i], record.bitPosition, v.on, k);
    }
  }

  predicate SameBits(f: seq<byte>, g: seq<byte>, i: nat)
    requires i < |f| && i < |g|
  {
    forall k :: 0 <= k < 8 ==> Bit(f[i], k) == Bit(g[i], k)
  }

  lemma {:induction false} SameBitsSameByte(f: seq<byte>, g: seq<byte>, i: nat)
    requires i < |f| && i < |g| && SameBits(f, g, i)
    ensures f[i] == g[i]
  {
    assert Power2(8) == 256;
    BitsDetermine(f[i], g[i], 8);
  }

  // The bits a record is decoded from.
  predicate Reads(record: Channel, i: nat, k: nat) {
    if record.bitPosition > 0 && record.length != 4 then
      i == record.position + record.bitPosition / 8 && k == 7 - record.bitPosition % 8
    else record.position <= i < record.position + record.length
  }

  lemma {:induction false} ParseIsLocal(f: seq<byte>, g: seq<byte>, record: Channel)
    requires |f| == |g|
    requires forall i, k :: 0 <= i < |f| && 0 <= k < 8 && Reads(record, i, k) ==> Bit(f[i], k) == Bit(g[i], k)
    ensures ParseRecord(f, record) == ParseRecord(g, record)
  {
    var p := record.position;
    if |f| < 2 || |f| < p + record.length || record.length !in {1, 2, 4} {
    } else if record.bitPosition > 0 && record.length != 4 {
      if record.bitPosition / 8 < record.length {
        GetBitReadsOneBit(f[p..p + record.length], record.bitPosition);
        GetBitReadsOneBit(g[p..p + record.length], record.bitPosition);
        assert Reads(record, p + record.bitPosition / 8, 7 - record.bitPosition % 8);
      }
    } else {
      forall i | p <= i < p + record.length
        ensures f[i] == g[i]
      {
        assert SameBits(f, g, i) by {
          assert forall k :: 0 <= k < 8 ==> Reads(record, i, k);
        }
        SameBitsSameByte(f, g, i);
      }
      assert f[p..p + record.length] == g[p..p + record.length];
    }
  }

  // -------------------------------------------------- typed round trips

  predicate FitsField(raw: int, length: nat) {
    if length == 1 then -128 <= raw < 128 else length == 2 && -32768 <= raw < 32768
  }

  // The values a record gives back exactly as they were written.
  ghost predicate Faithful(v: Value, record: Channel) {
    match v
    case BoolV(on) =>
      if record.bitPosition > 0 then record.bitPosition <= 7 && (record.length == 1 || record.length == 2)
      else record.IsSwitch() && (record.length == 1 || (record.length == 2 && on))
    case IntV(n) =>
      record.Kind() == Integer && FitsField(n, record.length)
    case FloatV(x) =>
      && record.Kind() == Number && record.scale != 0.0
      && IsStep(x, record.scale)
      && FitsField(RawValue(v, record), record.length)
  }

  // A value a scaled record can show: some step, with two decimals.
  ghost predicate IsStep(x: real, scale: real) {
    exists k: int :: x == Scaled(k, scale)
  }

  function FieldSize(length: nat): int {
    if length == 1 then 256 else 65536
  }

  // A stored number is read as its wrap-around to the field.
  lemma {:induction false} NumberReadsBack(v: Value, f: seq<byte>, record: Channel)
    requires Storable(v, record, |f|) && record.position + record.length <= |f| && |f| >= 2
    requires !v.BoolV? && record.length in {1, 2}
    ensures var p := record.position;
            var g := Store(v, f, record);
            ParseRecord(g, record) ==
            Interpret(g[p..p + record.length], Wrap(RawValue(v, record), FieldSize(record.length)), record)
  {
    ShortOfBytes(RawValue(v, record));
  }

  lemma {:induction false} FaithfulReadsBack(v: Value, f: seq<byte>, record: Channel)
    requires Storable(v, record, |f|) && record.position + record.length <= |f| && |f| >= 2
    requires Faithful(v, record)
    ensures ParseRecord(Store(v, f, record), record) == Ok(v)
  {
    if !v.BoolV? {
      FaithfulNumber(v, f, record);
    } else if record.bitPosition > 0 {
      BitReadsBack(v.on, f, record);
    }
  }

  lemma {:induction false} FaithfulNumber(v: Value, f: seq<byte>, record: Channel)
    requires Storable(v, record, |f|) && record.position + record.length <= |f| && |f| >= 2
    requires !v.BoolV? && Faithful(v, record)
    ensures ParseRecord(Store(v, f, record), record) == Ok(v)
  {
    NumberReadsBack(v, f, record);
    FittingIsUnwrapped(RawValue(v, record), record.length);
    if v.FloatV? {
      ShownIsStable(v.x, record.scale);
    }
  }

  lemma FittingIsUnwrapped(raw: int, length: nat)
    requires FitsField(raw, length)
    ensures Wrap(raw, FieldSize(length)) == raw
  {
  }

  lemma ShownIsStable(x: real, scale: real)
    requires scale != 0.0 && IsStep(x, scale)
    ensures Scaled(ScaledToRaw(x, scale), scale) == x
  {
    var k: int :| x == Scaled(k, scale);
    DisplayIsStable(k, scale);
  }

  lemma {:induction false} BitReadsBack(on: bool, f: seq<byte>, record: Channel)
    requires record.position + record.length <= |f| && |f| >= 2 && record.length in {1, 2}
    requires 1 <= record.bitPosition <= 7
    ensures ParseRecord(Store(BoolV(on), f, record), record) == Ok(BoolV(on))
  {
    var g := Store(BoolV(on), f, record);
    var p := record.position;
    var raw := g[p..p + record.length];
    GetBitReadsOneBit(raw, record.bitPosition);
    SetBitWritesOneBit(f[p], record.bitPosition, on, 7 - record.bitPosition);
    assert raw[0] == g[p];
  }

  lemma ShortOfBytes(raw: int)
    ensures Short(HighByte(raw), LowByte(raw)) == Wrap(raw, 65536)
    ensures SignedByte(LowByte(raw)) == Wrap(raw, 256)
  {
    assert raw == 256 * (raw / 256) + raw % 256;
    var q := raw / 256;
    assert q == 256 * (q / 256) + q % 256;
    assert raw == 65536 * (q / 256) + (256 * (q % 256) + raw % 256);
  }

  // Two's complement wrap-around to a signed field of `modulus` values.
  function Wrap(raw: int, modulus: int): (w: int)
    requires modulus > 0 && modulus % 2 == 0
    ensures -(modulus / 2) <= w < modulus / 2
  {
    (raw + modulus / 2) % modulus - modulus / 2
  }

  // Every value outside Faithful has a frame it does not survive in: one of
  // zeros or one of 0xFF bytes.
  function Filled(filler: byte, n: nat): (f: seq<byte>)
    ensures |f| == n
  {
    seq(n, _ => filler)
  }

  lemma {:induction false} UnfaithfulBool(on: bool, record: Channel, n: nat)
    requires Storable(BoolV(on), record, n) && record.position + record.length <= n && n >= 2
    requires !Faithful(BoolV(on), record)
    ensures ParseRecord(Store(BoolV(on), Filled(if on then 0 else 255, n), record), record) != Ok(BoolV(on))
  {
    var filler: byte := if on then 0 else 255;
    var g := Store(BoolV(on), Filled(filler, n), record);
    var p, b := record.position, record.bitPosition;
    if 7 < b && b / 8 < record.length && record.length <= 2 {
      GetBitReadsOneBit(g[p..p + record.length], b);
      assert g[p..p + record.length][b / 8] == g[p + 1] == filler;
      Masks(7 - b % 8);
      ZeroBit(7 - b % 8);
    }
  }

  lemma {:induction false} UnfaithfulInt(number: int, record: Channel, n: nat)
    requires Storable(IntV(number), record, n) && record.position + record.length <= n && n >= 2
    requires !Faithful(IntV(number), record)
    ensures ParseRecord(Store(IntV(number), Filled(if number == 0 then 255 else 0, n), record), record)
            != Ok(IntV(number))
  {
    var f := Filled(if number == 0 then 255 else 0, n);
    if record.length == 1 || record.length == 2 {
      NumberReadsBack(IntV(number), f, record);
    } else if record.length == 4 {
      LongFilled(f, record, if number == 0 then 255 else 0);
    }
  }

  lemma LongFilled(f: seq<byte>, record: Channel, filler: byte)
    requires filler in {0, 255} && f == Filled(filler, |f|)
    requires |f| >= record.position + 4 && record.length == 4
    ensures ParseRecord(f, record) == Ok(IntV(if filler == 0 then 0 else -1))
  {
  }

  lemma {:induction false} UnfaithfulFloat(x: real, record: Channel, n: nat)
    requires record.scale != 0.0
    requires Storable(FloatV(x), record, n) && record.position + record.length <= n && n >= 2
    requires !Faithful(FloatV(x), record)
    ensures ParseRecord(Store(FloatV(x), Filled(0, n), record), record) != Ok(FloatV(x))
  {
    if record.length == 1 || record.length == 2 {
      var raw, m := RawValue(FloatV(x), record), FieldSize(record.length);
      NumberReadsBack(FloatV(x), Filled(0, n), record);
      if IsStep(x, record.scale) {
        var k: int :| x == Scaled(k, record.scale);
        if !FitsField(raw, record.length) {
          WrapIsFar(raw, m);
          WrapShows(k, Wrap(raw, m), m, record.scale);
        }
      } else {
        assert x != Scaled(Wrap(raw, m), record.scale);
      }
    }
  }

  lemma WrapIsFar(raw: int, m: int)
    requires m in {256, 65536} && !(-(m / 2) <= raw < m / 2)
    ensures var w := Wrap(raw, m); raw - w >= m || w - raw >= m
    ensures -m <= 2 * Wrap(raw, m) <= m
  {
  }

  // Every step that fits its field is representable, at a scale of 0.01 or more,
  // and nothing else is.
  lemma {:induction false} StepsAreFaithful(x: real, record: Channel)
    requires Size(record.scale) >= 0.01 && record.Kind() == Number
    ensures Faithful(FloatV(x), record)
            <==> exists k: int :: FitsField(k, record.length) && x == Scaled(k, record.scale)
  {
    forall k: int | x == Scaled(k, record.scale)
      ensures k == RawValue(FloatV(x), record) && IsStep(x, record.scale)
    {
      DecodeEncode(k, record.scale);
    }
  }

  // A value survives storing and parsing in every frame of n bytes exactly when
  // its record can represent it.
  lemma {:induction false} StoreRoundTrip(v: Value, record: Channel, n: nat)
    requires Storable(v, record, n) && record.position + record.length <= n && n >= 2
    ensures (forall f: seq<byte> :: |f| == n ==> ParseRecord(Store(v, f, record), record) == Ok(v))
            <==> Faithful(v, record)
  {
    if Faithful(v, record) {
      forall f: seq<byte> | |f| == n
        ensures ParseRecord(Store(v, f, record), record) == Ok(v)
      {
        FaithfulReadsBack(v, f, record);
      }
    } else {
      match v
      case BoolV(on) => UnfaithfulBool(on, record, n);
      case IntV(number) => UnfaithfulInt(number, record, n);
      case FloatV(x) => UnfaithfulFloat(x, record, n);
    }
  }

  // Neither the set byte nor the checksum touches a value.
  lemma HeaderReadsSame(f: seq<byte>, x: byte, y: byte, record: Channel)
    requires |f| >= 3 && record.position >= 3
    ensures ParseRecord(f[1 := x][2 := y], record) == ParseRecord(f, record)
  {
    var g := f[1 := x][2 := y];
    if |f| >= record.position + record.length {
      assert g[record.position..record.position + record.length] == f[record.position..record.position + record.length];
    }
  }

  lemma ComposedReadsSame(v: Value, f: seq<byte>, record: Channel)
    requires |f| >= 5 && record.position >= 3 && InRange(v, record) && Storable(v, record, |f|)
    ensures Compose(v, f, record).Ok?
    ensures ParseRecord(Compose(v, f, record).value, record) == ParseRecord(Store(v, f, record), record)
  {
    var stored := Store(v, f, record);
    var g := Compose(v, f, record).value;
    assert Store(v, f[1 := SET], record) == stored[1 := SET];
    assert g == stored[1 := SET][2 := g[2]];
    HeaderReadsSame(stored, SET, g[2], record);
  }

  ghost predicate SurvivesIn(v: Value, record: Channel, f: seq<byte>) {
    var composed := Compose(v, f, record);
    composed.Ok? && ParseRecord(composed.value, record) == Ok(v)
  }

  // The exact typed round trip: a value is accepted and survives composing and
  // parsing in every frame of n bytes exactly when it is in range and its record
  // can represent it.
  lemma {:induction false} TypedRoundTrip(v: Value, record: Channel, n: nat)
    requires 3 <= record.position && record.position + record.length <= n && n >= 5
    ensures (forall f: seq<byte> :: |f| == n ==> SurvivesIn(v, record, f))
            <==> InRange(v, record) && Faithful(v, record)
  {
    if InRange(v, record) && Storable(v, record, n) {
      StoreRoundTrip(v, record, n);
      forall f: seq<byte> | |f| == n
        ensures SurvivesIn(v, record, f) <==> ParseRecord(Store(v, f, record), record) == Ok(v)
      {
        ComposedReadsSame(v, f, record);
      }
    } else {
      if Faithful(v, record) {
        FaithfulIsStorable(v, record, n);
      }
      assert !SurvivesIn(v, record, Filled(0, n));
    }
  }

  lemma FaithfulIsStorable(v: Value, record: Channel, n: nat)
    requires Faithful(v, record) && record.position + record.length <= n
    ensures Storable(v, record, n)
  {
  }
}
