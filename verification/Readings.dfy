// Decoding all channels of a request: parser.py, parse_records.

module Readings {
  import opened Bytes
  import opened Models
  import opened Records

  // An insertion-ordered dictionary from channel id to value.
  type Dict = seq<(string, Value)>

  function Lookup(d: Dict, id: string): Option<Value> {
    if d == [] then None
    else if d[0].0 == id then Some(d[0].1)
    else Lookup(d[1..], id)
  }

  // d[id] = v keeps the place of a key that is already there.
  function Put(d: Dict, id: string, v: Value): Dict {
    if d == [] then [(id, v)]
    else if d[0].0 == id then [(id, v)] + d[1..]
    else [d[0]] + Put(d[1..], id, v)
  }

  lemma {:induction false} LookupPut(d: Dict, id: string, v: Value, other: string)
    ensures Lookup(Put(d, id, v), other) == if other == id then Some(v) else Lookup(d, other)
  {
    if d != [] && d[0].0 != id {
      LookupPut(d[1..], id, v, other);
      assert Put(d, id, v)[1..] == Put(d[1..], id, v);
    }
  }

  // d.update(e)
  function Update(d: Dict, e: Dict): Dict
    decreases |e|
  {
    if e == [] then d else Update(Put(d, e[0].0, e[0].1), e[1..])
  }

  predicate DistinctKeys(d: Dict) {
    forall i, j :: 0 <= i < j < |d| ==> d[i].0 != d[j].0
  }

  lemma {:induction false} PutKeepsDistinct(d: Dict, id: string, v: Value)
    requires DistinctKeys(d)
    ensures DistinctKeys(Put(d, id, v))
    ensures forall i :: 0 <= i < |Put(d, id, v)| ==>
              Put(d, id, v)[i].0 == id || exists j :: 0 <= j < |d| && d[j].0 == Put(d, id, v)[i].0
  {
    if d != [] && d[0].0 != id {
      PutKeepsDistinct(d[1..], id, v);
      var rest := Put(d[1..], id, v);
      forall i | 0 <= i < |rest|
        ensures rest[i].0 != d[0].0
        ensures rest[i].0 == id || exists j :: 0 <= j < |d| && d[j].0 == rest[i].0
      {
        if rest[i].0 != id {
          var j :| 0 <= j < |d[1..]| && d[1..][j].0 == rest[i].0;
          assert d[j + 1].0 == rest[i].0;
        }
      }
    }
  }

  // Whether a record decodes to a whole number does not depend on the frame.
  lemma SameKind(f: seq<byte>, g: seq<byte>, record: Channel)
    requires ParseRecord(f, record).Ok? && ParseRecord(g, record).Ok?
    ensures ParseRecord(f, record).value.IntV? <==> ParseRecord(g, record).value.IntV?
  {
  }

  // One channel, from one response or from two: whole numbers of up to two
  // bytes are read in thousands from the second.
  function ParseOne(response: seq<byte>, record: Channel, response2: Option<seq<byte>>): Result<Value, Error> {
    var first := ParseRecord(response, record);
    if first.Ok? && first.value.IntV? && record.length != 4 && response2.Some? then
      match ParseRecord(response2.value, record)
      case Err(e) => Err(e)
      case Ok(second) =>
        SameKind(response, response2.value, record);
        Ok(IntV(second.n * 1000 + first.value.n))
    else first
  }

  // A value decoded from the first response, completed from the second.
  function WithThousands(v: Value, record: Channel, response2: Option<seq<byte>>): Result<Value, Error> {
    if v.IntV? && record.length != 4 && response2.Some? then
      match ParseRecord(response2.value, record)
      case Err(e) => Err(e)
      case Ok(second) => if second.IntV? then Ok(IntV(second.n * 1000 + v.n)) else Err(InvalidData)
    else Ok(v)
  }

  lemma ParsedWithThousands(response: seq<byte>, record: Channel, response2: Option<seq<byte>>)
    requires ParseRecord(response, record).Ok?
    ensures ParseOne(response, record, response2) ==
            WithThousands(ParseRecord(response, record).value, record, response2)
  {
    if response2.Some? && ParseRecord(response2.value, record).Ok? {
      SameKind(response, response2.value, record);
    }
  }

  function ParseInto(d: Dict, response: seq<byte>, record: Channel, response2: Option<seq<byte>>): Dict {
    match ParseOne(response, record, response2)
    case Ok(v) => Put(d, record.id, v)
    case Err(_) => d
  }

  function ParseAll(response: seq<byte>, records: seq<Channel>, response2: Option<seq<byte>>): Dict {
    if records == [] then []
    else ParseInto(ParseAll(response, Front(records), response2), response, Last(records), response2)
  }

  function ParseRecordsOf(response: seq<byte>, records: seq<Channel>, response2: Option<seq<byte>>): Dict {
    if |response| < 2 || (response2.Some? && |response2.value| < 2) then []
    else ParseAll(response, records, response2)
  }

  method ParseRecords(response: seq<byte>, records: seq<Channel>, response2: Option<seq<byte>>)
    returns (result: Dict)
    ensures result == ParseRecordsOf(response, records, response2)
  {
    result := [];
    if |response| < 2 || (response2.Some? && |response2.value| < 2) {
      return;
    }
    for i := 0 to |records|
      invariant result == ParseAll(response, records[..i], response2)
    {
      var record := records[i];
      assert Front(records[..i + 1]) == records[..i];
      var value := ParseRecord(response, record);
      if value.Err? {
        continue;
      }
      if response2.Some? && value.value.IntV? && record.length != 4 {
        var value2 := ParseRecord(response2.value, record);
        if value2.Err? {
          continue;
        }
        SameKind(response, response2.value, record);
        value := Ok(IntV(value2.value.n * 1000 + value.value.n));
      }
      result := Put(result, record.id, value.value);
    }
    assert records[..|records|] == records;
  }

  // With unique ids, each channel is found under its id with its own value,
  // and only channels of the request are there.
  lemma {:induction false} LookupParsed(response: seq<byte>, records: seq<Channel>,
                                        response2: Option<seq<byte>>, record: Channel)
    requires forall i, j :: 0 <= i < j < |records| ==> records[i].id != records[j].id
    requires record in records
    ensures Lookup(ParseAll(response, records, response2), record.id) ==
            match ParseOne(response, record, response2)
            case Ok(v) => Some(v)
            case Err(_) => None
  {
    var last := Last(records);
    var before := ParseAll(response, Front(records), response2);
    assert records == Front(records) + [last];
    var parsed := ParseOne(response, last, response2);
    if parsed.Ok? {
      LookupPut(before, last.id, parsed.value, record.id);
    }
    if record == last {
      NotParsed(response, Front(records), response2, record.id);
    } else {
      var i :| 0 <= i < |records| && records[i] == record;
      assert Front(records)[i] == record;
      LookupParsed(response, Front(records), response2, record);
    }
  }

  lemma {:induction false} NotParsed(response: seq<byte>, records: seq<Channel>,
                                     response2: Option<seq<byte>>, id: string)
    requires forall i :: 0 <= i < |records| ==> records[i].id != id
    ensures Lookup(ParseAll(response, records, response2), id) == None
  {
    if records != [] {
      var before := ParseAll(response, Front(records), response2);
      NotParsed(response, Front(records), response2, id);
      var parsed := ParseOne(response, Last(records), response2);
      if parsed.Ok? {
        LookupPut(before, Last(records).id, parsed.value, id);
      }
    }
  }

  lemma {:induction false} ParsedKeysDistinct(response: seq<byte>, records: seq<Channel>, response2: Option<seq<byte>>)
    ensures DistinctKeys(ParseAll(response, records, response2))
  {
    if records != [] {
      ParsedKeysDistinct(response, Front(records), response2);
      var before := ParseAll(response, Front(records), response2);
      var parsed := ParseOne(response, Last(records), response2);
      if parsed.Ok? {
        PutKeepsDistinct(before, Last(records).id, parsed.value);
      }
    }
  }
}
