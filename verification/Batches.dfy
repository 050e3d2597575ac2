// Reading several channels at once: service.py, read_channels and
// _requests_for.

module Batches {
  import opened Bytes
  import opened Models
  import opened Config
  import opened Readings
  import opened Devices
  import opened Jobs
  import opened Refinement
  import opened Plants

  // The requests that hold the wanted channels, each once.
  function RequestsFor(requests: seq<Request>, ids: seq<string>): seq<Request> {
    if ids == [] then []
    else
      var needed := RequestsFor(requests, Front(ids));
      match RequestFor(requests, Last(ids))
      case Some(r) => if r in needed then needed else needed + [r]
      case None => needed
  }

  function Wanted(data: Dict, ids: seq<string>): Dict {
    if data == [] then []
    else Wanted(Front(data), ids) + (if Last(data).0 in ids then [Last(data)] else [])
  }

  // Each needed request is issued exactly once, and no other.
  lemma {:induction false} NeededOnce(requests: seq<Request>, ids: seq<string>)
    ensures forall i, j :: 0 <= i < j < |RequestsFor(requests, ids)| ==>
              RequestsFor(requests, ids)[i] != RequestsFor(requests, ids)[j]
    ensures forall r :: r in RequestsFor(requests, ids) <==>
              exists i :: 0 <= i < |ids| && RequestFor(requests, ids[i]) == Some(r)
  {
    if ids != [] {
      NeededOnce(requests, Front(ids));
      assert forall i :: 0 <= i < |Front(ids)| ==> RequestFor(requests, Front(ids)[i]) == RequestFor(requests, ids[i]);
      forall r
        ensures r in RequestsFor(requests, ids) <==>
                exists i :: 0 <= i < |ids| && RequestFor(requests, ids[i]) == Some(r)
      {
        if RequestFor(requests, Last(ids)) == Some(r) {
          assert RequestFor(requests, ids[|ids| - 1]) == Some(r);
        } else if i :| 0 <= i < |ids| && RequestFor(requests, ids[i]) == Some(r) {
          assert RequestFor(requests, Front(ids)[i]) == Some(r);
        }
      }
    }
  }

  // ------------------------------------------------------------ on the map

  function ReadFrames(p: Plant, r: Request): Dict
    requires HasRegisters(p.store, r.key)
  {
    ParseRecordsOf(p.store[r.key.command], r.records, SecondFrame(p, r.key))
  }

  function Collect(p: Plant, requests: seq<Request>, data: Dict): Dict
    requires forall r :: r in requests ==> HasRegisters(p.store, r.key)
    decreases |requests|
  {
    if requests == [] then data
    else Collect(p, requests[1..], Update(data, ReadFrames(p, requests[0])))
  }

  lemma ReadsKnown(p: Plant, requests: seq<Request>)
    requires forall r :: r in requests ==> HasRegisters(p.store, r.key)
    ensures TaskKnown(p, ReadTask(requests)) && TaskFits(p, ReadTask(requests))
  {
    forall job | job in ReadTask(requests)
      ensures job.Valid() && Known(p, job) && Fits(p, job)
    {
      var i :| 0 <= i < |requests| && ReadTask(requests)[i] == job;
      assert requests[i] in requests;
    }
  }

  // On the map, reading requests one after the other collects their frames and
  // changes nothing.
  lemma {:induction false} ReadsCollect(p: Plant, requests: seq<Request>, data: Dict)
    requires forall r :: r in requests ==> HasRegisters(p.store, r.key)
    ensures TaskKnown(p, ReadTask(requests))
    ensures var (p', outcomes) := ApplyTask(p, ReadTask(requests));
            p' == p && Merge(outcomes, data) == Values(Collect(p, requests, data))
    decreases |requests|
  {
    ReadsKnown(p, requests);
    if requests != [] {
      var task := ReadTask(requests);
      assert task[1..] == ReadTask(requests[1..]);
      ReadsCollect(p, requests[1..], Update(data, ReadFrames(p, requests[0])));
      var first, rest := Values(ReadFrames(p, requests[0])), ApplyTask(p, task[1..]).1;
      assert Apply(p, task[0]) == (p, first);
      assert ([first] + rest)[1..] == rest;
    }
  }

  // ---------------------------------------------------------- dictionaries

  lemma {:induction false} LookupUpdate(d: Dict, e: Dict, id: string)
    requires DistinctKeys(e)
    ensures Lookup(Update(d, e), id) == if Lookup(e, id).Some? then Lookup(e, id) else Lookup(d, id)
    decreases |e|
  {
    if e != [] {
      LookupUpdate(Put(d, e[0].0, e[0].1), e[1..], id);
      LookupPut(d, e[0].0, e[0].1, id);
      if e[0].0 == id {
        NoLookup(e[1..], id);
      }
    }
  }

  lemma {:induction false} NoLookup(d: Dict, id: string)
    requires forall i :: 0 <= i < |d| ==> d[i].0 != id
    ensures Lookup(d, id) == None
  {
    if d != [] {
      NoLookup(d[1..], id);
    }
  }

  lemma {:induction false} UpdateKeepsDistinct(d: Dict, e: Dict)
    requires DistinctKeys(d)
    ensures DistinctKeys(Update(d, e))
    decreases |e|
  {
    if e != [] {
      PutKeepsDistinct(d, e[0].0, e[0].1);
      UpdateKeepsDistinct(Put(d, e[0].0, e[0].1), e[1..]);
    }
  }

  lemma {:induction false} WantedKeys(data: Dict, ids: seq<string>)
    requires DistinctKeys(data)
    ensures DistinctKeys(Wanted(data, ids))
    ensures forall i :: 0 <= i < |Wanted(data, ids)| ==> Wanted(data, ids)[i] in data
  {
    if data != [] {
      WantedKeys(Front(data), ids);
      assert data == Front(data) + [Last(data)];
      var w := Wanted(Front(data), ids);
      forall i | 0 <= i < |w|
        ensures w[i].0 != Last(data).0
      {
        var j :| 0 <= j < |Front(data)| && Front(data)[j] == w[i];
        assert data[j].0 != data[|data| - 1].0;
      }
    }
  }

  lemma {:induction false} LookupAppend(d: Dict, entry: (string, Value), id: string)
    ensures Lookup(d + [entry], id) ==
            if Lookup(d, id).Some? then Lookup(d, id)
            else if entry.0 == id then Some(entry.1) else None
  {
    if d != [] {
      LookupAppend(d[1..], entry, id);
      assert (d + [entry])[1..] == d[1..] + [entry];
    } else {
      assert (d + [entry])[1..] == [];
    }
  }

  lemma {:induction false} LookupWanted(data: Dict, ids: seq<string>, id: string)
    ensures Lookup(Wanted(data, ids), id) == if id in ids then Lookup(data, id) else None
  {
    if data != [] {
      LookupWanted(Front(data), ids, id);
      LookupAppend(Front(data), Last(data), id);
      LookupAppend(Wanted(Front(data), ids), Last(data), id);
      assert data == Front(data) + [Last(data)];
      if Last(data).0 !in ids {
        assert Wanted(data, ids) == Wanted(Front(data), ids);
      }
    }
  }

  // --------------------------------------------------------------- answers

  // What a channel reads as, if anything.
  function ReadingOf(p: Plant, x: Channel): Option<Value>
    requires HasRegisters(p.store, x.key)
  {
    match ParseOne(p.store[x.key.command], x, SecondFrame(p, x.key))
    case Ok(v) => Some(v)
    case Err(_) => None
  }

  // A request of the configuration gives each of its channels, and no other.
  lemma {:induction false} FramesAnswer(p: Plant, channels: seq<Channel>, r: Request, x: Channel)
    requires PlantFor(p, channels) && ValidConfig(channels) && r in Group(channels) && x in channels
    ensures HasRegisters(p.store, r.key) && HasRegisters(p.store, x.key)
    ensures DistinctKeys(ReadFrames(p, r))
    ensures Lookup(ReadFrames(p, r), x.id) == if r.key == x.key then ReadingOf(p, x) else None
  {
    var i :| 0 <= i < |Group(channels)| && Group(channels)[i] == r;
    GroupHasRegisters(p, channels, r);
    ChannelHasRegisters(p, x);
    WithKeyUnique(channels, r.key);
    var f, second := p.store[r.key.command], SecondFrame(p, r.key);
    ParsedKeysDistinct(f, r.records, second);
    WithKeyContents(channels, r.key, x);
    if r.key == x.key {
      LookupParsed(f, r.records, second, x);
    } else {
      forall k | 0 <= k < |r.records|
        ensures r.records[k].id != x.id
      {
        WithKeyContents(channels, r.key, r.records[k]);
        LookupsAgree(channels, r.records[k]);
        LookupsAgree(channels, x);
      }
      NotParsed(f, r.records, second, x.id);
    }
  }

  predicate Asked(requests: seq<Request>, key: RequestKey) {
    requests != [] && (requests[0].key == key || Asked(requests[1..], key))
  }

  lemma {:induction false} AskedIfListed(requests: seq<Request>, r: Request)
    requires r in requests
    ensures Asked(requests, r.key)
  {
    if requests[0] != r {
      AskedIfListed(requests[1..], r);
    }
  }

  ghost predicate Issuable(p: Plant, channels: seq<Channel>, requests: seq<Request>) {
    forall r :: r in requests ==> r in Group(channels) && HasRegisters(p.store, r.key)
  }

  lemma {:induction false} CollectAnswers(p: Plant, channels: seq<Channel>, requests: seq<Request>,
                                          data: Dict, x: Channel)
    requires PlantFor(p, channels) && ValidConfig(channels) && x in channels
    requires Issuable(p, channels, requests) && DistinctKeys(data)
    ensures HasRegisters(p.store, x.key)
    ensures DistinctKeys(Collect(p, requests, data))
    ensures Lookup(Collect(p, requests, data), x.id) ==
            if Asked(requests, x.key) && ReadingOf(p, x).Some?
            then ReadingOf(p, x) else Lookup(data, x.id)
    decreases |requests|
  {
    assert HasRoom(p, x);
    ChannelHasRegisters(p, x);
    if requests != [] {
      var r := requests[0];
      FramesAnswer(p, channels, r, x);
      LookupUpdate(data, ReadFrames(p, r), x.id);
      UpdateKeepsDistinct(data, ReadFrames(p, r));
      CollectAnswers(p, channels, requests[1..], Update(data, ReadFrames(p, r)), x);
    }
  }

  lemma {:induction false} NeededIsIssuable(p: Plant, channels: seq<Channel>, ids: seq<string>)
    requires PlantFor(p, channels)
    ensures Issuable(p, channels, RequestsFor(Group(channels), ids))
  {
    NeededOnce(Group(channels), ids);
    forall r | r in RequestsFor(Group(channels), ids)
      ensures r in Group(channels) && HasRegisters(p.store, r.key)
    {
      GroupHasRegisters(p, channels, r);
    }
  }

  lemma {:induction false} WantedIsAsked(channels: seq<Channel>, ids: seq<string>, x: Channel)
    requires UniqueIds(channels) && x in channels && x.id in ids
    ensures Asked(RequestsFor(Group(channels), ids), x.key)
  {
    var own := Request(x.key, WithKey(channels, x.key));
    LookupsAgree(channels, x);
    NeededOnce(Group(channels), ids);
    var i :| 0 <= i < |ids| && ids[i] == x.id;
    assert RequestFor(Group(channels), ids[i]) == Some(own);
    AskedIfListed(RequestsFor(Group(channels), ids), own);
  }

  // The reading of several channels holds each wanted channel exactly once,
  // with the value its frames hold, and nothing else.
  lemma {:induction false} BatchAnswers(p: Plant, channels: seq<Channel>, ids: seq<string>, x: Channel)
    requires PlantFor(p, channels) && ValidConfig(channels) && x in channels
    ensures HasRegisters(p.store, x.key)
    ensures var task := ReadTask(RequestsFor(Group(channels), ids));
            && TaskKnown(p, task) && ApplyTask(p, task).0 == p
            && var data := Merge(ApplyTask(p, task).1, []);
               && data.Values? && DistinctKeys(Wanted(data.values, ids))
               && Lookup(Wanted(data.values, ids), x.id) == if x.id in ids then ReadingOf(p, x) else None
  {
    NeededIsIssuable(p, channels, ids);
    var requests := RequestsFor(Group(channels), ids);
    ReadsCollect(p, requests, []);
    CollectAnswers(p, channels, requests, [], x);
    WantedKeys(Collect(p, requests, []), ids);
    LookupWanted(Collect(p, requests, []), ids, x.id);
    if x.id in ids {
      WantedIsAsked(channels, ids, x);
    }
  }
}
