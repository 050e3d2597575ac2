// Grouping channels into requests: config_loader.py, Request and
// HeatPumpConfig.

module Config {
  import opened Bytes
  import opened Models

  datatype Request = Request(key: RequestKey, records: seq<Channel>)

  // The distinct keys of a channel list, in order of first appearance.
  function Keys(channels: seq<Channel>): seq<RequestKey> {
    if channels == [] then []
    else
      var keys := Keys(Front(channels));
      if Last(channels).key in keys then keys else keys + [Last(channels).key]
  }

  // The channels with a given key, in their own order.
  function WithKey(channels: seq<Channel>, key: RequestKey): seq<Channel> {
    if channels == [] then []
    else WithKey(Front(channels), key) + (if Last(channels).key == key then [Last(channels)] else [])
  }

  function Group(channels: seq<Channel>): seq<Request> {
    var keys := Keys(channels);
    seq(|keys|, i requires 0 <= i < |keys| => Request(keys[i], WithKey(channels, keys[i])))
  }

  // The requests as the loop finds them: `index` remembers where the request
  // of a key stands, so that its record list can be appended to.
  method GroupRequests(channels: seq<Channel>) returns (requests: seq<Request>)
    ensures requests == Group(channels)
  {
    requests := [];
    var index: map<RequestKey, nat> := map[];
    for n := 0 to |channels|
      invariant requests == Group(channels[..n])
      invariant forall key :: key in index <==> key in Keys(channels[..n])
      invariant forall key :: key in index ==> index[key] < |requests| && requests[index[key]].key == key
    {
      var channel := channels[n];
      var key := channel.key;
      GroupNext(channels, n);
      if key !in index {
        NoChannelWithoutKey(channels[..n], key);
        requests := requests + [Request(key, [])];
        index := index[key := |requests| - 1];
      }
      var i := index[key];
      requests := requests[i := requests[i].(records := requests[i].records + [channel])];
      GroupingStep(channels[..n], channel, requests, i);
    }
    assert channels[..|channels|] == channels;
  }

  lemma GroupNext(channels: seq<Channel>, n: nat)
    requires n < |channels|
    ensures channels[..n + 1] == channels[..n] + [channels[n]]
    ensures Front(channels[..n + 1]) == channels[..n] && Last(channels[..n + 1]) == channels[n]
  {
  }

  // One more channel: its request gains one record, a new one if need be.
  lemma {:induction false} GroupingStep(channels: seq<Channel>, channel: Channel, requests: seq<Request>, i: nat)
    requires var keys := Keys(channels + [channel]);
             && |requests| == |keys| && i < |keys| && keys[i] == channel.key
             && requests[i] == Request(channel.key, WithKey(channels, channel.key) + [channel])
             && forall j :: 0 <= j < |keys| && j != i ==> requests[j] == Request(keys[j], WithKey(channels, keys[j]))
    ensures requests == Group(channels + [channel])
  {
    var next := channels + [channel];
    assert Front(next) == channels;
    KeysAreDistinct(next);
    forall j | 0 <= j < |requests|
      ensures requests[j] == Group(next)[j]
    {
      assert j != i ==> Keys(next)[j] != channel.key;
    }
  }

  lemma {:induction false} KeysAreDistinct(channels: seq<Channel>)
    ensures forall i, j :: 0 <= i < j < |Keys(channels)| ==> Keys(channels)[i] != Keys(channels)[j]
  {
    if channels != [] {
      KeysAreDistinct(Front(channels));
    }
  }

  lemma {:induction false} NoChannelWithoutKey(channels: seq<Channel>, key: RequestKey)
    ensures key in Keys(channels) <==> WithKey(channels, key) != []
  {
    if channels != [] {
      NoChannelWithoutKey(Front(channels), key);
    }
  }

  // --------------------------------------------------- what grouping keeps

  function Flatten(requests: seq<Request>): seq<Channel> {
    if requests == [] then [] else Flatten(Front(requests)) + Last(requests).records
  }

  // A request holds exactly the channels of its key.
  lemma {:induction false} WithKeyContents(channels: seq<Channel>, key: RequestKey, channel: Channel)
    ensures channel in WithKey(channels, key) <==> channel in channels && channel.key == key
  {
    if channels != [] {
      WithKeyContents(Front(channels), key, channel);
      assert channels == Front(channels) + [Last(channels)];
    }
  }

  lemma {:induction false} WithKeyCount(channels: seq<Channel>, key: RequestKey, channel: Channel)
    ensures multiset(WithKey(channels, key))[channel]
            == if channel.key == key then multiset(channels)[channel] else 0
  {
    if channels != [] {
      WithKeyCount(Front(channels), key, channel);
      assert channels == Front(channels) + [Last(channels)];
    }
  }

  lemma KeyIsNew(channels: seq<Channel>, i: nat)
    requires i < |Keys(channels)|
    ensures Keys(channels)[i] !in Keys(channels)[..i]
  {
    KeysAreDistinct(channels);
  }

  // How often a channel occurs in the first n groups.
  lemma {:induction false} FlattenCount(channels: seq<Channel>, n: nat, channel: Channel)
    requires n <= |Group(channels)|
    ensures multiset(Flatten(Group(channels)[..n]))[channel]
            == if channel.key in Keys(channels)[..n] then multiset(channels)[channel] else 0
  {
    if n > 0 {
      FlattenCount(channels, n - 1, channel);
      WithKeyCount(channels, Keys(channels)[n - 1], channel);
      KeyIsNew(channels, n - 1);
      LastGroup(channels, n);
      FlattenLast(Group(channels)[..n], channel);
    }
  }

  // The first n groups and keys, split at the last.
  lemma LastGroup(channels: seq<Channel>, n: nat)
    requires 0 < n <= |Group(channels)|
    ensures var requests := Group(channels)[..n];
            Front(requests) == Group(channels)[..n - 1]
            && Last(requests).records == WithKey(channels, Keys(channels)[n - 1])
    ensures Keys(channels)[..n] == Keys(channels)[..n - 1] + [Keys(channels)[n - 1]]
  {
  }

  lemma FlattenLast(requests: seq<Request>, channel: Channel)
    requires requests != []
    ensures multiset(Flatten(requests))[channel] ==
            multiset(Flatten(Front(requests)))[channel] + multiset(Last(requests).records)[channel]
  {
  }

  // Grouping is a partition: no channel is lost, duplicated or invented.
  lemma {:induction false} GroupingPartitions(channels: seq<Channel>)
    ensures multiset(Flatten(Group(channels))) == multiset(channels)
    ensures forall channel :: channel in channels ==>
              exists i :: 0 <= i < |Group(channels)| && channel in Group(channels)[i].records
                          && forall j :: 0 <= j < |Group(channels)| && j != i
                                         ==> channel !in Group(channels)[j].records
  {
    var requests := Group(channels);
    var n := |requests|;
    assert requests[..n] == requests && Keys(channels)[..n] == Keys(channels);
    forall channel
      ensures multiset(Flatten(requests))[channel] == multiset(channels)[channel]
    {
      FlattenCount(channels, n, channel);
      NoChannelWithoutKey(channels, channel.key);
      WithKeyContents(channels, channel.key, channel);
      if channel in channels {
        assert channel in WithKey(channels, channel.key);
      }
    }
    forall channel | channel in channels
      ensures exists i :: 0 <= i < n && channel in requests[i].records
                          && forall j :: 0 <= j < n && j != i ==> channel !in requests[j].records
    {
      WithKeyContents(channels, channel.key, channel);
      NoChannelWithoutKey(channels, channel.key);
      var i :| 0 <= i < n && Keys(channels)[i] == channel.key;
      KeysAreDistinct(channels);
      forall j | 0 <= j < n && j != i
        ensures channel !in requests[j].records
      {
        WithKeyContents(channels, Keys(channels)[j], channel);
      }
      assert channel in requests[i].records;
    }
  }

  // The position of the first channel with a key.
  function FirstWith(channels: seq<Channel>, key: RequestKey): (i: nat)
    requires key in Keys(channels)
    ensures i < |channels| && channels[i].key == key
    ensures forall j :: 0 <= j < i ==> channels[j].key != key
  {
    if key in Keys(Front(channels)) then FirstWith(Front(channels), key)
    else
      NoneBefore(Front(channels), key);
      |channels| - 1
  }

  lemma {:induction false} NoneBefore(channels: seq<Channel>, key: RequestKey)
    requires key !in Keys(channels)
    ensures forall j :: 0 <= j < |channels| ==> channels[j].key != key
  {
    if channels != [] {
      NoneBefore(Front(channels), key);
    }
  }

  // Requests stand in the order in which their commands first appear.
  lemma {:induction false} GroupingKeepsOrder(channels: seq<Channel>, i: nat, j: nat)
    requires i < j < |Keys(channels)|
    ensures FirstWith(channels, Keys(channels)[i]) < FirstWith(channels, Keys(channels)[j])
  {
    var front := Keys(Front(channels));
    KeysAreDistinct(channels);
    if j < |front| {
      GroupingKeepsOrder(Front(channels), i, j);
    }
  }

  // So do the channels within a request: channels i < j of it come from a < b.
  lemma {:induction false} RequestKeepsOrder(channels: seq<Channel>, key: RequestKey, i: nat, j: nat)
    returns (a: nat, b: nat)
    requires i < j < |WithKey(channels, key)|
    ensures a < b < |channels| && channels[a] == WithKey(channels, key)[i] && channels[b] == WithKey(channels, key)[j]
  {
    var before := WithKey(Front(channels), key);
    if j < |before| {
      a, b := RequestKeepsOrder(Front(channels), key, i, j);
    } else {
      WithKeyContents(Front(channels), key, before[i]);
      a :| 0 <= a < |Front(channels)| && Front(channels)[a] == before[i];
      b := |channels| - 1;
    }
  }

  // -------------------------------------------------------------- lookups

  predicate UniqueIds(channels: seq<Channel>) {
    forall i, j :: 0 <= i < j < |channels| ==> channels[i].id != channels[j].id
  }

  // The dictionary by id: the last channel of that id.
  function ChannelById(channels: seq<Channel>, id: string): (found: Option<Channel>)
    ensures found.Some? ==> found.value in channels && found.value.id == id
    ensures found.None? ==> forall c :: c in channels ==> c.id != id
  {
    if channels == [] then None
    else if Last(channels).id == id then Some(Last(channels))
    else ChannelById(Front(channels), id)
  }

  predicate Holds(request: Request, id: string) {
    exists i :: 0 <= i < |request.records| && request.records[i].id == id
  }

  // The first request with a channel of that id.
  function RequestFor(requests: seq<Request>, id: string): (found: Option<Request>)
    ensures found.Some? ==> found.value in requests && Holds(found.value, id)
    ensures found.None? ==> forall r :: r in requests ==> !Holds(r, id)
  {
    if requests == [] then None
    else if Holds(requests[0], id) then Some(requests[0])
    else RequestFor(requests[1..], id)
  }

  // Whatever the ids, the last channel of an id is found, and the first request that
  // has one.
  lemma {:induction false} LastChannelIsFound(channels: seq<Channel>, id: string, i: nat)
    requires i < |channels| && channels[i].id == id
    requires forall j :: i < j < |channels| ==> channels[j].id != id
    ensures ChannelById(channels, id) == Some(channels[i])
  {
    if i < |channels| - 1 {
      LastChannelIsFound(Front(channels), id, i);
    }
  }

  lemma {:induction false} FirstRequestIsFound(requests: seq<Request>, id: string, i: nat)
    requires i < |requests| && Holds(requests[i], id)
    requires forall j :: 0 <= j < i ==> !Holds(requests[j], id)
    ensures RequestFor(requests, id) == Some(requests[i])
  {
    if i > 0 {
      FirstRequestIsFound(requests[1..], id, i - 1);
    }
  }

  // With unique ids, the request found for a channel is the one of its
  // commands, and the channel found by its id is the channel itself.
  lemma {:induction false} LookupsAgree(channels: seq<Channel>, c: Channel)
    requires UniqueIds(channels) && c in channels
    ensures ChannelById(channels, c.id) == Some(c)
    ensures RequestFor(Group(channels), c.id) == Some(Request(c.key, WithKey(channels, c.key)))
    ensures Request(c.key, WithKey(channels, c.key)) in Group(channels)
    ensures c in WithKey(channels, c.key)
  {
    WithKeyContents(channels, c.key, c);
    NoChannelWithoutKey(channels, c.key);
    var i :| 0 <= i < |Keys(channels)| && Keys(channels)[i] == c.key;
    var own := Group(channels)[i];
    assert Holds(own, c.id) by {
      var k :| 0 <= k < |own.records| && own.records[k] == c;
    }
    OnlyHolder(channels, c, RequestFor(Group(channels), c.id).value);
    OnlyChannel(channels, c);
  }

  lemma {:induction false} OnlyHolder(channels: seq<Channel>, c: Channel, found: Request)
    requires UniqueIds(channels) && c in channels && found in Group(channels) && Holds(found, c.id)
    ensures found == Request(c.key, WithKey(channels, c.key))
  {
    var m :| 0 <= m < |found.records| && found.records[m].id == c.id;
    var j :| 0 <= j < |Group(channels)| && Group(channels)[j] == found;
    WithKeyContents(channels, Keys(channels)[j], found.records[m]);
    assert found.records[m] in channels;
  }

  lemma OnlyChannel(channels: seq<Channel>, c: Channel)
    requires UniqueIds(channels) && c in channels
    ensures ChannelById(channels, c.id) == Some(c)
  {
  }

  // A request keeps the ids unique.
  lemma {:induction false} WithKeyUnique(channels: seq<Channel>, key: RequestKey)
    requires UniqueIds(channels)
    ensures UniqueIds(WithKey(channels, key))
  {
    if channels != [] {
      WithKeyUnique(Front(channels), key);
      var before := WithKey(Front(channels), key);
      forall i | 0 <= i < |before|
        ensures before[i].id != Last(channels).id
      {
        WithKeyContents(Front(channels), key, before[i]);
        var j :| 0 <= j < |Front(channels)| && Front(channels)[j] == before[i];
        assert channels[j].id != channels[|channels| - 1].id;
      }
    }
  }
}
