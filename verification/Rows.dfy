// Jobs in a row on any line, whatever arrives: communication.py, read_requests,
// and service.py, read_channels.

module Rows {
  import opened Bytes
  import opened Models
  import opened Config
  import opened Readings
  import opened Conversation
  import opened Jobs
  import opened Batches
  import opened Calls
  import opened Replies

  // Job i takes line i to line i + 1, with outcome i.
  ghost predicate Follows(lines: seq<Line>, task: Task, outcomes: seq<Outcome>, i: nat)
    requires i < |outcomes| <= |task| && |lines| == |outcomes| + 1
  {
    task[i].Valid() && Perform(lines[i], task[i]) == (lines[i + 1], outcomes[i])
  }

  // Each job starts on the line that the one before it left, and the first failure
  // is the last outcome.
  ghost predicate Row(lines: seq<Line>, task: Task, outcomes: seq<Outcome>) {
    && |outcomes| <= |task| && |lines| == |outcomes| + 1
    && (forall i :: 0 <= i < |outcomes| ==> Follows(lines, task, outcomes, i))
    && (forall i :: 0 <= i < |outcomes| - 1 ==> outcomes[i].Values?)
    && (|outcomes| < |task| ==> outcomes != [] && Last(outcomes).Raised?)
  }

  // What a row of jobs comes to, on every line.
  lemma {:induction false} RowExactly(line: Line, task: Task) returns (lines: seq<Line>)
    requires ValidTask(task)
    ensures Row(lines, task, PerformTask(line, task).1)
    ensures lines[0] == line && Last(lines) == PerformTask(line, task).0
    decreases |task|
  {
    if task == [] {
      assert PerformTask(line, task) == (line, []);
      lines := [line];
    } else {
      var (line1, outcome) := Perform(line, task[0]);
      if outcome.Raised? {
        assert PerformTask(line, task) == (line1, [outcome]);
        lines := [line, line1];
        assert Follows(lines, task, [outcome], 0);
      } else {
        var rest := RowExactly(line1, task[1..]);
        var outcomes := PerformTask(line1, task[1..]).1;
        lines := [line] + rest;
        OneBefore(lines, task, [outcome] + outcomes);
        assert PerformTask(line, task).1 == [outcome] + outcomes;
      }
    }
  }

  lemma {:induction false} OneBefore(lines: seq<Line>, task: Task, outcomes: seq<Outcome>)
    requires task != [] && outcomes != [] && |lines| == |outcomes| + 1 && |outcomes| <= |task|
    requires Follows(lines, task, outcomes, 0) && outcomes[0].Values?
    requires Row(lines[1..], task[1..], outcomes[1..])
    ensures Row(lines, task, outcomes)
  {
    forall i | 0 <= i < |outcomes|
      ensures Follows(lines, task, outcomes, i)
      ensures i < |outcomes| - 1 ==> outcomes[i].Values?
    {
      if i > 0 {
        assert Follows(lines[1..], task[1..], outcomes[1..], i - 1);
        assert i < |outcomes| - 1 ==> outcomes[1..][i - 1].Values?;
      }
    }
  }

  // ------------------------------------------------------------ one dictionary

  predicate AllReport(outcomes: seq<Outcome>) {
    forall i :: 0 <= i < |outcomes| ==> outcomes[i].Values? && DistinctKeys(outcomes[i].values)
  }

  predicate Silent(outcomes: seq<Outcome>, id: string)
    requires AllReport(outcomes)
  {
    forall i :: 0 <= i < |outcomes| ==> Lookup(outcomes[i].values, id) == None
  }

  // A failure at the end is the failure of all.
  lemma {:induction false} MergeFails(outcomes: seq<Outcome>, data: Dict)
    requires outcomes != [] && Last(outcomes).Raised?
    requires forall i :: 0 <= i < |outcomes| - 1 ==> outcomes[i].Values?
    ensures Merge(outcomes, data) == Last(outcomes)
    decreases |outcomes|
  {
    if |outcomes| > 1 {
      MergeFails(outcomes[1..], Update(data, outcomes[0].values));
    }
  }

  lemma {:induction false} MergeKeeps(outcomes: seq<Outcome>, data: Dict, id: string)
    requires AllReport(outcomes) && Silent(outcomes, id)
    ensures Merge(outcomes, data).Values? && Lookup(Merge(outcomes, data).values, id) == Lookup(data, id)
    decreases |outcomes|
  {
    if outcomes != [] {
      LookupUpdate(data, outcomes[0].values, id);
      MergeKeeps(outcomes[1..], Update(data, outcomes[0].values), id);
    }
  }

  // The last that reports a channel has it.
  lemma {:induction false} MergeReports(outcomes: seq<Outcome>, data: Dict, id: string, i: nat)
    requires AllReport(outcomes) && i < |outcomes| && Silent(outcomes[i + 1..], id) && Lookup(data, id) == None
    requires Silent(outcomes[..i], id)
    ensures Merge(outcomes, data).Values?
    ensures Lookup(Merge(outcomes, data).values, id) == Lookup(outcomes[i].values, id)
    decreases |outcomes|
  {
    var data1 := Update(data, outcomes[0].values);
    LookupUpdate(data, outcomes[0].values, id);
    if i == 0 {
      MergeKeeps(outcomes[1..], data1, id);
    } else {
      assert outcomes[1..][i..] == outcomes[i + 1..];
      assert outcomes[..i][0] == outcomes[0] && outcomes[1..][..i - 1] == outcomes[..i][1..];
      assert Lookup(outcomes[..i][0].values, id) == None;
      MergeReports(outcomes[1..], data1, id, i - 1);
    }
  }

  // -------------------------------------------------------------- many channels

  // A read reports each id once, and only ids of its request.
  lemma {:induction false} ReadReports(line: Line, request: Request, id: string)
    ensures var outcome := Perform(line, ReadJob(request)).1;
            outcome.Values? ==>
              && DistinctKeys(outcome.values)
              && ((forall x :: x in request.records ==> x.id != id) ==> Lookup(outcome.values, id) == None)
  {
    ReadSafety(line, request);
    var outcome := Perform(line, ReadJob(request)).1;
    if outcome.Values? {
      var k: nat :| k < MAX_TRIES && FirstToWork(line, request, k, outcome.values);
      DecodedReports(AfterAttempts(line, request, k), request, id);
    }
  }

  lemma {:induction false} DecodedReports(line: Line, request: Request, id: string)
    requires Succeeds(line, request.key)
    ensures DistinctKeys(Decoded(line, request))
    ensures (forall x :: x in request.records ==> x.id != id) ==> Lookup(Decoded(line, request), id) == None
  {
    var f, second := FirstFrame(line, request.key), SecondFrameOf(line, request.key);
    ParsedKeysDistinct(f, request.records, second);
    if forall x :: x in request.records ==> x.id != id {
      NotParsed(f, request.records, second, id);
    }
  }

  lemma {:induction false} OthersAreSilent(channels: seq<Channel>, x: Channel, r: Request, line: Line)
    requires UniqueIds(channels) && x in channels && r in Group(channels)
    requires r != Request(x.key, WithKey(channels, x.key))
    ensures var outcome := Perform(line, ReadJob(r)).1;
            outcome.Values? ==> DistinctKeys(outcome.values) && Lookup(outcome.values, x.id) == None
  {
    ReadReports(line, r, x.id);
    forall y | y in r.records
      ensures y.id != x.id
    {
      if y.id == x.id {
        var k :| 0 <= k < |r.records| && r.records[k] == y;
        assert Holds(r, x.id);
        OnlyHolder(channels, x, r);
      }
    }
  }

  // Every wanted channel is asked for in one request of the batch, and no other
  // request is for it.
  lemma {:induction false} OwnRequest(channels: seq<Channel>, ids: seq<string>, x: Channel) returns (i: nat)
    requires UniqueIds(channels) && x in channels && x.id in ids
    ensures var requests := RequestsFor(Group(channels), ids);
            var own := Request(x.key, WithKey(channels, x.key));
            && i < |requests| && requests[i] == own
            && forall j :: 0 <= j < |requests| && j != i ==> requests[j] in Group(channels) && requests[j] != own
  {
    var requests := RequestsFor(Group(channels), ids);
    NeededOnce(Group(channels), ids);
    LookupsAgree(channels, x);
    var a :| 0 <= a < |ids| && ids[a] == x.id;
    assert RequestFor(Group(channels), ids[a]) == Some(Request(x.key, WithKey(channels, x.key)));
    i :| 0 <= i < |requests| && requests[i] == Request(x.key, WithKey(channels, x.key));
    forall j | 0 <= j < |requests| && j != i
      ensures requests[j] in Group(channels)
    {
      assert requests[j] in requests;
    }
  }

  // What the reads of a batch come to.
  ghost predicate Batch(lines: seq<Line>, requests: seq<Request>, outcomes: seq<Outcome>) {
    Row(lines, ReadTask(requests), outcomes)
  }

  lemma {:induction false} BatchReports(lines: seq<Line>, channels: seq<Channel>, ids: seq<string>, x: Channel,
                                        outcomes: seq<Outcome>, i: nat)
    requires UniqueIds(channels) && x in channels
    requires var requests := RequestsFor(Group(channels), ids);
             && Batch(lines, requests, outcomes) && |outcomes| == |requests| && i < |requests|
             && requests[i] == Request(x.key, WithKey(channels, x.key))
             && forall j :: 0 <= j < |requests| && j != i ==>
                  requests[j] in Group(channels) && requests[j] != requests[i]
    requires forall j :: 0 <= j < |outcomes| ==> outcomes[j].Values?
    ensures Merge(outcomes, []).Values?
    ensures Lookup(Merge(outcomes, []).values, x.id) == Lookup(outcomes[i].values, x.id)
  {
    var requests := RequestsFor(Group(channels), ids);
    forall j | 0 <= j < |outcomes|
      ensures DistinctKeys(outcomes[j].values)
      ensures j != i ==> Lookup(outcomes[j].values, x.id) == None
    {
      assert Follows(lines, ReadTask(requests), outcomes, j);
      if j == i {
        ReadReports(lines[j], requests[j], x.id);
      } else {
        OthersAreSilent(channels, x, requests[j], lines[j]);
      }
    }
    MergeReports(outcomes, [], x.id, i);
  }

  lemma {:induction false} BatchMerges(lines: seq<Line>, channels: seq<Channel>, ids: seq<string>, x: Channel,
                                       outcomes: seq<Outcome>) returns (i: nat)
    requires UniqueIds(channels) && x in channels && x.id in ids
    requires Batch(lines, RequestsFor(Group(channels), ids), outcomes)
    ensures var requests, read := RequestsFor(Group(channels), ids), Merge(outcomes, []);
            && i < |requests| && requests[i] == Request(x.key, WithKey(channels, x.key)) && outcomes != []
            && if Last(outcomes).Raised? then read == Last(outcomes)
               else |outcomes| == |requests| && outcomes[i].Values? && read.Values?
                    && Lookup(read.values, x.id) == Lookup(outcomes[i].values, x.id)
  {
    i := OwnRequest(channels, ids, x);
    if Last(outcomes).Raised? {
      MergeFails(outcomes, []);
    } else {
      BatchReports(lines, channels, ids, x, outcomes, i);
    }
  }

  // A read of several known channels reads the needed requests in a row, on any
  // line. It fails as the first that fails; otherwise each wanted channel is
  // answered as its own request reported it.
  lemma {:induction false} BatchIsAnswered(line: Line, channels: seq<Channel>, ids: seq<string>, x: Channel)
    returns (lines: seq<Line>, outcomes: seq<Outcome>, i: nat)
    requires UniqueIds(channels) && x in channels && x.id in ids
    requires forall j :: 0 <= j < |ids| ==> exists y :: y in channels && y.id == ids[j]
    ensures var requests := RequestsFor(Group(channels), ids);
            && Batch(lines, requests, outcomes) && lines[0] == line
            && i < |requests| && requests[i] == Request(x.key, WithKey(channels, x.key)) && outcomes != []
    ensures var (line', reply) := Serve(line, channels, ReadChannels(ids));
            && line' == Last(lines)
            && if Last(outcomes).Raised? then reply == Refused(Failed(Last(outcomes).error))
               else |outcomes| == |RequestsFor(Group(channels), ids)| && outcomes[i].Values? && reply.Answers?
                    && Lookup(reply.values, x.id) == Lookup(outcomes[i].values, x.id)
  {
    var task := ReadTask(RequestsFor(Group(channels), ids));
    lines := RowExactly(line, task);
    outcomes := PerformTask(line, task).1;
    i := BatchMerges(lines, channels, ids, x, outcomes);
    assert Gather(line, task, []) == (Last(lines), Merge(outcomes, []));
    ChannelsAreRead(line, channels, ids, x.id);
  }
}
