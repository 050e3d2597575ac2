// Reading and writing requests as a state machine over conversations, and
// what it does on a quiet plant: communication.py. CommunicationService, the
// class, is proved against it.

module Jobs {
  import opened Bytes
  import opened Escaping
  import opened Checksums
  import opened Models
  import opened Records
  import opened Composition
  import opened Config
  import opened Readings
  import opened Conversation

  // A read of one request, or a write of some values of one request.
  datatype Job = ReadJob(request: Request) | WriteJob(items: seq<Item>)
  {
    predicate Valid() {
      WriteJob? ==> items != []
    }

    // The first message.
    function Command(): Command
      requires Valid()
    {
      match this
      case ReadJob(request) => request.key.command
      case WriteJob(items) => items[0].record.key.command
    }
  }

  const MAX_TRIES: nat := 3

  // Which conversation of the job is going on.
  datatype Stage =
    | First(attempt: nat)
    | Second(attempt: nat, response: seq<byte>)
    | Reading
    | Setting(update: seq<byte>, before: seq<byte>)

  datatype Outcome = Values(values: Dict) | Raised(error: Error)

  datatype Work = Talking(stage: Stage, talk: Talk) | Finished(outcome: Outcome)

  function GetTalk(c: Command): Talk {
    Talk(RequestMessage(c), false)
  }

  function Start(job: Job): Work
    requires job.Valid()
  {
    Talking(if job.ReadJob? then First(1) else Reading, GetTalk(job.Command()))
  }

  // read_request restarts after a failed or invalid response, three times.
  function Retry(job: Job, attempt: nat): (work: Work)
    requires job.ReadJob?
    ensures work.Talking? ==> work.stage == First(attempt + 1) && attempt < MAX_TRIES
  {
    if attempt < MAX_TRIES then Talking(First(attempt + 1), GetTalk(job.request.key.command))
    else Finished(Raised(ProtocolError))
  }

  // {record.channel_id: parse_record(frame, record) for ...}
  function ParseItems(frame: seq<byte>, items: seq<Item>): Result<Dict, Error> {
    if items == [] then Ok([])
    else
      match ParseItems(frame, Front(items))
      case Err(e) => Err(e)
      case Ok(d) =>
        match ParseRecord(frame, Last(items).record)
        case Err(e) => Err(e)
        case Ok(v) => Ok(Put(d, Last(items).record.id, v))
  }

  // What a write reports once the device has answered: the values it took, or
  // that it kept the old ones.
  function Answered(items: seq<Item>, update: seq<byte>, before: seq<byte>, confirmed: bool): Outcome {
    match ParseItems(if confirmed then update else before, items)
    case Err(e) => Raised(e)
    case Ok(d) => if confirmed then Values(d) else Raised(NotConfirmed)
  }

  predicate Suits(job: Job, stage: Stage) {
    job.ReadJob? <==> stage.First? || stage.Second?
  }

  // What a read does with its first response.
  function AfterFirst(request: Request, attempt: nat, response: seq<byte>): (work: Work)
    ensures work.Talking? ==> work.stage == Second(attempt, response)
  {
    match request.key.command2
    case None => Finished(Values(ParseRecordsOf(response, request.records, None)))
    case Some(c2) => Talking(Second(attempt, response), GetTalk(c2))
  }

  // What a write does with the frame it has read.
  function AfterReading(job: Job, response: seq<byte>): (work: Work)
    requires job.WriteJob? && job.Valid()
    ensures work.Talking? ==> work.stage.Setting?
  {
    if response == RequestMessage(job.Command()) then Finished(Values([]))
    else if response == [] then Finished(Raised(ProtocolError))
    else
      match ComposeAll(job.items, response)
      case Err(e) => Finished(Raised(e))
      case Ok(update) => Talking(Setting(update, response), Talk(Escape(update), true))
  }

  // What the job does with the result of a conversation.
  function Advance(job: Job, stage: Stage, r: Result<seq<byte>, Error>): (work: Work)
    requires job.Valid() && Suits(job, stage)
    ensures work.Talking? ==> Suits(job, work.stage)
    ensures TalksLeft(work) < TalksLeft(Talking(stage, GetTalk([])))
  {
    match stage
    case First(attempt) =>
      if r.Err? || !HeaderCheck(r.value) then Retry(job, attempt) else AfterFirst(job.request, attempt, r.value)
    case Second(attempt, response) =>
      if r.Err? || !HeaderCheck(r.value) then Retry(job, attempt)
      else Finished(Values(ParseRecordsOf(response, job.request.records, Some(r.value))))
    case Reading =>
      if r.Err? then Finished(Raised(r.error)) else AfterReading(job, r.value)
    case Setting(update, before) =>
      if r.Err? then Finished(Raised(r.error))
      else
        Finished(Answered(job.items, update, before, HeaderCheck(r.value)))
  }

  // Conversations still to come: six for a read, two for a write.
  function TalksLeft(work: Work): nat {
    match work
    case Finished(_) => 0
    case Talking(First(attempt), _) => 2 * Room(attempt, MAX_TRIES) + 2
    case Talking(Second(attempt, _), _) => 2 * Room(attempt, MAX_TRIES) + 1
    case Talking(Reading, _) => 2
    case Talking(Setting(_, _), _) => 1
  }

  // Carries a job through, with the conversation at hand standing at `at`.
  function Complete(line: Line, job: Job, work: Work, at: At): (Line, Outcome)
    requires job.Valid() && (work.Talking? ==> Suits(job, work.stage))
    decreases TalksLeft(work)
  {
    match work
    case Finished(outcome) => (line, outcome)
    case Talking(stage, talk) =>
      var (line', done) := Run(line, talk, at);
      Complete(line', job, Advance(job, stage, done.result), Greet)
  }

  // One conversation of a job.
  lemma TalkStep(line: Line, job: Job, stage: Stage, talk: Talk)
    requires job.Valid() && Suits(job, stage)
    ensures var (line1, r) := Converse(line, talk);
            Complete(line, job, Talking(stage, talk), Greet) ==
            Complete(line1, job, Advance(job, stage, r), Greet)
  {
  }

  // How the stages follow one another.
  lemma FirstAdvances(request: Request, attempt: nat, f: seq<byte>)
    requires HeaderCheck(f)
    ensures Advance(ReadJob(request), First(attempt), Ok(f)) == AfterFirst(request, attempt, f)
  {
  }

  lemma SecondAdvances(request: Request, attempt: nat, f: seq<byte>, g: seq<byte>)
    requires HeaderCheck(g)
    ensures Advance(ReadJob(request), Second(attempt, f), Ok(g)) ==
            Finished(Values(ParseRecordsOf(f, request.records, Some(g))))
  {
  }

  lemma Fails(request: Request, stage: Stage, r: Result<seq<byte>, Error>)
    requires stage.First? || stage.Second?
    requires r.Err? || !HeaderCheck(r.value)
    ensures Advance(ReadJob(request), stage, r) == Retry(ReadJob(request), stage.attempt)
  {
  }

  lemma ReadingAdvances(items: seq<Item>, f: seq<byte>)
    requires items != [] && f != [] && f != RequestMessage(WriteJob(items).Command())
    ensures Advance(WriteJob(items), Reading, Ok(f)) ==
            var composed := ComposeAll(items, f);
            if composed.Err? then Finished(Raised(composed.error))
            else Talking(Setting(composed.value, f), Talk(Escape(composed.value), true))
  {
  }

  lemma SettingAdvances(items: seq<Item>, u: seq<byte>, before: seq<byte>, answer: seq<byte>, confirmed: bool)
    requires items != [] && (HeaderCheck(answer) <==> confirmed)
    ensures Advance(WriteJob(items), Setting(u, before), Ok(answer)) ==
            Finished(Answered(items, u, before, confirmed))
  {
  }

  // A whole read_request or _write_values.
  function Perform(line: Line, job: Job): (Line, Outcome)
    requires job.Valid()
  {
    Complete(line, job, Start(job), Greet)
  }

  // A write whose read brings back its own request message returns at once.
  lemma ShortcutReturns(line: Line, items: seq<Item>)
    requires items != []
    requires var c := WriteJob(items).Command(); Converse(line, GetTalk(c)).1 == Ok(RequestMessage(c))
    ensures Perform(line, WriteJob(items)) == (Converse(line, GetTalk(WriteJob(items).Command())).0, Values([]))
  {
    var job := WriteJob(items);
    var c := job.Command();
    TalkStep(line, job, Reading, GetTalk(c));
    assert Advance(job, Reading, Ok(RequestMessage(c))) == Finished(Values([]));
  }

  // One attempt at a request: nothing, if a response is missing or invalid.
  function Attempt(line: Line, request: Request): (Line, Option<Dict>) {
    var (line1, r) := Converse(line, GetTalk(request.key.command));
    if r.Err? || !HeaderCheck(r.value) then (line1, None)
    else
      match request.key.command2
      case None => (line1, Some(ParseRecordsOf(r.value, request.records, None)))
      case Some(c2) =>
        var (line2, r2) := Converse(line1, GetTalk(c2));
        if r2.Err? || !HeaderCheck(r2.value) then (line2, None)
        else (line2, Some(ParseRecordsOf(r.value, request.records, Some(r2.value))))
  }

  lemma {:induction false} AttemptStep(line: Line, request: Request, attempt: nat)
    ensures var job := ReadJob(request);
            var (line', d) := Attempt(line, request);
            Complete(line, job, Talking(First(attempt), GetTalk(job.Command())), Greet) ==
            if d.Some? then (line', Values(d.value)) else Complete(line', job, Retry(job, attempt), Greet)
  {
    var job := ReadJob(request);
    TalkStep(line, job, First(attempt), GetTalk(job.Command()));
    var (line1, r) := Converse(line, GetTalk(request.key.command));
    if r.Err? || !HeaderCheck(r.value) {
      Fails(request, First(attempt), r);
    } else {
      FirstAdvances(request, attempt, r.value);
      if request.key.command2.Some? {
        SecondStep(line1, request, attempt, r.value);
      }
    }
  }

  lemma {:induction false} SecondStep(line: Line, request: Request, attempt: nat, f: seq<byte>)
    requires request.key.command2.Some?
    ensures var job := ReadJob(request);
            var talk := GetTalk(request.key.command2.value);
            var (line', r) := Converse(line, talk);
            Complete(line, job, Talking(Second(attempt, f), talk), Greet) ==
            if r.Err? || !HeaderCheck(r.value) then Complete(line', job, Retry(job, attempt), Greet)
            else (line', Values(ParseRecordsOf(f, request.records, Some(r.value))))
  {
    var talk := GetTalk(request.key.command2.value);
    TalkStep(line, ReadJob(request), Second(attempt, f), talk);
    var r := Converse(line, talk).1;
    if r.Err? || !HeaderCheck(r.value) {
      Fails(request, Second(attempt, f), r);
    } else {
      SecondAdvances(request, attempt, f, r.value);
    }
  }

  // A read is the first success of three attempts, and fails if all three do.
  lemma {:induction false} ThreeAttempts(line: Line, request: Request)
    ensures Perform(line, ReadJob(request)) ==
            var (line1, d1) := Attempt(line, request);
            var (line2, d2) := Attempt(line1, request);
            var (line3, d3) := Attempt(line2, request);
            if d1.Some? then (line1, Values(d1.value))
            else if d2.Some? then (line2, Values(d2.value))
            else if d3.Some? then (line3, Values(d3.value))
            else (line3, Raised(ProtocolError))
  {
    var line1 := Attempt(line, request).0;
    var line2 := Attempt(line1, request).0;
    AttemptStep(line, request, 1);
    AttemptStep(line1, request, 2);
    AttemptStep(line2, request, 3);
  }

  // ---------------------------------------------------- one job after another

  // What a caller does while it holds the lock: jobs in a row, up to the first
  // that fails.
  type Task = seq<Job>

  predicate ValidTask(task: Task) {
    forall job :: job in task ==> job.Valid()
  }

  function PerformTask(line: Line, task: Task): (Line, seq<Outcome>)
    requires ValidTask(task)
    decreases |task|
  {
    if task == [] then (line, [])
    else
      var (line1, outcome) := Perform(line, task[0]);
      if outcome.Raised? then (line1, [outcome])
      else
        var (line2, outcomes) := PerformTask(line1, task[1..]);
        (line2, [outcome] + outcomes)
  }

  lemma PerformTaskOne(line: Line, job: Job)
    requires job.Valid()
    ensures PerformTask(line, [job]) == (Perform(line, job).0, [Perform(line, job).1])
  {
    var (line1, outcome) := Perform(line, job);
    assert [job][1..] == [] && PerformTask(line1, []) == (line1, []);
    assert [outcome] + [] == [outcome];
  }

  // The outcomes in one dictionary, or the failure at their end.
  function Merge(outcomes: seq<Outcome>, data: Dict): Outcome
    decreases |outcomes|
  {
    if outcomes == [] then Values(data)
    else
      match outcomes[0]
      case Raised(_) => outcomes[0]
      case Values(values) => Merge(outcomes[1..], Update(data, values))
  }

  // Jobs in a row, collected into a dictionary.
  function Gather(line: Line, task: Task, data: Dict): (Line, Outcome)
    requires ValidTask(task)
  {
    var (line', outcomes) := PerformTask(line, task);
    (line', Merge(outcomes, data))
  }

  lemma GatherStep(line: Line, task: Task, data: Dict)
    requires ValidTask(task) && task != []
    ensures var (line', outcome) := Perform(line, task[0]);
            Gather(line, task, data) ==
            if outcome.Raised? then (line', outcome)
            else Gather(line', task[1..], Update(data, outcome.values))
  {
    var (line1, outcome) := Perform(line, task[0]);
    if outcome.Values? {
      var outcomes := PerformTask(line1, task[1..]).1;
      assert ([outcome] + outcomes)[1..] == outcomes;
    }
  }

  // read_requests, and the register writes of the clock
  function ReadTask(requests: seq<Request>): (task: Task)
    ensures ValidTask(task) && |task| == |requests|
    ensures forall i :: 0 <= i < |requests| ==> task[i] == ReadJob(requests[i])
  {
    seq(|requests|, i requires 0 <= i < |requests| => ReadJob(requests[i]))
  }

  function WriteTask(items: seq<Item>): (task: Task)
    ensures ValidTask(task) && |task| == |items|
    ensures forall i :: 0 <= i < |items| ==> task[i] == WriteJob([items[i]])
  {
    seq(|items|, i requires 0 <= i < |items| => WriteJob([items[i]]))
  }

  // The turn of request or item i.
  lemma GatherReads(line: Line, requests: seq<Request>, i: nat, data: Dict)
    requires i < |requests|
    ensures var (line', outcome) := Perform(line, ReadJob(requests[i]));
            Gather(line, ReadTask(requests[i..]), data) ==
            if outcome.Raised? then (line', outcome)
            else Gather(line', ReadTask(requests[i + 1..]), Update(data, outcome.values))
  {
    assert ReadTask(requests[i..])[1..] == ReadTask(requests[i + 1..]);
    GatherStep(line, ReadTask(requests[i..]), data);
  }

  lemma GatherWrites(line: Line, items: seq<Item>, i: nat, data: Dict)
    requires i < |items|
    ensures var (line', outcome) := Perform(line, WriteJob([items[i]]));
            Gather(line, WriteTask(items[i..]), data) ==
            if outcome.Raised? then (line', outcome)
            else Gather(line', WriteTask(items[i + 1..]), Update(data, outcome.values))
  {
    assert WriteTask(items[i..])[1..] == WriteTask(items[i + 1..]);
    GatherStep(line, WriteTask(items[i..]), data);
  }

  lemma GatherNothing(line: Line, data: Dict)
    ensures Gather(line, ReadTask([]), data) == (line, Values(data))
    ensures Gather(line, WriteTask([]), data) == (line, Values(data))
  {
  }

  // On any line, a read makes at most six conversations and a write two.
  lemma {:induction false} PerformIsBounded(line: Line, job: Job, work: Work)
    requires job.Valid() && (work.Talking? ==> Suits(job, work.stage))
    ensures Complete(line, job, work, Greet).0.polls <= line.polls + TalksLeft(work) * PollsLeft(Greet)
    decreases TalksLeft(work)
  {
    if work.Talking? {
      PollsAreBounded(line, work.talk, Greet);
      var (line', done) := Run(line, work.talk, Greet);
      PerformIsBounded(line', job, Advance(job, work.stage, done.result));
      Spread(TalksLeft(Advance(job, work.stage, done.result)), TalksLeft(work), PollsLeft(Greet));
    }
  }

  lemma Spread(a: nat, b: nat, p: nat)
    requires a < b
    ensures p + a * p <= b * p
  {
    assert (b - a - 1) * p >= 0;
  }

  // -------------------------------------------------------- read safety

  // The line behind the first k attempts at a request.
  function AfterAttempts(line: Line, request: Request, k: nat): Line {
    if k == 0 then line else Attempt(AfterAttempts(line, request, k - 1), request).0
  }

  // A conversation brought a frame that passes the header check.
  predicate Brings(line: Line, c: Command) {
    var r := Converse(line, GetTalk(c)).1;
    r.Ok? && HeaderCheck(r.value)
  }

  // Both conversations of an attempt did, on the lines it had them.
  predicate Succeeds(line: Line, key: RequestKey) {
    Brings(line, key.command)
    && (key.command2.Some? ==> Brings(Converse(line, GetTalk(key.command)).0, key.command2.value))
  }

  // The values decoded from exactly those frames.
  function Decoded(line: Line, request: Request): Dict
    requires Succeeds(line, request.key)
  {
    var (line1, r) := Converse(line, GetTalk(request.key.command));
    match request.key.command2
    case None => ParseRecordsOf(r.value, request.records, None)
    case Some(c2) => ParseRecordsOf(r.value, request.records, Some(Converse(line1, GetTalk(c2)).1.value))
  }

  // Attempt k of a read does.
  predicate Works(line: Line, request: Request, k: nat) {
    Succeeds(AfterAttempts(line, request, k), request.key)
  }

  // No attempt before it does.
  ghost predicate NoneWorks(line: Line, request: Request, k: nat) {
    forall j: nat :: j < k ==> !Works(line, request, j)
  }

  ghost predicate FirstToWork(line: Line, request: Request, k: nat, values: Dict) {
    && Works(line, request, k) && values == Decoded(AfterAttempts(line, request, k), request)
    && NoneWorks(line, request, k)
  }

  // The first attempt of the run that brings verified frames gives the values
  // decoded from those very frames; if none does, the read fails.
  ghost predicate Verified(line: Line, request: Request, outcome: Outcome) {
    match outcome
    case Values(values) => exists k: nat :: k < MAX_TRIES && FirstToWork(line, request, k, values)
    case Raised(e) => e == ProtocolError && NoneWorks(line, request, MAX_TRIES)
  }

  lemma AttemptDecodes(line: Line, request: Request)
    ensures Attempt(line, request).1 ==
            if Succeeds(line, request.key) then Some(Decoded(line, request)) else None
  {
    if request.key.command2.None? {
      OneDecodes(line, request);
    } else {
      TwoDecode(line, request);
    }
  }

  lemma OneDecodes(line: Line, request: Request)
    requires request.key.command2.None?
    ensures Attempt(line, request).1 ==
            if Succeeds(line, request.key) then Some(Decoded(line, request)) else None
  {
  }

  lemma TwoDecode(line: Line, request: Request)
    requires request.key.command2.Some?
    ensures Attempt(line, request).1 ==
            if Succeeds(line, request.key) then Some(Decoded(line, request)) else None
  {
  }

  // What attempt k gives.
  ghost predicate Gives(line: Line, request: Request, k: nat, d: Option<Dict>) {
    && (d.Some? <==> Works(line, request, k))
    && (d.Some? ==> d.value == Decoded(AfterAttempts(line, request, k), request))
  }

  lemma AttemptGives(line: Line, request: Request, k: nat, before: Line)
    requires before == AfterAttempts(line, request, k)
    ensures Gives(line, request, k, Attempt(before, request).1)
    ensures Attempt(before, request).0 == AfterAttempts(line, request, k + 1)
  {
    AttemptDecodes(before, request);
  }

  lemma GivesFirst(line: Line, request: Request, k: nat, d: Option<Dict>)
    requires Gives(line, request, k, d) && d.Some? && k < MAX_TRIES
    requires NoneWorks(line, request, k)
    ensures Verified(line, request, Values(d.value))
  {
    assert FirstToWork(line, request, k, d.value);
  }

  // The attempts from k on.
  function Remaining(line: Line, request: Request, k: nat): (Line, Outcome)
    decreases Room(k, MAX_TRIES)
  {
    if k >= MAX_TRIES then (line, Raised(ProtocolError))
    else
      var (line', d) := Attempt(line, request);
      if d.Some? then (line', Values(d.value)) else Remaining(line', request, k + 1)
  }

  lemma OneMoreFails(line: Line, request: Request, k: nat)
    requires NoneWorks(line, request, k) && !Works(line, request, k)
    ensures NoneWorks(line, request, k + 1)
  {
  }

  lemma AllFailed(line: Line, request: Request, k: nat, before: Line)
    requires k == MAX_TRIES && NoneWorks(line, request, k)
    ensures Verified(line, request, Remaining(before, request, k).1)
  {
  }

  lemma AttemptSucceeds(line: Line, request: Request, k: nat, before: Line)
    requires k < MAX_TRIES && NoneWorks(line, request, k) && before == AfterAttempts(line, request, k)
    requires Attempt(before, request).1.Some?
    ensures Verified(line, request, Remaining(before, request, k).1)
  {
    var d := Attempt(before, request).1;
    AttemptGives(line, request, k, before);
    GivesFirst(line, request, k, d);
    assert Remaining(before, request, k).1 == Values(d.value);
  }

  lemma AttemptFails(line: Line, request: Request, k: nat, before: Line)
    requires k < MAX_TRIES && NoneWorks(line, request, k) && before == AfterAttempts(line, request, k)
    requires Attempt(before, request).1.None?
    ensures NoneWorks(line, request, k + 1)
    ensures Attempt(before, request).0 == AfterAttempts(line, request, k + 1)
  {
    AttemptGives(line, request, k, before);
    OneMoreFails(line, request, k);
  }

  lemma {:induction false} RemainingIsVerified(line: Line, request: Request, k: nat, before: Line)
    requires k <= MAX_TRIES && NoneWorks(line, request, k) && before == AfterAttempts(line, request, k)
    ensures Verified(line, request, Remaining(before, request, k).1)
    decreases Room(k, MAX_TRIES)
  {
    if k == MAX_TRIES {
      AllFailed(line, request, k, before);
    } else if Attempt(before, request).1.Some? {
      AttemptSucceeds(line, request, k, before);
    } else {
      AttemptFails(line, request, k, before);
      RemainingGoesOn(before, request, k);
      RemainingIsVerified(line, request, k + 1, Attempt(before, request).0);
    }
  }

  lemma RemainingGoesOn(line: Line, request: Request, k: nat)
    requires k < MAX_TRIES && Attempt(line, request).1.None?
    ensures Remaining(line, request, k) == Remaining(Attempt(line, request).0, request, k + 1)
  {
  }

  lemma RemainingAttempts(line: Line, request: Request)
    ensures Remaining(line, request, 0) == Perform(line, ReadJob(request))
  {
    ThreeAttempts(line, request);
    var line2 := Attempt(Attempt(line, request).0, request).0;
    assert Remaining(line2, request, 2) ==
           var (line3, d3) := Attempt(line2, request);
           if d3.Some? then (line3, Values(d3.value)) else (line3, Raised(ProtocolError));
  }

  // Whatever arrives, the values of a read are decoded from frames that were
  // received in one of its three attempts and passed the header check.
  lemma {:induction false} ReadSafety(line: Line, request: Request)
    ensures Verified(line, request, Perform(line, ReadJob(request)).1)
    ensures Perform(line, ReadJob(request)).0.polls <= line.polls + 6 * 6180
  {
    RemainingIsVerified(line, request, 0, line);
    RemainingAttempts(line, request);
    PerformIsBounded(line, ReadJob(request), Start(ReadJob(request)));
  }
}
