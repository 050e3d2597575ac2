// Client, queue and device together refine a plain map from command to frame.

module Refinement {
  import opened Bytes
  import opened Escaping
  import opened Framing
  import opened Checksums
  import opened Models
  import opened Records
  import opened Composition
  import opened Config
  import opened Readings
  import opened Devices
  import opened Conversation
  import opened Exchange
  import opened Jobs

  // The job as an operation on the registers: no bytes on a line, no escaping,
  // no handshake.
  function Apply(p: Plant, job: Job): (Plant, Outcome)
    requires job.Valid() && Known(p, job)
  {
    match job
    case ReadJob(request) =>
      var c2 := request.key.command2;
      (p, Values(ParseRecordsOf(p.store[request.key.command], request.records,
                                if c2.Some? then Some(p.store[c2.value]) else None)))
    case WriteJob(items) =>
      var c := job.Command();
      match ComposeAll(items, p.store[c])
      case Err(e) => (p, Raised(e))
      case Ok(u) =>
        ComposedLength(items, p.store[c]);
        var confirmed := p.refuses(u).None?;
        (AfterSet(p, c, u), Answered(items, u, p.store[c], confirmed))
  }

  lemma {:induction false} ComposedLength(items: seq<Item>, f: seq<byte>)
    requires items != []
    ensures ComposeAll(items, f).Ok? ==> |ComposeAll(items, f).value| == |f| >= 5
  {
    var first := Compose(items[0].value, f, items[0].record);
    if first.Ok? && |items| > 1 {
      ComposedLength(items[1..], first.value);
    } else if first.Ok? {
      assert items[1..] == [];
    }
  }

  predicate Known(p: Plant, job: Job)
    requires job.Valid()
  {
    && job.Command() in p.store
    && (job.ReadJob? && job.request.key.command2.Some? ==> job.request.key.command2.value in p.store)
  }

  // Each record of a write lies behind the command bytes and inside the frame.
  predicate Sits(p: Plant, job: Job)
    requires job.Valid()
  {
    && Known(p, job)
    && (job.WriteJob? ==>
          && AllPlaced(job.items, |p.store[job.Command()]|)
          && forall item :: item in job.items ==> item.record.position >= 3 + |job.Command()|)
  }

  // Besides, the command does not trip the "already set" shortcut.
  predicate Fits(p: Plant, job: Job)
    requires job.Valid()
  {
    Sits(p, job) && (job.WriteJob? ==> RegisterSafe(job.Command()))
  }

  // Composing into a stored frame gives a frame for the same register.
  lemma {:induction false} ComposedIsUpdate(items: seq<Item>, f: seq<byte>, c: Command)
    requires items != [] && WellFormed(f, c) && AllPlaced(items, |f|)
    requires forall item :: item in items ==> item.record.position >= 3 + |c|
    requires ComposeAll(items, f).Ok?
    ensures IsUpdate(ComposeAll(items, f).value, f, c)
  {
    var start := f[1 := SET];
    ComposeAllStores(items, f);
    ComposedFrame(items, f);
    var u := ComposeAll(items, f).value;
    assert forall item :: item in items ==> Placed(item, |f|);
    forall i | 3 <= i < 3 + |c|
      ensures u[i] == f[i]
    {
      UntouchedByte(items, start, i);
    }
    assert u[3..3 + |c|] == f[3..3 + |c|];
  }

  lemma {:induction false} ReadRefines(line: Line, p: Plant, request: Request)
    requires Quiet(line, p) && ValidPlant(p) && Known(p, ReadJob(request))
    ensures var (line', outcome) := Perform(line, ReadJob(request));
            Quiet(line', p) && outcome == Apply(p, ReadJob(request)).1
  {
    FirstRefines(line, p, request);
    if request.key.command2.Some? {
      ReadsSecond(Converse(line, GetTalk(request.key.command)).0, p, request);
    }
  }

  lemma FirstRefines(line: Line, p: Plant, request: Request)
    requires Quiet(line, p) && ValidPlant(p) && Known(p, ReadJob(request))
    ensures var line' := Converse(line, GetTalk(request.key.command)).0;
            && Quiet(line', p)
            && Perform(line, ReadJob(request)) ==
               Complete(line', ReadJob(request), AfterFirst(request, 1, p.store[request.key.command]), Greet)
  {
    var c := request.key.command;
    TalkStep(line, ReadJob(request), First(1), GetTalk(c));
    GetReturnsStored(line, p, c);
    WellFormedIsFrame(p.store[c], c);
    FirstAdvances(request, 1, p.store[c]);
  }

  lemma ReadsSecond(line: Line, p: Plant, request: Request)
    requires Quiet(line, p) && ValidPlant(p) && Known(p, ReadJob(request)) && request.key.command2.Some?
    ensures var f := p.store[request.key.command];
            var g := p.store[request.key.command2.value];
            var (line', outcome) := Complete(line, ReadJob(request),
                                             Talking(Second(1, f), GetTalk(request.key.command2.value)), Greet);
            Quiet(line', p) && outcome == Values(ParseRecordsOf(f, request.records, Some(g)))
  {
    var f, c2 := p.store[request.key.command], request.key.command2.value;
    TalkStep(line, ReadJob(request), Second(1, f), GetTalk(c2));
    GetReturnsStored(line, p, c2);
    WellFormedIsFrame(p.store[c2], c2);
    SecondAdvances(request, 1, f, p.store[c2]);
  }

  // The frame read before a write is not mistaken for the request.
  lemma {:induction false} FrameIsNotRequest(p: Plant, items: seq<Item>)
    requires ValidPlant(p) && items != [] && Sits(p, WriteJob(items))
    requires RegisterSafe(WriteJob(items).Command())
    ensures var c := WriteJob(items).Command();
            p.store[c] != [] && p.store[c] != RequestMessage(c)
  {
    var c := WriteJob(items).Command();
    WellFormedIsFrame(p.store[c], c);
    assert Placed(items[0], |p.store[c]|);
    RegisterExact(c);
  }

  // The second half of a write.
  lemma {:induction false} SettingRefines(line: Line, p: Plant, items: seq<Item>, c: Command, u: seq<byte>)
    requires Quiet(line, p) && ValidPlant(p) && c in p.commands
    requires items != [] && WriteJob(items).Command() == c && IsUpdate(u, p.store[c], c)
    requires BestMatch(p.commands, u) == Some(c)
    ensures var work := Talking(Setting(u, p.store[c]), Talk(Escape(u), true));
            var (line', outcome) := Complete(line, WriteJob(items), work, Greet);
            && Quiet(line', AfterSet(p, c, u)) && ValidPlant(AfterSet(p, c, u))
            && outcome == Answered(items, u, p.store[c], p.refuses(u).None?)
  {
    SetStores(line, p, c, u);
    var talk := Talk(Escape(u), true);
    TalkStep(line, WriteJob(items), Setting(u, p.store[c]), talk);
    SettingAdvances(items, u, p.store[c], Converse(line, talk).1.value, p.refuses(u).None?);
  }

  // The set frame of the write, if there is one, reaches its register.
  predicate Delivers(p: Plant, items: seq<Item>)
    requires items != [] && Known(p, WriteJob(items))
  {
    var c := WriteJob(items).Command();
    var composed := ComposeAll(items, p.store[c]);
    composed.Ok? ==> BestMatch(p.commands, composed.value) == Some(c)
  }

  // It does if no command begins with the one written to.
  lemma {:induction false} UnextendedDelivers(p: Plant, items: seq<Item>)
    requires ValidPlant(p) && items != [] && Fits(p, WriteJob(items))
    requires Unextended(p.commands, WriteJob(items).Command())
    ensures Delivers(p, items)
  {
    var c := WriteJob(items).Command();
    if ComposeAll(items, p.store[c]).Ok? {
      ComposedIsUpdate(items, p.store[c], c);
      UpdateMatches(p, c, ComposeAll(items, p.store[c]).value);
    }
  }

  lemma {:induction false} WriteRefines(line: Line, p: Plant, items: seq<Item>)
    requires Quiet(line, p) && ValidPlant(p) && items != [] && Sits(p, WriteJob(items))
    requires RegisterSafe(WriteJob(items).Command()) && Delivers(p, items)
    ensures var (line', outcome) := Perform(line, WriteJob(items));
            var (p', expected) := Apply(p, WriteJob(items));
            Quiet(line', p') && ValidPlant(p') && outcome == expected
  {
    var c := WriteJob(items).Command();
    WriteReads(line, p, items);
    match ComposeAll(items, p.store[c])
    case Err(_) =>
    case Ok(u) =>
      ComposedLength(items, p.store[c]);
      ComposedIsUpdate(items, p.store[c], c);
      SettingRefines(Converse(line, GetTalk(c)).0, p, items, c, u);
  }

  // The first half of a write.
  lemma {:induction false} WriteReads(line: Line, p: Plant, items: seq<Item>)
    requires Quiet(line, p) && ValidPlant(p) && items != [] && Sits(p, WriteJob(items))
    requires RegisterSafe(WriteJob(items).Command())
    ensures var c := WriteJob(items).Command();
            var line1 := Converse(line, GetTalk(c)).0;
            var composed := ComposeAll(items, p.store[c]);
            && Quiet(line1, p)
            && Perform(line, WriteJob(items)) ==
               if composed.Err? then (line1, Raised(composed.error))
               else Complete(line1, WriteJob(items), Talking(Setting(composed.value, p.store[c]),
                                                             Talk(Escape(composed.value), true)), Greet)
  {
    var job := WriteJob(items);
    var c := job.Command();
    TalkStep(line, job, Reading, GetTalk(c));
    GetReturnsStored(line, p, c);
    FrameIsNotRequest(p, items);
    ReadingAdvances(items, p.store[c]);
  }

  // A write whose set frame carries a longer command: it is stored in the
  // register of that command, the register of its own is left as it was, and
  // the caller is told that the write succeeded.
  lemma {:induction false} StrayWrite(line: Line, p: Plant, items: seq<Item>, d: Command)
    requires Quiet(line, p) && ValidPlant(p) && items != [] && Sits(p, WriteJob(items))
    requires var c := WriteJob(items).Command();
             var composed := ComposeAll(items, p.store[c]);
             && RegisterSafe(c) && composed.Ok?
             && BestMatch(p.commands, composed.value) == Some(d) && d != c && p.refuses(composed.value).None?
    ensures var c := WriteJob(items).Command();
            var u := ComposeAll(items, p.store[c]).value;
            var (line', outcome) := Perform(line, WriteJob(items));
            && |u| >= 5 && Quiet(line', p.(store := p.store[d := Stored(u)]))
            && outcome == Answered(items, u, p.store[c], true)
  {
    var c := WriteJob(items).Command();
    var u := ComposeAll(items, p.store[c]).value;
    WriteReads(line, p, items);
    ComposedLength(items, p.store[c]);
    ComposedIsUpdate(items, p.store[c], c);
    UpdateIsFrame(u, p.store[c], c);
    BestMatchIsLongest(p.commands, u);
    StraySet(Converse(line, GetTalk(c)).0, p, items, d, u);
  }

  lemma StraySet(line: Line, p: Plant, items: seq<Item>, d: Command, u: seq<byte>)
    requires Quiet(line, p) && items != [] && WriteJob(items).Command() in p.store
    requires IsFrame(u) && 5 <= |u| <= 514 && |Escape(u)| >= 6 && u[1] == SET
    requires d in p.commands && d in p.store && WellFormed(p.store[d], d)
    requires BestMatch(p.commands, u) == Some(d) && p.refuses(u).None?
    ensures var f := p.store[WriteJob(items).Command()];
            var work := Talking(Setting(u, f), Talk(Escape(u), true));
            var (line', outcome) := Complete(line, WriteJob(items), work, Greet);
            && Quiet(line', p.(store := p.store[d := Stored(u)])) && outcome == Answered(items, u, f, true)
  {
    var f := p.store[WriteJob(items).Command()];
    var talk := Talk(Escape(u), true);
    SetReaches(line, p, d, u);
    TalkStep(line, WriteJob(items), Setting(u, f), talk);
    SettingAdvances(items, u, f, Converse(line, talk).1.value, true);
  }

  // Jobs fit a plant by its layout alone, which no job changes.
  ghost predicate SameLayout(p: Plant, q: Plant) {
    && p.commands == q.commands && p.refuses == q.refuses
    && p.store.Keys == q.store.Keys
    && forall c :: c in p.store ==> c in q.store && |p.store[c]| == |q.store[c]|
  }

  predicate JobDelivers(p: Plant, job: Job)
    requires job.Valid() && Known(p, job)
  {
    job.WriteJob? ==> Delivers(p, job.items)
  }

  // One job on a quiet line does to the plant what it does to the map, with
  // the same outcome, and leaves the line quiet and the plant valid.
  lemma {:induction false} JobRefines(line: Line, p: Plant, job: Job)
    requires Quiet(line, p) && ValidPlant(p) && job.Valid() && Fits(p, job) && JobDelivers(p, job)
    ensures var (line', outcome) := Perform(line, job);
            var (p', expected) := Apply(p, job);
            Quiet(line', p') && ValidPlant(p') && outcome == expected && SameLayout(p, p')
  {
    match job
    case ReadJob(request) => ReadRefines(line, p, request);
    case WriteJob(items) => WriteRefines(line, p, items);
    ApplyKeepsLayout(p, job);
  }

  lemma ApplyKeepsLayout(p: Plant, job: Job)
    requires job.Valid() && Known(p, job)
    ensures SameLayout(p, Apply(p, job).0)
  {
    if job.WriteJob? {
      ComposedLength(job.items, p.store[job.Command()]);
    }
  }

  lemma ByLayout(p: Plant, q: Plant, job: Job)
    requires job.Valid() && SameLayout(p, q)
    ensures Known(p, job) ==> Known(q, job)
    ensures Sits(p, job) ==> Sits(q, job)
    ensures Fits(p, job) ==> Fits(q, job)
  {
  }

  // A job whose records lie where they should keeps the plant valid.
  lemma {:induction false} ApplyKeepsValid(p: Plant, job: Job)
    requires ValidPlant(p) && job.Valid() && Sits(p, job)
    ensures ValidPlant(Apply(p, job).0)
  {
    if job.WriteJob? {
      var c := job.Command();
      var composed := ComposeAll(job.items, p.store[c]);
      if composed.Ok? {
        ComposedLength(job.items, p.store[c]);
        ComposedIsUpdate(job.items, p.store[c], c);
        StoredIsWellFormed(composed.value, p.store[c], c);
        PutKeepsValid(p, c, Stored(composed.value));
      }
    }
  }

  // ------------------------------------------------------------ whole runs

  predicate TaskKnown(p: Plant, task: Task) {
    forall job :: job in task ==> job.Valid() && Known(p, job)
  }

  predicate TaskFits(p: Plant, task: Task) {
    forall job :: job in task ==> job.Valid() && Fits(p, job)
  }

  // A task on the map.
  function ApplyTask(p: Plant, task: Task): (r: (Plant, seq<Outcome>))
    requires TaskKnown(p, task)
    ensures SameLayout(p, r.0)
    decreases |task|
  {
    if task == [] then (p, [])
    else
      ApplyKeepsLayout(p, task[0]);
      var (p1, outcome) := Apply(p, task[0]);
      if outcome.Raised? then (p1, [outcome])
      else
        RestKnown(p, p1, task);
        var (p2, outcomes) := ApplyTask(p1, task[1..]);
        (p2, [outcome] + outcomes)
  }

  lemma ApplyTaskOne(p: Plant, task: Task)
    requires |task| == 1 && TaskKnown(p, task)
    ensures task[0].Valid() && Known(p, task[0])
    ensures ApplyTask(p, task) == (Apply(p, task[0]).0, [Apply(p, task[0]).1])
  {
    var p1 := Apply(p, task[0]).0;
    assert task[1..] == [];
    ApplyKeepsLayout(p, task[0]);
    RestKnown(p, p1, task);
    assert ApplyTask(p1, []) == (p1, []);
    assert [Apply(p, task[0]).1] + [] == [Apply(p, task[0]).1];
  }

  lemma RestKnown(p: Plant, q: Plant, task: Task)
    requires TaskKnown(p, task) && SameLayout(p, q) && task != []
    ensures TaskKnown(q, task[1..])
  {
    forall job | job in task[1..]
      ensures job.Valid() && Known(q, job)
    {
      ByLayout(p, q, job);
    }
  }

  lemma TaskFitsByLayout(p: Plant, q: Plant, task: Task)
    requires TaskFits(p, task) && SameLayout(p, q)
    ensures TaskFits(q, task)
    ensures task != [] ==> TaskFits(q, task[1..])
  {
    forall job | job in task
      ensures job.Valid() && Fits(q, job)
    {
      ByLayout(p, q, job);
    }
  }

  // Each set frame of the task reaches its register, in the registers as they
  // are then.
  predicate TaskDelivers(p: Plant, task: Task)
    requires TaskKnown(p, task)
    decreases |task|
  {
    if task == [] then true
    else
      ApplyKeepsLayout(p, task[0]);
      var (p1, outcome) := Apply(p, task[0]);
      RestKnown(p, p1, task);
      JobDelivers(p, task[0]) && (outcome.Values? ==> TaskDelivers(p1, task[1..]))
  }

  // Jobs in a row do to the plant what they do to the map.
  lemma {:induction false} TaskRefines(line: Line, p: Plant, task: Task)
    requires Quiet(line, p) && ValidPlant(p) && TaskFits(p, task) && TaskDelivers(p, task)
    ensures var (line', outcomes) := PerformTask(line, task);
            var (p', expected) := ApplyTask(p, task);
            Quiet(line', p') && ValidPlant(p') && outcomes == expected
    decreases |task|
  {
    if task != [] {
      JobRefines(line, p, task[0]);
      var line1 := Perform(line, task[0]).0;
      var (p1, outcome) := Apply(p, task[0]);
      TaskFitsByLayout(p, p1, task);
      if outcome.Values? {
        TaskRefines(line1, p1, task[1..]);
      }
    }
  }

  // A task whose records lie where they should keeps the plant valid.
  lemma {:induction false} TaskKeepsValid(p: Plant, task: Task)
    requires ValidPlant(p) && TaskKnown(p, task) && forall job :: job in task ==> Sits(p, job)
    ensures ValidPlant(ApplyTask(p, task).0)
    decreases |task|
  {
    if task != [] {
      ApplyKeepsValid(p, task[0]);
      ApplyKeepsLayout(p, task[0]);
      var p1 := Apply(p, task[0]).0;
      RestKnown(p, p1, task);
      forall job | job in task[1..]
        ensures Sits(p1, job)
      {
        ByLayout(p, p1, job);
      }
      TaskKeepsValid(p1, task[1..]);
    }
  }

  // The rest of a task meets a valid plant.
  lemma {:induction false} TaskTail(p: Plant, task: Task)
    requires ValidPlant(p) && TaskFits(p, task) && task != []
    ensures task[0].Valid() && Fits(p, task[0])
    ensures var (p1, outcome) := Apply(p, task[0]);
            && ValidPlant(p1) && TaskFits(p1, task[1..])
            && ApplyTask(p, task) ==
               if outcome.Raised? then (p1, [outcome])
               else var (p2, outcomes) := ApplyTask(p1, task[1..]); (p2, [outcome] + outcomes)
  {
    ApplyKeepsValid(p, task[0]);
    ApplyKeepsLayout(p, task[0]);
    TaskFitsByLayout(p, Apply(p, task[0]).0, task);
  }

  predicate AllValid(tasks: seq<Task>) {
    forall i :: 0 <= i < |tasks| ==> ValidTask(tasks[i])
  }

  predicate AllFit(p: Plant, tasks: seq<Task>) {
    forall i :: 0 <= i < |tasks| ==> TaskFits(p, tasks[i])
  }

  // The tasks one after the other, on the line ...
  function PerformAll(line: Line, tasks: seq<Task>): (Line, seq<seq<Outcome>>)
    requires AllValid(tasks)
  {
    if tasks == [] then (line, [])
    else
      var (line1, outcomes) := PerformAll(line, Front(tasks));
      var (line2, last) := PerformTask(line1, Last(tasks));
      (line2, outcomes + [last])
  }

  lemma PerformOneMore(line: Line, tasks: seq<Task>, task: Task)
    requires ValidTask(task) && AllValid(tasks)
    ensures AllValid(tasks + [task])
    ensures var (line1, outcomes) := PerformAll(line, tasks);
            var (line2, last) := PerformTask(line1, task);
            PerformAll(line, tasks + [task]) == (line2, outcomes + [last])
  {
    assert Front(tasks + [task]) == tasks && Last(tasks + [task]) == task;
  }

  // ... and on the map.
  function ApplyAll(p: Plant, tasks: seq<Task>): (r: (Plant, seq<seq<Outcome>>))
    requires AllFit(p, tasks)
    ensures SameLayout(p, r.0)
  {
    if tasks == [] then (p, [])
    else
      var (p1, outcomes) := ApplyAll(p, Front(tasks));
      TaskFitsByLayout(p, p1, Last(tasks));
      var (p2, last) := ApplyTask(p1, Last(tasks));
      (p2, outcomes + [last])
  }

  predicate AllDeliver(p: Plant, tasks: seq<Task>)
    requires AllFit(p, tasks)
  {
    if tasks == [] then true
    else
      var p1 := ApplyAll(p, Front(tasks)).0;
      TaskFitsByLayout(p, p1, Last(tasks));
      AllDeliver(p, Front(tasks)) && TaskDelivers(p1, Last(tasks))
  }

  // Over every sequence of tasks the whole stack behaves exactly like the map:
  // same outcomes, same registers, quiet line.
  lemma {:induction false} RunRefines(line: Line, p: Plant, tasks: seq<Task>)
    requires Quiet(line, p) && ValidPlant(p) && AllFit(p, tasks) && AllDeliver(p, tasks)
    ensures var (line', outcomes) := PerformAll(line, tasks);
            var (p', expected) := ApplyAll(p, tasks);
            Quiet(line', p') && ValidPlant(p') && outcomes == expected
  {
    if tasks != [] {
      RunRefines(line, p, Front(tasks));
      var line1 := PerformAll(line, Front(tasks)).0;
      var p1 := ApplyAll(p, Front(tasks)).0;
      TaskFitsByLayout(p, p1, Last(tasks));
      TaskRefines(line1, p1, Last(tasks));
    }
  }

  // No command begins with one that is written to.
  predicate Unshadowed(commands: seq<Command>, task: Task) {
    forall job :: job in task && job.Valid() && job.WriteJob? ==> Unextended(commands, job.Command())
  }

  predicate AllUnshadowed(commands: seq<Command>, tasks: seq<Task>) {
    forall i :: 0 <= i < |tasks| ==> Unshadowed(commands, tasks[i])
  }

  lemma {:induction false} UnshadowedDelivers(p: Plant, task: Task)
    requires ValidPlant(p) && TaskFits(p, task) && Unshadowed(p.commands, task)
    ensures TaskDelivers(p, task)
    decreases |task|
  {
    if task != [] {
      TaskTail(p, task);
      FirstDelivers(p, task);
      UnshadowedDelivers(Apply(p, task[0]).0, task[1..]);
    }
  }

  lemma FirstDelivers(p: Plant, task: Task)
    requires ValidPlant(p) && TaskFits(p, task) && Unshadowed(p.commands, task) && task != []
    requires task[0].Valid() && Fits(p, task[0])
    ensures JobDelivers(p, task[0])
    ensures Unshadowed(Apply(p, task[0]).0.commands, task[1..])
  {
    ApplyKeepsLayout(p, task[0]);
    assert task[0] in task;
    if task[0].WriteJob? {
      UnextendedDelivers(p, task[0].items);
    }
  }

  // Reads send no set frames.
  lemma {:induction false} ReadsDeliver(p: Plant, task: Task)
    requires TaskKnown(p, task) && forall job :: job in task ==> job.ReadJob?
    ensures TaskDelivers(p, task)
    decreases |task|
  {
    if task != [] {
      ReadsDeliver(p, task[1..]);
    }
  }

  // If no command begins with one that is written to, every run is delivered.
  lemma {:induction false} AllUnshadowedDeliver(p: Plant, tasks: seq<Task>)
    requires ValidPlant(p) && AllFit(p, tasks) && AllUnshadowed(p.commands, tasks)
    ensures AllDeliver(p, tasks) && ValidPlant(ApplyAll(p, tasks).0)
  {
    if tasks != [] {
      AllUnshadowedDeliver(p, Front(tasks));
      var p1 := ApplyAll(p, Front(tasks)).0;
      TaskFitsByLayout(p, p1, Last(tasks));
      UnshadowedDelivers(p1, Last(tasks));
      TaskKeepsValid(p1, Last(tasks));
    }
  }

  // ------------------------------------------------------ truthful writes

  predicate AllReadable(items: seq<Item>) {
    forall item :: item in items ==> Readable(item.record)
  }

  // What a write does and returns: out of range exactly if a value is, and then
  // nothing is sent. Otherwise the composed frame is stored unless it is
  // refused, and the return says which, except that a record that never decodes
  // makes it InvalidData either way.
  lemma {:induction false} WriteIsTruthful(line: Line, p: Plant, items: seq<Item>)
    requires Quiet(line, p) && ValidPlant(p) && items != [] && Sits(p, WriteJob(items))
    requires RegisterSafe(WriteJob(items).Command()) && Delivers(p, items)
    ensures var c := WriteJob(items).Command();
            var composed := ComposeAll(items, p.store[c]);
            var (line', outcome) := Perform(line, WriteJob(items));
            if !AllInRange(items) then outcome == Raised(OutOfRange) && Quiet(line', p)
            else
              && composed.Ok? && |composed.value| >= 5 && Quiet(line', AfterSet(p, c, composed.value))
              && (outcome.Values? <==> AllReadable(items) && p.refuses(composed.value).None?)
              && (outcome == Raised(NotConfirmed) <==> AllReadable(items) && p.refuses(composed.value).Some?)
              && (outcome == Raised(InvalidData) <==> !AllReadable(items))
  {
    WriteRefines(line, p, items);
    WriteOutcomes(p, items);
  }

  // The same on the map.
  lemma {:induction false} WriteOutcomes(p: Plant, items: seq<Item>)
    requires ValidPlant(p) && items != [] && Sits(p, WriteJob(items))
    ensures var c := WriteJob(items).Command();
            var composed := ComposeAll(items, p.store[c]);
            var (p', outcome) := Apply(p, WriteJob(items));
            if !AllInRange(items) then outcome == Raised(OutOfRange) && p' == p
            else
              && composed.Ok? && |composed.value| >= 5 && p' == AfterSet(p, c, composed.value)
              && (outcome.Values? <==> AllReadable(items) && p.refuses(composed.value).None?)
              && (outcome == Raised(NotConfirmed) <==> AllReadable(items) && p.refuses(composed.value).Some?)
              && (outcome == Raised(InvalidData) <==> !AllReadable(items))
  {
    var c := WriteJob(items).Command();
    var f := p.store[c];
    WellFormedIsFrame(f, c);
    ComposeAllStores(items, f);
    ComposedLength(items, f);
    if AllInRange(items) {
      ParsingExact(ComposeAll(items, f).value, items);
      ParsingExact(f, items);
    }
  }

  lemma {:induction false} ParsingExact(f: seq<byte>, items: seq<Item>)
    requires |f| >= 2 && AllPlaced(items, |f|)
    ensures ParseItems(f, items).Ok? <==> AllReadable(items)
    ensures ParseItems(f, items).Err? ==> ParseItems(f, items).error == InvalidData
  {
    if items != [] {
      assert items == Front(items) + [Last(items)];
      assert Placed(Last(items), |f|);
      ParsingExact(f, Front(items));
      ReadableParses(f, Last(items).record);
    }
  }

  // ------------------------------------------------------ swallowed writes

  // A write to a register that holds exactly its own request message takes it
  // for the sign that the value is already set: it returns and sets nothing.
  lemma {:induction false} SwallowedWrite(line: Line, p: Plant, items: seq<Item>)
    requires Quiet(line, p) && ValidPlant(p) && items != []
    requires var c := WriteJob(items).Command(); c in p.store && p.store[c] == RequestMessage(c)
    ensures var (line', outcome) := Perform(line, WriteJob(items));
            Quiet(line', p) && outcome == Values([])
  {
    GetReturnsStored(line, p, WriteJob(items).Command());
    ShortcutReturns(line, items);
  }

  ghost predicate Swallows(p: Plant, c: Command) {
    forall line, items: seq<Item> {:trigger Perform(line, WriteJob(items))} ::
      Quiet(line, p) && items != [] && WriteJob(items).Command() == c ==>
        var (line', outcome) := Perform(line, WriteJob(items));
        Quiet(line', p) && outcome == Values([])
  }

  // For every command that is not safe there is a valid plant, with data in the
  // register of the command, that swallows every write to it. A command that is
  // safe has none: WriteIsTruthful says what a write to it does.
  lemma {:induction false} UnsafeSwallows(c: Command) returns (p: Plant)
    requires |c| >= 1 && !RegisterSafe(c)
    ensures ValidPlant(p) && p.commands == [c] && |p.store[c]| > |c| + 5
    ensures Swallows(p, c)
  {
    p := Plant(map[c := RequestMessage(c)], [c], _ => None);
    UnsafePlant(p, c);
    forall line, items: seq<Item> | Quiet(line, p) && items != [] && WriteJob(items).Command() == c
      ensures var (line', outcome) := Perform(line, WriteJob(items));
              Quiet(line', p) && outcome == Values([])
    {
      SwallowedWrite(line, p, items);
    }
  }

  lemma UnsafePlant(p: Plant, c: Command)
    requires |c| >= 1 && !RegisterSafe(c)
    requires p.commands == [c] && p.store == map[c := RequestMessage(c)]
    ensures ValidPlant(p) && |p.store[c]| > |c| + 5
  {
    TensAreARegister(c);
    assert Clear(c, c);
  }

  // Sixteen bytes of 0x10 are such a command.
  lemma {:induction false} AnUnsafeRegister()
    ensures !RegisterSafe(Tens(16))
  {
    AllTens(16);
  }

  // On the wire, any command that is not safe for the shortcut: a line on which
  // a valid response that carries data makes the write return with nothing set.
  lemma {:induction false} SwallowedOnTheWire(items: seq<Item>) returns (line: Line, response: seq<byte>)
    requires items != [] && !ShortcutSafe(WriteJob(items).Command())
    requires |Escape(RequestMessage(WriteJob(items).Command()))| <= INPUT_BUFFER_LENGTH
    ensures var c := WriteJob(items).Command();
            && HeaderCheck(response) && |response| > |c| + 5
            && Converse(line, GetTalk(c)).1 == Ok(response)
    ensures Perform(line, WriteJob(items)).1 == Values([])
  {
    var c := WriteJob(items).Command();
    response := RequestMessage(c);
    ShortcutUnsafe(c);
    RequestIsFrame(c);
    line := Line(None, Prompt(response, []), 0, []);
    PromptAnswers(line, GetTalk(c), response, []);
    ShortcutReturns(line, items);
  }
}
