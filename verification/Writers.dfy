// What the lock is for: concurrent writers of different bits or bytes, even in
// one register, never undo each other.

module Writers {
  import opened Bytes
  import opened Models
  import opened Records
  import opened Composition
  import opened Readings
  import opened Devices
  import opened Exchange
  import opened Jobs
  import opened Refinement
  import opened Zones
  import opened Locking

  // In some zone, the register still is what an accepted write of the item
  // left, and its caller was told what it read as.
  ghost predicate Kept(p: Plant, item: Item, told: Outcome, zone: Zone) {
    var c := item.record.key.command;
    && c in p.store
    && exists f {:trigger WrittenBy(f, item, told)} :: WrittenBy(f, item, told) && SameOn(f, p.store[c], zone)
  }

  ghost predicate TaskLeaves(task: Task, c: Command, zone: Zone) {
    forall job :: job in task ==> Leaves(job, c, zone)
  }

  // All jobs but one, which is job k of task t.
  ghost predicate OthersLeave(tasks: seq<Task>, t: nat, k: nat, c: Command, zone: Zone) {
    forall u, j :: 0 <= u < |tasks| && 0 <= j < |tasks[u]| && (u != t || j != k) ==> Leaves(tasks[u][j], c, zone)
  }

  // ------------------------------------------------------- sequential runs

  lemma {:induction false} JobKeeps(p: Plant, job: Job, item: Item, told: Outcome, zone: Zone)
    requires ValidPlant(p) && job.Valid() && Fits(p, job) && Kept(p, item, told, zone)
    requires Leaves(job, item.record.key.command, zone)
    ensures Kept(Apply(p, job).0, item, told, zone)
  {
    var c := item.record.key.command;
    var f :| WrittenBy(f, item, told) && SameOn(f, p.store[c], zone);
    JobKeepsZone(p, job, c, zone);
    SameOnTransitive(f, p.store[c], Apply(p, job).0.store[c], zone);
  }

  lemma {:induction false} TaskKeeps(p: Plant, task: Task, item: Item, told: Outcome, zone: Zone)
    requires ValidPlant(p) && TaskFits(p, task) && Kept(p, item, told, zone)
    requires TaskLeaves(task, item.record.key.command, zone)
    ensures Kept(ApplyTask(p, task).0, item, told, zone)
    decreases |task|
  {
    if task != [] {
      JobKeeps(p, task[0], item, told, zone);
      TaskTail(p, task);
      if Apply(p, task[0]).1.Values? {
        TaskKeeps(Apply(p, task[0]).0, task[1..], item, told, zone);
      }
    }
  }

  // If job k of the task is an accepted write, its item is kept.
  ghost predicate KeepsItem(p: Plant, task: Task, k: nat, item: Item, zone: Zone)
    requires TaskKnown(p, task)
  {
    var (p', outcomes) := ApplyTask(p, task);
    k < |outcomes| && outcomes[k].Values? ==> Kept(p', item, outcomes[k], zone)
  }

  // An accepted write in a task, and only jobs that leave the zone behind it.
  lemma {:induction false} TaskWrites(p: Plant, task: Task, k: nat, item: Item, zone: Zone)
    requires ValidPlant(p) && TaskFits(p, task) && k < |task| && WritesItem(task[k], item)
    requires TaskLeaves(task[k + 1..], item.record.key.command, zone)
    ensures KeepsItem(p, task, k, item, zone)
    decreases |task|
  {
    if k == 0 {
      FirstWrites(p, task, item, zone);
    } else {
      TaskTail(p, task);
      JobInTail(task, k);
      TaskWrites(Apply(p, task[0]).0, task[1..], k - 1, item, zone);
      TailWrites(p, task, k, item, zone);
    }
  }

  lemma TailWrites(p: Plant, task: Task, k: nat, item: Item, zone: Zone)
    requires ValidPlant(p) && TaskFits(p, task) && 0 < k < |task|
    requires task[0].Valid() && Fits(p, task[0]) && TaskFits(Apply(p, task[0]).0, task[1..])
    requires KeepsItem(Apply(p, task[0]).0, task[1..], k - 1, item, zone)
    ensures KeepsItem(p, task, k, item, zone)
  {
    TaskTail(p, task);
    var (p1, outcome) := Apply(p, task[0]);
    if outcome.Values? {
      var (p2, outcomes) := ApplyTask(p1, task[1..]);
      assert ApplyTask(p, task) == (p2, [outcome] + outcomes);
      assert k < |outcomes| + 1 ==> ([outcome] + outcomes)[k] == outcomes[k - 1];
    }
  }

  lemma JobInTail(task: Task, k: nat)
    requires 0 < k < |task|
    ensures task[1..][k - 1] == task[k] && task[1..][k - 1 + 1..] == task[k + 1..]
  {
  }

  lemma {:induction false} FirstWrites(p: Plant, task: Task, item: Item, zone: Zone)
    requires ValidPlant(p) && TaskFits(p, task) && task != [] && WritesItem(task[0], item)
    requires TaskLeaves(task[1..], item.record.key.command, zone)
    ensures KeepsItem(p, task, 0, item, zone)
  {
    TaskTail(p, task);
    var (p1, outcome) := Apply(p, task[0]);
    if outcome.Values? {
      WriteKept(p, task[0], item, zone);
      TaskKeeps(p1, task[1..], item, outcome, zone);
    }
  }

  lemma WriteKept(p: Plant, job: Job, item: Item, zone: Zone)
    requires ValidPlant(p) && WritesItem(job, item) && Fits(p, job)
    ensures var (p', told) := Apply(p, job); told.Values? ==> Kept(p', item, told, zone)
  {
    AcceptedIsWritten(p, job, item);
    var p' := Apply(p, job).0;
    assert SameOn(p'.store[item.record.key.command], p'.store[item.record.key.command], zone);
  }

  // The last task of a sequential run meets the plant the others leave.
  lemma {:induction false} LastTask(p: Plant, tasks: seq<Task>)
    requires ValidPlant(p) && AllFit(p, tasks) && tasks != []
    ensures AllFit(p, Front(tasks)) && |ApplyAll(p, tasks).1| == |tasks|
    ensures var (p1, outcomes) := ApplyAll(p, Front(tasks));
            && ValidPlant(p1) && TaskFits(p1, Last(tasks)) && |outcomes| == |tasks| - 1
            && ApplyAll(p, tasks) == (ApplyTask(p1, Last(tasks)).0, outcomes + [ApplyTask(p1, Last(tasks)).1])
  {
    ApplyAllKeepsValid(p, Front(tasks));
    TaskFitsByLayout(p, ApplyAll(p, Front(tasks)).0, Last(tasks));
  }

  lemma {:induction false} ApplyAllKeepsValid(p: Plant, tasks: seq<Task>)
    requires ValidPlant(p) && AllFit(p, tasks)
    ensures ValidPlant(ApplyAll(p, tasks).0) && |ApplyAll(p, tasks).1| == |tasks|
  {
    if tasks != [] {
      ApplyAllKeepsValid(p, Front(tasks));
      var p1 := ApplyAll(p, Front(tasks)).0;
      TaskFitsByLayout(p, p1, Last(tasks));
      FittingKeepsValid(p1, Last(tasks));
    }
  }

  lemma FittingKeepsValid(p: Plant, task: Task)
    requires ValidPlant(p) && TaskFits(p, task)
    ensures ValidPlant(ApplyTask(p, task).0)
  {
    TaskKeepsValid(p, task);
  }

  // In a sequential run, an accepted write survives all jobs that leave the
  // zone.
  lemma {:induction false} AcceptedWriteSurvives(p: Plant, tasks: seq<Task>, i: nat, k: nat, item: Item, zone: Zone)
    requires ValidPlant(p) && AllFit(p, tasks) && i < |tasks| && k < |tasks[i]|
    requires WritesItem(tasks[i][k], item) && OthersLeave(tasks, i, k, item.record.key.command, zone)
    ensures var (p', outcomes) := ApplyAll(p, tasks);
            && |outcomes| == |tasks|
            && (k < |outcomes[i]| && outcomes[i][k].Values? ==> Kept(p', item, outcomes[i][k], zone))
    decreases |tasks|
  {
    LastTask(p, tasks);
    var p1 := ApplyAll(p, Front(tasks)).0;
    OthersInLast(tasks, i, k, item.record.key.command, zone);
    if i == |tasks| - 1 {
      TaskWrites(p1, Last(tasks), k, item, zone);
    } else {
      AcceptedWriteSurvives(p, Front(tasks), i, k, item, zone);
      var outcomes: seq<seq<Outcome>> := ApplyAll(p, Front(tasks)).1;
      if k < |outcomes[i]| && outcomes[i][k].Values? {
        TaskKeeps(p1, Last(tasks), item, outcomes[i][k], zone);
      }
    }
  }

  lemma OthersInLast(tasks: seq<Task>, i: nat, k: nat, c: Command, zone: Zone)
    requires i < |tasks| && k < |tasks[i]| && OthersLeave(tasks, i, k, c, zone)
    ensures if i == |tasks| - 1 then TaskLeaves(Last(tasks)[k + 1..], c, zone)
            else TaskLeaves(Last(tasks), c, zone) && OthersLeave(Front(tasks), i, k, c, zone)
  {
    if i < |tasks| - 1 {
      forall u, j | 0 <= u < |tasks| - 1 && 0 <= j < |Front(tasks)[u]| && (u != i || j != k)
        ensures Leaves(Front(tasks)[u][j], c, zone)
      {
        assert Leaves(tasks[u][j], c, zone);
      }
    }
  }

  // ---------------------------------------------------------- interleavings

  lemma Place(order: seq<nat>, n: nat, t: nat) returns (i: nat)
    requires IsPermutation(order, n) && t < n
    ensures i < |order| && order[i] == t
  {
    assert t in order;
    i :| 0 <= i < |order| && order[i] == t;
  }

  lemma OthersInOrder(tasks: seq<Task>, order: seq<nat>, i: nat, k: nat, c: Command, zone: Zone)
    requires IsPermutation(order, |tasks|) && i < |order| && OthersLeave(tasks, order[i], k, c, zone)
    ensures OthersLeave(Chosen(tasks, order), i, k, c, zone)
  {
    forall u, j | 0 <= u < |order| && 0 <= j < |tasks[order[u]]| && (u != i || j != k)
      ensures Leaves(Chosen(tasks, order)[u][j], c, zone)
    {
      assert u != i ==> order[u] != order[i];
    }
  }

  // Job k of thread t, in the sequential run the interleaving comes down to.
  lemma {:induction false} SequentialWrite(w: World, turns: seq<nat>, p: Plant, t: nat, k: nat, item: Item, zone: Zone)
    returns (p': Plant)
    requires Begun(w) && Quiet(w.line, p) && ValidPlant(p) && DeliveredInAnyOrder(p, w.tasks)
    requires t < |w.tasks| && k < |w.tasks[t]| && WritesItem(w.tasks[t][k], item)
    requires OthersLeave(w.tasks, t, k, item.record.key.command, zone)
    requires AllReturned(Schedule(w, turns))
    ensures Quiet(Schedule(w, turns).line, p') && ValidPlant(p') && SameLayout(p, p')
    ensures var end := Schedule(w, turns);
            var outcomes := end.threads[t].outcomes;
            k < |outcomes| && outcomes[k].Values? ==> Kept(p', item, outcomes[k], zone)
  {
    var end := Schedule(w, turns);
    NoLostUpdates(w, turns, p);
    var i := Place(end.order, |w.tasks|, t);
    OthersInOrder(w.tasks, end.order, i, k, item.record.key.command, zone);
    AcceptedWriteSurvives(p, Chosen(w.tasks, end.order), i, k, item, zone);
    ApplyAllKeepsValid(p, Chosen(w.tasks, end.order));
    p' := ApplyAll(p, Chosen(w.tasks, end.order)).0;
    assert end.threads[t] == Returned(ApplyAll(p, Chosen(w.tasks, end.order)).1[i]);
  }

  // Under every interleaving: an accepted write, whatever its value, is still
  // there when all callers have returned, in every zone the other jobs leave
  // alone.
  lemma {:induction false} WritersDoNotUndoEachOther(w: World, turns: seq<nat>, p: Plant,
                                                     t: nat, k: nat, item: Item, zone: Zone)
    requires Begun(w) && Quiet(w.line, p) && ValidPlant(p) && DeliveredInAnyOrder(p, w.tasks)
    requires t < |w.tasks| && k < |w.tasks[t]| && WritesItem(w.tasks[t][k], item)
    requires OthersLeave(w.tasks, t, k, item.record.key.command, zone)
    ensures var end := Schedule(w, turns);
            AllReturned(end) ==>
              exists p' {:trigger Quiet(end.line, p')} :: Quiet(end.line, p') &&
                var outcomes := end.threads[t].outcomes;
                k < |outcomes| && outcomes[k].Values? ==> Kept(p', item, outcomes[k], zone)
  {
    if AllReturned(Schedule(w, turns)) {
      var p' := SequentialWrite(w, turns, p, t, k, item, zone);
    }
  }

  // The channel reads as its writer was told, which is the value written if the
  // record can represent it.
  ghost predicate ReadsAsTold(p: Plant, item: Item, told: Outcome) {
    var x := item.record;
    && x.key.command in p.store
    && var read := ParseRecord(p.store[x.key.command], x);
       && read.Ok? && told.Values? && Lookup(told.values, x.id) == Some(read.value)
       && (Faithful(item.value, x) ==> read.value == item.value)
  }

  lemma {:induction false} KeptReads(p: Plant, item: Item, told: Outcome)
    requires ValidPlant(p) && Kept(p, item, told, ReadingZone(item.record)) && Sits(p, WriteJob([item]))
    ensures ReadsAsTold(p, item, told)
  {
    var x := item.record;
    var f :| WrittenBy(f, item, told) && SameOn(f, p.store[x.key.command], ReadingZone(x));
    assert item in [item];
    assert Placed(item, |f|);
    SameReading(f, p.store[x.key.command], x);
    if Faithful(item.value, x) {
      InscribedReads(f, item);
    }
  }

  // So if the others leave what the channel is decoded from, it reads as its own
  // writer was told ...
  lemma {:induction false} WritersReadBack(w: World, turns: seq<nat>, p: Plant, t: nat, k: nat, item: Item)
    requires Begun(w) && Quiet(w.line, p) && ValidPlant(p) && DeliveredInAnyOrder(p, w.tasks)
    requires t < |w.tasks| && k < |w.tasks[t]| && WritesItem(w.tasks[t][k], item)
    requires OthersLeave(w.tasks, t, k, item.record.key.command, ReadingZone(item.record))
    ensures var end := Schedule(w, turns);
            AllReturned(end) ==>
              exists p' {:trigger Quiet(end.line, p')} :: Quiet(end.line, p') &&
                var outcomes := end.threads[t].outcomes;
                k < |outcomes| && outcomes[k].Values? ==> ReadsAsTold(p', item, outcomes[k])
  {
    var end := Schedule(w, turns);
    if AllReturned(end) {
      var p' := SequentialWrite(w, turns, p, t, k, item, ReadingZone(item.record));
      var outcomes := end.threads[t].outcomes;
      if k < |outcomes| && outcomes[k].Values? {
        ItemSits(p, w.tasks[t][k], item);
        ByLayout(p, p', WriteJob([item]));
        KeptReads(p', item, outcomes[k]);
      }
    }
  }

  // ... and if they leave the bits it is written to, all of these are in the
  // register.
  lemma {:induction false} KeptBits(p: Plant, item: Item, told: Outcome)
    requires Kept(p, item, told, Footprint(item))
    ensures Inscribed(p.store[item.record.key.command], item)
  {
    var g := p.store[item.record.key.command];
    var f :| WrittenBy(f, item, told) && SameOn(f, g, Footprint(item));
    InscribedSame(f, g, item);
  }
}
