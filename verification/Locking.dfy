// Concurrent callers behind one lock: service.py. Threads interleave at every
// single transport call.

module Locking {
  import opened Bytes
  import opened Devices
  import opened Conversation
  import opened Exchange
  import opened Jobs
  import opened Refinement

  // Where a thread stands with its task: waiting for the lock, holding it
  // between two jobs or inside one, or done. `got` are the outcomes so far.
  datatype Thread =
    | Waiting
    | Between(got: seq<Outcome>, rest: Task)
    | Inside(got: seq<Outcome>, job: Job, rest: Task, work: Work, at: At)
    | Returned(outcomes: seq<Outcome>)
  {
    predicate Holding() {
      Between? || Inside?
    }
  }

  // Thread t has one task to do; `order` records who returned when, which is
  // the order of the lock.
  datatype World = World(tasks: seq<Task>, line: Line, holder: Option<nat>, threads: seq<Thread>, order: seq<nat>)

  predicate Possible(w: World) {
    && |w.threads| == |w.tasks| && AllValid(w.tasks)
    && forall t :: 0 <= t < |w.tasks| ==> PossibleThread(w.threads[t])
  }

  predicate PossibleThread(th: Thread) {
    match th
    case Between(_, rest) => ValidTask(rest)
    case Inside(_, job, rest, work, _) =>
      job.Valid() && ValidTask(rest) && (work.Talking? ==> Suits(job, work.stage))
    case _ => true
  }

  // One step of the holder: it starts its next job, makes one transport call,
  // turns from one conversation to the next, or ends a job.
  function Inner(line: Line, th: Thread): (Line, Thread)
    requires PossibleThread(th) && (th.Inside? || (th.Between? && th.rest != []))
  {
    match th
    case Between(got, rest) => (line, Inside(got, rest[0], rest[1..], Start(rest[0]), Greet))
    case Inside(got, job, rest, work, at) =>
      if work.Finished? then
        (line, Between(got + [work.outcome], if work.outcome.Raised? then [] else rest))
      else if at.Done? then (line, Inside(got, job, rest, Advance(job, work.stage, at.result), Greet))
      else
        var (line', at') := Step(line, work.talk, at);
        (line', Inside(got, job, rest, work, at'))
  }

  lemma InnerIsPossible(line: Line, th: Thread)
    requires PossibleThread(th) && (th.Inside? || (th.Between? && th.rest != []))
    ensures PossibleThread(Inner(line, th).1) && Inner(line, th).1.Holding()
  {
  }

  // Thread t is scheduled. It may have to wait for the lock.
  function Turn(w: World, t: nat): (w': World)
    requires Possible(w)
    ensures Possible(w') && w'.tasks == w.tasks
  {
    if t >= |w.threads| then w
    else
      var th := w.threads[t];
      match th
      case Waiting =>
        if w.holder.None? then w.(holder := Some(t), threads := w.threads[t := Between([], w.tasks[t])]) else w
      case Returned(_) => w
      case Between(got, rest) =>
        if rest == [] then
          w.(holder := None, threads := w.threads[t := Returned(got)], order := w.order + [t])
        else
          InnerIsPossible(w.line, th);
          w.(line := Inner(w.line, th).0, threads := w.threads[t := Inner(w.line, th).1])
      case Inside(_, _, _, _, _) =>
        InnerIsPossible(w.line, th);
        w.(line := Inner(w.line, th).0, threads := w.threads[t := Inner(w.line, th).1])
  }

  function Schedule(w: World, turns: seq<nat>): (w': World)
    requires Possible(w)
    ensures Possible(w') && w'.tasks == w.tasks
    decreases |turns|
  {
    if turns == [] then w else Schedule(Turn(w, turns[0]), turns[1..])
  }

  // Where the holder's task leads if nobody disturbs it.
  function Resume(line: Line, th: Thread): (Line, seq<Outcome>)
    requires PossibleThread(th) && th.Holding()
  {
    match th
    case Between(got, rest) =>
      var (line', outcomes) := PerformTask(line, rest);
      (line', got + outcomes)
    case Inside(got, job, rest, work, at) =>
      var (line1, outcome) := Complete(line, job, work, at);
      var (line2, outcomes) := PerformTask(line1, if outcome.Raised? then [] else rest);
      (line2, got + ([outcome] + outcomes))
  }

  // A step inside the critical section does not change where it leads.
  lemma InnerKeepsResult(line: Line, th: Thread)
    requires PossibleThread(th) && (th.Inside? || (th.Between? && th.rest != []))
    ensures var (line', th') := Inner(line, th);
            PossibleThread(th') && th'.Holding() && Resume(line', th') == Resume(line, th)
  {
    InnerIsPossible(line, th);
    match th
    case Between(got, rest) => StartKeepsResult(line, got, rest);
    case Inside(got, job, rest, work, at) =>
      if work.Finished? {
        EndKeepsResult(line, th);
      }
  }

  lemma StartKeepsResult(line: Line, got: seq<Outcome>, rest: Task)
    requires ValidTask(rest) && rest != []
    ensures Resume(line, Inside(got, rest[0], rest[1..], Start(rest[0]), Greet)) == Resume(line, Between(got, rest))
  {
    var (line1, outcome) := Perform(line, rest[0]);
    if outcome.Raised? {
      assert [outcome] + [] == [outcome];
    }
  }

  lemma EndKeepsResult(line: Line, th: Thread)
    requires PossibleThread(th) && th.Inside? && th.work.Finished?
    ensures PossibleThread(Inner(line, th).1) && Resume(line, Inner(line, th).1) == Resume(line, th)
  {
    var outcome := th.work.outcome;
    var outcomes := PerformTask(line, if outcome.Raised? then [] else th.rest).1;
    assert (th.got + [outcome]) + outcomes == th.got + ([outcome] + outcomes);
  }

  // ------------------------------------------------------------ invariant

  function Chosen<T>(all: seq<T>, order: seq<nat>): (chosen: seq<T>)
    requires forall i :: 0 <= i < |order| ==> order[i] < |all|
    ensures |chosen| == |order|
    ensures forall i :: 0 <= i < |order| ==> chosen[i] == all[order[i]]
  {
    seq(|order|, i requires 0 <= i < |order| => all[order[i]])
  }

  // The threads in `order` are those that have returned, each once.
  predicate OrderOk(w: World)
    requires Possible(w)
  {
    && (forall i :: 0 <= i < |w.order| ==> w.order[i] < |w.tasks|)
    && (forall i, j :: 0 <= i < j < |w.order| ==> w.order[i] != w.order[j])
    && (forall t :: 0 <= t < |w.tasks| ==> (t in w.order <==> w.threads[t].Returned?))
  }

  // Only the holder of the lock is inside.
  predicate Exclusive(w: World)
    requires Possible(w)
  {
    && (forall t :: 0 <= t < |w.tasks| ==> (w.threads[t].Holding() <==> w.holder == Some(t)))
    && (w.holder.Some? ==> w.holder.value < |w.tasks|)
  }

  // Those that have returned got what a sequential run gives them.
  predicate Served(w: World, outcomes: seq<seq<Outcome>>)
    requires Possible(w) && OrderOk(w)
  {
    && |outcomes| == |w.order|
    && forall i :: 0 <= i < |w.order| ==> w.threads[w.order[i]] == Returned(outcomes[i])
  }

  // The line is that of the sequential run, or on its way to the result of one
  // more task.
  ghost predicate OnTheWay(w: World, before: Line)
    requires Possible(w) && Exclusive(w)
  {
    match w.holder
    case None => w.line == before
    case Some(t) => Resume(w.line, w.threads[t]) == PerformTask(before, w.tasks[t])
  }

  ghost predicate Sound(w: World, before: Line, outcomes: seq<seq<Outcome>>) {
    && Possible(w) && OrderOk(w) && Exclusive(w)
    && Served(w, outcomes) && OnTheWay(w, before)
  }

  lemma TurnKeepsExclusion(w: World, t: nat)
    requires Possible(w) && Exclusive(w)
    ensures Exclusive(Turn(w, t))
  {
  }

  lemma TurnKeepsOrder(w: World, t: nat)
    requires Possible(w) && OrderOk(w)
    ensures OrderOk(Turn(w, t))
  {
    var w' := Turn(w, t);
    if w'.order != w.order {
      assert w'.order == w.order + [t] && t !in w.order;
      assert forall u :: u in w'.order <==> u in w.order || u == t;
    }
  }

  // The threads that have returned are not touched.
  lemma TurnKeepsServed(w: World, t: nat, outcomes: seq<seq<Outcome>>)
    requires Possible(w) && OrderOk(w) && Served(w, outcomes)
    requires OrderOk(Turn(w, t)) && Turn(w, t).order == w.order
    ensures Served(Turn(w, t), outcomes)
  {
  }

  lemma AcquireIsSound(w: World, t: nat, before: Line)
    requires Possible(w) && Exclusive(w) && Exclusive(Turn(w, t)) && OnTheWay(w, before)
    requires t < |w.threads| && w.threads[t].Waiting?
    ensures OnTheWay(Turn(w, t), before)
  {
    if w.holder.None? {
      var outcomes := PerformTask(w.line, w.tasks[t]).1;
      assert [] + outcomes == outcomes;
    }
  }

  predicate Busy(th: Thread) {
    th.Inside? || (th.Between? && th.rest != [])
  }

  lemma InnerIsSound(w: World, t: nat, before: Line)
    requires Possible(w) && Exclusive(w) && Exclusive(Turn(w, t)) && OnTheWay(w, before)
    requires t < |w.threads| && Busy(w.threads[t])
    ensures OnTheWay(Turn(w, t), before)
  {
    InnerKeepsResult(w.line, w.threads[t]);
  }

  lemma ReleaseIsSound(w: World, t: nat, before: Line, outcomes: seq<seq<Outcome>>)
    requires Sound(w, before, outcomes) && OrderOk(Turn(w, t)) && Exclusive(Turn(w, t))
    requires t < |w.threads| && w.threads[t].Between? && w.threads[t].rest == []
    ensures var (after, last) := PerformTask(before, w.tasks[t]);
            Sound(Turn(w, t), after, outcomes + [last])
  {
    assert t !in w.order;
    var got := w.threads[t].got;
    assert got + [] == got;
    assert PerformTask(before, w.tasks[t]) == (w.line, got);
    assert Served(Turn(w, t), outcomes + [got]);
  }

  // One turn either leads to the same sequential run, or completes one more
  // task of it.
  lemma TurnIsSound(w: World, t: nat, before: Line, outcomes: seq<seq<Outcome>>)
    requires Sound(w, before, outcomes)
    ensures var w' := Turn(w, t);
            if w'.order == w.order then Sound(w', before, outcomes)
            else
              && t < |w.tasks| && w'.order == w.order + [t]
              && var (after, last) := PerformTask(before, w.tasks[t]);
                 Sound(w', after, outcomes + [last])
  {
    TurnKeepsExclusion(w, t);
    TurnKeepsOrder(w, t);
    if t < |w.threads| && !w.threads[t].Returned? {
      if w.threads[t].Waiting? {
        TurnKeepsServed(w, t, outcomes);
        AcquireIsSound(w, t, before);
      } else if Busy(w.threads[t]) {
        TurnKeepsServed(w, t, outcomes);
        InnerIsSound(w, t, before);
      } else {
        ReleaseIsSound(w, t, before, outcomes);
      }
    }
  }

  lemma ChosenOneMore(tasks: seq<Task>, order: seq<nat>, t: nat)
    requires t < |tasks|
    requires forall i :: 0 <= i < |order| ==> order[i] < |tasks|
    ensures Chosen(tasks, order + [t]) == Chosen(tasks, order) + [tasks[t]]
  {
  }

  // The sequential run in some order.
  ghost predicate Sequential(start: Line, tasks: seq<Task>, order: seq<nat>, after: Line,
                             outcomes: seq<seq<Outcome>>)
  {
    && AllValid(tasks) && (forall i :: 0 <= i < |order| ==> order[i] < |tasks|)
    && PerformAll(start, Chosen(tasks, order)) == (after, outcomes)
  }

  // The sequential run with one more task.
  lemma OneMore(start: Line, tasks: seq<Task>, order: seq<nat>, t: nat, before: Line, outcomes: seq<seq<Outcome>>)
    requires t < |tasks| && Sequential(start, tasks, order, before, outcomes)
    ensures var (after, last) := PerformTask(before, tasks[t]);
            Sequential(start, tasks, order + [t], after, outcomes + [last])
  {
    ChosenOneMore(tasks, order, t);
    PerformOneMore(start, Chosen(tasks, order), tasks[t]);
  }

  lemma {:induction false} ScheduleIsSound(start: Line, w: World, turns: seq<nat>, before: Line,
                                           outcomes: seq<seq<Outcome>>)
    returns (after: Line, all: seq<seq<Outcome>>)
    requires Sound(w, before, outcomes) && Sequential(start, w.tasks, w.order, before, outcomes)
    ensures Sound(Schedule(w, turns), after, all)
    ensures Sequential(start, w.tasks, Schedule(w, turns).order, after, all)
    decreases |turns|
  {
    after, all := before, outcomes;
    if turns != [] {
      var t := turns[0];
      var w' := Turn(w, t);
      TurnIsSound(w, t, before, outcomes);
      if w'.order == w.order {
        after, all := ScheduleIsSound(start, w', turns[1..], before, outcomes);
      } else {
        OneMore(start, w.tasks, w.order, t, before, outcomes);
        var (l, last) := PerformTask(before, w.tasks[t]);
        after, all := ScheduleIsSound(start, w', turns[1..], l, outcomes + [last]);
      }
    }
  }

  // -------------------------------------------------------------- results

  predicate Begun(w: World) {
    && Possible(w) && w.holder == None && w.order == []
    && forall t :: 0 <= t < |w.threads| ==> w.threads[t] == Waiting
  }

  predicate AllReturned(w: World) {
    forall t :: 0 <= t < |w.threads| ==> w.threads[t].Returned?
  }

  predicate IsPermutation(order: seq<nat>, n: nat) {
    && (forall i :: 0 <= i < |order| ==> order[i] < n)
    && (forall t :: 0 <= t < n ==> t in order)
    && (forall i, j :: 0 <= i < j < |order| ==> order[i] != order[j])
  }

  // The thread at each place of the order returned the outcomes there.
  predicate ReturnedInOrder(w: World, outcomes: seq<seq<Outcome>>) {
    && |outcomes| == |w.order|
    && forall i :: 0 <= i < |w.order| ==>
         w.order[i] < |w.threads| && w.threads[w.order[i]] == Returned(outcomes[i])
  }

  lemma {:induction false} BegunIsSound(w: World)
    requires Begun(w)
    ensures Sound(w, w.line, []) && Sequential(w.line, w.tasks, w.order, w.line, [])
  {
    assert Chosen(w.tasks, []) == [];
  }

  lemma AllReturnedInOrder(w: World, before: Line, outcomes: seq<seq<Outcome>>)
    requires Sound(w, before, outcomes) && AllReturned(w)
    ensures IsPermutation(w.order, |w.tasks|) && ReturnedInOrder(w, outcomes) && w.line == before
  {
    AllInOrder(w);
    ServedInOrder(w, outcomes);
    LockIsFree(w);
  }

  lemma ServedInOrder(w: World, outcomes: seq<seq<Outcome>>)
    requires Possible(w) && OrderOk(w) && Served(w, outcomes)
    ensures ReturnedInOrder(w, outcomes)
  {
  }

  lemma LockIsFree(w: World)
    requires Possible(w) && Exclusive(w) && AllReturned(w)
    ensures w.holder == None
  {
  }

  lemma AllInOrder(w: World)
    requires Possible(w) && OrderOk(w) && AllReturned(w)
    ensures IsPermutation(w.order, |w.tasks|)
  {
  }

  // Mutual exclusion and linearisability: under every interleaving, when all
  // callers have returned, the line and all outcomes are those of the same
  // tasks performed one after the other, in the order of the lock.
  lemma {:induction false} Linearisable(w: World, turns: seq<nat>)
    requires Begun(w) && AllReturned(Schedule(w, turns))
    ensures var end := Schedule(w, turns);
            && IsPermutation(end.order, |w.tasks|)
            && var (line', outcomes) := PerformAll(w.line, Chosen(w.tasks, end.order));
               end.line == line' && ReturnedInOrder(end, outcomes)
  {
    BegunIsSound(w);
    var line', outcomes := ScheduleIsSound(w.line, w, turns, w.line, []);
    AllReturnedInOrder(Schedule(w, turns), line', outcomes);
  }

  lemma ChosenFit(p: Plant, tasks: seq<Task>, order: seq<nat>)
    requires AllFit(p, tasks) && forall i :: 0 <= i < |order| ==> order[i] < |tasks|
    ensures AllFit(p, Chosen(tasks, order))
  {
  }

  // The tasks fit, and their set frames reach their registers in whatever order
  // they come.
  ghost predicate DeliveredInAnyOrder(p: Plant, tasks: seq<Task>) {
    && AllFit(p, tasks)
    && forall order {:trigger Chosen(tasks, order)} ::
         IsPermutation(order, |tasks|) ==>
           AllFit(p, Chosen(tasks, order)) && AllDeliver(p, Chosen(tasks, order))
  }

  // So they do if no command begins with one that is written to.
  lemma {:induction false} UnshadowedInAnyOrder(p: Plant, tasks: seq<Task>)
    requires ValidPlant(p) && AllFit(p, tasks) && AllUnshadowed(p.commands, tasks)
    ensures DeliveredInAnyOrder(p, tasks)
  {
    forall order {:trigger Chosen(tasks, order)} | IsPermutation(order, |tasks|)
      ensures AllFit(p, Chosen(tasks, order)) && AllDeliver(p, Chosen(tasks, order))
    {
      ChosenFit(p, tasks, order);
      AllUnshadowedDeliver(p, Chosen(tasks, order));
    }
  }

  // No lost updates: on a plant, whatever the interleaving, the registers end
  // as the plain map does under some sequential order of the same tasks, and
  // each caller gets the outcomes it gets there.
  lemma {:induction false} NoLostUpdates(w: World, turns: seq<nat>, p: Plant)
    requires Begun(w) && AllReturned(Schedule(w, turns))
    requires Quiet(w.line, p) && ValidPlant(p) && DeliveredInAnyOrder(p, w.tasks)
    ensures var end := Schedule(w, turns);
            && IsPermutation(end.order, |w.tasks|)
            && AllFit(p, Chosen(w.tasks, end.order))
            && var (p', outcomes) := ApplyAll(p, Chosen(w.tasks, end.order));
               Quiet(end.line, p') && ReturnedInOrder(end, outcomes)
  {
    Linearisable(w, turns);
    RunRefines(w.line, p, Chosen(w.tasks, Schedule(w, turns).order));
  }

  // ------------------------------------------------------------- progress

  // Turns taken only by thread t.
  function Only(t: nat, n: nat): (turns: seq<nat>)
    ensures |turns| == n && forall i :: 0 <= i < n ==> turns[i] == t
  {
    seq(n, _ => t)
  }

  lemma ScheduleStep(w: World, t: nat, n: nat)
    requires Possible(w) && n > 0
    ensures Schedule(w, Only(t, n)) == Schedule(Turn(w, t), Only(t, n - 1))
  {
    assert Only(t, n)[1..] == Only(t, n - 1);
  }

  // The jobs a holder has still to start or to end.
  function JobsLeft(th: Thread): nat {
    match th
    case Between(_, rest) => 2 * |rest|
    case Inside(_, _, rest, _, _) => 2 * |rest| + 1
    case _ => 0
  }

  function TalkingLeft(th: Thread): nat {
    if th.Inside? then TalksLeft(th.work) else 0
  }

  function StandsAt(th: Thread): At {
    if th.Inside? then th.at else Greet
  }

  ghost predicate OthersStay(w: World, w': World, t: nat) {
    && |w'.threads| == |w.threads|
    && forall u :: 0 <= u < |w.threads| && u != t ==> w'.threads[u] == w.threads[u]
  }

  // The lock is always given back: whoever holds it returns after finitely
  // many turns of its own, whatever the line does.
  lemma {:induction false} HolderReturns(w: World, t: nat) returns (n: nat)
    requires Possible(w) && t < |w.threads| && w.threads[t].Holding()
    ensures var w' := Schedule(w, Only(t, n));
            w'.threads[t].Returned? && w'.holder == None && OthersStay(w, w', t)
    decreases JobsLeft(w.threads[t]), TalkingLeft(w.threads[t]),
              PollsLeft(StandsAt(w.threads[t])), WritesLeft(StandsAt(w.threads[t]))
  {
    var th := w.threads[t];
    if Busy(th) {
      InnerProgresses(w.line, th);
      InnerIsPossible(w.line, th);
      n := HolderReturns(Turn(w, t), t);
      n := n + 1;
    } else {
      n := 1;
      assert Schedule(Turn(w, t), Only(t, 0)) == Turn(w, t);
    }
    ScheduleStep(w, t, n);
  }

  lemma InnerProgresses(line: Line, th: Thread)
    requires PossibleThread(th) && Busy(th)
    ensures var th' := Inner(line, th).1;
            || JobsLeft(th') < JobsLeft(th)
            || (JobsLeft(th') == JobsLeft(th) && TalkingLeft(th') < TalkingLeft(th))
            || (JobsLeft(th') == JobsLeft(th) && TalkingLeft(th') == TalkingLeft(th)
                && (PollsLeft(StandsAt(th')) < PollsLeft(StandsAt(th))
                    || (PollsLeft(StandsAt(th')) == PollsLeft(StandsAt(th))
                        && WritesLeft(StandsAt(th')) < WritesLeft(StandsAt(th)))))
  {
    if th.Inside? && th.work.Talking? && !th.at.Done? {
      StepProgresses(line, th.work.talk, th.at);
    }
  }

  lemma {:induction false} ScheduleInTurn(w: World, a: seq<nat>, b: seq<nat>)
    requires Possible(w)
    ensures Schedule(w, a + b) == Schedule(Schedule(w, a), b)
    decreases |a|
  {
    if a == [] {
      assert a + b == b;
    } else {
      assert (a + b)[1..] == a[1..] + b;
      ScheduleInTurn(Turn(w, a[0]), a[1..], b);
    }
  }

  // A thread that finds the lock free takes it and returns.
  lemma {:induction false} WaiterReturns(w: World, t: nat) returns (n: nat)
    requires Possible(w) && t < |w.threads| && w.threads[t].Waiting? && w.holder.None?
    ensures var w' := Schedule(w, Only(t, n));
            w'.threads[t].Returned? && w'.holder == None && OthersStay(w, w', t)
  {
    n := HolderReturns(Turn(w, t), t);
    n := n + 1;
    ScheduleStep(w, t, n);
  }

  // Nobody is in the critical section.
  predicate NobodyHolds(w: World) {
    && w.holder == None
    && forall t :: 0 <= t < |w.threads| ==> w.threads[t].Waiting? || w.threads[t].Returned?
  }

  // From the start, and from every world in which nobody holds the lock, some
  // schedule lets every caller return.
  lemma {:induction false} AllCanReturn(w: World, n: nat) returns (turns: seq<nat>)
    requires Possible(w) && NobodyHolds(w) && n <= |w.threads|
    requires forall t :: n <= t < |w.threads| ==> w.threads[t].Returned?
    ensures AllReturned(Schedule(w, turns))
    decreases n
  {
    turns := [];
    if n > 0 {
      var t := n - 1;
      var w' := w;
      if w.threads[t].Waiting? {
        var k := WaiterReturns(w, t);
        turns := Only(t, k);
        w' := Schedule(w, turns);
      }
      var more := AllCanReturn(w', t);
      ScheduleInTurn(w, turns, more);
      turns := turns + more;
    }
  }

  // And so it is from every world that a schedule leads to.
  lemma {:induction false} NobodyIsStuck(w: World, turns: seq<nat>) returns (more: seq<nat>)
    requires Begun(w)
    ensures AllReturned(Schedule(w, turns + more))
  {
    BegunIsSound(w);
    var before, outcomes := ScheduleIsSound(w.line, w, turns, w.line, []);
    var here := Schedule(w, turns);
    var first := LockIsFreed(here);
    var rest := AllCanReturn(Schedule(here, first), |here.threads|);
    ScheduleInTurn(here, first, rest);
    more := first + rest;
    ScheduleInTurn(w, turns, more);
  }

  lemma {:induction false} LockIsFreed(w: World) returns (turns: seq<nat>)
    requires Possible(w) && Exclusive(w)
    ensures NobodyHolds(Schedule(w, turns))
  {
    turns := [];
    if w.holder.Some? {
      var n := HolderReturns(w, w.holder.value);
      turns := Only(w.holder.value, n);
    }
  }
}
