// Every fair schedule of the callers behind the lock ends: service.py.

module Fairness {
  import opened Bytes
  import opened Conversation
  import opened Jobs
  import opened Locking

  // The steps left in a conversation, in a job and in a task, at most: bounds
  // that no line can exceed.
  const TALK_STEPS: nat := 5 * PollsLeft(Greet) + 10
  const JOB_STEPS: nat := 7 * TALK_STEPS + 3

  function AtSteps(at: At): (n: nat)
    ensures n <= 5 * PollsLeft(at) + 4
  {
    5 * PollsLeft(at) + WritesLeft(at)
  }

  function StepsLeft(task: Task, th: Thread): nat {
    match th
    case Waiting => |task| * JOB_STEPS + 2
    case Between(_, rest) => |rest| * JOB_STEPS + 1
    case Inside(_, _, rest, work, at) =>
      |rest| * JOB_STEPS + 2 + if work.Talking? then TalksLeft(work) * TALK_STEPS + AtSteps(at) else 0
    case Returned(_) => 0
  }

  lemma StartSteps(job: Job)
    requires job.Valid()
    ensures TalksLeft(Start(job)) <= 6
    ensures TalksLeft(Start(job)) * TALK_STEPS + AtSteps(Greet) + 2 < JOB_STEPS
  {
  }

  // Every step of a holder leaves fewer.
  lemma InnerLeavesFewer(line: Line, task: Task, th: Thread)
    requires PossibleThread(th) && Busy(th)
    ensures StepsLeft(task, Inner(line, th).1) < StepsLeft(task, th)
  {
    if th.Between? {
      StartSteps(th.rest[0]);
      assert |th.rest| * JOB_STEPS == |th.rest[1..]| * JOB_STEPS + JOB_STEPS;
    } else if th.work.Finished? {
      EndLeavesFewer(line, task, th);
    } else if th.at.Done? {
      TurnToNext(line, task, th);
    } else {
      StepProgresses(line, th.work.talk, th.at);
    }
  }

  lemma EndLeavesFewer(line: Line, task: Task, th: Thread)
    requires PossibleThread(th) && th.Inside? && th.work.Finished?
    ensures StepsLeft(task, Inner(line, th).1) < StepsLeft(task, th)
  {
    assert |th.rest| * JOB_STEPS >= 0;
  }

  lemma TurnToNext(line: Line, task: Task, th: Thread)
    requires PossibleThread(th) && th.Inside? && th.work.Talking? && th.at.Done?
    ensures StepsLeft(task, Inner(line, th).1) < StepsLeft(task, th)
  {
    var next := Advance(th.job, th.work.stage, th.at.result);
    FewerTalks(TalksLeft(next), TalksLeft(th.work));
  }

  lemma FewerTalks(a: nat, b: nat)
    requires a < b
    ensures a * TALK_STEPS + AtSteps(Greet) < b * TALK_STEPS
  {
    assert (b - a - 1) * TALK_STEPS >= 0;
  }

  function TotalSteps(tasks: seq<Task>, threads: seq<Thread>): nat
    requires |tasks| == |threads|
  {
    if tasks == [] then 0
    else TotalSteps(Front(tasks), Front(threads)) + StepsLeft(Last(tasks), Last(threads))
  }

  lemma {:induction false} TotalUpdate(tasks: seq<Task>, threads: seq<Thread>, t: nat, th: Thread)
    requires |tasks| == |threads| && t < |tasks|
    ensures TotalSteps(tasks, threads[t := th]) ==
            TotalSteps(tasks, threads) - StepsLeft(tasks[t], threads[t]) + StepsLeft(tasks[t], th)
  {
    if t == |tasks| - 1 {
      assert Front(threads[t := th]) == Front(threads);
    } else {
      TotalUpdate(Front(tasks), Front(threads), t, th);
      assert Front(threads[t := th]) == Front(threads)[t := th];
    }
  }

  function Total(w: World): nat
    requires Possible(w)
  {
    TotalSteps(w.tasks, w.threads)
  }

  // A turn of this thread gets it on.
  predicate Able(w: World, t: nat) {
    && t < |w.threads|
    && (w.threads[t].Holding() || (w.threads[t].Waiting? && w.holder.None?))
  }

  // A turn gets somebody on, or changes nothing at all.
  lemma {:induction false} TurnLeavesFewer(w: World, t: nat)
    requires Possible(w)
    ensures if Able(w, t) then Total(Turn(w, t)) < Total(w) else Turn(w, t) == w
  {
    if Able(w, t) {
      var th := w.threads[t];
      TotalUpdate(w.tasks, w.threads, t, Turn(w, t).threads[t]);
      if Busy(th) {
        InnerLeavesFewer(w.line, w.tasks[t], th);
      }
    }
  }

  lemma {:induction false} ScheduleLeavesNoMore(w: World, turns: seq<nat>)
    requires Possible(w)
    ensures Total(Schedule(w, turns)) <= Total(w)
    decreases |turns|
  {
    if turns != [] {
      TurnLeavesFewer(w, turns[0]);
      ScheduleLeavesNoMore(Turn(w, turns[0]), turns[1..]);
    }
  }

  // Turns among which an able thread has one.
  lemma {:induction false} AbleGetsOn(w: World, turns: seq<nat>, t: nat)
    requires Possible(w) && Able(w, t) && t in turns
    ensures Total(Schedule(w, turns)) < Total(w)
    decreases |turns|
  {
    TurnLeavesFewer(w, turns[0]);
    if Able(w, turns[0]) {
      ScheduleLeavesNoMore(Turn(w, turns[0]), turns[1..]);
    } else {
      AbleGetsOn(w, turns[1..], t);
    }
  }

  // Turns in which every thread has one.
  predicate Round(turns: seq<nat>, n: nat) {
    forall t :: 0 <= t < n ==> t in turns
  }

  lemma SomebodyIsAble(w: World) returns (t: nat)
    requires Possible(w) && Exclusive(w) && !AllReturned(w)
    ensures Able(w, t)
  {
    if w.holder.Some? {
      t := w.holder.value;
    } else {
      t :| t < |w.threads| && !w.threads[t].Returned?;
    }
  }

  lemma {:induction false} ScheduleKeepsExclusion(w: World, turns: seq<nat>)
    requires Possible(w) && Exclusive(w)
    ensures Exclusive(Schedule(w, turns))
    decreases |turns|
  {
    if turns != [] {
      TurnKeepsExclusion(w, turns[0]);
      ScheduleKeepsExclusion(Turn(w, turns[0]), turns[1..]);
    }
  }

  lemma {:induction false} ReturnedStay(w: World, turns: seq<nat>)
    requires Possible(w) && AllReturned(w)
    ensures Schedule(w, turns) == w
    decreases |turns|
  {
    if turns != [] {
      assert Turn(w, turns[0]) == w;
      ReturnedStay(w, turns[1..]);
    }
  }

  function Joined(rounds: seq<seq<nat>>): seq<nat> {
    if rounds == [] then [] else rounds[0] + Joined(rounds[1..])
  }

  lemma {:induction false} RoundsEnd(w: World, rounds: seq<seq<nat>>)
    requires Possible(w) && Exclusive(w) && |rounds| >= Total(w)
    requires forall i :: 0 <= i < |rounds| ==> Round(rounds[i], |w.threads|)
    ensures AllReturned(Schedule(w, Joined(rounds)))
    decreases |rounds|
  {
    if AllReturned(w) {
      ReturnedStay(w, Joined(rounds));
    } else {
      var t := SomebodyIsAble(w);
      TurnLeavesFewer(w, t);
      AbleGetsOn(w, rounds[0], t);
      ScheduleInTurn(w, rounds[0], Joined(rounds[1..]));
      ScheduleKeepsExclusion(w, rounds[0]);
      RoundsEnd(Schedule(w, rounds[0]), rounds[1..]);
    }
  }

  // The turns after which everybody is done, by the tasks alone.
  function Enough(tasks: seq<Task>): nat {
    if tasks == [] then 0 else Enough(Front(tasks)) + |Last(tasks)| * JOB_STEPS + 2
  }

  lemma {:induction false} BegunTotal(tasks: seq<Task>, threads: seq<Thread>)
    requires |tasks| == |threads| && forall t :: 0 <= t < |threads| ==> threads[t] == Waiting
    ensures TotalSteps(tasks, threads) == Enough(tasks)
  {
    if tasks != [] {
      BegunTotal(Front(tasks), Front(threads));
    }
  }

  // Every fair schedule lets every caller return, whatever the line does: as many
  // rounds as the tasks need, in each of which every thread has a turn.
  lemma {:induction false} FairSchedulesEnd(w: World, rounds: seq<seq<nat>>)
    requires Begun(w) && |rounds| >= Enough(w.tasks)
    requires forall i :: 0 <= i < |rounds| ==> Round(rounds[i], |w.tasks|)
    ensures AllReturned(Schedule(w, Joined(rounds)))
  {
    BegunIsSound(w);
    BegunTotal(w.tasks, w.threads);
    RoundsEnd(w, rounds);
  }
}
