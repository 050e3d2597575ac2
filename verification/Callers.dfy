// Concurrent callers of the service: what each of them is answered.

module Callers {
  import opened Bytes
  import opened Models
  import opened Devices
  import opened Conversation
  import opened Exchange
  import opened Jobs
  import opened Refinement
  import opened Plants
  import opened Calls
  import opened Locking

  // Thread t does what call t prepares.
  predicate Prepared(channels: seq<Channel>, calls: seq<Call>, tasks: seq<Task>) {
    |calls| == |tasks| && forall i :: 0 <= i < |calls| ==> Prepare(channels, calls[i]) == Ok(tasks[i])
  }

  predicate Reported(channels: seq<Channel>, call: Call, outcomes: seq<Outcome>, reply: Reply) {
    (call.ReadChannels? || outcomes != []) && reply == Report(channels, call, outcomes)
  }

  predicate AllReported(channels: seq<Channel>, calls: seq<Call>, outcomes: seq<seq<Outcome>>, replies: seq<Reply>) {
    && |outcomes| == |replies| == |calls|
    && forall i :: 0 <= i < |calls| ==> Reported(channels, calls[i], outcomes[i], replies[i])
  }

  lemma PreparedFront(channels: seq<Channel>, calls: seq<Call>, tasks: seq<Task>)
    requires Prepared(channels, calls, tasks) && calls != []
    ensures Prepared(channels, Front(calls), Front(tasks)) && Prepare(channels, Last(calls)) == Ok(Last(tasks))
  {
  }

  lemma PreparedIsValid(channels: seq<Channel>, calls: seq<Call>, tasks: seq<Task>)
    requires Prepared(channels, calls, tasks)
    ensures AllValid(tasks)
  {
    forall i | 0 <= i < |tasks|
      ensures ValidTask(tasks[i])
    {
      assert Prepare(channels, calls[i]) == Ok(tasks[i]);
    }
  }

  lemma ServeReports(line: Line, channels: seq<Channel>, call: Call, task: Task)
    requires Prepare(channels, call) == Ok(task)
    ensures var (line', outcomes) := PerformTask(line, task);
            var (line'', reply) := Serve(line, channels, call);
            line' == line'' && Reported(channels, call, outcomes, reply)
  {
  }

  // Calls in a row are their tasks in a row, with the outcomes reported.
  lemma {:induction false} CallsAreTasks(line: Line, channels: seq<Channel>, calls: seq<Call>, tasks: seq<Task>)
    requires Prepared(channels, calls, tasks) && AllValid(tasks)
    ensures var (line', outcomes) := PerformAll(line, tasks);
            var (line'', replies) := ServeAll(line, channels, calls);
            line' == line'' && AllReported(channels, calls, outcomes, replies)
  {
    if calls != [] {
      PreparedFront(channels, calls, tasks);
      CallsAreTasks(line, channels, Front(calls), Front(tasks));
      var (line1, outcomes) := PerformAll(line, Front(tasks));
      ServeReports(line1, channels, Last(calls), Last(tasks));
      OneMoreReported(channels, calls, outcomes, ServeAll(line, channels, Front(calls)).1,
                      PerformTask(line1, Last(tasks)).1, Serve(line1, channels, Last(calls)).1);
    }
  }

  lemma OneMoreReported(channels: seq<Channel>, calls: seq<Call>, outcomes: seq<seq<Outcome>>, replies: seq<Reply>,
                        last: seq<Outcome>, reply: Reply)
    requires calls != [] && AllReported(channels, Front(calls), outcomes, replies)
    requires Reported(channels, Last(calls), last, reply)
    ensures AllReported(channels, calls, outcomes + [last], replies + [reply])
  {
  }

  lemma PreparedInOrder(channels: seq<Channel>, calls: seq<Call>, tasks: seq<Task>, order: seq<nat>)
    requires Prepared(channels, calls, tasks) && forall i :: 0 <= i < |order| ==> order[i] < |calls|
    ensures Prepared(channels, Chosen(calls, order), Chosen(tasks, order))
  {
  }

  // Each caller is answered as in the sequential run.
  ghost predicate AnsweredInOrder(w: World, channels: seq<Channel>, calls: seq<Call>, replies: seq<Reply>) {
    && |replies| == |w.order|
    && forall i :: 0 <= i < |w.order| ==>
         && w.order[i] < |w.threads| && w.order[i] < |calls| && w.threads[w.order[i]].Returned?
         && Reported(channels, calls[w.order[i]], w.threads[w.order[i]].outcomes, replies[i])
  }

  // The set frames of the calls reach their registers, in whatever order the
  // calls come.
  ghost predicate DeliveredInAnyOrder(p: Plant, channels: seq<Channel>, calls: seq<Call>)
    requires PlantFor(p, channels) && ValidConfig(channels)
  {
    forall order {:trigger Chosen(calls, order)} ::
      IsPermutation(order, |calls|) ==> AllDelivered(p, channels, Chosen(calls, order))
  }

  lemma {:induction false} UnambiguousInAnyOrder(p: Plant, channels: seq<Channel>, calls: seq<Call>)
    requires PlantFor(p, channels) && ValidConfig(channels) && AllUnambiguous(p, channels, calls)
    ensures DeliveredInAnyOrder(p, channels, calls)
  {
    forall order {:trigger Chosen(calls, order)} | IsPermutation(order, |calls|)
      ensures AllDelivered(p, channels, Chosen(calls, order))
    {
      UnambiguousAreDelivered(p, channels, Chosen(calls, order));
    }
  }

  // Concurrent callers of the service, reading one or several channels or
  // writing one: under every interleaving of their transport calls, they are
  // answered as the plain map of registers answers them one after the other, in
  // some order, and the registers end as it does.
  lemma {:induction false} CallersRefine(w: World, turns: seq<nat>, p: Plant, channels: seq<Channel>, calls: seq<Call>)
    requires Begun(w) && AllReturned(Schedule(w, turns)) && Prepared(channels, calls, w.tasks)
    requires Quiet(w.line, p) && PlantFor(p, channels) && ValidConfig(channels)
    requires DeliveredInAnyOrder(p, channels, calls)
    ensures var end := Schedule(w, turns);
            && IsPermutation(end.order, |calls|)
            && var (p', replies) := ServeMapAll(p, channels, Chosen(calls, end.order));
               Quiet(end.line, p') && AnsweredInOrder(end, channels, calls, replies)
  {
    Linearisable(w, turns);
    var end := Schedule(w, turns);
    PreparedInOrder(channels, calls, w.tasks, end.order);
    PreparedIsValid(channels, Chosen(calls, end.order), Chosen(w.tasks, end.order));
    CallsAreTasks(w.line, channels, Chosen(calls, end.order), Chosen(w.tasks, end.order));
    CallsRefine(w.line, p, channels, Chosen(calls, end.order));
  }
}
