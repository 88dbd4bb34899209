/**
  The main-thread bookkeeping of updateTasks() and update(), shared by both
  revisions of the engine: the reap step over the in-flight tasks, the spawn
  step that moves pending jobs into them, and the bounded throttle loop.

  An in-flight task is the job its worker was started with. Whether a task
  has finished when it is polled is up to the environment: it supplies one
  Poll per task and round.
 */
module TaskQueue {
  import opened Jobs

  /** What polling one in-flight task finds: still running, or finished,
      its image write having taken `elapsed` seconds. */
  datatype Poll = Busy | Ready(elapsed: real)

  /** The state updateTasks() changes: the pending queue, the in-flight
      tasks and the average export time. */
  datatype Queues = Queues(pending: seq<ExportJob>, tasks: seq<ExportJob>, avg: real)

  /** update() sleeps at most this many times. */
  const MaxSleeps: nat := 10

  /** MAX(t, 1): the setters' clamp of a thread or queue limit. */
  function AtLeastOne(t: int): (r: nat)
    ensures 1 <= r && t <= r
    ensures r == t || r == 1
  {
    if t < 1 then 1 else t
  }

  function Min(a: nat, b: nat): nat {
    if a <= b then a else b
  }

  /** The statuses `poll` reports for the first n tasks. */
  function Statuses(poll: nat -> Poll, n: nat): seq<Poll> {
    seq(n, (i: int) requires 0 <= i => poll(i))
  }

  // ---------------------------------------------------------------- reap

  /** The tasks the reap step keeps: the busy ones, in their order. */
  function Survivors(tasks: seq<ExportJob>, st: seq<Poll>): (kept: seq<ExportJob>)
    requires |st| == |tasks|
    ensures |kept| <= |tasks|
  {
    if tasks == [] then []
    else
      var n := |tasks| - 1;
      Survivors(tasks[..n], st[..n]) + (if st[n].Busy? then [tasks[n]] else [])
  }

  /** The tasks the reap step removes: the ready ones. */
  function Finished(tasks: seq<ExportJob>, st: seq<Poll>): (done: seq<ExportJob>)
    requires |st| == |tasks|
    ensures |done| <= |tasks|
  {
    if tasks == [] then []
    else
      var n := |tasks| - 1;
      Finished(tasks[..n], st[..n]) + (if st[n].Ready? then [tasks[n]] else [])
  }

  /** The positions of the busy tasks, in increasing order. */
  function BusyIndices(st: seq<Poll>): (idx: seq<nat>)
    ensures forall j :: 0 <= j < |idx| ==> idx[j] < |st| && st[idx[j]].Busy?
    ensures forall j, k :: 0 <= j < k < |idx| ==> idx[j] < idx[k]
    ensures forall i :: 0 <= i < |st| && st[i].Busy? ==> i in idx
  {
    if st == [] then []
    else
      var n := |st| - 1;
      var front := BusyIndices(st[..n]);
      assert forall i :: 0 <= i < n ==> st[..n][i] == st[i];
      front + (if st[n].Busy? then [n] else [])
  }

  /** The average after the reap step: the results of the ready tasks are
      folded in from the last task to the first, as the reap loop visits them. */
  function AvgAfterReap(avg: real, tasks: seq<ExportJob>, st: seq<Poll>): (r: real)
    requires |st| == |tasks|
    ensures AvgValid(avg) ==> AvgValid(r)
    decreases |tasks|
  {
    if tasks == [] then avg
    else
      var n := |tasks| - 1;
      var avg' := if st[n].Ready? then RecordSample(avg, RunJob(tasks[n], st[n].elapsed)) else avg;
      AvgAfterReap(avg', tasks[..n], st[..n])
  }

  /** The survivors are exactly the busy tasks, in their original order. */
  lemma {:induction false} SurvivorsInOrder(tasks: seq<ExportJob>, st: seq<Poll>)
    requires |st| == |tasks|
    ensures |Survivors(tasks, st)| == |BusyIndices(st)|
    ensures forall j :: 0 <= j < |BusyIndices(st)| ==>
      Survivors(tasks, st)[j] == tasks[BusyIndices(st)[j]]
  {
    if tasks != [] {
      var n := |tasks| - 1;
      SurvivorsInOrder(tasks[..n], st[..n]);
    }
  }

  /** When every task is found finished, the reap step empties the in-flight set. */
  lemma {:induction false} AllReadyNoSurvivors(tasks: seq<ExportJob>, st: seq<Poll>)
    requires |st| == |tasks|
    requires forall i :: 0 <= i < |st| ==> st[i].Ready?
    ensures Survivors(tasks, st) == []
  {
    if tasks != [] {
      var n := |tasks| - 1;
      AllReadyNoSurvivors(tasks[..n], st[..n]);
    }
  }

  /** Reaping loses and duplicates nothing: every task either survives or finishes. */
  lemma {:induction false} ReapPartition(tasks: seq<ExportJob>, st: seq<Poll>)
    requires |st| == |tasks|
    ensures multiset(tasks) == multiset(Survivors(tasks, st)) + multiset(Finished(tasks, st))
  {
    if tasks != [] {
      var n := |tasks| - 1;
      ReapPartition(tasks[..n], st[..n]);
      assert tasks == tasks[..n] + [tasks[n]];
    }
  }

  /** Survivors and AvgAfterReap over the first i + 1 tasks, in terms of
      the first i: the reap loop's step. */
  lemma ReapStep(tasks: seq<ExportJob>, st: seq<Poll>, i: nat, avg: real)
    requires |st| == |tasks| && i < |tasks|
    ensures Survivors(tasks[..i + 1], st[..i + 1])
         == Survivors(tasks[..i], st[..i]) + (if st[i].Busy? then [tasks[i]] else [])
    ensures AvgAfterReap(avg, tasks[..i + 1], st[..i + 1])
         == AvgAfterReap(if st[i].Ready? then RecordSample(avg, RunJob(tasks[i], st[i].elapsed)) else avg,
                         tasks[..i], st[..i])
  {
    assert tasks[..i + 1][..i] == tasks[..i] && st[..i + 1][..i] == st[..i];
  }

  /** Cutting s after index i and appending `tail`: the element at i, what
      lies before and after it. */
  lemma Split<T>(s: seq<T>, i: nat, tail: seq<T>)
    requires i < |s|
    ensures var k := s[..i + 1] + tail;
      && i < |k| && k[i] == s[i] && k[..i] + k[i + 1..] == s[..i] + tail
      && k == s[..i] + ([s[i]] + tail)
  {
    var k := s[..i + 1] + tail;
    assert k[..i] == s[..i] && k[i + 1..] == tail;
  }

  /** One visit of the reap loop at index i, on values: with `tail` the
      survivors after i, erasing a ready task or keeping a busy one leaves
      the same split one index down. */
  lemma ReapVisit(tasks: seq<ExportJob>, st: seq<Poll>, i: nat, tail: seq<ExportJob>, avg: real, avg0: real)
    requires |st| == |tasks| && i < |tasks|
    requires Survivors(tasks, st) == Survivors(tasks[..i + 1], st[..i + 1]) + tail
    requires AvgAfterReap(avg, tasks[..i + 1], st[..i + 1]) == AvgAfterReap(avg0, tasks, st)
    ensures st[i].Ready? ==>
      && Survivors(tasks, st) == Survivors(tasks[..i], st[..i]) + tail
      && AvgAfterReap(RecordSample(avg, RunJob(tasks[i], st[i].elapsed)), tasks[..i], st[..i])
         == AvgAfterReap(avg0, tasks, st)
    ensures st[i].Busy? ==>
      && Survivors(tasks, st) == Survivors(tasks[..i], st[..i]) + ([tasks[i]] + tail)
      && AvgAfterReap(avg, tasks[..i], st[..i]) == AvgAfterReap(avg0, tasks, st)
  {
    ReapStep(tasks, st, i, avg);
  }

  /** The reap loop: visits the tasks from the last to the first and erases
      each ready one, folding its result into the average. */
  method Reap(tasks: seq<ExportJob>, st: seq<Poll>, avg: real) returns (kept: seq<ExportJob>, avg': real)
    requires |st| == |tasks|
    ensures kept == Survivors(tasks, st)
    ensures avg' == AvgAfterReap(avg, tasks, st)
  {
    kept, avg' := tasks, avg;
    var i: int := |tasks| - 1;
    ghost var tail: seq<ExportJob> := [];
    assert tasks[..i + 1] == tasks && st[..i + 1] == st;
    while i >= 0
      invariant -1 <= i < |tasks|
      invariant kept == tasks[..i + 1] + tail
      invariant Survivors(tasks, st) == Survivors(tasks[..i + 1], st[..i + 1]) + tail
      invariant AvgAfterReap(avg', tasks[..i + 1], st[..i + 1]) == AvgAfterReap(avg, tasks, st)
    {
      Split(tasks, i, tail);
      ReapVisit(tasks, st, i, tail, avg', avg);
      if st[i].Ready? {
        var runTime := RunJob(kept[i], st[i].elapsed);
        avg' := RecordSample(avg', runTime);
        kept := kept[..i] + kept[i + 1..];
      } else {
        tail := [tasks[i]] + tail;
      }
      i := i - 1;
    }
    assert tasks[..0] == [] && st[..0] == [];
  }

  // --------------------------------------------------------------- spawn

  /** How many pending jobs the spawn step starts: the longest prefix of the
      queue that keeps the in-flight count within maxThreads. */
  function SpawnCount(nPending: nat, nTasks: nat, maxThreads: nat): (k: nat)
    ensures k <= nPending
    ensures k == 0 || nTasks + k <= maxThreads
    ensures k == nPending || maxThreads <= nTasks + k
  {
    if maxThreads <= nTasks then 0 else Min(nPending, maxThreads - nTasks)
  }

  /** The spawn loop: starts pending jobs in queue order while fewer than
      maxThreads tasks run, recording the started positions, then erases
      those positions from the queue, last first. */
  method Spawn(pending: seq<ExportJob>, tasks: seq<ExportJob>, maxThreads: nat)
    returns (rest: seq<ExportJob>, running: seq<ExportJob>)
    ensures var k := SpawnCount(|pending|, |tasks|, maxThreads);
      running == tasks + pending[..k] && rest == pending[k..]
  {
    running := tasks;
    var spawned: seq<nat> := [];
    var i := 0;
    while i < |pending|
      invariant 0 <= i <= |pending|
      invariant |spawned| == i && forall j :: 0 <= j < i ==> spawned[j] == j
      invariant running == tasks + pending[..i]
      invariant i == 0 || |tasks| + i <= maxThreads
    {
      if |running| < maxThreads {
        running := running + [pending[i]];
        spawned := spawned + [i];
      } else {
        break;
      }
      i := i + 1;
    }
    assert |spawned| == SpawnCount(|pending|, |tasks|, maxThreads);
    rest := pending;
    var j: int := |spawned| - 1;
    while j >= 0
      invariant -1 <= j < |spawned|
      invariant rest == pending[..j + 1] + pending[|spawned|..]
    {
      rest := rest[..spawned[j]] + rest[spawned[j] + 1..];
      j := j - 1;
    }
  }

  // ------------------------------------------------------ updateTasks()

  /** One updateTasks() call: reap with statuses `st`, then spawn. */
  function UpdateTasksResult(q: Queues, maxThreads: nat, st: seq<Poll>): Queues
    requires |st| == |q.tasks|
  {
    var kept := Survivors(q.tasks, st);
    var k := SpawnCount(|q.pending|, |kept|, maxThreads);
    Queues(q.pending[k..], kept + q.pending[..k], AvgAfterReap(q.avg, q.tasks, st))
  }

  /** updateTasks() on the queues: reap with statuses `st`, then spawn. */
  method UpdateQueues(q: Queues, maxThreads: nat, st: seq<Poll>) returns (r: Queues)
    requires |st| == |q.tasks|
    ensures r == UpdateTasksResult(q, maxThreads, st)
  {
    var kept, avg := Reap(q.tasks, st, q.avg);
    var rest, running := Spawn(q.pending, kept, maxThreads);
    r := Queues(rest, running, avg);
  }

  /** What one updateTasks() call guarantees: the in-flight count stays
      within maxThreads if it was, no job waits while a worker slot is free,
      the queue loses a FIFO prefix, which is appended to the surviving
      tasks, no job is lost or duplicated, and the average stays valid. */
  lemma UpdateTasksProperties(q: Queues, maxThreads: nat, st: seq<Poll>)
    requires |st| == |q.tasks|
    ensures var r := UpdateTasksResult(q, maxThreads, st);
      && (|q.tasks| <= maxThreads ==> |r.tasks| <= maxThreads)
      && (r.pending == [] || maxThreads <= |r.tasks|)
      && |r.pending| <= |q.pending| && r.pending == q.pending[|q.pending| - |r.pending|..]
      && r.tasks == Survivors(q.tasks, st) + q.pending[..|q.pending| - |r.pending|]
      && multiset(q.pending) + multiset(q.tasks)
         == multiset(r.pending) + multiset(r.tasks) + multiset(Finished(q.tasks, st))
      && (AvgValid(q.avg) ==> AvgValid(r.avg))
  {
    var kept := Survivors(q.tasks, st);
    var k := SpawnCount(|q.pending|, |kept|, maxThreads);
    ReapPartition(q.tasks, st);
    assert q.pending == q.pending[..k] + q.pending[k..];
  }

  /** When every in-flight task is found finished and at least one worker is
      allowed, a round strictly decreases 2·|pending| + |in-flight|: repeated
      rounds drain both queues. */
  lemma DrainProgress(q: Queues, maxThreads: nat, st: seq<Poll>)
    requires |st| == |q.tasks| && 1 <= maxThreads
    requires forall i :: 0 <= i < |st| ==> st[i].Ready?
    requires q.pending != [] || q.tasks != []
    ensures var r := UpdateTasksResult(q, maxThreads, st);
      2 * |r.pending| + |r.tasks| < 2 * |q.pending| + |q.tasks|
  {
    AllReadyNoSurvivors(q.tasks, st);
    UpdateTasksProperties(q, maxThreads, st);
  }

  /** The ghost history of all jobs: everything ever submitted is the jobs
      started so far followed by the pending queue (FIFO), and every started
      job is either finished or still in flight, exactly once. */
  ghost predicate Bookkeeping(submitted: seq<ExportJob>, started: seq<ExportJob>,
                              finished: seq<ExportJob>, pending: seq<ExportJob>, tasks: seq<ExportJob>)
  {
    && submitted == started + pending
    && (forall job :: Count(started, job) == Count(finished, job) + Count(tasks, job))
  }

  /** How many times `job` occurs in `s`: the multiplicity multiset(s)[job]
      (CountIsMultiplicity), written as a recursion on the last element so
      that the invariant built on it stays cheap for the solver. */
  function Count(s: seq<ExportJob>, job: ExportJob): nat {
    if s == [] then 0
    else Count(s[..|s| - 1], job) + (if s[|s| - 1] == job then 1 else 0)
  }

  /** Count is the multiplicity in the multiset of the sequence. */
  lemma {:induction false} CountIsMultiplicity(s: seq<ExportJob>, job: ExportJob)
    ensures Count(s, job) == multiset(s)[job]
  {
    if s != [] {
      var n := |s| - 1;
      CountIsMultiplicity(s[..n], job);
      assert s == s[..n] + [s[n]];
    }
  }

  /** The jobs of the current export session are the latest submissions,
      numbered 0, 1, 2, ... in submission order, one per submitted frame. */
  ghost predicate SessionNumbered(session: seq<ExportJob>, counter: nat, submitted: seq<ExportJob>)
  {
    && |session| == counter
    && (forall i :: 0 <= i < |session| ==> session[i].frameID == i)
    && |session| <= |submitted|
    && session == submitted[|submitted| - |session|..]
  }

  /** end() keeps the history: the new job joins both the submissions and
      the tail of the pending queue. */
  lemma SubmitKeepsBookkeeping(submitted: seq<ExportJob>, started: seq<ExportJob>, finished: seq<ExportJob>,
                               pending: seq<ExportJob>, tasks: seq<ExportJob>, job: ExportJob)
    requires Bookkeeping(submitted, started, finished, pending, tasks)
    ensures Bookkeeping(submitted + [job], started, finished, pending + [job], tasks)
  {
    assert submitted + [job] == started + (pending + [job]);
  }

  /** end() keeps the session numbered when the new job carries the counter. */
  lemma SubmitKeepsSession(session: seq<ExportJob>, counter: nat, submitted: seq<ExportJob>, job: ExportJob)
    requires SessionNumbered(session, counter, submitted) && job.frameID == counter
    ensures SessionNumbered(session + [job], counter + 1, submitted + [job])
  {
    var n := |submitted| - |session|;
    assert submitted == submitted[..n] + session;
    assert submitted + [job] == submitted[..n] + (session + [job]);
  }

  /** updateTasks() keeps the history: the spawned prefix of the queue joins
      the started jobs, the reaped tasks join the finished ones. */
  lemma UpdateTasksKeepsBookkeeping(submitted: seq<ExportJob>, started: seq<ExportJob>,
                                    finished: seq<ExportJob>, q: Queues, maxThreads: nat, st: seq<Poll>)
    requires |st| == |q.tasks|
    requires Bookkeeping(submitted, started, finished, q.pending, q.tasks)
    ensures var r := UpdateTasksResult(q, maxThreads, st);
      && |r.pending| <= |q.pending|
      && Bookkeeping(submitted, started + q.pending[..|q.pending| - |r.pending|],
                     finished + Finished(q.tasks, st), r.pending, r.tasks)
  {
    var kept, fin := Survivors(q.tasks, st), Finished(q.tasks, st);
    var k := SpawnCount(|q.pending|, |kept|, maxThreads);
    var spawned, rest := q.pending[..k], q.pending[k..];
    assert q.pending == spawned + rest;
    assert submitted == (started + spawned) + rest;
    ReapPartition(q.tasks, st);
    forall job
      ensures Count(started + spawned, job) == Count(finished + fin, job) + Count(kept + spawned, job)
    {
      CountIsMultiplicity(started, job);
      CountIsMultiplicity(finished, job);
      CountIsMultiplicity(q.tasks, job);
      CountIsMultiplicity(started + spawned, job);
      CountIsMultiplicity(finished + fin, job);
      CountIsMultiplicity(kept + spawned, job);
      calc {
        multiset(started + spawned)[job];
        multiset(started)[job] + multiset(spawned)[job];
        multiset(finished)[job] + multiset(q.tasks)[job] + multiset(spawned)[job];
        multiset(finished)[job] + multiset(fin)[job] + multiset(kept)[job] + multiset(spawned)[job];
        multiset(finished + fin)[job] + multiset(kept + spawned)[job];
      }
    }
  }

  /** Every in-flight task was submitted, so when no submission was timed,
      no task was either. */
  lemma InFlightUnsampled(submitted: seq<ExportJob>, started: seq<ExportJob>, finished: seq<ExportJob>,
                          pending: seq<ExportJob>, tasks: seq<ExportJob>)
    requires Bookkeeping(submitted, started, finished, pending, tasks) && AllUnsampled(submitted)
    ensures AllUnsampled(tasks)
  {
    forall t | t in tasks
      ensures t.runTime == NotSampled
    {
      CountIsMultiplicity(tasks, t);
      CountIsMultiplicity(started, t);
      assert t in started;
      assert t in submitted;
    }
  }

  /** Reaping tasks whose ready ones are all untimed frames with the default
      runTime leaves the average as it was. */
  lemma {:induction false} UntimedReapKeepsAverage(avg: real, tasks: seq<ExportJob>, st: seq<Poll>)
    requires |st| == |tasks|
    requires forall i :: 0 <= i < |tasks| && st[i].Ready? ==>
      tasks[i].runTime == NotSampled && !IsTimeSample(tasks[i].frameID)
    ensures AvgAfterReap(avg, tasks, st) == avg
  {
    if tasks != [] {
      var n := |tasks| - 1;
      if st[n].Ready? {
        UntimedJobIgnored(tasks[n], st[n].elapsed, avg);
      }
      forall i | 0 <= i < n && st[..n][i].Ready?
        ensures tasks[..n][i].runTime == NotSampled && !IsTimeSample(tasks[..n][i].frameID)
      {
        assert tasks[..n][i] == tasks[i] && st[..n][i] == st[i];
      }
      UntimedReapKeepsAverage(avg, tasks[..n], st[..n]);
    }
  }

  /** Under the bookkeeping invariant with no submission timed, an
      updateTasks() round whose ready tasks are all frames that are not time
      samples leaves the average export time unchanged. */
  lemma UntimedRoundKeepsAverage(submitted: seq<ExportJob>, started: seq<ExportJob>, finished: seq<ExportJob>,
                                 q: Queues, maxThreads: nat, st: seq<Poll>)
    requires |st| == |q.tasks|
    requires Bookkeeping(submitted, started, finished, q.pending, q.tasks) && AllUnsampled(submitted)
    requires forall i :: 0 <= i < |st| && st[i].Ready? ==> !IsTimeSample(q.tasks[i].frameID)
    ensures UpdateTasksResult(q, maxThreads, st).avg == q.avg
  {
    InFlightUnsampled(submitted, started, finished, q.pending, q.tasks);
    UntimedReapKeepsAverage(q.avg, q.tasks, st);
  }

  // ----------------------------------------------------------- update()

  /** The throttle loop of update() from `sleeps` sleeps on: while more than
      maxPending jobs wait and fewer than MaxSleeps sleeps were taken, sleep
      and run updateTasks() with the statuses of the next round. Returns the
      final queues and the number of sleeps. */
  function Throttle(q: Queues, maxThreads: nat, maxPending: nat,
                    rounds: nat -> nat -> Poll, sleeps: nat): (r: (Queues, nat))
    requires sleeps <= MaxSleeps
    ensures sleeps <= r.1 <= MaxSleeps
    ensures |r.0.pending| <= maxPending || r.1 == MaxSleeps
    ensures r.1 == sleeps <==> |q.pending| <= maxPending || sleeps == MaxSleeps
    ensures |q.tasks| <= maxThreads ==> |r.0.tasks| <= maxThreads
    ensures AvgValid(q.avg) ==> AvgValid(r.0.avg)
    decreases MaxSleeps - sleeps
  {
    if |q.pending| > maxPending && sleeps < MaxSleeps then
      var st := Statuses(rounds(sleeps + 1), |q.tasks|);
      UpdateTasksProperties(q, maxThreads, st);
      var next := UpdateTasksResult(q, maxThreads, st);
      Throttle(next, maxThreads, maxPending, rounds, sleeps + 1)
    else
      (q, sleeps)
  }

  /** One throttle round: over the pending limit with sleeps left, the loop
      runs updateTasks() with the next round's statuses and goes on. */
  lemma ThrottleStep(q: Queues, maxThreads: nat, maxPending: nat, rounds: nat -> nat -> Poll, sleeps: nat)
    requires sleeps < MaxSleeps && |q.pending| > maxPending
    ensures Throttle(q, maxThreads, maxPending, rounds, sleeps)
         == Throttle(UpdateTasksResult(q, maxThreads, Statuses(rounds(sleeps + 1), |q.tasks|)),
                     maxThreads, maxPending, rounds, sleeps + 1)
  {
  }
}
