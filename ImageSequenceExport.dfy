/**
  The export engine of ImageSequenceExport (the older revision). It keeps
  the same queues as the newer one and shares their updateTasks() and
  update() logic; it differs in its defaults (no clamp on the worker limit,
  twice as many pending jobs allowed, an empty folder name) and in
  startExport(), which takes the export folder as its argument. There is
  no setExportDir(), so the folder is fixed for a whole session.
 */
module ImageSequenceExport {
  import opened Jobs
  import opened FileNames
  import opened TaskQueue

  /** Milliseconds update() sleeps per throttle round. */
  const SleepMillis: nat := 5

  /** Default worker limit: the hardware thread count, unclamped. */
  function DefaultMaxThreads(hardwareConcurrency: nat): nat {
    hardwareConcurrency
  }

  /** Default pending limit: twice the hardware thread count. */
  function DefaultMaxPending(hardwareConcurrency: nat): nat {
    2 * hardwareConcurrency
  }

  /** With the default limits for an unknown hardware thread count (0),
      updateTasks() never starts a job: the pending queue stays as it is and
      the in-flight tasks only shrink. */
  lemma UnknownConcurrencyNeverSpawns(q: Queues, st: seq<Poll>)
    requires |st| == |q.tasks|
    ensures var r := UpdateTasksResult(q, DefaultMaxThreads(0), st);
      r.pending == q.pending && r.tasks == Survivors(q.tasks, st)
  {
    assert q.pending[0..] == q.pending;
    assert q.pending[..0] == [];
  }

  /** ... and while any job is pending, update() with those defaults sleeps
      the full MaxSleeps rounds every time and no job leaves the queue,
      since it can never drop to the pending limit 0. */
  lemma {:induction false} UnknownConcurrencyAlwaysThrottles(q: Queues, rounds: nat -> nat -> Poll, sleeps: nat)
    requires sleeps <= MaxSleeps && q.pending != []
    ensures var r := Throttle(q, DefaultMaxThreads(0), DefaultMaxPending(0), rounds, sleeps);
      r.1 == MaxSleeps && |r.0.pending| == |q.pending|
    decreases MaxSleeps - sleeps
  {
    if sleeps < MaxSleeps {
      var st := Statuses(rounds(sleeps + 1), |q.tasks|);
      assert SpawnCount(|q.pending|, |Survivors(q.tasks, st)|, 0) == 0;
      ThrottleStep(q, 0, 0, rounds, sleeps);
      UnknownConcurrencyAlwaysThrottles(UpdateTasksResult(q, 0, st), rounds, sleeps + 1);
    }
  }

  class Exporter {
    var exporting: bool
    var exportFolder: string
    var fileExtension: string
    var exportedFrameCounter: nat
    var maxThreads: nat
    var maxPending: nat
    var avgExportTime: real
    var pendingJobs: seq<ExportJob>
    var tasks: seq<ExportJob>

    /** Every job end() ever enqueued, in order. */
    ghost var submitted: seq<ExportJob>
    /** Every job ever started on a worker, in order. */
    ghost var started: seq<ExportJob>
    /** Every task ever reaped. */
    ghost var finished: seq<ExportJob>
    /** The jobs enqueued since the last startExport(). */
    ghost var session: seq<ExportJob>
    /** The folders startExport() removed and recreated, in order. */
    ghost var folderResets: seq<string>

    /** The queues keep the job history and the session is numbered. */
    ghost predicate Valid()
      reads this
    {
      && QueueValid()
      && SessionValid()
    }

    /** No job is lost or duplicated, every job was submitted with the
        default runTime, and the average is the sentinel or positive. */
    ghost predicate QueueValid()
      reads this`submitted, this`started, this`finished, this`pendingJobs, this`tasks, this`avgExportTime
    {
      && AvgValid(avgExportTime)
      && Bookkeeping(submitted, started, finished, pendingJobs, tasks)
      && AllUnsampled(submitted)
    }

    /** The session's jobs are numbered 0, 1, 2, ... */
    ghost predicate SessionValid()
      reads this`session, this`exportedFrameCounter, this`submitted
    {
      SessionNumbered(session, exportedFrameCounter, submitted)
    }

    /** The queues updateTasks() works on. */
    function Queue(): Queues
      reads this`pendingJobs, this`tasks, this`avgExportTime
    {
      Queues(pendingJobs, tasks, avgExportTime)
    }

    /** Construction followed by setup(): not exporting, the header defaults
        for the limits and the average, and no folder yet. */
    constructor (hardwareConcurrency: nat, fileExtension: string)
      ensures Valid()
      ensures !exporting && exportFolder == "" && this.fileExtension == fileExtension
      ensures maxThreads == DefaultMaxThreads(hardwareConcurrency)
      ensures maxPending == DefaultMaxPending(hardwareConcurrency)
      ensures avgExportTime == NotSampled
      ensures pendingJobs == [] && tasks == [] && submitted == []
    {
      exporting := false;
      exportFolder := "";
      this.fileExtension := fileExtension;
      exportedFrameCounter := 0;
      maxThreads := DefaultMaxThreads(hardwareConcurrency);
      maxPending := DefaultMaxPending(hardwareConcurrency);
      avgExportTime := NotSampled;
      pendingJobs, tasks := [], [];
      submitted, started, finished, session, folderResets := [], [], [], [], [];
    }

    method SetNumThreads(t: int)
      requires Valid()
      modifies this`maxThreads
      ensures Valid()
      ensures maxThreads == AtLeastOne(t)
    {
      maxThreads := AtLeastOne(t);
    }

    method SetMaxPendingTasks(t: int)
      requires Valid()
      modifies this`maxPending
      ensures Valid()
      ensures maxPending == AtLeastOne(t)
    {
      maxPending := AtLeastOne(t);
    }

    /** end(): while exporting, enqueue the rendered frame as the next job of
        the session; otherwise drop it. */
    method End(pixels: Pixels)
      requires Valid()
      modifies this`exportedFrameCounter, this`pendingJobs, this`submitted, this`session
      ensures Valid()
      ensures old(exporting) ==>
        var job := ExportJob(pixels, old(exportedFrameCounter),
                             FileNameForFrame(exportFolder, fileExtension, old(exportedFrameCounter)), NotSampled);
        && pendingJobs == old(pendingJobs) + [job]
        && exportedFrameCounter == old(exportedFrameCounter) + 1
        && session == old(session) + [job]
      ensures !old(exporting) ==> unchanged(this)
    {
      if exporting {
        var job := ExportJob(pixels, exportedFrameCounter,
                             FileNameForFrame(exportFolder, fileExtension, exportedFrameCounter), NotSampled);
        SubmitKeepsBookkeeping(submitted, started, finished, pendingJobs, tasks, job);
        SubmitKeepsSession(session, exportedFrameCounter, submitted, job);
        AppendUnsampled(submitted, job);
        exportedFrameCounter := exportedFrameCounter + 1;
        pendingJobs := pendingJobs + [job];
        submitted := submitted + [job];
        session := session + [job];
      }
    }

    /** startExport(folder): from idle, begin a session in `folder` (counter
        0, no average yet, folder reset); while exporting, report an error
        and change nothing. */
    method StartExport(folder: string) returns (alreadyExporting: bool)
      requires Valid()
      modifies this`exporting, this`exportedFrameCounter, this`exportFolder, this`avgExportTime,
               this`session, this`folderResets
      ensures Valid()
      ensures alreadyExporting == old(exporting)
      ensures old(exporting) ==> unchanged(this)
      ensures !old(exporting) ==>
        && exporting && exportedFrameCounter == 0 && exportFolder == folder && avgExportTime == NotSampled
        && session == [] && folderResets == old(folderResets) + [folder]
    {
      alreadyExporting := exporting;
      if !exporting {
        exporting := true;
        exportedFrameCounter := 0;
        exportFolder := folder;
        avgExportTime := NotSampled;
        session := [];
        folderResets := folderResets + [folder];
      }
    }

    method IsExporting() returns (r: bool)
      ensures r == exporting
    {
      r := exporting;
    }

    /** stopExport(): stop accepting frames; queued and running jobs stay. */
    method StopExport()
      requires Valid()
      modifies this`exporting
      ensures Valid()
      ensures !exporting
      ensures pendingJobs == old(pendingJobs) && tasks == old(tasks)
      ensures exportedFrameCounter == old(exportedFrameCounter)
    {
      exporting := false;
    }

    method GetNumPendingJobs() returns (n: nat)
      ensures n == |pendingJobs|
    {
      n := |pendingJobs|;
    }

    /** updateTasks(): reap the tasks found finished (`st[i]` is what polling
        task i finds), then start pending jobs while fewer than maxThreads
        tasks run. */
    method UpdateTasks(st: seq<Poll>)
      requires QueueValid() && |st| == |tasks|
      modifies this`pendingJobs, this`tasks, this`avgExportTime, this`started, this`finished
      ensures QueueValid()
      ensures Queue() == UpdateTasksResult(old(Queue()), maxThreads, st)
      ensures started == old(started) + old(pendingJobs)[..|old(pendingJobs)| - |pendingJobs|]
      ensures finished == old(finished) + Finished(old(tasks), st)
    {
      var q := Queue();
      var r := UpdateQueues(q, maxThreads, st);
      UpdateTasksKeepsBookkeeping(submitted, started, finished, q, maxThreads, st);
      ghost var started' := started + q.pending[..|q.pending| - |r.pending|];
      ghost var finished' := finished + Finished(q.tasks, st);
      assert Bookkeeping(submitted, started', finished', r.pending, r.tasks);
      started, finished := started', finished';
      pendingJobs, tasks, avgExportTime := r.pending, r.tasks, r.avg;
    }

    /** An updateTasks() round whose ready tasks are all frames that are not
        time samples leaves the average export time as it was: those workers
        return the default runTime, which the reap step ignores. */
    lemma UntimedRoundKeepsAverage(st: seq<Poll>)
      requires QueueValid() && |st| == |tasks|
      requires forall i :: 0 <= i < |st| && st[i].Ready? ==> !IsTimeSample(tasks[i].frameID)
      ensures UpdateTasksResult(Queue(), maxThreads, st).avg == avgExportTime
    {
      TaskQueue.UntimedRoundKeepsAverage(submitted, started, finished, Queue(), maxThreads, st);
    }

    /** update(): one updateTasks() round, then up to MaxSleeps throttle rounds
        while more than maxPending jobs wait; `rounds(k)` gives the task
        statuses seen in round k. Warns, with the time blocked, iff it slept. */
    method Update(rounds: nat -> nat -> Poll) returns (sleeps: nat, warned: bool, blockedMillis: nat)
      requires QueueValid()
      modifies this`pendingJobs, this`tasks, this`avgExportTime, this`started, this`finished
      ensures QueueValid()
      ensures (Queue(), sleeps) == Throttle(UpdateTasksResult(old(Queue()), maxThreads, Statuses(rounds(0), |old(tasks)|)),
                                            maxThreads, maxPending, rounds, 0)
      ensures sleeps <= MaxSleeps && (|pendingJobs| <= maxPending || sleeps == MaxSleeps)
      ensures warned <==> sleeps > 0
      ensures blockedMillis == SleepMillis * sleeps
    {
      UpdateTasks(Statuses(rounds(0), |tasks|));
      ghost var first := Queue();
      sleeps := 0;
      while |pendingJobs| > maxPending && sleeps < MaxSleeps
        invariant QueueValid()
        invariant sleeps <= MaxSleeps
        invariant Throttle(Queue(), maxThreads, maxPending, rounds, sleeps)
               == Throttle(first, maxThreads, maxPending, rounds, 0)
        decreases MaxSleeps - sleeps
      {
        UpdateTasks(Statuses(rounds(sleeps + 1), |tasks|));
        sleeps := sleeps + 1;
      }
      warned := sleeps > 0;
      blockedMillis := SleepMillis * sleeps;
    }
  }
}
