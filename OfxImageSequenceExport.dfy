/**
  The export engine of ofxImageSequenceExport (the newer revision): the
  session state, the pending queue and the in-flight tasks, as the main
  thread updates them. Rendering into the frame buffer, image encoding and
  file writing happen outside the model; a submitted frame is an opaque
  Pixels handle and a running task is the job it was started with.
 */
module OfxImageSequenceExport {
  import opened Jobs
  import opened FileNames
  import opened TaskQueue

  /** The export folder before setExportDir() is called. */
  const DefaultExportFolder: string := "ImgSequenceExport"

  /** Milliseconds update() sleeps per throttle round. */
  const SleepMillis: nat := 5

  /** Default worker limit: one less than the hardware threads, at least one. */
  function DefaultMaxThreads(hardwareConcurrency: nat): (r: nat)
    ensures 1 <= r
    ensures r == hardwareConcurrency - 1 || (r == 1 && hardwareConcurrency <= 2)
  {
    AtLeastOne(hardwareConcurrency - 1)
  }

  /** With the default worker limit, whatever the hardware thread count, a
      round in which every in-flight task is found finished starts at least
      one waiting job. */
  lemma DefaultLimitSpawns(hardwareConcurrency: nat, q: Queues, st: seq<Poll>)
    requires |st| == |q.tasks| && q.pending != []
    requires forall i :: 0 <= i < |st| ==> st[i].Ready?
    ensures |UpdateTasksResult(q, DefaultMaxThreads(hardwareConcurrency), st).pending| < |q.pending|
  {
    AllReadyNoSurvivors(q.tasks, st);
  }

  class Exporter {
    var exporting: bool
    var exportFolder: string
    var fileExtension: string
    var exportedFrameCounter: nat
    var maxThreads: nat
    var maxPending: nat
    var avgExportTime: real
    var pendingJobs: seq<ExportJob>
    var tasks: seq<ExportJob>

    /** Every job end() ever enqueued, in order. */
    ghost var submitted: seq<ExportJob>
    /** Every job ever started on a worker, in order. */
    ghost var started: seq<ExportJob>
    /** Every task ever reaped. */
    ghost var finished: seq<ExportJob>
    /** The jobs enqueued since the last startExport(). */
    ghost var session: seq<ExportJob>
    /** The folders startExport() removed and recreated, in order. */
    ghost var folderResets: seq<string>

    /** The limits are at least one, the queues keep the job history and
        the session is numbered. */
    ghost predicate Valid()
      reads this
    {
      && 1 <= maxThreads
      && 1 <= maxPending
      && QueueValid()
      && SessionValid()
    }

    /** No job is lost or duplicated, every job was submitted with the
        default runTime, and the average is the sentinel or positive. */
    ghost predicate QueueValid()
      reads this`submitted, this`started, this`finished, this`pendingJobs, this`tasks, this`avgExportTime
    {
      && AvgValid(avgExportTime)
      && Bookkeeping(submitted, started, finished, pendingJobs, tasks)
      && AllUnsampled(submitted)
    }

    /** The session's jobs are numbered 0, 1, 2, ... */
    ghost predicate SessionValid()
      reads this`session, this`exportedFrameCounter, this`submitted
    {
      SessionNumbered(session, exportedFrameCounter, submitted)
    }

    /** The queues updateTasks() works on. */
    function Queue(): Queues
      reads this`pendingJobs, this`tasks, this`avgExportTime
    {
      Queues(pendingJobs, tasks, avgExportTime)
    }

    /** Construction followed by setup(): not exporting, header defaults for
        the folder, the limits and the average. */
    constructor (hardwareConcurrency: nat, fileExtension: string)
      ensures Valid()
      ensures !exporting && exportFolder == DefaultExportFolder && this.fileExtension == fileExtension
      ensures maxThreads == DefaultMaxThreads(hardwareConcurrency) && maxPending == maxThreads
      ensures avgExportTime == NotSampled
      ensures pendingJobs == [] && tasks == [] && submitted == []
    {
      exporting := false;
      exportFolder := DefaultExportFolder;
      this.fileExtension := fileExtension;
      exportedFrameCounter := 0;
      maxThreads := DefaultMaxThreads(hardwareConcurrency);
      maxPending := DefaultMaxThreads(hardwareConcurrency);
      avgExportTime := NotSampled;
      pendingJobs, tasks := [], [];
      submitted, started, finished, session, folderResets := [], [], [], [], [];
    }

    method SetMaxThreads(t: int)
      requires Valid()
      modifies this`maxThreads
      ensures Valid()
      ensures maxThreads == AtLeastOne(t)
    {
      maxThreads := AtLeastOne(t);
    }

    method SetMaxPendingTasks(t: int)
      requires Valid()
      modifies this`maxPending
      ensures Valid()
      ensures maxPending == AtLeastOne(t)
    {
      maxPending := AtLeastOne(t);
    }

    method SetExportDir(dir: string)
      requires Valid()
      modifies this`exportFolder
      ensures Valid()
      ensures exportFolder == dir
    {
      exportFolder := dir;
    }

    /** end(): while exporting, enqueue the rendered frame as the next job of
        the session; otherwise drop it. */
    method End(pixels: Pixels)
      requires Valid()
      modifies this`exportedFrameCounter, this`pendingJobs, this`submitted, this`session
      ensures Valid()
      ensures old(exporting) ==>
        var job := ExportJob(pixels, old(exportedFrameCounter),
                             FileNameForFrame(exportFolder, fileExtension, old(exportedFrameCounter)), NotSampled);
        && pendingJobs == old(pendingJobs) + [job]
        && exportedFrameCounter == old(exportedFrameCounter) + 1
        && session == old(session) + [job]
      ensures !old(exporting) ==> unchanged(this)
    {
      if exporting {
        var job := ExportJob(pixels, exportedFrameCounter,
                             FileNameForFrame(exportFolder, fileExtension, exportedFrameCounter), NotSampled);
        SubmitKeepsBookkeeping(submitted, started, finished, pendingJobs, tasks, job);
        SubmitKeepsSession(session, exportedFrameCounter, submitted, job);
        AppendUnsampled(submitted, job);
        exportedFrameCounter := exportedFrameCounter + 1;
        pendingJobs := pendingJobs + [job];
        submitted := submitted + [job];
        session := session + [job];
      }
    }

    /** startExport(): from idle, begin a session (counter 0, no average yet,
        export folder reset); while exporting, report an error and change nothing. */
    method StartExport() returns (alreadyExporting: bool)
      requires Valid()
      modifies this`exporting, this`exportedFrameCounter, this`avgExportTime, this`session, this`folderResets
      ensures Valid()
      ensures alreadyExporting == old(exporting)
      ensures old(exporting) ==> unchanged(this)
      ensures !old(exporting) ==>
        && exporting && exportedFrameCounter == 0 && avgExportTime == NotSampled
        && session == [] && folderResets == old(folderResets) + [exportFolder]
    {
      alreadyExporting := exporting;
      if !exporting {
        exporting := true;
        exportedFrameCounter := 0;
        avgExportTime := NotSampled;
        session := [];
        folderResets := folderResets + [exportFolder];
      }
    }

    method IsExporting() returns (r: bool)
      ensures r == exporting
    {
      r := exporting;
    }

    /** stopExport(): stop accepting frames; queued and running jobs stay. */
    method StopExport()
      requires Valid()
      modifies this`exporting
      ensures Valid()
      ensures !exporting
      ensures pendingJobs == old(pendingJobs) && tasks == old(tasks)
      ensures exportedFrameCounter == old(exportedFrameCounter)
    {
      exporting := false;
    }

    method GetNumPendingJobs() returns (n: nat)
      ensures n == |pendingJobs|
    {
      n := |pendingJobs|;
    }

    /** updateTasks(): reap the tasks found finished (`st[i]` is what polling
        task i finds), then start pending jobs while fewer than maxThreads
        tasks run. */
    method UpdateTasks(st: seq<Poll>)
      requires QueueValid() && |st| == |tasks|
      modifies this`pendingJobs, this`tasks, this`avgExportTime, this`started, this`finished
      ensures QueueValid()
      ensures Queue() == UpdateTasksResult(old(Queue()), maxThreads, st)
      ensures started == old(started) + old(pendingJobs)[..|old(pendingJobs)| - |pendingJobs|]
      ensures finished == old(finished) + Finished(old(tasks), st)
    {
      var q := Queue();
      var r := UpdateQueues(q, maxThreads, st);
      UpdateTasksKeepsBookkeeping(submitted, started, finished, q, maxThreads, st);
      ghost var started' := started + q.pending[..|q.pending| - |r.pending|];
      ghost var finished' := finished + Finished(q.tasks, st);
      assert Bookkeeping(submitted, started', finished', r.pending, r.tasks);
      started, finished := started', finished';
      pendingJobs, tasks, avgExportTime := r.pending, r.tasks, r.avg;
    }

    /** An updateTasks() round whose ready tasks are all frames that are not
        time samples leaves the average export time as it was: those workers
        return the default runTime, which the reap step ignores. */
    lemma UntimedRoundKeepsAverage(st: seq<Poll>)
      requires QueueValid() && |st| == |tasks|
      requires forall i :: 0 <= i < |st| && st[i].Ready? ==> !IsTimeSample(tasks[i].frameID)
      ensures UpdateTasksResult(Queue(), maxThreads, st).avg == avgExportTime
    {
      TaskQueue.UntimedRoundKeepsAverage(submitted, started, finished, Queue(), maxThreads, st);
    }

    /** update(): one updateTasks() round, then up to MaxSleeps throttle rounds
        while more than maxPending jobs wait; `rounds(k)` gives the task
        statuses seen in round k. Warns, with the time blocked, iff it slept. */
    method Update(rounds: nat -> nat -> Poll) returns (sleeps: nat, warned: bool, blockedMillis: nat)
      requires QueueValid()
      modifies this`pendingJobs, this`tasks, this`avgExportTime, this`started, this`finished
      ensures QueueValid()
      ensures (Queue(), sleeps) == Throttle(UpdateTasksResult(old(Queue()), maxThreads, Statuses(rounds(0), |old(tasks)|)),
                                            maxThreads, maxPending, rounds, 0)
      ensures sleeps <= MaxSleeps && (|pendingJobs| <= maxPending || sleeps == MaxSleeps)
      ensures warned <==> sleeps > 0
      ensures blockedMillis == SleepMillis * sleeps
    {
      UpdateTasks(Statuses(rounds(0), |tasks|));
      ghost var first := Queue();
      sleeps := 0;
      while |pendingJobs| > maxPending && sleeps < MaxSleeps
        invariant QueueValid()
        invariant sleeps <= MaxSleeps
        invariant Throttle(Queue(), maxThreads, maxPending, rounds, sleeps)
               == Throttle(first, maxThreads, maxPending, rounds, 0)
        decreases MaxSleeps - sleeps
      {
        UpdateTasks(Statuses(rounds(sleeps + 1), |tasks|));
        sleeps := sleeps + 1;
      }
      warned := sleeps > 0;
      blockedMillis := SleepMillis * sleeps;
    }
  }
}
