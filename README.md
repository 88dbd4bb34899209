# Image-sequence export engine: a Dafny model

ofxImageSequenceExport renders frames into an off-screen buffer and writes
them as a numbered image sequence. Worker threads encode and save the
images. This project models the engine's main-thread bookkeeping, in both
revisions of the source:

- `ofxImageSequenceExport` (the newer one);
- `ImageSequenceExport` (the older one).

The main thread owns this state:

- an `exporting` flag, the export folder and the file extension;
- a per-session frame counter;
- the worker limit `maxThreads` and the queue limit `maxPending`;
- the running average export time;
- a FIFO queue of pending jobs and the vector of in-flight tasks.

The operations modelled:

- `end()` submits a frame;
- `startExport()` and `stopExport()` switch sessions;
- the setters clamp their argument to at least 1;
- `updateTasks()` reaps finished tasks, then starts pending jobs while a worker slot is free;
- `update()` re-runs `updateTasks()` at most ten times while the queue is over its limit.

Modules:

- `FileNames`: `fileNameForFrame`. The frame number is printed with `"%08i"`. The module proves the print/read-back round trip and that distinct frames get distinct names.
- `Jobs`: the export job and the sampling rule of `runJob` (every 30th frame is timed). Also the running-average update: the first positive sample replaces the `-1` sentinel, and later ones are blended in with weight 0.15.
- `TaskQueue`: the queue algebra both revisions share:
  - the reap loop (`Reap`) and the spawn loops (`Spawn`), as methods proved against the functions `Survivors`, `AvgAfterReap` and `SpawnCount`;
  - `updateTasks()` as `UpdateTasksResult`;
  - the throttle loop of `update()` as `Throttle`;
  - the ghost bookkeeping predicates that the classes keep invariant. `Bookkeeping` says no job is lost or duplicated and jobs start in FIFO order. `SessionNumbered` says a session's frames are numbered 0, 1, 2, …
- `OfxImageSequenceExport`, `ImageSequenceExport`: one `Exporter` class per revision. It holds the source's fields, plus ghost histories:
  - `submitted`, `started` and `finished` record jobs;
  - `session` holds the jobs of the current session;
  - `folderResets` records the folders `startExport` wiped and recreated.

Things the environment decides are parameters:

- **Polls.** Whether a task is found finished when it is polled is a `Poll` per task (`Busy`, or `Ready(elapsed)` with the seconds its image write took). `UpdateTasks(st)` takes one per task. `Update(rounds)` takes the statuses of round k as `rounds(k)`.
- **Hardware thread count.** It is a constructor argument.
- **Sleeping and logging.** `Update` returns how many times it slept, whether it warned, and how long it blocked. `StartExport` returns whether it refused because a session was already running.

## Model

| member | source | states |
|---|---|---|
| FileNames.PadFrameNumber | src/ofxImageSequenceExport.h:15 | "%08i" prints only decimal digits, at least eight of them, and from 10^8 on exactly the plain decimal digits with no padding |
| FileNames.DecimalLengthAbove | src/ofxImageSequenceExport.h:15 | a number of at least 10^k has more than k digits, so "%08i" adds no zeros to it |
| FileNames.DecimalValue | src/ofxImageSequenceExport.cpp:96-98 | reading back the printed decimal digits of n gives n |
| FileNames.LeadingZerosValue | src/ofxImageSequenceExport.h:15 | zero padding keeps the string all digits and does not change its value |
| FileNames.PadRoundTrip | src/ofxImageSequenceExport.h:15 | reading back the "%08i" rendering of any frame number gives the number |
| FileNames.DecimalLength | src/ofxImageSequenceExport.h:15 | a number below 10^k has at most k digits |
| FileNames.PadWidth | src/ofxImageSequenceExport.h:15 | every frame number below 10^8 prints as exactly eight characters |
| FileNames.FileNameForFrame | src/ofxImageSequenceExport.cpp:96-100 | definition of fileNameForFrame: folder + "/" + "frame_" + the "%08i" rendering + "." + extension. Its properties are stated by FrameFromFileName (the name parses back) and FileNameInjective (no two frames collide) |
| FileNames.FrameFromFileName | src/ofxImageSequenceExport.cpp:96-100 | a file name parses completely: the folder, then "/frame_", then all-digit characters, then '.', then the extension. The digits read back to the frame number |
| FileNames.FileNameInjective | src/ofxImageSequenceExport.cpp:96-100 | in one folder with one extension, distinct frames never share a file name |
| FileNames.FileNameExample | src/ImageSequenceExport.cpp:86-90 | frame 42 in folder "out" with extension "png" is "out/frame_00000042.png" |
| Jobs.RecordSample | src/ofxImageSequenceExport.cpp:157-164 | three facts about the average. A non-positive result leaves it unchanged. The first positive result replaces the sentinel. Later results move it towards the sample without overshooting. Sentinel-or-positive is preserved |
| Jobs.IsTimeSample | src/ofxImageSequenceExport.cpp:217 | definition of the sampling test frameID % 30 == 0; TimeSamplesPeriodic states its pattern |
| Jobs.TimeSamplesPeriodic | src/ImageSequenceExport.cpp:197 | time samples recur every 30 frames, and frame 0 is the only one among frames 0..29 |
| Jobs.RunJob | src/ofxImageSequenceExport.cpp:216-226 | definition of the value a worker returns: the write's duration for a time sample, the job's own runTime otherwise. UntimedJobIgnored and OnlyTimedJobsCount state what that value does to the average |
| Jobs.UntimedJobIgnored | src/ImageSequenceExport.cpp:196-206 | a job whose frame is not a multiple of 30 returns its default -1 runTime, which leaves the average untouched |
| Jobs.OnlyTimedJobsCount | src/ofxImageSequenceExport.cpp:216-226 | a fresh job can change the average only if its frame number is a multiple of 30 and its write took positive time |
| Jobs.ConstantSampleConverges | src/ofxImageSequenceExport.cpp:162 | fed a constant positive sample, the average stays positive, and its distance to the sample is multiplied by 0.85 per sample |
| Jobs.PowerBounds | src/ofxImageSequenceExport.cpp:162 | the shrink factor 0.85^k lies in (0, 1], and below 1 for k > 0 |
| Jobs.PowerHarmonicBound | src/ofxImageSequenceExport.cpp:162 | 0.85^k · (1 + 0.15·k) ≤ 1 |
| Jobs.ConstantSampleWithin | src/ofxImageSequenceExport.cpp:157-164 | fed a constant positive sample k times, its distance to the sample is at most the initial distance divided by (1 + 0.15·k), so enough samples bring it within any tolerance |
| TaskQueue.AtLeastOne | src/ofxImageSequenceExport.cpp:40-46 | MAX(t, 1) is at least 1 and at least t, and it is t or 1 |
| TaskQueue.Survivors | src/ofxImageSequenceExport.cpp:154-167 | the reap step never grows the task vector |
| TaskQueue.Finished | src/ofxImageSequenceExport.cpp:154-167 | the reaped tasks are at most the in-flight ones |
| TaskQueue.BusyIndices | src/ofxImageSequenceExport.cpp:155-156 | lists every busy position exactly once, in increasing order, and only busy positions |
| TaskQueue.AvgAfterReap | src/ofxImageSequenceExport.cpp:157-164 | folding the ready tasks' results keeps the average sentinel-or-positive |
| TaskQueue.SurvivorsInOrder | src/ofxImageSequenceExport.cpp:154-167 | the kept tasks are exactly the busy ones, in their original order |
| TaskQueue.AllReadyNoSurvivors | src/ofxImageSequenceExport.cpp:154-167 | when every task is ready, reaping empties the task vector |
| TaskQueue.ReapPartition | src/ImageSequenceExport.cpp:145-158 | reaping loses and duplicates nothing: tasks = kept + finished, as multisets |
| TaskQueue.Reap | src/ofxImageSequenceExport.cpp:154-167 | the back-to-front erase loop leaves exactly the busy tasks in order (Survivors). Its final average folds the ready tasks' results in visiting order (AvgAfterReap) |
| TaskQueue.SpawnCount | src/ofxImageSequenceExport.cpp:171-178 | the spawn loop starts min(pending, maxThreads − tasks) jobs: never more than fit, and the whole queue or up to the limit |
| TaskQueue.Spawn | src/ofxImageSequenceExport.cpp:170-185 | the spawn and erase loops append the first SpawnCount pending jobs to the tasks in FIFO order, and leave the rest of the queue in order |
| TaskQueue.UpdateTasksResult | src/ofxImageSequenceExport.cpp:151-186 | definition of one updateTasks() call on values: reap with the given statuses, then spawn. Its properties are stated by UpdateTasksProperties and UpdateTasksKeepsBookkeeping; UpdateQueues proves the loops compute it |
| TaskQueue.UpdateQueues | src/ImageSequenceExport.cpp:142-177 | one updateTasks() call (reap, then spawn) computes UpdateTasksResult |
| TaskQueue.UpdateTasksProperties | src/ofxImageSequenceExport.cpp:151-186 | one updateTasks() call guarantees several things. The in-flight count stays within maxThreads if it was. No job waits while a slot is free. The queue loses a FIFO prefix, which is appended to the kept tasks. The multiset of jobs is preserved with the finished ones. The average stays valid |
| TaskQueue.DrainProgress | src/ofxImageSequenceExport.cpp:151-186 | with maxThreads ≥ 1 and all tasks ready, a round strictly decreases 2·pending + tasks |
| TaskQueue.SubmitKeepsBookkeeping | src/ofxImageSequenceExport.cpp:84-91 | appending a submitted job to the queue keeps the job history consistent |
| TaskQueue.SubmitKeepsSession | src/ofxImageSequenceExport.cpp:87-89 | a job numbered with the counter keeps the session numbered 0..N-1 as the counter increases |
| TaskQueue.InFlightUnsampled | src/ofxImageSequenceExport.h:65-71 | when every submitted job still has the default runTime -1, so does every in-flight task |
| TaskQueue.UntimedReapKeepsAverage | src/ImageSequenceExport.cpp:196-206 | reaping ready tasks that are untimed frames with runTime -1 leaves the average unchanged |
| TaskQueue.UntimedRoundKeepsAverage | src/ImageSequenceExport.cpp:145-158 | under the job-history invariant with every submission untimed, an updateTasks() round whose ready tasks are all frames that are not multiples of 30 leaves the average unchanged |
| TaskQueue.UpdateTasksKeepsBookkeeping | src/ofxImageSequenceExport.cpp:151-186 | after updateTasks(), every submitted job is still started-then-pending in FIFO order. Every started job is finished or in flight, exactly once |
| TaskQueue.Throttle | src/ofxImageSequenceExport.cpp:135-143 | the throttle loop sleeps at most 10 times. It ends under maxPending or after 10 sleeps. It sleeps zero times iff the queue was within the limit. It keeps the in-flight bound and a valid average |
| OfxImageSequenceExport.DefaultMaxThreads | src/ofxImageSequenceExport.h:58 | the default worker limit is hardware threads − 1, or 1 when that is less; always ≥ 1 |
| OfxImageSequenceExport.DefaultLimitSpawns | src/ofxImageSequenceExport.h:58 | with the default limit, for any hardware thread count, a round whose tasks have all finished starts at least one waiting job |
| OfxImageSequenceExport.Exporter.constructor | src/ofxImageSequenceExport.h:53-63 | the initial state: not exporting, folder "ImgSequenceExport", the given extension, maxPending = maxThreads = the default, average -1, empty queues, invariant established |
| OfxImageSequenceExport.Exporter.SetMaxThreads | src/ofxImageSequenceExport.cpp:40-42 | maxThreads becomes MAX(t, 1); invariant kept |
| OfxImageSequenceExport.Exporter.SetMaxPendingTasks | src/ofxImageSequenceExport.cpp:44-46 | maxPending becomes MAX(t, 1); invariant kept |
| OfxImageSequenceExport.Exporter.SetExportDir | src/ofxImageSequenceExport.cpp:48-50 | only the export folder changes |
| OfxImageSequenceExport.Exporter.End | src/ofxImageSequenceExport.cpp:72-93 | while exporting, appends one job (the buffer, frame = old counter, its file name, runTime -1) and increments the counter. The session stays numbered 0..N-1. When idle, nothing changes |
| OfxImageSequenceExport.Exporter.StartExport | src/ofxImageSequenceExport.cpp:103-115 | from idle: exporting, counter 0, average -1, new empty session, folder reset recorded. While exporting, it reports the error and nothing changes |
| OfxImageSequenceExport.Exporter.IsExporting | src/ofxImageSequenceExport.cpp:118-120 | returns the exporting flag |
| OfxImageSequenceExport.Exporter.StopExport | src/ofxImageSequenceExport.cpp:123-125 | clears the flag; the queue, the tasks and the counter are unchanged |
| OfxImageSequenceExport.Exporter.GetNumPendingJobs | src/ofxImageSequenceExport.cpp:127-129 | returns the queue length |
| OfxImageSequenceExport.Exporter.UpdateTasks | src/ofxImageSequenceExport.cpp:151-186 | the new queues are UpdateTasksResult of the old ones. The spawned prefix joins the started history, the reaped tasks join the finished history, and the bookkeeping invariant (including "every submitted job untimed") is kept |
| OfxImageSequenceExport.Exporter.UntimedRoundKeepsAverage | src/ofxImageSequenceExport.cpp:216-226 | for the engine's own queues: a round whose ready tasks are all frames that are not multiples of 30 leaves avgExportTime unchanged |
| OfxImageSequenceExport.Exporter.Update | src/ofxImageSequenceExport.cpp:132-148 | one updateTasks() round, then Throttle. It sleeps at most 10 times and ends under maxPending or after 10 sleeps. It warns iff it slept, and blocks 5 ms per sleep. The invariant is kept |
| ImageSequenceExport.DefaultMaxThreads | src/ImageSequenceExport.h:49 | definition of the default worker limit: the hardware thread count, unclamped. The constructor's ensures installs it; UnknownConcurrencyNeverSpawns states its effect at 0 |
| ImageSequenceExport.DefaultMaxPending | src/ImageSequenceExport.h:50 | definition of the default queue limit: twice the hardware thread count. The constructor's ensures installs it; UnknownConcurrencyAlwaysThrottles states its effect at 0 |
| ImageSequenceExport.UnknownConcurrencyNeverSpawns | src/ImageSequenceExport.h:49 | when the hardware thread count is unknown (0), the default worker limit 0 makes updateTasks() start no job; the queue is unchanged |
| ImageSequenceExport.UnknownConcurrencyAlwaysThrottles | src/ImageSequenceExport.h:49-50 | with those defaults and a non-empty queue, the throttle loop always runs all 10 sleeps, and no job leaves the queue |
| ImageSequenceExport.Exporter.constructor | src/ImageSequenceExport.h:44-52 | the initial state: not exporting, empty folder, maxThreads = hardware threads, maxPending = twice that, average -1, empty queues |
| ImageSequenceExport.Exporter.SetNumThreads | src/ImageSequenceExport.cpp:33-35 | maxThreads becomes MAX(t, 1); invariant kept |
| ImageSequenceExport.Exporter.SetMaxPendingTasks | src/ImageSequenceExport.cpp:37-39 | maxPending becomes MAX(t, 1); invariant kept |
| ImageSequenceExport.Exporter.End | src/ImageSequenceExport.cpp:62-83 | while exporting, appends one job numbered with the old counter and named in the session's folder, and increments the counter. The session stays numbered. When idle, nothing changes |
| ImageSequenceExport.Exporter.StartExport | src/ImageSequenceExport.cpp:93-106 | from idle: exporting, counter 0, folder = the argument, average -1, that folder's reset recorded. While exporting, nothing changes |
| ImageSequenceExport.Exporter.IsExporting | src/ImageSequenceExport.cpp:109-111 | returns the exporting flag |
| ImageSequenceExport.Exporter.StopExport | src/ImageSequenceExport.cpp:114-116 | clears the flag; the queue, the tasks and the counter are unchanged |
| ImageSequenceExport.Exporter.GetNumPendingJobs | src/ImageSequenceExport.cpp:118-120 | returns the queue length |
| ImageSequenceExport.Exporter.UpdateTasks | src/ImageSequenceExport.cpp:142-177 | the same reap-then-spawn transition as the newer revision, with the job history kept |
| ImageSequenceExport.Exporter.UntimedRoundKeepsAverage | src/ImageSequenceExport.cpp:196-206 | for the engine's own queues: a round whose ready tasks are all frames that are not multiples of 30 leaves avgExportTime unchanged |
| ImageSequenceExport.Exporter.Update | src/ImageSequenceExport.cpp:123-139 | the same bounded throttle loop as the newer revision: at most 10 sleeps, warns iff it slept, 5 ms per sleep |

## Left out

- Rendering (`setup`'s buffer allocation, `begin`, `draw`, `drawStatus`, `getStatus`, `readToPixels`) is graphics work. A rendered frame is an opaque `Pixels` handle.
- `ofSaveImage`, and the timing calls in `runJob`, are I/O and a clock. A finished task's measured write time is the `elapsed` of its `Ready` poll. The sampling rule and the -1 default are modelled.
- The recursive removal and re-creation of the export folder in `startExport` is file-system I/O. It is recorded only as the ghost `folderResets` list.
- `std::async`/`std::future` threads are replaced by caller-supplied polls: one per task for `UpdateTasks`, one sequence per round for `Update`. Workers racing with the main thread are not modelled.
- TaskQueue.Spawn: a thread launch that fails is not modelled. `std::async` throws `std::system_error` when it cannot start a thread, and nothing in the source catches it. That throw leaves `updateTasks()` before the erase loop runs, so the jobs already started in that call would stay in both `tasks` and `pendingJobs`. The "no job duplicated" part of the job-history invariant holds only because every launch succeeds in the model.
- A failed image write is not modelled. The source ignores `ofSaveImage`'s result, so a failed write still finishes its task, and a timed frame still contributes its duration to the average.
- `ofSleepMillis` and the log messages are not modelled as effects. `Update` returns its sleep count, whether it warned and the milliseconds it blocked. `StartExport` returns whether it refused.
- Floating point: `float` is modelled as `real`, and `ofLerp(a, b, 0.15)` as the exact `a + (b − a)·0.15`. Rounding is not modelled.
- `new`/`delete` of the pixel buffers: ownership and release are not tracked.
- `bytesToHumanReadable`, `avgFileSize`, `fileSizeBytes` and `expectedRenderLen` are declared in src/ofxImageSequenceExport.h but never defined or used in the .cpp. They are not modelled.
- src/ofxImageSequenceExport.h disagrees with its .cpp, and the model follows the .cpp:
  - the header declares `startExport(int nFrames = -1)`, tasks as futures of `ExportJob`, and `ExportJob runJob`;
  - the .cpp defines `startExport()`, and workers that return a `float` runTime.
- The constants are the code's own:
  - the running average gives a new sample weight 0.15;
  - `update()` sleeps 5 ms per throttle round, ten rounds at most;
  - no file-size statistics are kept.
- `std::thread::hardware_concurrency()` is a system query. It is a constructor parameter.
- The constructor and `setup()` are merged into one constructor. The source leaves `exportedFrameCounter` uninitialised until `startExport`; the model starts it at 0.
- `int` widths are not modelled:
  - the frame counter is a `nat`, so its 32-bit overflow after 2^31 − 1 frames is not modelled;
  - frame numbers of 10^8 and more print with more than eight digits, as `%08i` does.
- `sprintf`'s 1024-byte buffer is not modelled. It only ever holds the printed number.
- OfxImageSequenceExport.Exporter.Valid does not include |tasks| ≤ maxThreads. `setMaxThreads` may lower the limit below the running count, and the source lets those tasks finish. `TaskQueue.UpdateTasksProperties` and `TaskQueue.Throttle` state that the bound is preserved whenever it held before.
- OfxImageSequenceExport.Exporter.End states the file name of the job it adds. The class invariant does not carry the names of earlier jobs in the session; the newer revision's `setExportDir` may change the folder mid-session anyway. `FileNames.FileNameInjective` gives distinct names within one folder.
- OfxImageSequenceExport.Exporter.UpdateTasks requires and ensures only the queue part of the invariant. It does not touch the limits or the session fields, so the rest of `Valid` carries over unchanged. `Update` is the same, and so are the older revision's methods.

## Findings

| source | as written | input that shows it | evidently intended | confidence | as-written member | corrected member |
|---|---|---|---|---|---|---|
| src/ImageSequenceExport.h:49-50 | the default `maxThreads` is `hardware_concurrency()` and `maxPending` is twice that, neither clamped. `hardware_concurrency()` returns 0 when the thread count cannot be determined | hardware thread count 0, one pending frame, no `setNumThreads` call: `updateTasks()` never starts a job, and every `update()` sleeps 10 × 5 ms while the queue only grows | a default worker limit of at least 1, as the newer revision has (src/ofxImageSequenceExport.h:58) | medium, not executed | ImageSequenceExport.UnknownConcurrencyNeverSpawns | OfxImageSequenceExport.DefaultLimitSpawns |
