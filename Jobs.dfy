/**
  One frame's unit of export work, the rule that decides which jobs a worker
  times, and the running average of those timings kept on the main thread.
 */
module Jobs {

  /** An image buffer read back from the frame buffer and owned by one job;
      its pixels are not modelled, only its identity. */
  datatype Pixels = Pixels(handle: nat)

  /** Sentinel for "no sample": the default of a job's runTime and of the
      engine's average export time. */
  const NotSampled: real := -1.0

  /** A job as end() enqueues it: the buffer, the frame number, the target
      file and the measured run time (NotSampled unless a worker timed it). */
  datatype ExportJob = ExportJob(pixels: Pixels, frameID: nat, fileName: string, runTime: real)

  /** No job in `jobs` has been timed: each still carries the default runTime. */
  predicate AllUnsampled(jobs: seq<ExportJob>) {
    forall j :: j in jobs ==> j.runTime == NotSampled
  }

  /** Appending an untimed job keeps a sequence of jobs untimed. */
  lemma AppendUnsampled(jobs: seq<ExportJob>, job: ExportJob)
    requires AllUnsampled(jobs) && job.runTime == NotSampled
    ensures AllUnsampled(jobs + [job])
  {
  }

  /** Every SamplePeriod-th frame is timed. */
  const SamplePeriod: nat := 30

  /** The weight ofLerp gives a new sample in the running average. */
  const Smoothing: real := 0.15

  predicate IsTimeSample(frameID: nat) {
    frameID % SamplePeriod == 0
  }

  /** Time samples recur every SamplePeriod frames, and frame 0 is the only
      one in the first period: a session times frames 0, 30, 60, ... */
  lemma TimeSamplesPeriodic(frameID: nat)
    ensures IsTimeSample(frameID) <==> IsTimeSample(frameID + SamplePeriod)
    ensures frameID < SamplePeriod ==> (IsTimeSample(frameID) <==> frameID == 0)
  {
  }

  /** The value a worker returns for `job` when the image write took
      `elapsed` seconds: the duration for a timed frame, otherwise the
      job's own runTime, untouched. */
  function RunJob(job: ExportJob, elapsed: real): real {
    if IsTimeSample(job.frameID) then elapsed else job.runTime
  }

  /** The average export time is either the sentinel or positive. */
  predicate AvgValid(avg: real) {
    avg == NotSampled || avg > 0.0
  }

  /** Folds one worker result into the average export time: non-positive
      results are ignored, the first positive one replaces the sentinel and
      later ones move the average towards the sample by the smoothing factor. */
  function RecordSample(avg: real, runTime: real): (r: real)
    ensures runTime <= 0.0 ==> r == avg
    ensures AvgValid(avg) ==> AvgValid(r)
    ensures runTime > 0.0 && avg < 0.0 ==> r == runTime
    ensures runTime > 0.0 && avg > 0.0 ==>
      (avg <= r <= runTime || runTime <= r <= avg)
  {
    if runTime > 0.0 then
      if avg < 0.0 then runTime else avg + (runTime - avg) * Smoothing
    else avg
  }

  /** A job that is not a time sample and still carries the default runTime
      leaves the average untouched, however long its write took. */
  lemma UntimedJobIgnored(job: ExportJob, elapsed: real, avg: real)
    requires job.runTime == NotSampled && !IsTimeSample(job.frameID)
    ensures RecordSample(avg, RunJob(job, elapsed)) == avg
  {
  }

  /** Only a timed frame whose write took a positive time can change the average. */
  lemma OnlyTimedJobsCount(job: ExportJob, elapsed: real, avg: real)
    requires job.runTime == NotSampled
    requires RecordSample(avg, RunJob(job, elapsed)) != avg
    ensures IsTimeSample(job.frameID) && elapsed > 0.0
  {
  }

  /** The average after `k` equal samples `sample`, starting from `avg`. */
  function RepeatSample(avg: real, sample: real, k: nat): real {
    if k == 0 then avg else RecordSample(RepeatSample(avg, sample, k - 1), sample)
  }

  function Power(b: real, k: nat): real {
    if k == 0 then 1.0 else b * Power(b, k - 1)
  }

  /** Fed a constant positive sample, the average approaches it geometrically:
      its distance to the sample shrinks by the factor 0.85 per sample. */
  lemma {:induction false} ConstantSampleConverges(avg: real, sample: real, k: nat)
    requires avg > 0.0 && sample > 0.0
    ensures RepeatSample(avg, sample, k) > 0.0
    ensures RepeatSample(avg, sample, k) - sample == Power(1.0 - Smoothing, k) * (avg - sample)
  {
    if k > 0 {
      ConstantSampleConverges(avg, sample, k - 1);
      var a := RepeatSample(avg, sample, k - 1);
      assert RepeatSample(avg, sample, k) - sample == (a - sample) * 0.85;
      assert Power(1.0 - Smoothing, k) == 0.85 * Power(1.0 - Smoothing, k - 1);
    }
  }

  /** The shrink factor stays in (0, 1], so the distance never grows. */
  lemma {:induction false} PowerBounds(k: nat)
    ensures 0.0 < Power(1.0 - Smoothing, k) <= 1.0
    ensures k > 0 ==> Power(1.0 - Smoothing, k) < 1.0
  {
    if k > 0 {
      PowerBounds(k - 1);
    }
  }

  /** The shrink factor falls at least harmonically: 0.85^k · (1 + 0.15·k) <= 1. */
  lemma {:induction false} PowerHarmonicBound(k: nat)
    ensures Power(1.0 - Smoothing, k) * (1.0 + Smoothing * k as real) <= 1.0
  {
    if k > 0 {
      PowerHarmonicBound(k - 1);
      PowerBounds(k - 1);
      var p := Power(1.0 - Smoothing, k - 1);
      var x := (k - 1) as real;
      assert Power(1.0 - Smoothing, k) == 0.85 * p;
      assert 0.85 * (1.0 + 0.15 * (x + 1.0)) == (1.0 + 0.15 * x) - 0.0225 * (x + 1.0);
      assert p * (0.0225 * (x + 1.0)) >= 0.0;
      assert (0.85 * p) * (1.0 + 0.15 * (x + 1.0)) == p * (1.0 + 0.15 * x) - p * (0.0225 * (x + 1.0));
    }
  }

  function Abs(x: real): real {
    if x < 0.0 then -x else x
  }

  /** Fed a constant positive sample k times, the average lies within
      |avg - sample| / (1 + 0.15·k) of it: for any tolerance, enough samples
      bring the average that close. */
  lemma ConstantSampleWithin(avg: real, sample: real, k: nat)
    requires avg > 0.0 && sample > 0.0
    ensures Abs(RepeatSample(avg, sample, k) - sample) * (1.0 + Smoothing * k as real) <= Abs(avg - sample)
  {
    ConstantSampleConverges(avg, sample, k);
    PowerBounds(k);
    PowerHarmonicBound(k);
    var p := Power(1.0 - Smoothing, k);
    var h := 1.0 + Smoothing * k as real;
    assert Abs(p * (avg - sample)) == p * Abs(avg - sample);
    assert (p * Abs(avg - sample)) * h == (p * h) * Abs(avg - sample);
    ScaleDown(p * h, Abs(avg - sample));
  }

  lemma ScaleDown(c: real, a: real)
    requires c <= 1.0 && 0.0 <= a
    ensures c * a <= a
  {
    assert a - c * a == (1.0 - c) * a;
  }
}
