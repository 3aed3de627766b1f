/** What is recorded of the Databricks runs delivered: a job's data points, read off its runs. */
module RunRecords {
  import opened Strings
  import opened RunTracking
  import opened RunPolls
  import opened RunDelivery

  // ---------- projections ----------

  /** The job durations recorded for a job, in order. */
  function JobValues(points: seq<Point>, jobId: int): seq<int> {
    if points == [] then [] else
      (if points[0].JobDuration? && points[0].jobId == jobId then [points[0].value] else []) +
      JobValues(points[1..], jobId)
  }

  /** Task durations recorded for a job, each with its key, in order. */
  function TaskValues(points: seq<Point>, jobId: int): seq<(string, int)> {
    if points == [] then [] else
      (if points[0].TaskDuration? && points[0].jobId == jobId then [(points[0].key, points[0].value)] else []) +
      TaskValues(points[1..], jobId)
  }

  function NotSkipped(runs: seq<JobRun>): seq<JobRun> {
    if runs == [] then [] else (if runs[0].skipped then [] else [runs[0]]) + NotSkipped(runs[1..])
  }

  function Durations(runs: seq<JobRun>): (d: seq<int>)
    ensures |d| == |runs| && forall i :: 0 <= i < |runs| ==> d[i] == runs[i].duration
  {
    if runs == [] then [] else [runs[0].duration] + Durations(runs[1..])
  }

  function KeysAndDurations(tasks: seq<Task>): (d: seq<(string, int)>)
    ensures |d| == |tasks| && forall i :: 0 <= i < |tasks| ==> d[i] == (tasks[i].key, tasks[i].duration)
  {
    if tasks == [] then [] else [(tasks[0].key, tasks[0].duration)] + KeysAndDurations(tasks[1..])
  }

  function AllTasks(runs: seq<JobRun>): seq<(string, int)> {
    if runs == [] then [] else KeysAndDurations(runs[0].tasks) + AllTasks(runs[1..])
  }

  function TaskCount(runs: seq<JobRun>): nat {
    if runs == [] then 0 else |runs[0].tasks| + TaskCount(runs[1..])
  }

  // ---------- one run ----------

  lemma {:induction false} JobValuesAppend(a: seq<Point>, b: seq<Point>, jobId: int)
    ensures JobValues(a + b, jobId) == JobValues(a, jobId) + JobValues(b, jobId)
  {
    if a == [] {
      assert a + b == b;
    } else {
      assert (a + b)[1..] == a[1..] + b;
      JobValuesAppend(a[1..], b, jobId);
    }
  }

  lemma {:induction false} TaskValuesAppend(a: seq<Point>, b: seq<Point>, jobId: int)
    ensures TaskValues(a + b, jobId) == TaskValues(a, jobId) + TaskValues(b, jobId)
  {
    if a == [] {
      assert a + b == b;
    } else {
      assert (a + b)[1..] == a[1..] + b;
      TaskValuesAppend(a[1..], b, jobId);
    }
  }

  lemma {:induction false} TaskPointsAre(tasks: seq<Task>, own: int, jobId: int)
    ensures JobValues(TaskPoints(own, tasks), jobId) == []
    ensures TaskValues(TaskPoints(own, tasks), jobId) == if own == jobId then KeysAndDurations(tasks) else []
  {
    if tasks != [] { TaskPointsAre(tasks[1..], own, jobId); }
  }

  /** A run that was not skipped leaves its duration and those of its tasks, under its job; any other leaves nothing. */
  lemma RunPointsAre(own: int, run: JobRun, jobId: int)
    ensures JobValues(RunPoints(own, run), jobId) == if own == jobId && !run.skipped then [run.duration] else []
    ensures TaskValues(RunPoints(own, run), jobId) ==
      if own == jobId && !run.skipped then KeysAndDurations(run.tasks) else []
  {
    hide TaskPoints;
    if !run.skipped {
      var first := [JobDuration(own, run.duration)];
      TaskPointsAre(run.tasks, own, jobId);
      JobValuesAppend(first, TaskPoints(own, run.tasks), jobId);
      TaskValuesAppend(first, TaskPoints(own, run.tasks), jobId);
      assert first[1..] == [];
    }
  }

  // ---------- all of them ----------

  lemma {:induction false} PointsAre(delivered: seq<JobRun>, jobId: int)
    ensures JobValues(PointsOf(delivered), jobId) == Durations(NotSkipped(Of(delivered, jobId)))
    ensures TaskValues(PointsOf(delivered), jobId) == AllTasks(NotSkipped(Of(delivered, jobId)))
  {
    hide RunPoints;
    if delivered != [] {
      var run, rest := delivered[0], delivered[1..];
      PointsAre(rest, jobId);
      RunPointsAre(run.jobId, run, jobId);
      JobValuesAppend(RunPoints(run.jobId, run), PointsOf(rest), jobId);
      TaskValuesAppend(RunPoints(run.jobId, run), PointsOf(rest), jobId);
      FirstOf(delivered, jobId);
    }
  }

  lemma FirstOf(delivered: seq<JobRun>, jobId: int)
    requires delivered != []
    ensures var kept := NotSkipped(Of(delivered[1..], jobId)); var run := delivered[0];
      NotSkipped(Of(delivered, jobId)) == if run.jobId == jobId && !run.skipped then [run] + kept else kept
  {
    var own := Of(delivered, jobId);
    if delivered[0].jobId == jobId {
      assert own[1..] == Of(delivered[1..], jobId);
    } else {
      assert own == Of(delivered[1..], jobId);
    }
  }

  lemma {:induction false} CountsTasks(runs: seq<JobRun>)
    ensures |AllTasks(runs)| == TaskCount(runs)
  {
    if runs != [] { CountsTasks(runs[1..]); }
  }

  /** After any polls, whatever fails: the job durations recorded for a job are those of its delivered runs that were
      not skipped, in order; task durations are those of these runs' tasks, in order, each with its key, and as
      many. */
  lemma RecordedExactly(limit: nat, polls: seq<Poll>, jobId: int)
    requires limit > 0 && AllSound(polls)
    ensures var t := PollAll(NEW_TRACKER, limit, polls);
      var runs := NotSkipped(Of(t.delivered, jobId));
      && JobValues(t.points, jobId) == Durations(runs)
      && TaskValues(t.points, jobId) == AllTasks(runs) && |TaskValues(t.points, jobId)| == TaskCount(runs)
  {
    hide PollAll, Of, PointsOf, NotSkipped, JobValues, TaskValues, AllTasks;
    var t := PollAll(NEW_TRACKER, limit, polls);
    DeliveredPerJob(limit, polls, |polls|, jobId);
    assert polls[..|polls|] == polls;
    JobOkFacts(t, jobId, Seen(polls, Hits(limit, polls, |polls|, jobId), jobId));
    PointsAre(t.delivered, jobId);
    CountsTasks(NotSkipped(Of(t.delivered, jobId)));
  }
}
