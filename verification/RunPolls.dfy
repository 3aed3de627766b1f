/** Polls of Databricks job runs: a watermark per job, and data points for the runs that are new. */
module RunPolls {
  import opened Strings
  import opened RunTracking

  /** What a poll sees: the jobs it asks about, in order, and the state of the API for each. */
  datatype Poll = Poll(jobs: seq<int>, servers: int -> Server)

  datatype Point = JobDuration(jobId: int, value: int) | TaskDuration(jobId: int, key: string, value: int)

  function TaskPoints(jobId: int, tasks: seq<Task>): seq<Point> {
    if tasks == [] then [] else [TaskDuration(jobId, tasks[0].key, tasks[0].duration)] + TaskPoints(jobId, tasks[1..])
  }

  /** What is recorded of a run: nothing if it was skipped. */
  function RunPoints(jobId: int, run: JobRun): seq<Point> {
    if run.skipped then [] else [JobDuration(jobId, run.duration)] + TaskPoints(jobId, run.tasks)
  }

  function AllPoints(jobId: int, runs: seq<JobRun>): seq<Point> {
    if runs == [] then [] else RunPoints(jobId, runs[0]) + AllPoints(jobId, runs[1..])
  }

  /** The last start time known of each job, the data points recorded and the runs they were recorded for. */
  datatype Tracker = Tracker(start: map<int, int>, points: seq<Point>, delivered: seq<JobRun>)

  const NEW_TRACKER := Tracker(map[], [], [])

  function PrevStart(start: map<int, int>, jobId: int): int {
    if jobId in start then start[jobId] else 0
  }

  /** The first runs ever seen of a job are taken to be old; later on, those after the watermark are new. */
  function NewRuns(start: map<int, int>, runs: seq<JobRun>): seq<JobRun> {
    if runs == [] then [] else
      var prev := PrevStart(start, runs[0].jobId);
      if prev == 0 then [] else NewSince(runs, prev)
  }

  function Watermarks(start: map<int, int>, runs: seq<JobRun>): map<int, int> {
    if runs == [] then start else start[runs[0].jobId := runs[0].startTime]
  }

  /** One job of one poll. */
  function VisitJob(t: Tracker, limit: nat, jobId: int, server: Server): Option<Tracker>
    requires limit > 0
  {
    var runs := Fetch(server, limit, PrevStart(t.start, jobId), 0, 0);
    if runs.None? then None else
      var added := NewRuns(t.start, runs.value);
      Some(Tracker(Watermarks(t.start, runs.value), t.points + AllPoints(jobId, added), t.delivered + added))
  }

  /** One poll: jobs in order, abandoned at the first failure. */
  function PollOnce(t: Tracker, limit: nat, jobs: seq<int>, servers: int -> Server): Tracker
    requires limit > 0
    decreases |jobs|
  {
    if jobs == [] then t else
      var visited := VisitJob(t, limit, jobs[0], servers(jobs[0]));
      if visited.None? then t else PollOnce(visited.value, limit, jobs[1..], servers)
  }

  predicate PollSucceeds(t: Tracker, limit: nat, jobs: seq<int>, servers: int -> Server)
    requires limit > 0
    decreases |jobs|
  {
    jobs == [] || (var visited := VisitJob(t, limit, jobs[0], servers(jobs[0]));
                   visited.Some? && PollSucceeds(visited.value, limit, jobs[1..], servers))
  }

  function PollAll(t: Tracker, limit: nat, polls: seq<Poll>): Tracker
    requires limit > 0
    decreases |polls|
  {
    if polls == [] then t else
      var last := polls[|polls| - 1];
      PollOnce(PollAll(t, limit, polls[..|polls| - 1]), limit, last.jobs, last.servers)
  }

  // ---------- the code ----------

  class RunMetricsProvider {
    const limit: nat
    var startTimesByJobId: map<int, int>
    var recorded: seq<Point>
    ghost var tracker: Tracker

    constructor (limit: nat)
      requires limit > 0
      ensures Valid() && this.limit == limit && tracker == NEW_TRACKER
    {
      this.limit := limit;
      startTimesByJobId := map[];
      recorded := [];
      tracker := NEW_TRACKER;
    }

    ghost predicate Valid()
      reads this
    {
      limit > 0 && tracker.start == startTimesByJobId && tracker.points == recorded
    }

    method ExtractNewRuns(runs: seq<JobRun>) returns (newRuns: seq<JobRun>)
      modifies this`startTimesByJobId
      ensures newRuns == NewRuns(old(startTimesByJobId), runs)
      ensures startTimesByJobId == Watermarks(old(startTimesByJobId), runs)
    {
      if runs == [] { return []; }
      var latestRun := runs[0];
      var jobId := latestRun.jobId;
      var prev := if jobId in startTimesByJobId then startTimesByJobId[jobId] else 0;
      startTimesByJobId := startTimesByJobId[jobId := latestRun.startTime];
      if prev == 0 { return []; }
      newRuns := CollectNewRuns(runs, prev);
    }

    method RecordRun(jobId: int, run: JobRun)
      modifies this`recorded
      ensures recorded == old(recorded) + RunPoints(jobId, run)
    {
      if run.skipped { return; }
      ghost var goal := recorded + RunPoints(jobId, run);
      recorded := recorded + [JobDuration(jobId, run.duration)];
      assert run.tasks[0..] == run.tasks;
      for k := 0 to |run.tasks|
        invariant recorded + TaskPoints(jobId, run.tasks[k..]) == goal
      {
        assert run.tasks[k..][1..] == run.tasks[k + 1..];
        recorded := recorded + [TaskDuration(jobId, run.tasks[k].key, run.tasks[k].duration)];
      }
    }

    method RecordRuns(jobId: int, runs: seq<JobRun>)
      modifies this`recorded
      ensures recorded == old(recorded) + AllPoints(jobId, runs)
    {
      hide RunPoints;
      assert runs[0..] == runs;
      for i := 0 to |runs|
        invariant recorded + AllPoints(jobId, runs[i..]) == old(recorded) + AllPoints(jobId, runs)
      {
        assert runs[i..][1..] == runs[i + 1..];
        RecordRun(jobId, runs[i]);
      }
    }

    method AddSingleJobRunMetrics(jobId: int, server: Server) returns (ok: bool)
      requires Valid()
      modifies this
      ensures Valid()
      ensures ok == VisitJob(old(tracker), limit, jobId, server).Some?
      ensures tracker == if ok then VisitJob(old(tracker), limit, jobId, server).value else old(tracker)
    {
      var startTime := if jobId in startTimesByJobId then startTimesByJobId[jobId] else 0;
      var runs := CompletedJobRuns(server, limit, startTime);
      if runs.None? { return false; }
      tracker := VisitJob(tracker, limit, jobId, server).value;
      var newRuns := ExtractNewRuns(runs.value);
      RecordRuns(jobId, newRuns);
      return true;
    }

    method AddMultiJobRunMetrics(jobIds: seq<int>, servers: int -> Server) returns (ok: bool)
      requires Valid()
      modifies this
      ensures Valid() && tracker == PollOnce(old(tracker), limit, jobIds, servers)
      ensures ok == PollSucceeds(old(tracker), limit, jobIds, servers)
    {
      hide VisitJob;
      assert jobIds[0..] == jobIds;
      for i := 0 to |jobIds|
        invariant Valid()
        invariant PollOnce(tracker, limit, jobIds[i..], servers) == PollOnce(old(tracker), limit, jobIds, servers)
        invariant PollSucceeds(tracker, limit, jobIds[i..], servers) ==
          PollSucceeds(old(tracker), limit, jobIds, servers)
      {
        assert jobIds[i..][1..] == jobIds[i + 1..];
        ok := AddSingleJobRunMetrics(jobIds[i], servers(jobIds[i]));
        if !ok { return; }
      }
      ok := true;
    }

    /** Any number of polls, whatever each of them meets, ends in the state the whole run specifies. */
    method Poll(polls: seq<Poll>)
      requires Valid()
      modifies this
      ensures Valid() && tracker == PollAll(old(tracker), limit, polls)
    {
      hide PollOnce;
      for i := 0 to |polls|
        invariant Valid() && tracker == PollAll(old(tracker), limit, polls[..i])
      {
        assert polls[..i + 1][..i] == polls[..i];
        var _ := AddMultiJobRunMetrics(polls[i].jobs, polls[i].servers);
      }
      assert polls[..|polls|] == polls;
    }
  }
}
