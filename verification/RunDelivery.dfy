/** Which Databricks job runs are delivered over whole sequences of polls, failed ones included. */
module RunDelivery {
  import opened Strings
  import opened RunTracking
  import opened RunPolls

  // ---------- what the API answers ----------

  ghost predicate OwnHistory(jobId: int, h: seq<JobRun>) {
    Sorted(h) && forall i :: 0 <= i < |h| ==> h[i].jobId == jobId
  }

  /** Every job's history is sorted and holds its own runs. */
  ghost predicate Sound(servers: int -> Server) {
    forall j :: OwnHistory(j, servers(j).history)
  }

  ghost predicate AllSound(polls: seq<Poll>) {
    forall k :: 0 <= k < |polls| ==> Sound(polls[k].servers)
  }

  ghost function History(polls: seq<Poll>, k: nat, jobId: int): seq<JobRun>
    requires k < |polls|
  {
    polls[k].servers(jobId).history
  }

  // ---------- one visit, one poll ----------

  /** The runs of one job among those delivered. */
  function Of(delivered: seq<JobRun>, jobId: int): seq<JobRun> {
    if delivered == [] then [] else
      (if delivered[0].jobId == jobId then [delivered[0]] else []) + Of(delivered[1..], jobId)
  }

  /** The points of every run delivered, each under its own job. */
  function PointsOf(delivered: seq<JobRun>): seq<Point> {
    if delivered == [] then [] else RunPoints(delivered[0].jobId, delivered[0]) + PointsOf(delivered[1..])
  }

  /** Watermarks are positive, and the points are those of the runs delivered. */
  ghost predicate TrackerOk(t: Tracker) {
    (forall j :: j in t.start ==> t.start[j] > 0) && t.points == PointsOf(t.delivered)
  }

  lemma {:induction false} OfAppend(a: seq<JobRun>, b: seq<JobRun>, jobId: int)
    ensures Of(a + b, jobId) == Of(a, jobId) + Of(b, jobId)
  {
    if a == [] {
      assert a + b == b;
    } else {
      assert (a + b)[1..] == a[1..] + b;
      OfAppend(a[1..], b, jobId);
    }
  }

  lemma {:induction false} OfOne(runs: seq<JobRun>, jobId: int, other: int)
    requires forall i :: 0 <= i < |runs| ==> runs[i].jobId == jobId
    ensures Of(runs, other) == if other == jobId then runs else []
  {
    if runs != [] { OfOne(runs[1..], jobId, other); }
  }

  lemma {:induction false} PointsAppend(a: seq<JobRun>, b: seq<JobRun>)
    ensures PointsOf(a + b) == PointsOf(a) + PointsOf(b)
  {
    if a == [] {
      assert a + b == b;
    } else {
      assert (a + b)[1..] == a[1..] + b;
      PointsAppend(a[1..], b);
    }
  }

  lemma {:induction false} PointsOne(runs: seq<JobRun>, jobId: int)
    requires forall i :: 0 <= i < |runs| ==> runs[i].jobId == jobId
    ensures AllPoints(jobId, runs) == PointsOf(runs)
  {
    if runs != [] { PointsOne(runs[1..], jobId); }
  }

  /** What a fetch finds new in a history: nothing the first time, then what lies after the watermark. */
  function NewIn(start: map<int, int>, jobId: int, history: seq<JobRun>): seq<JobRun> {
    if jobId in start then NewSince(history, start[jobId]) else []
  }

  /** What a successful fetch returns starts with the latest run and has everything new in it. */
  lemma FetchedNew(start: map<int, int>, limit: nat, jobId: int, server: Server, runs: seq<JobRun>)
    requires limit > 0 && OwnHistory(jobId, server.history) && (jobId in start ==> start[jobId] > 0)
    requires Fetch(server, limit, PrevStart(start, jobId), 0, 0) == Some(runs)
    ensures runs == [] <==> server.history == []
    ensures runs != [] ==> runs[0] == server.history[0] && runs[0].jobId == jobId
    ensures NewRuns(start, runs) == NewIn(start, jobId, server.history)
  {
    hide Fetch;
    EarlyStopRefinesFull(server, limit, PrevStart(start, jobId));
  }

  lemma NewAreOwn(start: map<int, int>, jobId: int, history: seq<JobRun>)
    requires forall i :: 0 <= i < |history| ==> history[i].jobId == jobId
    ensures var added := NewIn(start, jobId, history); forall i :: 0 <= i < |added| ==> added[i].jobId == jobId
  {
    var added := NewIn(start, jobId, history);
    forall i | 0 <= i < |added| ensures added[i].jobId == jobId {
      assert added[i] in NewSince(history, start[jobId]);
      NewSinceIs(history, start[jobId], added[i]);
    }
  }

  /** A successful visit moves the job's watermark to its latest run and delivers what is new, and nothing else. */
  lemma VisitDelivers(t: Tracker, limit: nat, jobId: int, server: Server, other: int)
    requires limit > 0 && TrackerOk(t) && OwnHistory(jobId, server.history)
    requires VisitJob(t, limit, jobId, server).Some?
    ensures var t', h := VisitJob(t, limit, jobId, server).value, server.history;
      && TrackerOk(t') && t'.start == (if h == [] then t.start else t.start[jobId := h[0].startTime])
      && Of(t'.delivered, other) == Of(t.delivered, other) + if other == jobId then NewIn(t.start, jobId, h) else []
  {
    hide Fetch, NewRuns, NewIn, PointsOf, AllPoints, Of;
    var runs := Fetch(server, limit, PrevStart(t.start, jobId), 0, 0).value;
    var added := NewIn(t.start, jobId, server.history);
    FetchedNew(t.start, limit, jobId, server, runs);
    NewAreOwn(t.start, jobId, server.history);
    OfOne(added, jobId, other);
    OfAppend(t.delivered, added, other);
    PointsOne(added, jobId);
    PointsAppend(t.delivered, added);
  }

  /** In a poll that starts from `t`, the job is asked about, answered, and has runs. */
  predicate Reaches(t: Tracker, limit: nat, jobs: seq<int>, servers: int -> Server, jobId: int)
    requires limit > 0
    decreases |jobs|
  {
    jobs != [] && (
      var visited := VisitJob(t, limit, jobs[0], servers(jobs[0]));
      visited.Some? && ((jobs[0] == jobId && servers(jobId).history != []) ||
                        Reaches(visited.value, limit, jobs[1..], servers, jobId)))
  }

  lemma NothingLater(h: seq<JobRun>)
    requires h != [] && Sorted(h)
    ensures NewSince(h, h[0].startTime) == []
  {
    NothingNew(h, h[0].startTime);
  }

  /** What a whole poll does for one job, however often it is asked about and whatever else the poll does. */
  ghost predicate PollEffect(t: Tracker, t': Tracker, jobId: int, h: seq<JobRun>, reached: bool) {
    if reached then
      && h != [] && jobId in t'.start && t'.start[jobId] == h[0].startTime
      && Of(t'.delivered, jobId) == Of(t.delivered, jobId) + NewIn(t.start, jobId, h)
    else
      && (jobId in t'.start <==> jobId in t.start) && PrevStart(t'.start, jobId) == PrevStart(t.start, jobId)
      && Of(t'.delivered, jobId) == Of(t.delivered, jobId)
  }

  lemma {:induction false} PollDelivers(t: Tracker, limit: nat, jobs: seq<int>, servers: int -> Server, jobId: int)
    requires limit > 0 && TrackerOk(t) && Sound(servers)
    ensures var t' := PollOnce(t, limit, jobs, servers);
      TrackerOk(t') &&
      PollEffect(t, t', jobId, servers(jobId).history, Reaches(t, limit, jobs, servers, jobId))
    decreases |jobs|
  {
    hide VisitJob, OwnHistory, NewSince, Of, TrackerOk;
    if jobs != [] && VisitJob(t, limit, jobs[0], servers(jobs[0])).Some? {
      var t1 := VisitJob(t, limit, jobs[0], servers(jobs[0])).value;
      VisitDelivers(t, limit, jobs[0], servers(jobs[0]), jobId);
      PollDelivers(t1, limit, jobs[1..], servers, jobId);
      SecondVisit(t.start, jobId, servers(jobId).history);
      SecondVisit(t1.start, jobId, servers(jobId).history);
    }
  }

  /** A history already seen has nothing new. */
  lemma SecondVisit(start: map<int, int>, jobId: int, h: seq<JobRun>)
    requires OwnHistory(jobId, h)
    ensures h == [] || (jobId in start && start[jobId] == h[0].startTime) ==> NewIn(start, jobId, h) == []
  {
    if h != [] { NothingLater(h); }
  }

  // ---------- whole runs ----------

  /** Poll `k` reaches the job: it is asked about, answered, and has runs. */
  predicate Reached(limit: nat, polls: seq<Poll>, k: nat, jobId: int)
    requires limit > 0 && k < |polls|
  {
    Reaches(PollAll(NEW_TRACKER, limit, polls[..k]), limit, polls[k].jobs, polls[k].servers, jobId)
  }

  /** The polls before `n` that reach the job. */
  function Hits(limit: nat, polls: seq<Poll>, n: nat, jobId: int): (hits: seq<nat>)
    requires limit > 0 && n <= |polls|
    ensures forall i :: 0 <= i < |hits| ==> hits[i] < n
  {
    if n == 0 then [] else
      Hits(limit, polls, n - 1, jobId) + if Reached(limit, polls, n - 1, jobId) then [n - 1] else []
  }

  lemma {:induction false} HitsAre(limit: nat, polls: seq<Poll>, n: nat, jobId: int)
    requires limit > 0 && n <= |polls|
    ensures var hits := Hits(limit, polls, n, jobId);
      && (forall k :: k in hits <==> 0 <= k < n && Reached(limit, polls, k, jobId))
      && (forall i, j :: 0 <= i < j < |hits| ==> hits[i] < hits[j])
  {
    hide Reached;
    if n > 0 { HitsAre(limit, polls, n - 1, jobId); }
  }

  /** The job's histories at those polls. */
  function Seen(polls: seq<Poll>, hits: seq<nat>, jobId: int): (hs: seq<seq<JobRun>>)
    requires forall i :: 0 <= i < |hits| ==> hits[i] < |polls|
    ensures |hs| == |hits| && forall i :: 0 <= i < |hs| ==> hs[i] == polls[hits[i]].servers(jobId).history
  {
    if hits == [] then [] else
      Seen(polls, hits[..|hits| - 1], jobId) + [polls[hits[|hits| - 1]].servers(jobId).history]
  }

  ghost predicate NoneEmpty(hs: seq<seq<JobRun>>) {
    forall i :: 0 <= i < |hs| ==> hs[i] != []
  }

  /** What should be delivered of a job whose histories were seen in this order: nothing of the first, and of each later
      one the runs that start after the latest run of the one before. */
  ghost function DeliveredOf(hs: seq<seq<JobRun>>): seq<JobRun>
    requires NoneEmpty(hs)
  {
    if |hs| <= 1 then [] else
      DeliveredOf(hs[..|hs| - 1]) + NewSince(hs[|hs| - 1], hs[|hs| - 2][0].startTime)
  }

  /** The tracker after some polls, as far as one job goes. */
  ghost predicate JobOk(t: Tracker, jobId: int, hs: seq<seq<JobRun>>) {
    && NoneEmpty(hs) && TrackerOk(t) && (jobId in t.start <==> hs != [])
    && (hs != [] ==> t.start[jobId] == hs[|hs| - 1][0].startTime)
    && Of(t.delivered, jobId) == DeliveredOf(hs)
  }

  lemma JobStep(t: Tracker, t': Tracker, jobId: int, hs: seq<seq<JobRun>>, h: seq<JobRun>, reached: bool)
    requires JobOk(t, jobId, hs) && TrackerOk(t') && PollEffect(t, t', jobId, h, reached)
    ensures JobOk(t', jobId, if reached then hs + [h] else hs)
  {
    hide TrackerOk, Of, NewSince;
    if reached {
      var more := hs + [h];
      assert more[..|hs|] == hs;
      assert |hs| > 0 ==> more[|more| - 2] == hs[|hs| - 1];
    }
  }

  lemma SeenMore(polls: seq<Poll>, hits: seq<nat>, n: nat, jobId: int)
    requires n < |polls| && forall i :: 0 <= i < |hits| ==> hits[i] < n
    ensures Seen(polls, hits + [n], jobId) == Seen(polls, hits, jobId) + [polls[n].servers(jobId).history]
  {
    assert (hits + [n])[..|hits|] == hits;
  }

  /** Every job is delivered what its own histories say, at exactly the polls that reach it, whatever fails and whatever
      happens to other jobs. */
  lemma {:induction false} DeliveredPerJob(limit: nat, polls: seq<Poll>, n: nat, jobId: int)
    requires limit > 0 && n <= |polls| && AllSound(polls)
    ensures JobOk(PollAll(NEW_TRACKER, limit, polls[..n]), jobId, Seen(polls, Hits(limit, polls, n, jobId), jobId))
  {
    hide PollOnce, Reaches, PollEffect, JobOk, Sound, Seen;
    if n == 0 {
      AtFirst(jobId);
      assert Seen(polls, [], jobId) == [];
    } else {
      var t, hits := PollAll(NEW_TRACKER, limit, polls[..n - 1]), Hits(limit, polls, n - 1, jobId);
      DeliveredPerJob(limit, polls, n - 1, jobId);
      assert polls[..n][..n - 1] == polls[..n - 1];
      var poll := polls[n - 1];
      assert TrackerOk(t) by { JobOkFacts(t, jobId, Seen(polls, hits, jobId)); }
      PollDelivers(t, limit, poll.jobs, poll.servers, jobId);
      JobStep(t, PollOnce(t, limit, poll.jobs, poll.servers), jobId, Seen(polls, hits, jobId),
              poll.servers(jobId).history, Reached(limit, polls, n - 1, jobId));
      SeenMore(polls, hits, n - 1, jobId);
      assert hits + [] == hits;
    }
  }

  lemma AtFirst(jobId: int)
    ensures JobOk(NEW_TRACKER, jobId, [])
  {
  }

  lemma JobOkFacts(t: Tracker, jobId: int, hs: seq<seq<JobRun>>)
    requires JobOk(t, jobId, hs)
    ensures TrackerOk(t) && NoneEmpty(hs) && Of(t.delivered, jobId) == DeliveredOf(hs)
  {
  }

  /** A job asked about at place `i` is reached if none of the requests up to then fails and it has runs. */
  lemma {:induction false} ReachedIfAnswered(t: Tracker, limit: nat, jobs: seq<int>, servers: int -> Server, i: nat)
    requires limit > 0 && i < |jobs| && servers(jobs[i]).history != []
    requires forall m, k :: 0 <= m <= i ==> !servers(jobs[m]).fails(k)
    ensures Reaches(t, limit, jobs, servers, jobs[i])
    decreases |jobs|
  {
    hide Fetch, NewRuns;
    assert forall k :: !servers(jobs[0]).fails(k);
    FetchSucceeds(servers(jobs[0]), limit, PrevStart(t.start, jobs[0]), 0, 0);
    if i > 0 {
      var t1 := VisitJob(t, limit, jobs[0], servers(jobs[0])).value;
      forall m, k | 0 <= m <= i - 1 ensures !servers(jobs[1..][m]).fails(k) { assert jobs[1..][m] == jobs[m + 1]; }
      ReachedIfAnswered(t1, limit, jobs[1..], servers, i - 1);
    }
  }

  // ---------- histories that grow at the front ----------

  /** `h'` is `h` with later runs added at the front. */
  ghost predicate Grows(h: seq<JobRun>, h': seq<JobRun>) {
    && |h| <= |h'| && h'[|h'| - |h|..] == h
    && (h != [] ==> forall i :: 0 <= i < |h'| - |h| ==> h'[i].startTime > h[0].startTime)
  }

  ghost predicate AllGrow(polls: seq<Poll>, jobId: int) {
    forall k, l :: 0 <= k < l < |polls| ==> Grows(polls[k].servers(jobId).history, polls[l].servers(jobId).history)
  }

  lemma {:induction false} ReverseAppend(a: seq<JobRun>, b: seq<JobRun>)
    ensures Reverse(a + b) == Reverse(b) + Reverse(a)
  {
    if a == [] {
      assert a + b == b;
    } else {
      assert (a + b)[1..] == a[1..] + b;
      ReverseAppend(a[1..], b);
    }
  }

  /** Exactly when runs added at the front are all new: when they start later than the latest known. */
  lemma AddedAreNewIff(added: seq<JobRun>, h: seq<JobRun>)
    requires h != [] && Sorted(added + h)
    ensures NewSince(added + h, h[0].startTime) == Reverse(added) <==>
      forall i :: 0 <= i < |added| ==> added[i].startTime > h[0].startTime
  {
    hide Reverse, NewSince;
    var prev := h[0].startTime;
    NewSinceAppend(added, h, prev);
    assert NewSince(h, prev) == [] by {
      assert forall i :: 0 <= i < |h| ==> h[i] == (added + h)[|added| + i];
      NothingNew(h, prev);
    }
    if NewSince(added, prev) == Reverse(added) {
      forall i | 0 <= i < |added| ensures added[i].startTime > prev {
        assert Reverse(added)[|added| - 1 - i] == added[i];
        NewSinceIs(added, prev, added[i]);
      }
    } else if forall i :: 0 <= i < |added| ==> added[i].startTime > prev {
      AllNew(added, prev);
    }
  }

  /** What a history has in front of an earlier one, oldest first. */
  function Added(h: seq<JobRun>, h': seq<JobRun>): seq<JobRun>
    requires |h| <= |h'|
  {
    Reverse(h'[..|h'| - |h|])
  }

  lemma Telescopes(first: seq<JobRun>, h: seq<JobRun>, h': seq<JobRun>)
    requires |first| <= |h| && Grows(h, h')
    ensures Added(first, h) + Added(h, h') == Added(first, h')
  {
    hide Reverse;
    var a, b := h'[..|h'| - |h|], h[..|h| - |first|];
    assert h' == a + h;
    assert h'[..|h'| - |first|] == a + b;
    ReverseAppend(a, b);
  }

  /** What lies after the watermark in a grown history is what was added to it. */
  lemma NewIsAdded(h: seq<JobRun>, h': seq<JobRun>)
    requires h != [] && Grows(h, h') && Sorted(h')
    ensures NewSince(h', h[0].startTime) == Added(h, h')
  {
    hide NewSince, Reverse;
    var added := h'[..|h'| - |h|];
    assert h' == added + h;
    AddedAreNewIff(added, h);
  }

  /** The histories seen, each sorted, each grown from the one before. */
  ghost predicate Growing(hs: seq<seq<JobRun>>) {
    && NoneEmpty(hs) && (forall i :: 0 <= i < |hs| ==> Sorted(hs[i]))
    && (forall i, j :: 0 <= i < j < |hs| ==> Grows(hs[i], hs[j]))
  }

  lemma GrowingInit(hs: seq<seq<JobRun>>)
    requires |hs| > 1 && Growing(hs)
    ensures Growing(hs[..|hs| - 1]) && Grows(hs[|hs| - 2], hs[|hs| - 1]) && Sorted(hs[|hs| - 1]) && hs[|hs| - 2] != []
  {
    hide Sorted, Grows;
  }

  lemma {:induction false} GrowingDelivers(hs: seq<seq<JobRun>>)
    requires hs != [] && Growing(hs)
    ensures |hs[0]| <= |hs[|hs| - 1]| && DeliveredOf(hs) == Added(hs[0], hs[|hs| - 1])
  {
    hide Sorted, Growing, Added, NewSince;
    if |hs| > 1 {
      var init, h, h' := hs[..|hs| - 1], hs[|hs| - 2], hs[|hs| - 1];
      GrowingInit(hs);
      GrowingDelivers(init);
      NewIsAdded(h, h');
      Telescopes(hs[0], h, h');
    } else {
      assert Added(hs[0], hs[0]) == [] by { NothingAdded(hs[0]); }
    }
  }

  lemma NothingAdded(h: seq<JobRun>)
    ensures Added(h, h) == []
  {
  }

  /** For any polls over histories that only gain later runs: a job that no poll reached has been delivered nothing; any
      other has been delivered exactly the runs added between the first and the last poll that reached it, each once,
      oldest first. The points recorded are those of the runs delivered. */
  lemma ExactlyOnce(limit: nat, polls: seq<Poll>, jobId: int)
    requires limit > 0 && AllSound(polls) && AllGrow(polls, jobId)
    ensures var t, hits := PollAll(NEW_TRACKER, limit, polls), Hits(limit, polls, |polls|, jobId);
      && t.points == PointsOf(t.delivered)
      && (hits == [] ==> Of(t.delivered, jobId) == [])
      && (hits != [] ==>
            var h, h' := History(polls, hits[0], jobId), History(polls, hits[|hits| - 1], jobId);
            |h| <= |h'| && Of(t.delivered, jobId) == Added(h, h'))
  {
    hide PollAll, Of, Added, Hits, PointsOf, Growing;
    var hits := Hits(limit, polls, |polls|, jobId);
    var hs := Seen(polls, hits, jobId);
    DeliveredPerJob(limit, polls, |polls|, jobId);
    assert polls[..|polls|] == polls;
    JobOkFacts(PollAll(NEW_TRACKER, limit, polls), jobId, hs);
    if hits != [] {
      SeenGrow(limit, polls, jobId);
      GrowingDelivers(hs);
    }
  }

  lemma SeenGrow(limit: nat, polls: seq<Poll>, jobId: int)
    requires limit > 0 && AllSound(polls) && AllGrow(polls, jobId)
    requires NoneEmpty(Seen(polls, Hits(limit, polls, |polls|, jobId), jobId))
    ensures Growing(Seen(polls, Hits(limit, polls, |polls|, jobId), jobId))
  {
    hide Hits, Grows, Sorted, Seen;
    HitsAre(limit, polls, |polls|, jobId);
  }

  // ---------- histories that gain runs anywhere ----------

  /** Only completed runs are listed, so one that started early and ended late turns up behind later ones. */
  ghost predicate Gains(h: seq<JobRun>, h': seq<JobRun>) {
    forall run :: run in h ==> run in h'
  }

  ghost predicate Distinct(h: seq<JobRun>) {
    forall i, j :: 0 <= i < j < |h| ==> h[i] != h[j]
  }

  ghost predicate AllGain(polls: seq<Poll>, jobId: int) {
    && (forall k :: 0 <= k < |polls| ==> Distinct(polls[k].servers(jobId).history))
    && (forall k, l :: 0 <= k < l < |polls| ==>
          Gains(polls[k].servers(jobId).history, polls[l].servers(jobId).history))
  }

  ghost predicate Gaining(hs: seq<seq<JobRun>>) {
    && (forall i :: 0 <= i < |hs| ==> Sorted(hs[i]) && Distinct(hs[i]))
    && (forall i, j :: 0 <= i < j < |hs| ==> Gains(hs[i], hs[j]))
  }

  /** The `i`-th history seen is the first with this run; the job had been seen before, and the run starts after the
      watermark of that moment. */
  ghost predicate NewAt(hs: seq<seq<JobRun>>, run: JobRun, i: nat)
    requires NoneEmpty(hs)
  {
    0 < i < |hs| && run in hs[i] && run !in hs[i - 1] && run.startTime > hs[i - 1][0].startTime
  }

  lemma {:induction false} NewSinceCount(h: seq<JobRun>, prev: int, run: JobRun)
    requires Distinct(h)
    ensures multiset(NewSince(h, prev))[run] == if run in h && run.startTime > prev then 1 else 0
  {
    if h != [] {
      NewSinceCount(h[1..], prev, run);
      assert forall k :: 1 <= k < |h| ==> h[k] == h[1..][k - 1];
    }
  }

  ghost predicate IsNew(hs: seq<seq<JobRun>>, run: JobRun)
    requires NoneEmpty(hs)
  {
    exists i :: NewAt(hs, run, i)
  }

  lemma GainingInit(hs: seq<seq<JobRun>>)
    requires |hs| > 1 && NoneEmpty(hs) && Gaining(hs)
    ensures NoneEmpty(hs[..|hs| - 1]) && Gaining(hs[..|hs| - 1])
    ensures Gains(hs[|hs| - 2], hs[|hs| - 1]) && Distinct(hs[|hs| - 1])
    ensures Sorted(hs[|hs| - 2]) && Sorted(hs[|hs| - 1])
  {
    hide Sorted, Distinct, Gains;
  }

  /** Whatever was delivered is in the last history seen. */
  lemma {:induction false} DeliveredWereSeen(hs: seq<seq<JobRun>>, run: JobRun)
    requires hs != [] && NoneEmpty(hs) && Gaining(hs)
    ensures run in DeliveredOf(hs) ==> run in hs[|hs| - 1]
  {
    hide Sorted, Distinct, Gaining, NewSince;
    if |hs| > 1 {
      GainingInit(hs);
      DeliveredWereSeen(hs[..|hs| - 1], run);
      NewSinceIs(hs[|hs| - 1], hs[|hs| - 2][0].startTime, run);
    }
  }

  lemma IsNewMore(hs: seq<seq<JobRun>>, run: JobRun)
    requires |hs| > 1 && NoneEmpty(hs) && NoneEmpty(hs[..|hs| - 1])
    ensures var h, h' := hs[|hs| - 2], hs[|hs| - 1];
      IsNew(hs, run) <==>
        IsNew(hs[..|hs| - 1], run) || (run in h' && run !in h && run.startTime > h[0].startTime)
  {
    var init := hs[..|hs| - 1];
    var h, h' := hs[|hs| - 2], hs[|hs| - 1];
    assert NewAt(hs, run, |hs| - 1) == (run in h' && run !in h && run.startTime > h[0].startTime);
    assert forall i: nat :: i < |init| ==> NewAt(init, run, i) == NewAt(hs, run, i);
  }

  /** A run is delivered once if it is new at some history seen, and never otherwise. */
  lemma {:induction false} DeliveredCount(hs: seq<seq<JobRun>>, run: JobRun)
    requires NoneEmpty(hs) && Gaining(hs)
    ensures multiset(DeliveredOf(hs))[run] == if IsNew(hs, run) then 1 else 0
  {
    hide Sorted, Distinct, Gaining, NewSince, IsNew, NoneEmpty, Gains;
    if |hs| <= 1 {
      NotNewAtFirst(hs, run);
    } else {
      var init, h, h' := hs[..|hs| - 1], hs[|hs| - 2], hs[|hs| - 1];
      GainingInit(hs);
      NotEmptyBefore(hs);
      DeliveredCount(init, run);
      IsNewMore(hs, run);
      NewSinceCount(h', h[0].startTime, run);
      DeliveredWereSeen(init, run);
      if run in h { AtMostLatest(h, run); }
    }
  }

  lemma NotEmptyBefore(hs: seq<seq<JobRun>>)
    requires |hs| > 1 && NoneEmpty(hs)
    ensures hs[|hs| - 2] != []
  {
  }

  lemma NotNewAtFirst(hs: seq<seq<JobRun>>, run: JobRun)
    requires |hs| <= 1 && NoneEmpty(hs)
    ensures !IsNew(hs, run)
  {
  }

  lemma AtMostLatest(h: seq<JobRun>, run: JobRun)
    requires Sorted(h) && run in h
    ensures run.startTime <= h[0].startTime
  {
  }

  /** Over any polls, whatever fails: a run of the job is delivered exactly once if, at the first poll that reached the
      job and listed the run, the job had been reached before and the run starts after the latest run listed at the poll
      before; in every other case it is never delivered. */
  lemma DeliveredIff(limit: nat, polls: seq<Poll>, jobId: int, run: JobRun)
    requires limit > 0 && AllSound(polls) && AllGain(polls, jobId)
    ensures var hs := Seen(polls, Hits(limit, polls, |polls|, jobId), jobId);
      NoneEmpty(hs) && multiset(Of(PollAll(NEW_TRACKER, limit, polls).delivered, jobId))[run] ==
        if IsNew(hs, run) then 1 else 0
  {
    hide PollAll, Of, Hits, IsNew, Gaining, DeliveredOf;
    var hs := Seen(polls, Hits(limit, polls, |polls|, jobId), jobId);
    DeliveredPerJob(limit, polls, |polls|, jobId);
    assert polls[..|polls|] == polls;
    JobOkFacts(PollAll(NEW_TRACKER, limit, polls), jobId, hs);
    SeenGain(limit, polls, jobId);
    DeliveredCount(hs, run);
  }

  lemma SeenGain(limit: nat, polls: seq<Poll>, jobId: int)
    requires limit > 0 && AllSound(polls) && AllGain(polls, jobId)
    requires NoneEmpty(Seen(polls, Hits(limit, polls, |polls|, jobId), jobId))
    ensures Gaining(Seen(polls, Hits(limit, polls, |polls|, jobId), jobId))
  {
    hide Hits, Gains, Distinct, Sorted, Seen;
    HitsAre(limit, polls, |polls|, jobId);
  }

  ghost predicate Chronological(runs: seq<JobRun>) {
    forall i, j :: 0 <= i < j < |runs| ==> runs[i].startTime <= runs[j].startTime
  }

  lemma {:induction false} NewSinceChronological(h: seq<JobRun>, prev: int)
    requires Sorted(h)
    ensures Chronological(NewSince(h, prev))
    ensures forall i :: 0 <= i < |NewSince(h, prev)| ==> NewSince(h, prev)[i].startTime > prev
  {
    if h != [] {
      NewSinceChronological(h[1..], prev);
      forall run | run in NewSince(h[1..], prev) ensures run.startTime <= h[0].startTime {
        NewSinceIs(h[1..], prev, run);
      }
    }
  }

  lemma {:induction false} DeliveredChronological(hs: seq<seq<JobRun>>)
    requires NoneEmpty(hs) && Gaining(hs)
    ensures Chronological(DeliveredOf(hs))
  {
    hide Sorted, Distinct, Gaining, NewSince, NoneEmpty, Gains;
    if |hs| > 1 {
      var init, h, h' := hs[..|hs| - 1], hs[|hs| - 2], hs[|hs| - 1];
      GainingInit(hs);
      NotEmptyBefore(hs);
      DeliveredChronological(init);
      NewSinceChronological(h', h[0].startTime);
      forall run | run in DeliveredOf(init) ensures run.startTime <= h[0].startTime {
        DeliveredWereSeen(init, run);
        AtMostLatest(h, run);
      }
    }
  }

  /** Every job's runs are delivered in the order in which they started. */
  lemma DeliveredInOrder(limit: nat, polls: seq<Poll>, jobId: int)
    requires limit > 0 && AllSound(polls) && AllGain(polls, jobId)
    ensures Chronological(Of(PollAll(NEW_TRACKER, limit, polls).delivered, jobId))
  {
    hide PollAll, Of, Hits, Gaining, DeliveredOf, Chronological;
    var hs := Seen(polls, Hits(limit, polls, |polls|, jobId), jobId);
    DeliveredPerJob(limit, polls, |polls|, jobId);
    assert polls[..|polls|] == polls;
    JobOkFacts(PollAll(NEW_TRACKER, limit, polls), jobId, hs);
    SeenGain(limit, polls, jobId);
    DeliveredChronological(hs);
  }

  // ---------- a lost run ----------

  function Listing(jobId: int, runs: seq<JobRun>): Poll {
    Poll([jobId], j => Server(if j == jobId then runs else [], k => false))
  }

  /** A run that starts no later than another and is listed only after it is lost, though every poll succeeds. */
  lemma LateFinisherIsLost(limit: nat, early: JobRun, late: JobRun)
    requires limit > 0 && 0 < early.startTime <= late.startTime && early != late && early.jobId == late.jobId
    ensures var j := late.jobId;
      var polls := [Listing(j, [late]), Listing(j, [late, early])];
      && AllSound(polls) && AllGain(polls, j)
      && Hits(limit, polls, 2, j) == [0, 1] && early in History(polls, 1, j)
      && Of(PollAll(NEW_TRACKER, limit, polls).delivered, j) == []
  {
    hide PollAll, Of, Hits, Seen, AllSound, AllGain, JobOk, DeliveredOf;
    var j := late.jobId;
    var polls := [Listing(j, [late]), Listing(j, [late, early])];
    ListingsOk(early, late);
    BothReached(limit, polls, j);
    DeliveredPerJob(limit, polls, 2, j);
    assert polls[..2] == polls;
    var hs := Seen(polls, [0, 1], j);
    assert hs == [[late], [late, early]];
    JobOkFacts(PollAll(NEW_TRACKER, limit, polls), j, hs);
    NothingOfTwo(early, late);
  }

  lemma BothReached(limit: nat, polls: seq<Poll>, jobId: int)
    requires limit > 0 && |polls| == 2
    requires forall k :: 0 <= k < 2 ==> polls[k].jobs == [jobId] && polls[k].servers(jobId).history != []
    requires forall k, n :: 0 <= k < 2 ==> !polls[k].servers(jobId).fails(n)
    ensures Hits(limit, polls, 2, jobId) == [0, 1]
  {
    hide Reached;
    ListingReached(limit, polls, 0, jobId);
    ListingReached(limit, polls, 1, jobId);
    assert Hits(limit, polls, 1, jobId) == [0];
  }

  lemma ListingsOk(early: JobRun, late: JobRun)
    requires 0 < early.startTime <= late.startTime && early != late && early.jobId == late.jobId
    ensures var polls := [Listing(late.jobId, [late]), Listing(late.jobId, [late, early])];
      AllSound(polls) && AllGain(polls, late.jobId)
  {
    assert OwnHistory(late.jobId, [late]) && OwnHistory(late.jobId, [late, early]);
    assert Distinct([late, early]) && Gains([late], [late, early]);
    assert forall j :: OwnHistory(j, []);
    hide OwnHistory, Distinct, Gains;
  }

  lemma NothingOfTwo(early: JobRun, late: JobRun)
    requires early.startTime <= late.startTime
    ensures DeliveredOf([[late], [late, early]]) == []
  {
    var hs := [[late], [late, early]];
    assert hs[..1] == [[late]];
    NothingNew([late, early], late.startTime);
  }

  lemma ListingReached(limit: nat, polls: seq<Poll>, k: nat, jobId: int)
    requires limit > 0 && k < |polls| && polls[k].jobs == [jobId] && polls[k].servers(jobId).history != []
    requires forall n :: !polls[k].servers(jobId).fails(n)
    ensures Reached(limit, polls, k, jobId)
  {
    hide PollAll;
    ReachedIfAnswered(PollAll(NEW_TRACKER, limit, polls[..k]), limit, polls[k].jobs, polls[k].servers, 0);
  }
}
