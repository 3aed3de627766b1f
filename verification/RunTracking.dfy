/** Databricks run tracking: paginated fetching with early stop, a watermark per job, and exactly-once delivery of new
    runs over any sequence of polls (databricks/service.go, run_tracker.go, run_metrics_provider.go). A nil slice of
    runs is the empty sequence. */
module RunTracking {
  import opened Strings

  datatype Task = Task(key: string, duration: int)
  datatype JobRun = JobRun(runId: int, jobId: int, startTime: int, skipped: bool, duration: int, tasks: seq<Task>)

  // ---------- the API ----------

  /** The runs of one job, latest first, and which page requests fail. */
  datatype Server = Server(history: seq<JobRun>, fails: nat -> bool)

  function Page(history: seq<JobRun>, limit: nat, offset: nat): (runs: seq<JobRun>)
    ensures |runs| <= limit
  {
    if offset >= |history| then []
    else if offset + limit >= |history| then history[offset..]
    else history[offset..offset + limit]
  }

  predicate HasMore(history: seq<JobRun>, limit: nat, offset: nat) {
    offset + limit < |history|
  }

  /** Latest first, with positive start times. */
  ghost predicate Sorted(runs: seq<JobRun>) {
    && (forall i :: 0 <= i < |runs| ==> runs[i].startTime > 0)
    && (forall i, j :: 0 <= i < j < |runs| ==> runs[i].startTime >= runs[j].startTime)
  }

  // ---------- fetching ----------

  /** No further page is asked for on the first poll of a job, after an empty page, or once a page reaches runs older
      than the last one known. */
  predicate StopsAt(runs: seq<JobRun>, prev: int) {
    prev == 0 || runs == [] || runs[|runs| - 1].startTime < prev
  }

  function Joined(out: seq<JobRun>, rest: Option<seq<JobRun>>): Option<seq<JobRun>> {
    if rest.None? then None else Some(out + rest.value)
  }

  /** The runs fetched from page `i` on, which starts at `offset`. */
  function Fetch(server: Server, limit: nat, prev: int, i: nat, offset: nat): Option<seq<JobRun>>
    requires limit > 0
    decreases |server.history| - offset
  {
    if server.fails(i) then None else
      var runs := Page(server.history, limit, offset);
      if StopsAt(runs, prev) || !HasMore(server.history, limit, offset) then Some(runs)
      else Joined(runs, Fetch(server, limit, prev, i + 1, offset + limit))
  }

  method CompletedJobRuns(server: Server, limit: nat, prev: int) returns (result: Option<seq<JobRun>>)
    requires limit > 0
    ensures result == Fetch(server, limit, prev, 0, 0)
  {
    hide StopsAt, HasMore, Page;
    var out: seq<JobRun> := [];
    var hasMore := true;
    var i: nat := 0;
    ghost var goal, offset: nat := Fetch(server, limit, prev, 0, 0), 0;
    assert goal.Some? ==> [] + goal.value == goal.value;
    while hasMore
      invariant offset == limit * i
      invariant goal == if hasMore then Joined(out, Fetch(server, limit, prev, i, offset)) else Some(out)
      decreases hasMore, |server.history| - offset
    {
      if server.fails(i) { return None; }
      var runs := Page(server.history, limit, limit * i);
      ghost var before, rest := out, Fetch(server, limit, prev, i + 1, offset + limit);
      out := out + runs;
      if StopsAt(runs, prev) { break; }
      hasMore := HasMore(server.history, limit, limit * i);
      JoinedTwice(before, runs, rest);
      MoreAhead(server, limit, offset);
      i, offset := i + 1, offset + limit;
    }
    return Some(out);
  }

  lemma JoinedTwice(a: seq<JobRun>, b: seq<JobRun>, rest: Option<seq<JobRun>>)
    ensures Joined(a, Joined(b, rest)) == Joined(a + b, rest)
  {
    if rest.Some? { assert a + (b + rest.value) == a + b + rest.value; }
  }

  lemma MoreAhead(server: Server, limit: nat, offset: nat)
    ensures HasMore(server.history, limit, offset) ==> offset + limit < |server.history|
  {
  }

  // ---------- new runs ----------

  /** The runs started after `prev`, oldest first. */
  function NewSince(runs: seq<JobRun>, prev: int): seq<JobRun> {
    if runs == [] then [] else NewSince(runs[1..], prev) + (if runs[0].startTime > prev then [runs[0]] else [])
  }

  method CollectNewRuns(runs: seq<JobRun>, prev: int) returns (out: seq<JobRun>)
    ensures out == NewSince(runs, prev)
  {
    out := [];
    var i := |runs|;
    while i > 0
      invariant 0 <= i <= |runs|
      invariant out == NewSince(runs[i..], prev)
    {
      i := i - 1;
      assert runs[i..][1..] == runs[i + 1..];
      if runs[i].startTime > prev { out := out + [runs[i]]; }
    }
    assert runs[0..] == runs;
  }

  function Reverse(runs: seq<JobRun>): (r: seq<JobRun>)
    ensures |r| == |runs|
    ensures forall i :: 0 <= i < |r| ==> r[i] == runs[|runs| - 1 - i]
  {
    if runs == [] then [] else Reverse(runs[1..]) + [runs[0]]
  }

  /** Exactly the runs started later than the watermark are new. */
  lemma {:induction false} NewSinceIs(runs: seq<JobRun>, prev: int, run: JobRun)
    ensures run in NewSince(runs, prev) <==> run in runs && run.startTime > prev
  {
    if runs != [] { NewSinceIs(runs[1..], prev, run); }
  }

  lemma {:induction false} NewSinceAppend(a: seq<JobRun>, b: seq<JobRun>, prev: int)
    ensures NewSince(a + b, prev) == NewSince(b, prev) + NewSince(a, prev)
  {
    if a == [] {
      assert a + b == b;
    } else {
      assert (a + b)[1..] == a[1..] + b;
      NewSinceAppend(a[1..], b, prev);
    }
  }

  lemma {:induction false} NothingNew(runs: seq<JobRun>, prev: int)
    requires forall i :: 0 <= i < |runs| ==> runs[i].startTime <= prev
    ensures NewSince(runs, prev) == []
  {
    if runs != [] { NothingNew(runs[1..], prev); }
  }

  lemma {:induction false} AllNew(runs: seq<JobRun>, prev: int)
    requires forall i :: 0 <= i < |runs| ==> runs[i].startTime > prev
    ensures NewSince(runs, prev) == Reverse(runs)
  {
    if runs != [] { AllNew(runs[1..], prev); }
  }

  lemma PageSplits(history: seq<JobRun>, limit: nat, offset: nat)
    requires offset <= |history|
    ensures var runs := Page(history, limit, offset);
      offset + |runs| <= |history| && history[offset..] == runs + history[offset + |runs|..]
  {
  }

  /** Nothing newer than the watermark lies beyond a page that stops the fetch. */
  lemma StopLosesNothing(history: seq<JobRun>, limit: nat, prev: int, offset: nat)
    requires limit > 0 && offset <= |history| && prev > 0 && Sorted(history)
    requires StopsAt(Page(history, limit, offset), prev) || !HasMore(history, limit, offset)
    ensures NewSince(history[offset + |Page(history, limit, offset)|..], prev) == []
  {
    NothingNew(history[offset + |Page(history, limit, offset)|..], prev);
  }

  /** What is fetched is a prefix of the history, and not empty unless the history is. */
  lemma {:induction false} FetchesPrefix(server: Server, limit: nat, prev: int, i: nat, offset: nat)
    requires limit > 0 && offset <= |server.history| && Fetch(server, limit, prev, i, offset).Some?
    ensures Fetch(server, limit, prev, i, offset).value <= server.history[offset..]
    ensures offset < |server.history| ==> Fetch(server, limit, prev, i, offset).value != []
    decreases |server.history| - offset
  {
    hide StopsAt;
    var h := server.history;
    PageSplits(h, limit, offset);
    if !StopsAt(Page(h, limit, offset), prev) && HasMore(h, limit, offset) {
      FetchesPrefix(server, limit, prev, i + 1, offset + limit);
    }
  }

  /** Stopping early loses nothing: with the history sorted and a positive watermark, what is fetched has every run
      newer than the watermark. */
  lemma {:induction false} FetchesAllNew(server: Server, limit: nat, prev: int, i: nat, offset: nat)
    requires limit > 0 && offset <= |server.history| && Fetch(server, limit, prev, i, offset).Some?
    requires prev > 0 && Sorted(server.history)
    ensures NewSince(Fetch(server, limit, prev, i, offset).value, prev) == NewSince(server.history[offset..], prev)
    decreases |server.history| - offset
  {
    hide Sorted, StopsAt, NewSince;
    var h := server.history;
    var runs := Page(h, limit, offset);
    PageSplits(h, limit, offset);
    NewSinceAppend(runs, h[offset + |runs|..], prev);
    if StopsAt(runs, prev) || !HasMore(h, limit, offset) {
      StopLosesNothing(h, limit, prev, offset);
    } else {
      FetchesAllNew(server, limit, prev, i + 1, offset + limit);
      NewSinceAppend(runs, Fetch(server, limit, prev, i + 1, offset + limit).value, prev);
    }
  }

  /** Fetching with early stop refines fetching everything: a prefix with the same new runs. */
  lemma EarlyStopRefinesFull(server: Server, limit: nat, prev: int)
    requires limit > 0 && Fetch(server, limit, prev, 0, 0).Some?
    ensures Fetch(server, limit, prev, 0, 0).value <= server.history
    ensures server.history != [] ==> Fetch(server, limit, prev, 0, 0).value != []
    ensures prev > 0 && Sorted(server.history) ==>
      NewSince(Fetch(server, limit, prev, 0, 0).value, prev) == NewSince(server.history, prev)
  {
    hide Fetch, Sorted, NewSince;
    assert server.history[0..] == server.history;
    FetchesPrefix(server, limit, prev, 0, 0);
    if prev > 0 && Sorted(server.history) { FetchesAllNew(server, limit, prev, 0, 0); }
  }

  /** Without failures the fetch succeeds. */
  lemma {:induction false} FetchSucceeds(server: Server, limit: nat, prev: int, i: nat, offset: nat)
    requires limit > 0 && forall k :: !server.fails(k)
    ensures Fetch(server, limit, prev, i, offset).Some?
    decreases |server.history| - offset
  {
    if HasMore(server.history, limit, offset) { FetchSucceeds(server, limit, prev, i + 1, offset + limit); }
  }

  // ---------- which pages are asked for ----------

  /** The end of a page in the history. */
  function PageEnd(history: seq<JobRun>, limit: nat, page: nat): (k: nat)
    ensures k <= |history|
  {
    if limit * (page + 1) < |history| then limit * (page + 1) else |history|
  }

  /** No page after this one is asked for: it is the job's first poll, the history ends with it, or its last run is
      older than the last one known. */
  predicate LastAsked(history: seq<JobRun>, limit: nat, prev: int, page: nat)
    requires limit > 0
  {
    prev == 0 || limit * (page + 1) >= |history| || history[limit * (page + 1) - 1].startTime < prev
  }

  lemma StopsIff(history: seq<JobRun>, limit: nat, prev: int, page: nat)
    requires limit > 0
    ensures var offset := limit * page;
      StopsAt(Page(history, limit, offset), prev) || !HasMore(history, limit, offset) <==>
        LastAsked(history, limit, prev, page)
  {
    assert limit * (page + 1) == limit * page + limit;
  }

  /** The fetch ends with the first page after which none is asked for. It fails exactly if a request up to that page
      fails, and otherwise returns the history up to the end of that page. */
  lemma {:induction false} FetchIs(server: Server, limit: nat, prev: int, i: nat, page: nat)
    requires limit > 0 && i <= page && limit * i <= |server.history|
    requires LastAsked(server.history, limit, prev, page)
    requires forall q :: i <= q < page ==> !LastAsked(server.history, limit, prev, q)
    ensures limit * i <= PageEnd(server.history, limit, page)
    ensures Fetch(server, limit, prev, i, limit * i) ==
      if exists q :: i <= q <= page && server.fails(q) then None
      else Some(server.history[limit * i..PageEnd(server.history, limit, page)])
    decreases page - i
  {
    hide Fetch, LastAsked, PageEnd;
    var h := server.history;
    FetchStep(server, limit, prev, i);
    if i < page {
      EndsLater(h, limit, i, page);
      FetchIs(server, limit, prev, i + 1, page);
      SlicesJoin(h, limit * i, limit * (i + 1), PageEnd(h, limit, page));
    }
  }

  /** One request of the fetch. */
  lemma FetchStep(server: Server, limit: nat, prev: int, i: nat)
    requires limit > 0 && limit * i <= |server.history|
    ensures var h, end := server.history, PageEnd(server.history, limit, i);
      && limit * i <= end
      && (!LastAsked(h, limit, prev, i) ==> end == limit * (i + 1))
      && Fetch(server, limit, prev, i, limit * i) ==
          if server.fails(i) then None
          else if LastAsked(h, limit, prev, i) then Some(h[limit * i..end])
          else Joined(h[limit * i..end], Fetch(server, limit, prev, i + 1, limit * (i + 1)))
  {
    hide StopsAt, HasMore;
    assert limit * (i + 1) == limit * i + limit;
    StopsIff(server.history, limit, prev, i);
    PageIs(server.history, limit, i);
  }

  lemma EndsLater(history: seq<JobRun>, limit: nat, i: nat, page: nat)
    requires limit > 0 && i < page && PageEnd(history, limit, i) == limit * (i + 1)
    ensures limit * (i + 1) <= PageEnd(history, limit, page)
  {
    assert limit * (i + 1) <= limit * (page + 1);
  }

  lemma SlicesJoin(history: seq<JobRun>, a: nat, b: nat, c: nat)
    requires a <= b <= c <= |history|
    ensures history[a..b] + history[b..c] == history[a..c]
  {
  }

  lemma PageIs(history: seq<JobRun>, limit: nat, page: nat)
    requires limit * page <= |history|
    ensures limit * page <= PageEnd(history, limit, page)
    ensures Page(history, limit, limit * page) == history[limit * page..PageEnd(history, limit, page)]
  {
    assert limit * (page + 1) == limit * page + limit;
  }

  /** There is such a page. */
  lemma {:induction false} SomePageIsLast(history: seq<JobRun>, limit: nat, prev: int, i: nat) returns (page: nat)
    requires limit > 0
    ensures i <= page && LastAsked(history, limit, prev, page)
    ensures forall q :: i <= q < page ==> !LastAsked(history, limit, prev, q)
    decreases |history| - limit * i
  {
    if LastAsked(history, limit, prev, i) {
      page := i;
    } else {
      assert limit * (i + 1) == limit * i + limit;
      page := SomePageIsLast(history, limit, prev, i + 1);
    }
  }
}
