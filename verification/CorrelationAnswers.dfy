/** What GetOrCreate returns under concurrency: what was known of the endpoint when it gave up the endpoint's lock,
    unless an update was under way between that and giving up the receiver's lock, or an older entry had been left
    behind. */
module CorrelationAnswers {
  import opened Strings
  import opened CorrelationMachine
  import opened CorrelationSafety
  import opened CorrelationRuns
  import opened CorrelationFreshness
  import opened CorrelationLatest

  /** Past the endpoint's lock, the receiver's lock still held. */
  predicate PastLock(g: Thread) {
    g.Get? && (Window(g).Some? || g.gpc.GRead? || g.gpc.GUnlockReceiver?)
  }

  /** No update of the operation's endpoint is under way while it is there. */
  ghost predicate Undisturbed(s: State, t: nat) {
    t in s.threads && PastLock(s.threads[t]) ==>
      forall u :: u in s.threads ==> !Updating(s.threads[u], s.threads[t].endpointId)
  }

  // ---------- entries that stay ----------

  ghost predicate NotWritten(s: State, m: nat) {
    forall u :: u in s.threads ==> Walk(s.threads[u]) != Some(m)
  }

  /** An entry changes only when an update writes its inner map. */
  lemma EntryStays(s: State, a: Action, s': State, m: nat, k: ReceiverId)
    requires Inv(s) && Enabled(s, a) && s' == Next(s, a) && m < |s.store.heap| == |s.store.home| && k in s.store.heap[m]
    requires NotWritten(s, m)
    ensures m < |s'.store.heap| && m < |s'.store.home| && s'.store.home[m] == s.store.home[m]
    ensures k in s'.store.heap[m] && s'.store.heap[m][k] == s.store.heap[m][k]
  {
    hide Inv, CanRun, Updating;
    InvParts(s);
    if a.Run? {
      var th := s.threads[a.t];
      assert ThreadOk(s.store, th);
      if th.Update? { UpdateEntryStays(s.store, s.now, th, m, k); }
      if th.Get? { GetEntryStays(s.store, th, m, k); }
    }
  }

  lemma UpdateEntryStays(st: Store, now: int, u: Thread, m: nat, k: ReceiverId)
    requires u.Update? && UpdateOk(st, u) && m < |st.heap| == |st.home| && k in st.heap[m] && Walk(u) != Some(m)
    ensures var st' := UpdateStep(st, now, u).0;
      && m < |st'.heap| && m < |st'.home| && st'.home[m] == st.home[m]
      && k in st'.heap[m] && st'.heap[m][k] == st.heap[m][k]
  {
    hide WriteField;
  }

  lemma GetEntryStays(st: Store, g: Thread, m: nat, k: ReceiverId)
    requires g.Get? && GetOk(st, g) && m < |st.heap| == |st.home| && k in st.heap[m]
    ensures var st' := GetStep(st, g).0;
      && m < |st'.heap| && m < |st'.home| && st'.home[m] == st.home[m]
      && k in st'.heap[m] && st'.heap[m][k] == st.heap[m][k]
  {
  }

  lemma UndisturbedNotWritten(s: State, t: nat, m: nat)
    requires Inv(s) && Undisturbed(s, t) && t in s.threads && PastLock(s.threads[t])
    requires m < |s.store.home| && s.store.home[m] == s.threads[t].endpointId
    ensures NotWritten(s, m)
  {
    hide Inv, Updating, Walk, PastLock;
    forall u | u in s.threads ensures Walk(s.threads[u]) != Some(m) {
      if Walk(s.threads[u]) == Some(m) { WalkerFacts(s, u, m); }
    }
  }

  // ---------- the answer in the making ----------

  /** The no-type entry of the operation's inner map still agrees with `v`. */
  ghost predicate Source(st: Store, g: Thread, m: nat, v: Correlation)
    requires g.Get?
  {
    HasNoType(st, m) && m < |st.home| && st.home[m] == g.endpointId && Agrees(st.heap[m][NO_TYPE], v)
  }

  /** From giving up the endpoint's lock on, the operation has `v` before it, or an entry that was left behind. */
  ghost predicate Answering(st: Store, log: Log, g: Thread, m: nat, v: Correlation)
    requires g.Get?
  {
    match g.gpc
    case GFind(n) => n == m && Source(st, g, m, v)
    case GNoType(n) => n == m && Source(st, g, m, v)
    case GCopy(n, copy, field) => n == m && Source(st, g, m, v) && AgreesUpTo(copy, v, field)
    case GSave(n, copy) => n == m && Source(st, g, m, v) && Agrees(copy, v)
    case GRead(n, copy, field) =>
      && n == m && m < |st.heap| && m < |st.home| && st.home[m] == g.endpointId && g.receiver in st.heap[m]
      && ((m, g.receiver) in log.stale || (Agrees(st.heap[m][g.receiver], v) && AgreesUpTo(copy, v, field)))
    case GUnlockReceiver(c) => (m, g.receiver) in log.stale || Agrees(c, v)
    case GDone(c) => (m, g.receiver) in log.stale || Agrees(c, v)
    case _ => false
  }

  lemma AnswerStep(st: Store, g: Thread, log: Log, log': Log, m: nat, v: Correlation)
    requires g.Get? && GetOk(st, g) && Answering(st, log, g, m, v) && Extends(log, log') && |st.heap| == |st.home|
    requires g.gpc.GFind? && g.receiver in st.heap[m] ==> MapFresh(st, log, m)
    ensures var (st', pc) := GetStep(st, g); Answering(st', log', g.(gpc := pc), m, v)
  {
  }

  lemma OwnAnswer(s: State, t: nat, s': State, log: Log, log': Log, m: nat, v: Correlation)
    requires Inv(s) && Fresh(s, log) && Enabled(s, Run(t)) && s' == Next(s, Run(t)) && s.threads[t].Get?
    requires Extends(log, log') && Undisturbed(s, t) && Answering(s.store, log, s.threads[t], m, v)
    ensures t in s'.threads && s'.threads[t].Get? && s'.threads[t] == s.threads[t].(gpc := s'.threads[t].gpc)
    ensures Answering(s'.store, log', s'.threads[t], m, v)
  {
    hide Inv, CanRun, GetStep, MapFresh, Undisturbed, GetOk, Extends, ThreadsFresh, LogsCrossings, EmptyUntilNoType;
    var g := s.threads[t];
    InvParts(s);
    assert ThreadOk(s.store, g);
    if g.gpc.GFind? {
      UndisturbedNotWritten(s, t, m);
      assert !Walked(s, m);
      assert MapFresh(s.store, log, m);
    }
    AnswerStep(s.store, g, log, log', m, v);
  }

  lemma OtherAnswer(s: State, a: Action, s': State, t: nat, log: Log, log': Log, m: nat, v: Correlation)
    requires Inv(s) && Enabled(s, a) && s' == Next(s, a) && a != Run(t) && t in s.threads && s.threads[t].Get?
    requires Extends(log, log') && Undisturbed(s, t) && Answering(s.store, log, s.threads[t], m, v)
    ensures t in s'.threads && s'.threads[t] == s.threads[t] && Answering(s'.store, log', s.threads[t], m, v)
  {
    hide Inv, CanRun, Undisturbed, ThreadStep, ReaperStep, EndpointFree, Agrees, AgreesUpTo;
    var g := s.threads[t];
    InvParts(s);
    if Window(g).Some? || g.gpc.GRead? {
      UndisturbedNotWritten(s, t, m);
      EntryStays(s, a, s', m, if g.gpc.GRead? then g.receiver else NO_TYPE);
    }
  }

  /** The operation gives up the endpoint's lock with what is known of the endpoint before it. */
  lemma AnswerBegins(s: State, t: nat, s': State, log': Log, known: map<EndpointId, Correlation>)
    requires Inv(s) && Enabled(s, Run(t)) && s' == Next(s, Run(t)) && s.threads[t].Get?
    requires s.threads[t].gpc.GUnlockEndpoint? && UpToDate(s, known, s.threads[t].endpointId)
    ensures s.threads[t].endpointId in known && t in s'.threads && s'.threads[t].Get?
    ensures s'.threads[t] == s.threads[t].(gpc := s'.threads[t].gpc)
    ensures Answering(s'.store, log', s'.threads[t], s.threads[t].gpc.m, known[s.threads[t].endpointId])
  {
    hide Inv, CanRun, Updating;
    InvParts(s);
    InvExclusive(s);
    assert ThreadOk(s.store, s.threads[t]);
    GetHoldsQuiet(s, t, s.threads[t].endpointId);
  }

  // ---------- every run ----------

  ghost predicate Unlocks(states: seq<State>, actions: seq<Action>, b: nat, t: nat) {
    b < |actions| && b < |states| && actions[b] == Run(t) && t in states[b].threads && states[b].threads[t].Get? &&
    states[b].threads[t].gpc.GUnlockEndpoint?
  }

  lemma {:induction false} AnswerInRun(states: seq<State>, actions: seq<Action>, b: nat, i: nat, t: nat)
    requires IsRun(states, actions) && b < i < |states| && Unlocks(states, actions, b, t)
    requires forall c :: b < c < i ==> Undisturbed(states[c], t)
    ensures var g := states[b].threads[t];
      && g.endpointId in Known(states, actions, b)
      && t in states[i].threads && states[i].threads[t].Get?
      && states[i].threads[t] == g.(gpc := states[i].threads[t].gpc)
      && Answering(states[i].store, LogAt(states, actions, i), states[i].threads[t], g.gpc.m,
                   Known(states, actions, b)[g.endpointId])
    decreases i
  {
    hide Inv, Enabled, Next, Init, Undisturbed, Answering, LogAt, Known, Fresh, Extends, UpToDate, LogsCrossings,
      LogsSaves;
    var g := states[b].threads[t];
    if i == b + 1 {
      InvInEveryRun(states, actions, b);
      KnownInEveryRun(states, actions, b, g.endpointId);
      AnswerBegins(states[b], t, states[i], LogAt(states, actions, i), Known(states, actions, b));
    } else {
      var s, a, s' := states[i - 1], actions[i - 1], states[i];
      var log, log' := LogAt(states, actions, i - 1), LogAt(states, actions, i);
      AnswerInRun(states, actions, b, i - 1, t);
      var v := Known(states, actions, b)[g.endpointId];
      InvInEveryRun(states, actions, i - 1);
      FreshInEveryRun(states, actions, i - 1);
      LogGrows(states, actions, i - 1);
      if a == Run(t) {
        OwnAnswer(s, t, s', log, log', g.gpc.m, v);
      } else {
        OtherAnswer(s, a, s', t, log, log', g.gpc.m, v);
      }
    }
  }

  /** In every run, a GetOrCreate that no update of its endpoint disturbed between giving up the endpoint's lock and
      giving up the receiver's returns what was known of the endpoint at the former, in state, endpoint and observer,
      under the receiver asked for - unless the entry it found had been stored by a GetOrCreate that an update had
      passed. */
  lemma AnswerIsKnown(states: seq<State>, actions: seq<Action>, b: nat, i: nat, t: nat)
    requires IsRun(states, actions) && b < i < |states| && Unlocks(states, actions, b, t)
    requires forall c :: b < c < i ==> Undisturbed(states[c], t)
    requires t in states[i].threads && states[i].threads[t].Get? && states[i].threads[t].gpc.GDone?
    ensures var g, result := states[b].threads[t], states[i].threads[t].gpc.result;
      && result.receiverId == g.receiver && g.endpointId in Known(states, actions, b)
      && (Agrees(result, Known(states, actions, b)[g.endpointId]) ||
          Overtaken(states, actions, i, g.gpc.m, g.receiver))
  {
    hide Overtaken, Known, Undisturbed, IsRun, Passed;
    AnswerInRun(states, actions, b, i, t);
    CoherentInEveryRun(states, actions, i);
  }
}
