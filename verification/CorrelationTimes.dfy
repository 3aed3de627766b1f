/** The times the correlation store keeps: the time of an endpoint's last event lies within the update that reported it,
    so the reaper's ttl is measured from that event. */
module CorrelationTimes {
  import opened Strings
  import opened CorrelationMachine
  import opened CorrelationSafety
  import opened CorrelationRuns
  import opened CorrelationFreshness
  import opened CorrelationLatest
  import opened CorrelationReaping

  // ---------- no time is ahead of the clock ----------

  ghost predicate HeapTimed(st: Store, now: int) {
    forall m, k :: 0 <= m < |st.heap| && k in st.heap[m] ==> st.heap[m][k].lastUpdated <= now
  }

  /** The copy a GetOrCreate is about to store. */
  predicate CopyTimed(th: Thread, now: int) {
    th.Get? && (th.gpc.GCopy? || th.gpc.GSave?) ==> th.gpc.copy.lastUpdated <= now
  }

  ghost predicate Timed(s: State) {
    s.now >= 0 && HeapTimed(s.store, s.now) && forall t :: t in s.threads ==> CopyTimed(s.threads[t], s.now)
  }

  lemma PutTimed(st: Store, m: nat, k: ReceiverId, c: Correlation, now: int)
    requires HeapTimed(st, now) && c.lastUpdated <= now
    ensures HeapTimed(st.Put(m, k, c), now) && HeapTimed(st.Create(m, k, c), now)
  {
  }

  lemma NewMapTimed(st: Store, e: EndpointId, now: int)
    requires HeapTimed(st, now)
    ensures HeapTimed(st.NewMap(e), now)
  {
  }

  lemma EntryTimed(st: Store, m: nat, k: ReceiverId, now: int)
    requires HeapTimed(st, now) && k in st.Inner(m)
    ensures st.Inner(m)[k].lastUpdated <= now
  {
  }

  lemma FieldTimed(st: Store, now: int, u: Thread)
    requires u.Update? && u.upc.UField? && HeapTimed(st, now)
    ensures HeapTimed(UpdateStep(st, now, u).0, now)
  {
    hide HeapTimed, Store.Put;
    var m, key := u.upc.m, u.upc.key;
    if key in st.Inner(m) {
      EntryTimed(st, m, key, now);
      PutTimed(st, m, key, WriteField(st.Inner(m)[key], u, u.upc.field, now), now);
    }
  }

  lemma UpdateKeepsTimed(st: Store, now: int, u: Thread)
    requires u.Update? && HeapTimed(st, now)
    ensures HeapTimed(UpdateStep(st, now, u).0, now)
  {
    hide HeapTimed, Store.Put, Store.Create, Store.NewMap, WriteField;
    match u.upc
    case UStart => SameHeap(st, UpdateStep(st, now, u).0, now, now);
    case ULoad => NewMapTimed(st, u.endpoint.id, now);
    case UStore(m) => PutTimed(st, m, NO_TYPE, Correlation(u.state, now, u.endpoint, NO_TYPE, u.observer), now);
    case UField(_, _, _, _, _) => FieldTimed(st, now, u);
    case _ =>
  }

  lemma GetKeepsTimed(st: Store, now: int, g: Thread)
    requires g.Get? && now >= 0 && HeapTimed(st, now) && CopyTimed(g, now)
    ensures var (st', pc) := GetStep(st, g); HeapTimed(st', now) && CopyTimed(g.(gpc := pc), now)
  {
    hide HeapTimed, Store.Put, Store.Create, Store.NewMap;
    match g.gpc
    case GLoad => NewMapTimed(st, g.endpointId, now);
    case GStore(m) => PutTimed(st, m, NO_TYPE, NEW_CORRELATION, now);
    case GCopy(m, _, _) => if NO_TYPE in st.Inner(m) { EntryTimed(st, m, NO_TYPE, now); }
    case GSave(m, copy) => PutTimed(st, m, g.receiver, copy, now);
    case _ =>
  }

  lemma RunKeepsTimed(s: State, t: nat, s': State)
    requires Timed(s) && Enabled(s, Run(t)) && s' == Next(s, Run(t))
    ensures Timed(s')
  {
    hide HeapTimed, CanRun, UpdateStep, GetStep;
    var th := s.threads[t];
    if th.Update? {
      UpdateKeepsTimed(s.store, s.now, th);
    } else if th.Get? {
      GetKeepsTimed(s.store, s.now, th);
    } else {
      assert HeapTimed(s'.store, s.now) by { SameHeap(s.store, s'.store, s.now, s.now); }
    }
  }

  lemma SameHeap(st: Store, st': Store, now: int, now': int)
    requires st'.heap == st.heap && now <= now' && HeapTimed(st, now)
    ensures HeapTimed(st', now')
  {
  }

  lemma StepKeepsTimed(s: State, a: Action, s': State)
    requires Timed(s) && Enabled(s, a) && s' == Next(s, a)
    ensures Timed(s')
  {
    hide HeapTimed, CanRun, ThreadStep;
    if a.Run? { RunKeepsTimed(s, a.t, s'); } else { SameHeap(s.store, s'.store, s.now, s'.now); }
  }

  lemma {:induction false} TimedInEveryRun(states: seq<State>, actions: seq<Action>, i: nat)
    requires IsRun(states, actions) && i < |states|
    ensures Timed(states[i])
  {
    hide Enabled, Next;
    if i > 0 {
      hide Timed;
      TimedInEveryRun(states, actions, i - 1);
      StepKeepsTimed(states[i - 1], actions[i - 1], states[i]);
    }
  }

  // ---------- no event is dated before its update ----------

  /** While an update has an endpoint's lock, the latest event of the endpoint stays its own. */
  lemma EventStays(s: State, a: Action, s': State, t: nat, e: EndpointId)
    requires Inv(s) && Enabled(s, a) && s' == Next(s, a) && t in s.threads && Updating(s.threads[t], e)
    ensures e in s.store.latest ==> e in s'.store.latest && s'.store.latest[e] == s.store.latest[e]
  {
    hide Inv, Guarantee, GetStep, AttrsStep, EndpointHeld, GoodStep;
    if a == Run(t) {
      OwnEventStays(s, t, s', e);
    } else if a.Run? {
      var e', r := RunTouches(s, a.t, s');
      InvParts(s);
      NotTouched(s, a.t, t, e);
      GuaranteeKeeps(s.store, s'.store, e', r, e);
    }
  }

  lemma OwnEventStays(s: State, t: nat, s': State, e: EndpointId)
    requires Enabled(s, Run(t)) && s' == Next(s, Run(t)) && Updating(s.threads[t], e)
    ensures s'.store.latest == s.store.latest
  {
  }

  /** The endpoint an operation holds the lock of, or is about to take it. */
  function Touched(th: Thread): Option<EndpointId> {
    if th.Update? then Some(th.endpoint.id)
    else if th.Get? && th.gpc.GStart? then Some(th.endpointId)
    else EndpointHeld(th)
  }

  lemma RunTouches(s: State, t: nat, s': State) returns (e': Option<EndpointId>, r: Option<ReceiverId>)
    requires Inv(s) && Enabled(s, Run(t)) && s' == Next(s, Run(t))
    ensures e' == Touched(s.threads[t]) && Guarantee(s.store, s'.store, e', r)
  {
    hide Inv, Guarantee, ThreadStep, ThreadOk, StoreOk, FillsOnly, Sound, CanRun;
    var th := s.threads[t];
    e', r := Touched(th), if th.Get? && th.gpc.GSave? then Some(th.receiver) else None;
    if th.Update? {
      UpdateGood(s, t);
    } else if th.Get? {
      GetGood(s, t, e', r);
    } else {
      AttrsGood(s, t);
    }
  }

  lemma NotTouched(s: State, u: nat, t: nat, e: EndpointId)
    requires Inv(s) && u != t && u in s.threads && CanRun(s, s.threads[u]) && t in s.threads
    requires EndpointHeld(s.threads[t]) == Some(e)
    ensures Touched(s.threads[u]) != Some(e)
  {
    hide Inv;
    InvExclusive(s);
  }

  /** The step in which an update got its endpoint's lock. */
  ghost predicate Locks(states: seq<State>, actions: seq<Action>, b: nat, t: nat, u: Thread)
    requires u.Update?
  {
    && b < |actions| && b < |states| && actions[b] == Run(t)
    && t in states[b].threads && states[b].threads[t] == u.(upc := UStart)
  }

  lemma {:induction false} LockedAt(states: seq<State>, actions: seq<Action>, i: nat, t: nat) returns (b: nat)
    requires IsRun(states, actions) && i < |states| && t in states[i].threads && states[i].threads[t].Update?
    requires Updating(states[i].threads[t], states[i].threads[t].endpoint.id)
    ensures b < i && Locks(states, actions, b, t, states[i].threads[t])
    ensures var e := states[i].threads[t].endpoint.id;
      e in states[i].store.latest && states[i].store.latest[e].time == states[b].now
    decreases i
  {
    hide Inv, Init, Enabled, Next;
    if i == 0 {
      NoThreads(states[0]);
      assert false;
    }
    var s, a, s' := states[i - 1], actions[i - 1], states[i];
    var e := s'.threads[t].endpoint.id;
    UpdateBefore(s, a, s', t);
    b := i - 1;
    if Updating(s.threads[t], e) {
      b := LockedAt(states, actions, i - 1, t);
      InvInEveryRun(states, actions, i - 1);
      EventStays(s, a, s', t, e);
    } else {
      LockTaken(s, a, s', t);
    }
  }

  lemma NoThreads(s: State)
    requires Init(s)
    ensures s.threads == map[]
  {
  }

  /** An update that has its lock was there a step ago. */
  lemma UpdateBefore(s: State, a: Action, s': State, t: nat)
    requires Enabled(s, a) && s' == Next(s, a) && t in s'.threads && s'.threads[t].Update?
    requires Updating(s'.threads[t], s'.threads[t].endpoint.id)
    ensures t in s.threads && s.threads[t].Update? && s'.threads[t] == s.threads[t].(upc := s'.threads[t].upc)
  {
    hide UpdateStep, GetStep, AttrsStep, EndpointFree;
  }

  lemma LockTaken(s: State, a: Action, s': State, t: nat)
    requires Enabled(s, a) && s' == Next(s, a) && t in s.threads && t in s'.threads && s.threads[t].Update?
    requires s'.threads[t] == s.threads[t].(upc := s'.threads[t].upc)
    requires Updating(s'.threads[t], s.threads[t].endpoint.id) && !Updating(s.threads[t], s.threads[t].endpoint.id)
    ensures a == Run(t) && s.threads[t].upc == UStart
    ensures var e := s.threads[t].endpoint.id; e in s'.store.latest && s'.store.latest[e].time == s.now
  {
    hide GetStep, AttrsStep, EndpointFree, ReaperStep;
  }

  // ---------- the time of an event ----------

  /** In every run, the time that becomes known with an update lies between the steps in which it got and gave up its
      endpoint's lock. */
  lemma KnownTime(states: seq<State>, actions: seq<Action>, i: nat, t: nat)
    requires IsRun(states, actions) && i < |actions| && actions[i] == Run(t)
    requires t in states[i].threads && states[i].threads[t].Update? && states[i].threads[t].upc.UUnlock?
    ensures var u := states[i].threads[t];
      && u.endpoint.id in Known(states, actions, i + 1)
      && Known(states, actions, i + 1)[u.endpoint.id].lastState == u.state
      && exists b: nat :: b < i && Locks(states, actions, b, t, u) &&
           states[b].now <= Known(states, actions, i + 1)[u.endpoint.id].lastUpdated <= states[i].now
  {
    hide Inv, Enabled, Next, Init, Locks;
    InvInEveryRun(states, actions, i);
    InvParts(states[i]);
    ThreadFact(states[i], t);
    TimedInEveryRun(states, actions, i);
    var b := LockedAt(states, actions, i, t);
    assert b < i && Locks(states, actions, b, t, states[i].threads[t]);
  }
}
