/** What the correlation store knows of an endpoint under concurrency: whenever no update of it is under way, its
    no-type entry is that of the latest update, in the order in which updates give up the endpoint's lock. */
module CorrelationLatest {
  import opened Strings
  import opened CorrelationMachine
  import opened CorrelationSafety
  import opened CorrelationRuns
  import opened CorrelationFreshness
  import CorrelationStore

  /** The time an update has written into the no-type entry of its endpoint. */
  function TimeOf(s: State, m: nat): int {
    if NO_TYPE in s.store.Inner(m) then s.store.Inner(m)[NO_TYPE].lastUpdated else 0
  }

  /** What is known of each endpoint: an update counts when it gives up the endpoint's lock, a GetOrCreate of an unknown
      endpoint makes a new correlation, and the reaper's deletion makes an endpoint unknown. */
  function Effect(s: State, a: Action, known: map<EndpointId, Correlation>): map<EndpointId, Correlation> {
    if a.ReapRun? && s.reaper.RDelete? then known - {s.reaper.e}
    else if !a.Run? || a.t !in s.threads then known
    else
      var th := s.threads[a.t];
      if th.Update? && th.upc.UUnlock? then
        known[th.endpoint.id := Correlation(th.state, TimeOf(s, th.upc.m), th.endpoint, NO_TYPE, th.observer)]
      else if th.Get? && th.gpc.GStore? then known[th.endpointId := NEW_CORRELATION]
      else known
  }

  ghost function Known(states: seq<State>, actions: seq<Action>, i: nat): map<EndpointId, Correlation>
    requires i <= |actions| && i <= |states|
  {
    if i == 0 then map[] else Effect(states[i - 1], actions[i - 1], Known(states, actions, i - 1))
  }

  /** The endpoint is there and no update of it is under way. */
  ghost predicate Settled(s: State, e: EndpointId) {
    && e in s.store.correlations && HasNoType(s.store, s.store.correlations[e])
    && forall u :: u in s.threads ==> !Updating(s.threads[u], e)
  }

  ghost predicate UpToDate(s: State, known: map<EndpointId, Correlation>, e: EndpointId) {
    Settled(s, e) ==> e in known && s.store.heap[s.store.correlations[e]][NO_TYPE] == known[e]
  }

  // ---------- one step ----------

  /** Updates of the endpoint that are under way stay so. */
  ghost predicate KeepsUpdating(s: State, s': State, e: EndpointId) {
    forall u :: u in s.threads && Updating(s.threads[u], e) ==> u in s'.threads && Updating(s'.threads[u], e)
  }

  /** An endpoint the step does not touch stays as it is. */
  lemma UntouchedStays(s: State, s': State, known: map<EndpointId, Correlation>, known': map<EndpointId, Correlation>,
                       touched: Option<EndpointId>, r: Option<ReceiverId>, e: EndpointId)
    requires MapsOk(s.store) && Guarantee(s.store, s'.store, touched, r) && touched != Some(e) && UpToDate(s, known, e)
    requires KeepsUpdating(s, s', e) && (e in known ==> e in known' && known'[e] == known[e])
    ensures UpToDate(s', known', e)
  {
    hide Updating;
  }

  lemma SameStays(s: State, s': State, known: map<EndpointId, Correlation>, e: EndpointId)
    requires s'.store.heap == s.store.heap && UpToDate(s, known, e) && KeepsUpdating(s, s', e)
    requires e in s'.store.correlations ==>
      e in s.store.correlations && s'.store.correlations[e] == s.store.correlations[e]
    ensures UpToDate(s', known, e)
  {
    hide Updating;
  }

  lemma UpdateLatest(s: State, t: nat, s': State, log: Log, known: map<EndpointId, Correlation>, e: EndpointId)
    requires Inv(s) && Fresh(s, log) && Enabled(s, Run(t)) && s' == Next(s, Run(t)) && s.threads[t].Update?
    requires UpToDate(s, known, e)
    ensures UpToDate(s', Effect(s, Run(t), known), e)
  {
    hide Inv, Fresh, UpToDate, Guarantee, UpdateStep, CanRun;
    var u := s.threads[t];
    InvParts(s);
    if e != u.endpoint.id {
      UpdateGood(s, t);
      OthersKeepUpdating(s, s', t, e);
      UntouchedStays(s, s', known, Effect(s, Run(t), known), Some(u.endpoint.id), None, e);
    } else if u.upc.UUnlock? {
      EntriesFact(s);
      UnlockLatest(s, t, s', log, known);
    } else {
      StillUpdating(s, t, s', Effect(s, Run(t), known));
    }
  }

  lemma OthersKeepUpdating(s: State, s': State, t: nat, e: EndpointId)
    requires t in s.threads && t in s'.threads && s'.threads == s.threads[t := s'.threads[t]]
    requires Updating(s.threads[t], e) ==> Updating(s'.threads[t], e)
    ensures KeepsUpdating(s, s', e)
  {
    hide Updating;
  }

  lemma StillUpdating(s: State, t: nat, s': State, known: map<EndpointId, Correlation>)
    requires Enabled(s, Run(t)) && s' == Next(s, Run(t)) && s.threads[t].Update? && !s.threads[t].upc.UUnlock?
    ensures UpToDate(s', known, s.threads[t].endpoint.id)
  {
    hide HasNoType, WriteField;
    assert t in s'.threads && Updating(s'.threads[t], s.threads[t].endpoint.id);
  }

  lemma EntriesFact(s: State)
    requires Inv(s)
    ensures EntriesOk(s.store)
  {
    hide ThreadsOk, Exclusive, NoTypeOk, SoundOk, MapsOk, EntriesOk, CreatedOnce, EventsOk;
  }

  lemma UnlockLatest(s: State, t: nat, s': State, log: Log, known: map<EndpointId, Correlation>)
    requires ThreadsOk(s) && EntriesOk(s.store) && Fresh(s, log) && Enabled(s, Run(t)) && s' == Next(s, Run(t))
    requires s.threads[t].Update? && s.threads[t].upc.UUnlock?
    ensures UpToDate(s', Effect(s, Run(t), known), s.threads[t].endpoint.id)
  {
    hide Fresh, CanRun, Updating;
    assert ThreadOk(s.store, s.threads[t]);
    FreshThread(s, t, log);
  }

  lemma GetLatest(s: State, t: nat, s': State, known: map<EndpointId, Correlation>, e: EndpointId)
    requires Inv(s) && Enabled(s, Run(t)) && s' == Next(s, Run(t)) && s.threads[t].Get? && UpToDate(s, known, e)
    ensures UpToDate(s', Effect(s, Run(t), known), e)
  {
    hide Inv, UpToDate, Guarantee, GetStep, CanRun;
    var g := s.threads[t];
    var touched := if g.gpc.GStart? then Some(g.endpointId) else EndpointHeld(g);
    var r := if g.gpc.GSave? then Some(g.receiver) else None;
    InvParts(s);
    OthersKeepUpdating(s, s', t, e);
    if touched != Some(e) {
      GetGood(s, t, touched, r);
      UntouchedStays(s, s', known, Effect(s, Run(t), known), touched, r, e);
    } else if g.gpc.GStore? {
      StoreLatest(s, t, s', known);
    } else {
      OwnGetLatest(s, t, s', known);
    }
  }

  lemma StoreLatest(s: State, t: nat, s': State, known: map<EndpointId, Correlation>)
    requires ThreadsOk(s) && Enabled(s, Run(t)) && s' == Next(s, Run(t))
    requires s.threads[t].Get? && s.threads[t].gpc.GStore?
    ensures UpToDate(s', Effect(s, Run(t), known), s.threads[t].endpointId)
  {
    hide CanRun, Updating;
    assert ThreadOk(s.store, s.threads[t]);
  }

  lemma OwnGetLatest(s: State, t: nat, s': State, known: map<EndpointId, Correlation>)
    requires MapsOk(s.store) && Enabled(s, Run(t)) && s' == Next(s, Run(t)) && s.threads[t].Get?
    requires !s.threads[t].gpc.GStore? && (s.threads[t].gpc.GStart? || EndpointHeld(s.threads[t]).Some?)
    requires UpToDate(s, known, s.threads[t].endpointId) && KeepsUpdating(s, s', s.threads[t].endpointId)
    ensures UpToDate(s', Effect(s, Run(t), known), s.threads[t].endpointId)
  {
    hide CanRun, Updating;
  }

  lemma StepLatest(s: State, a: Action, s': State, log: Log, known: map<EndpointId, Correlation>, e: EndpointId)
    requires Inv(s) && Fresh(s, log) && Enabled(s, a) && s' == Next(s, a) && UpToDate(s, known, e)
    ensures UpToDate(s', Effect(s, a, known), e)
  {
    hide Inv, Fresh, UpToDate, ThreadStep, CanRun;
    match a
    case Run(t) =>
      if s.threads[t].Update? {
        UpdateLatest(s, t, s', log, known, e);
      } else if s.threads[t].Get? {
        GetLatest(s, t, s', known, e);
      } else {
        AttrsLatest(s, t, s', known, e);
      }
    case Visit(t, _) => OthersKeepUpdating(s, s', t, e); SameStays(s, s', known, e);
    case EndVisits(t) => OthersKeepUpdating(s, s', t, e); SameStays(s, s', known, e);
    case ReapRun => DeleteLatest(s, s', known, e);
    case _ => SameStays(s, s', known, e);
  }

  lemma DeleteLatest(s: State, s': State, known: map<EndpointId, Correlation>, e: EndpointId)
    requires Enabled(s, ReapRun) && s' == Next(s, ReapRun) && UpToDate(s, known, e)
    ensures UpToDate(s', Effect(s, ReapRun, known), e)
  {
    hide Updating, EndpointFree;
  }

  lemma AttrsLatest(s: State, t: nat, s': State, known: map<EndpointId, Correlation>, e: EndpointId)
    requires Enabled(s, Run(t)) && s' == Next(s, Run(t)) && s.threads[t].Attrs? && UpToDate(s, known, e)
    ensures UpToDate(s', Effect(s, Run(t), known), e)
  {
    hide UpToDate, CanRun;
    OthersKeepUpdating(s, s', t, e);
    SameStays(s, s', known, e);
  }

  // ---------- every run ----------

  lemma {:induction false} KnownInEveryRun(states: seq<State>, actions: seq<Action>, i: nat, e: EndpointId)
    requires IsRun(states, actions) && i < |states|
    ensures UpToDate(states[i], Known(states, actions, i), e)
  {
    hide Inv, Fresh, UpToDate, Enabled, Next, Init, Effect, LogAt;
    if i == 0 {
      NothingKnown(states[0], e);
    } else {
      KnownInEveryRun(states, actions, i - 1, e);
      InvInEveryRun(states, actions, i - 1);
      FreshInEveryRun(states, actions, i - 1);
      StepLatest(states[i - 1], actions[i - 1], states[i], LogAt(states, actions, i - 1),
                 Known(states, actions, i - 1), e);
    }
  }

  lemma NothingKnown(s: State, e: EndpointId)
    requires Init(s)
    ensures UpToDate(s, map[], e)
  {
  }

  /** In every run: an endpoint no update of which is under way has the no-type entry of its latest update, or a new one
      if there was none since GetOrCreate made it; and every other entry of it agrees with that too, unless it was
      stored by a GetOrCreate that an update had passed. */
  lemma LatestInEveryRun(states: seq<State>, actions: seq<Action>, i: nat, e: EndpointId, k: ReceiverId)
    requires IsRun(states, actions) && i < |states| && Settled(states[i], e)
    requires k in states[i].store.heap[states[i].store.correlations[e]]
    ensures var m := states[i].store.correlations[e];
      && e in Known(states, actions, i)
      && states[i].store.heap[m][NO_TYPE] == Known(states, actions, i)[e]
      && (Agrees(states[i].store.heap[m][k], Known(states, actions, i)[e]) || Overtaken(states, actions, i, m, k))
  {
    hide Overtaken, Known;
    var s := states[i];
    var m := s.store.correlations[e];
    KnownInEveryRun(states, actions, i, e);
    InvInEveryRun(states, actions, i);
    forall t | t in s.threads ensures Walk(s.threads[t]) != Some(m) { NotWalked(s, t, e); }
    StaleOnlyIfPassed(states, actions, i, m, k);
  }

  lemma NotWalked(s: State, t: nat, e: EndpointId)
    requires Inv(s) && Settled(s, e) && t in s.threads
    ensures Walk(s.threads[t]) != Some(s.store.correlations[e])
  {
    hide Inv, Walk, Updating;
    InvParts(s);
    if Walk(s.threads[t]) == Some(s.store.correlations[e]) { WalkerFacts(s, t, s.store.correlations[e]); }
  }

  // ---------- the same as operations one after the other ----------

  /** The operation that takes effect in a step, if any: an update when it unlocks the endpoint, a GetOrCreate when it
      finds the endpoint known or has made it so, a deletion of the reaper at once. */
  function Taken(s: State, a: Action): seq<CorrelationStore.Operation> {
    if a.ReapRun? && s.reaper.RDelete? then [CorrelationStore.ForgetOp(s.reaper.e)]
    else if !a.Run? || a.t !in s.threads then []
    else
      var th := s.threads[a.t];
      if th.Update? && th.upc.UUnlock? then
        [CorrelationStore.UpdateOp(th.endpoint, th.state, th.observer, TimeOf(s, th.upc.m))]
      else if th.Get? && (th.gpc.GStore? || (th.gpc.GLoad? && th.endpointId in s.store.correlations)) then
        [CorrelationStore.GetOp(th.receiver, th.endpointId)]
      else []
  }

  ghost function Operations(states: seq<State>, actions: seq<Action>, i: nat): seq<CorrelationStore.Operation>
    requires i <= |actions| && i <= |states|
  {
    if i == 0 then [] else Operations(states, actions, i - 1) + Taken(states[i - 1], actions[i - 1])
  }

  ghost predicate Present(s: State, known: map<EndpointId, Correlation>) {
    forall e :: e in known ==> e in s.store.correlations && HasNoType(s.store, s.store.correlations[e])
  }

  lemma ThreadKeepsPresent(s: State, t: nat, s': State, known: map<EndpointId, Correlation>)
    requires Inv(s) && Enabled(s, Run(t)) && s' == Next(s, Run(t)) && Present(s, known)
    ensures Present(s', Effect(s, Run(t), known))
  {
    hide Inv, Guarantee, ThreadStep, CanRun, Effect, HasNoType, GoodStep;
    InvParts(s);
    StepGrows(s.store, s.now, s.threads[t]);
    StepKeepsNoTypes(s, t, s');
    assert Present(s', known);
    EffectPresent(s, t, s', known);
  }

  lemma StepKeepsNoTypes(s: State, t: nat, s': State)
    requires Inv(s) && Enabled(s, Run(t)) && s' == Next(s, Run(t))
    ensures forall m: nat :: HasNoType(s.store, m) ==> HasNoType(s'.store, m)
  {
    hide Inv, Guarantee, ThreadStep, CanRun, HasNoType;
    var th := s.threads[t];
    if th.Update? {
      UpdateGood(s, t);
      EntriesStay(s.store, s'.store, Some(th.endpoint.id), None);
    } else if th.Get? {
      var e := if th.gpc.GStart? then Some(th.endpointId) else EndpointHeld(th);
      var r := if th.gpc.GSave? then Some(th.receiver) else None;
      GetGood(s, t, e, r);
      EntriesStay(s.store, s'.store, e, r);
    } else {
      AttrsGood(s, t);
      EntriesStay(s.store, s'.store, None, None);
    }
  }

  lemma EntriesStay(st: Store, st': Store, e: Option<EndpointId>, r: Option<ReceiverId>)
    requires Guarantee(st, st', e, r)
    ensures forall m: nat :: HasNoType(st, m) ==> HasNoType(st', m)
  {
  }

  lemma EffectPresent(s: State, t: nat, s': State, known: map<EndpointId, Correlation>)
    requires ThreadsOk(s) && Enabled(s, Run(t)) && s' == Next(s, Run(t)) && Present(s', known)
    ensures Present(s', Effect(s, Run(t), known))
  {
    hide CanRun;
    assert ThreadOk(s.store, s.threads[t]);
  }

  lemma StepKeepsPresent(s: State, a: Action, s': State, known: map<EndpointId, Correlation>)
    requires Inv(s) && Enabled(s, a) && s' == Next(s, a) && Present(s, known)
    ensures Present(s', Effect(s, a, known))
  {
    hide Inv, ThreadStep, CanRun;
    if a.Run? { ThreadKeepsPresent(s, a.t, s', known); }
  }

  /** A GetOrCreate that stores a no-type entry does so for an endpoint nothing is known of. */
  lemma StoresUnknown(s: State, t: nat, known: map<EndpointId, Correlation>)
    requires ThreadsOk(s) && Present(s, known) && t in s.threads && s.threads[t].Get? && s.threads[t].gpc.GStore?
    ensures s.threads[t].endpointId !in known
  {
    assert ThreadOk(s.store, s.threads[t]);
  }

  /** A GetOrCreate that finds the endpoint there, under its lock, finds it known. */
  lemma FindsKnown(s: State, t: nat, known: map<EndpointId, Correlation>)
    requires Inv(s) && t in s.threads && s.threads[t].Get? && s.threads[t].gpc.GLoad?
    requires s.threads[t].endpointId in s.store.correlations && UpToDate(s, known, s.threads[t].endpointId)
    ensures s.threads[t].endpointId in known
  {
    hide Inv, Updating;
    var e := s.threads[t].endpointId;
    LoadedHasNoType(s, t, e);
    InvExclusive(s);
    GetHoldsQuiet(s, t, e);
  }

  lemma InvExclusive(s: State)
    requires Inv(s)
    ensures Exclusive(s)
  {
    hide Exclusive, ThreadsOk, NoTypeOk, SoundOk, StoreOk, ReaperOk;
  }

  lemma TakenIsEffect(s: State, a: Action, known: map<EndpointId, Correlation>, ops: seq<CorrelationStore.Operation>,
                      ttl: int)
    requires Inv(s) && Present(s, known) && CorrelationStore.ApplyAll(map[], ops, ttl) == known
    requires a.Run? && a.t in s.threads && s.threads[a.t].Get? ==> UpToDate(s, known, s.threads[a.t].endpointId)
    ensures CorrelationStore.ApplyAll(map[], ops + Taken(s, a), ttl) == Effect(s, a, known)
  {
    hide CorrelationStore.ApplyAll, Inv, Present, UpToDate;
    if Taken(s, a) == [] {
      assert ops + [] == ops;
    } else {
      CorrelationStore.ApplyAllSnoc(map[], ops, Taken(s, a)[0], ttl);
      if a.Run? && s.threads[a.t].Get? {
        InvParts(s);
        if s.threads[a.t].gpc.GStore? { StoresUnknown(s, a.t, known); } else { FindsKnown(s, a.t, known); }
      }
    }
  }

  /** Every interleaving, overlapping or not and reaped or not, knows of each endpoint what its operations leave in the
      simple form when they are taken one after the other in the order in which they take effect. */
  lemma {:induction false} KnownIsSequential(states: seq<State>, actions: seq<Action>, i: nat, ttl: int)
    requires IsRun(states, actions) && i < |states|
    ensures Known(states, actions, i) == CorrelationStore.ApplyAll(map[], Operations(states, actions, i), ttl)
    ensures Present(states[i], Known(states, actions, i))
  {
    hide Inv, Enabled, Next, Init, Effect, Taken, Present, UpToDate;
    if i == 0 {
      assert Present(states[0], map[]) by { NonePresent(states[0]); }
    } else {
      var s, a := states[i - 1], actions[i - 1];
      KnownIsSequential(states, actions, i - 1, ttl);
      InvInEveryRun(states, actions, i - 1);
      StepKeepsPresent(s, a, states[i], Known(states, actions, i - 1));
      if a.Run? && a.t in s.threads && s.threads[a.t].Get? {
        KnownInEveryRun(states, actions, i - 1, s.threads[a.t].endpointId);
      }
      TakenIsEffect(s, a, Known(states, actions, i - 1), Operations(states, actions, i - 1), ttl);
    }
  }

  lemma NonePresent(s: State)
    ensures Present(s, map[])
  {
  }
}
