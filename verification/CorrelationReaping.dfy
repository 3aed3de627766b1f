/** What the reaper of the correlation store deletes: under the endpoint's lock, exactly the endpoints whose last event
    said removed and is older than the ttl. */
module CorrelationReaping {
  import opened Strings
  import opened CorrelationMachine
  import opened CorrelationSafety
  import opened CorrelationRuns
  import opened CorrelationFreshness
  import opened CorrelationLatest
  import CorrelationStore

  /** Last heard of as removed, longer than `ttl` ago. */
  predicate LongGone(c: Correlation, now: int, ttl: int) {
    c.lastState == "removed" && now > c.lastUpdated + ttl
  }

  // ---------- under the lock ----------

  /** An operation's step touches no endpoint the reaper has locked. */
  lemma TouchesOthers(s: State, t: nat, s': State, e: EndpointId)
    returns (e': Option<EndpointId>, r: Option<ReceiverId>)
    requires Inv(s) && Enabled(s, Run(t)) && s' == Next(s, Run(t)) && ReaperHeld(s.reaper) == Some(e)
    ensures Guarantee(s.store, s'.store, e', r) && e' != Some(e)
  {
    hide Inv, Guarantee, ThreadStep, ReaperHeld, ThreadOk, StoreOk, FillsOnly, Sound;
    var th := s.threads[t];
    InvExclusive(s);
    e', r := None, None;
    if th.Update? {
      e' := Some(th.endpoint.id);
      UpdateGood(s, t);
    } else if th.Get? {
      e' := if th.gpc.GStart? then Some(th.endpointId) else EndpointHeld(th);
      r := if th.gpc.GSave? then Some(th.receiver) else None;
      GetGood(s, t, e', r);
    } else {
      AttrsGood(s, t);
    }
  }

  /** While the reaper has an endpoint's lock, only the reaper changes what the store says of the endpoint. */
  lemma LockedStays(s: State, a: Action, s': State, e: EndpointId)
    requires Inv(s) && Enabled(s, a) && s' == Next(s, a) && ReaperHeld(s.reaper) == Some(e) && a != ReapRun
    ensures s'.reaper == s.reaper && s'.ttl == s.ttl && s'.now >= s.now
    ensures e in s'.store.correlations <==> e in s.store.correlations
    ensures e in s.store.correlations && HasNoType(s.store, s.store.correlations[e]) ==>
      var m := s.store.correlations[e];
      s'.store.correlations[e] == m && HasNoType(s'.store, m) && s'.store.heap[m][NO_TYPE] == s.store.heap[m][NO_TYPE]
  {
    hide Inv, ThreadStep, CanRun, Guarantee;
    InvParts(s);
    if a.Run? {
      var e', r := TouchesOthers(s, a.t, s', e);
      GuaranteeKeeps(s.store, s'.store, e', r, e);
    }
  }

  lemma GuaranteeKeeps(st: Store, st': Store, e': Option<EndpointId>, r: Option<ReceiverId>, e: EndpointId)
    requires MapsOk(st) && Guarantee(st, st', e', r) && e' != Some(e)
    ensures e in st'.correlations <==> e in st.correlations
    ensures e in st.correlations && HasNoType(st, st.correlations[e]) ==>
      var m := st.correlations[e];
      st'.correlations[e] == m && HasNoType(st', m) && st'.heap[m][NO_TYPE] == st.heap[m][NO_TYPE]
    ensures e in st.latest ==> e in st'.latest && st'.latest[e] == st.latest[e]
  {
  }

  /** At its check the reaper finds the endpoint there, with a no-type entry and no update under way. */
  lemma CheckFinds(s: State)
    requires Inv(s) && s.reaper.RCheck?
    ensures Current(s.store, s.reaper.e, s.reaper.m) && Settled(s, s.reaper.e)
  {
    hide Inv, Updating;
    var e, m := s.reaper.e, s.reaper.m;
    ReaperFact(s);
    InvExclusive(s);
    InvParts(s);
    ReaperHoldsQuiet(s, e);
    LockedIsFilled(s, e, m);
  }

  lemma LockedIsFilled(s: State, e: EndpointId, m: nat)
    requires Inv(s) && ReaperHeld(s.reaper) == Some(e) && Current(s.store, e, m)
    ensures NO_TYPE in s.store.heap[m]
  {
    hide SoundOk, ReaperOk, ReceiverHeld, EntriesOk, CreatedOnce, EventsOk, Exclusive;
    ReaperHoldsQuiet(s, e);
    if NO_TYPE !in s.store.heap[m] {
      var t :| t in s.threads && Filling(s.threads[t], m);
      ThreadFact(s, t);
      assert false;
    }
  }

  // ---------- one endpoint ----------

  /** The reaper has the endpoint's lock from state `i` to state `j`. */
  ghost predicate HoldsAll(states: seq<State>, e: EndpointId, i: nat, j: nat) {
    forall k :: i <= k <= j && k < |states| ==> ReaperHeld(states[k].reaper) == Some(e)
  }

  /** Where the reaper stands between its check and giving up the lock, and what it has done. */
  ghost predicate Bound(s: State, e: EndpointId, gone: bool) {
    && (s.reaper.RDelete? || s.reaper.RUnlock?)
    && (s.reaper.RDelete? ==> gone && e in s.store.correlations)
    && (s.reaper.RUnlock? ==> (e in s.store.correlations <==> !gone))
  }

  lemma CheckDecides(s: State, s': State)
    requires Inv(s) && s.reaper.RCheck? && Enabled(s, ReapRun) && s' == Next(s, ReapRun)
    ensures var e, m := s.reaper.e, s.reaper.m;
      Settled(s, e) && s.store.correlations[e] == m && Bound(s', e, LongGone(s.store.heap[m][NO_TYPE], s.now, s.ttl))
  {
    hide Inv, EndpointFree, Updating;
    CheckFinds(s);
  }

  lemma BoundStays(s: State, a: Action, s': State, e: EndpointId, gone: bool)
    requires Inv(s) && Enabled(s, a) && s' == Next(s, a) && Bound(s, e, gone)
    requires ReaperHeld(s.reaper) == Some(e) && ReaperHeld(s'.reaper) == Some(e)
    ensures Bound(s', e, gone)
  {
    hide Inv, EndpointFree, CanRun, ThreadStep;
    if a != ReapRun { LockedStays(s, a, s', e); }
  }

  lemma {:induction false} DecidedAtCheck(states: seq<State>, actions: seq<Action>, i: nat, j: nat)
    requires IsRun(states, actions) && i < j < |states| && states[i].reaper.RCheck? && actions[i] == ReapRun
    requires HoldsAll(states, states[i].reaper.e, i, j)
    ensures var s, e := states[i], states[i].reaper.e;
      && Settled(s, e)
      && Bound(states[j], e, LongGone(s.store.heap[s.store.correlations[e]][NO_TYPE], s.now, s.ttl))
    decreases j
  {
    hide Inv, Enabled, Next, Init, Bound, LongGone, Updating, ReaperHeld;
    InvInEveryRun(states, actions, j - 1);
    if j == i + 1 {
      CheckDecides(states[i], states[j]);
    } else {
      DecidedAtCheck(states, actions, i, j - 1);
      var s, e := states[i], states[i].reaper.e;
      BoundStays(states[j - 1], actions[j - 1], states[j], e,
                 LongGone(s.store.heap[s.store.correlations[e]][NO_TYPE], s.now, s.ttl));
    }
  }

  /** In every run: when the reaper gives up an endpoint's lock, the endpoint is gone exactly if, at the check made
      under that lock, the last known event of it said removed and was older than the ttl. */
  lemma ReapsExactly(states: seq<State>, actions: seq<Action>, i: nat, j: nat)
    requires IsRun(states, actions) && i < j < |states| && states[i].reaper.RCheck? && actions[i] == ReapRun
    requires HoldsAll(states, states[i].reaper.e, i, j) && states[j].reaper.RUnlock?
    ensures var e := states[i].reaper.e;
      && e in Known(states, actions, i)
      && (e !in states[j].store.correlations <==> LongGone(Known(states, actions, i)[e], states[i].now, states[i].ttl))
  {
    hide Known, LongGone, IsRun;
    DecidedAtCheck(states, actions, i, j);
    KnownInEveryRun(states, actions, i, states[i].reaper.e);
  }

  lemma {:induction false} ChecksLater(states: seq<State>, actions: seq<Action>, i: nat, j: nat) returns (c: nat)
    requires IsRun(states, actions) && i < j < |states| && states[i].reaper.RCheck? && states[j].reaper.RUnlock?
    requires HoldsAll(states, states[i].reaper.e, i, j)
    ensures i <= c < j && states[c].reaper == states[i].reaper && actions[c] == ReapRun
    ensures states[c].ttl == states[i].ttl && states[c].now >= states[i].now
    ensures var e, s, s' := states[i].reaper.e, states[i], states[c];
      && Settled(s, e) && Settled(s', e)
      && s'.store.heap[s'.store.correlations[e]][NO_TYPE] == s.store.heap[s.store.correlations[e]][NO_TYPE]
    decreases j - i
  {
    hide Inv, Enabled, Next, Init, Updating, ReaperHeld;
    InvInEveryRun(states, actions, i);
    CheckFinds(states[i]);
    c := i;
    if actions[i] != ReapRun {
      LockedStays(states[i], actions[i], states[i + 1], states[i].reaper.e);
      c := ChecksLater(states, actions, i + 1, j);
    }
  }

  /** In every run: if, while the reaper has an endpoint's lock and is yet to check, the last known event of the
      endpoint says removed and is older than the ttl, the endpoint is gone when the reaper gives up the lock. */
  lemma RemovedIsReaped(states: seq<State>, actions: seq<Action>, i: nat, j: nat)
    requires IsRun(states, actions) && i < j < |states| && states[i].reaper.RCheck? && states[j].reaper.RUnlock?
    requires HoldsAll(states, states[i].reaper.e, i, j)
    ensures var e := states[i].reaper.e;
      && e in Known(states, actions, i)
      && (LongGone(Known(states, actions, i)[e], states[i].now, states[i].ttl) ==>
            e !in states[j].store.correlations)
  {
    hide Known, IsRun, Settled;
    var e := states[i].reaper.e;
    var c := ChecksLater(states, actions, i, j);
    DecidedAtCheck(states, actions, c, j);
    KnownInEveryRun(states, actions, i, e);
  }

  // ---------- a whole pass ----------

  predicate ByReaper(a: Action) {
    a.ReapPick? || a.ReapRun?
  }

  /** What is left of `known` when the endpoints of `done` have been looked at. */
  function LeftOf(known: map<EndpointId, Correlation>, done: set<EndpointId>, now: int, ttl: int)
    : map<EndpointId, Correlation>
  {
    map e | e in known && !(e in done && LongGone(known[e], now, ttl)) :: known[e]
  }

  /** The endpoints the reaper is done with. */
  function Done(pc: ReaperPc): set<EndpointId> {
    match pc
    case Idle => {}
    case Ranging(seen) => seen
    case RUnlock(seen, _) => seen
    case _ => pc.seen - {pc.e}
  }

  /** In the middle of a pass that began with `known`. */
  ghost predicate Passing(s: State, known': map<EndpointId, Correlation>, known: map<EndpointId, Correlation>, now: int,
                          ttl: int)
  {
    && !s.reaper.Idle? && s.now == now && s.ttl == ttl && known' == LeftOf(known, Done(s.reaper), now, ttl)
    && (s.reaper.RLock? || s.reaper.RCheck? || s.reaper.RDelete? ==> s.reaper.e in s.reaper.seen)
    && (s.reaper.RDelete? ==> s.reaper.e in known && LongGone(known[s.reaper.e], now, ttl))
    && Deleted(s.store, Done(s.reaper), known, now, ttl)
  }

  ghost predicate Deleted(st: Store, done: set<EndpointId>, known: map<EndpointId, Correlation>, now: int, ttl: int) {
    forall e :: e in done && e in known && LongGone(known[e], now, ttl) ==> e !in st.correlations
  }

  lemma PassStep(s: State, a: Action, s': State, known': map<EndpointId, Correlation>,
                 known: map<EndpointId, Correlation>, now: int, ttl: int)
    requires Inv(s) && ByReaper(a) && Enabled(s, a) && s' == Next(s, a) && Passing(s, known', known, now, ttl)
    requires s.reaper.RCheck? ==> UpToDate(s, known', s.reaper.e)
    ensures Passing(s', Effect(s, a, known'), known, now, ttl)
  {
    hide Inv, EndpointFree, LeftOf, LongGone, UpToDate;
    match s.reaper
    case Ranging(seen) => assert (seen + {a.e}) - {a.e} == seen;
    case RCheck(seen, e, m) =>
      CheckFound(s, s', known');
      LeftHas(known, seen - {e}, now, ttl, e);
      if !LongGone(known[e], now, ttl) { LeftSame(known, seen, now, ttl, e); }
    case RDelete(seen, e, _) => LeftWithout(known, seen, now, ttl, e);
    case _ =>
  }

  lemma CheckFound(s: State, s': State, known': map<EndpointId, Correlation>)
    requires Inv(s) && s.reaper.RCheck? && Enabled(s, ReapRun) && s' == Next(s, ReapRun)
    requires UpToDate(s, known', s.reaper.e)
    ensures s.reaper.e in known' && s'.now == s.now && s'.ttl == s.ttl
    ensures var pc := s.reaper;
      s'.reaper == if LongGone(known'[pc.e], s.now, s.ttl) then RDelete(pc.seen, pc.e, pc.m) else RUnlock(pc.seen, pc.e)
  {
    hide Inv, EndpointFree, Updating;
    CheckFinds(s);
  }

  lemma LeftHas(known: map<EndpointId, Correlation>, done: set<EndpointId>, now: int, ttl: int, e: EndpointId)
    requires e in LeftOf(known, done, now, ttl)
    ensures e in known && known[e] == LeftOf(known, done, now, ttl)[e]
  {
  }

  lemma LeftSame(known: map<EndpointId, Correlation>, seen: set<EndpointId>, now: int, ttl: int, e: EndpointId)
    requires e in known && !LongGone(known[e], now, ttl)
    ensures LeftOf(known, seen - {e}, now, ttl) == LeftOf(known, seen, now, ttl)
  {
    hide LongGone;
  }

  lemma LeftWithout(known: map<EndpointId, Correlation>, seen: set<EndpointId>, now: int, ttl: int, e: EndpointId)
    requires e in seen && e in known && LongGone(known[e], now, ttl)
    ensures LeftOf(known, seen - {e}, now, ttl) - {e} == LeftOf(known, seen, now, ttl)
  {
    hide LongGone;
  }

  lemma {:induction false} PassInRun(states: seq<State>, actions: seq<Action>, b: nat, i: nat)
    requires IsRun(states, actions) && b < i < |states| && actions[b] == ReapBegin
    requires forall k :: b < k < i ==> ByReaper(actions[k])
    ensures Passing(states[i], Known(states, actions, i), Known(states, actions, b), states[b].now, states[b].ttl)
    decreases i
  {
    hide Inv, Enabled, Passing, UpToDate, Effect, ByReaper, Init, Next;
    if i == b + 1 {
      PassBegins(states[b], states[i], Known(states, actions, b));
    } else {
      PassInRun(states, actions, b, i - 1);
      InvInEveryRun(states, actions, i - 1);
      if states[i - 1].reaper.RCheck? { KnownInEveryRun(states, actions, i - 1, states[i - 1].reaper.e); }
      PassStep(states[i - 1], actions[i - 1], states[i], Known(states, actions, i - 1), Known(states, actions, b),
               states[b].now, states[b].ttl);
    }
  }

  lemma PassBegins(s: State, s': State, known: map<EndpointId, Correlation>)
    requires Enabled(s, ReapBegin) && s' == Next(s, ReapBegin)
    ensures Passing(s', Effect(s, ReapBegin, known), known, s.now, s.ttl)
  {
    hide LongGone;
  }

  lemma {:induction false} PickedIsSeen(states: seq<State>, actions: seq<Action>, k: nat, i: nat, e: EndpointId)
    requires IsRun(states, actions) && k < i < |states| && actions[k] == ReapPick(e)
    requires forall l :: k < l < i ==> ByReaper(actions[l])
    ensures !states[i].reaper.Idle? && e in states[i].reaper.seen
    decreases i
  {
    hide CanRun, EndpointFree, Init;
    assert Enabled(states[i - 1], actions[i - 1]) && states[i] == Next(states[i - 1], actions[i - 1]);
    if i > k + 1 { PickedIsSeen(states, actions, k, i - 1, e); }
  }

  lemma EndsRanging(s: State, known: map<EndpointId, Correlation>)
    requires Enabled(s, ReapEnd)
    ensures s.reaper.Ranging? && Effect(s, ReapEnd, known) == known && Next(s, ReapEnd).store == s.store
  {
  }

  /** With every known endpoint seen, what is left is what the whole-pass operation leaves. */
  lemma PassEnds(known: map<EndpointId, Correlation>, seen: set<EndpointId>, now: int, ttl: int)
    requires known.Keys <= seen
    ensures LeftOf(known, seen, now, ttl) == map e | e in known && !LongGone(known[e], now, ttl) :: known[e]
    ensures LeftOf(known, seen, now, ttl) == CorrelationStore.Apply(known, CorrelationStore.ReapOp(now), ttl)
  {
    assert forall e :: e in known ==> e in seen;
  }

  /** From a `ReapBegin` to a `ReapEnd` with only the reaper taking steps, every endpoint of `known` picked. */
  ghost predicate IsPass(states: seq<State>, actions: seq<Action>, b: nat, f: nat, known: map<EndpointId, Correlation>)
  {
    && IsRun(states, actions) && b < f < |actions| && actions[b] == ReapBegin && actions[f] == ReapEnd
    && (forall k :: b < k < f ==> ByReaper(actions[k]))
    && (forall e :: e in known ==> exists k :: b < k < f && actions[k] == ReapPick(e))
  }

  lemma AllSeen(states: seq<State>, actions: seq<Action>, b: nat, f: nat, known: map<EndpointId, Correlation>)
    requires IsPass(states, actions, b, f, known)
    ensures states[f].reaper.Ranging? && known.Keys <= states[f].reaper.seen
  {
    hide Next, Init, ByReaper;
    assert Enabled(states[f], ReapEnd);
    forall e | e in known ensures e in states[f].reaper.seen {
      hide Enabled;
      var k :| b < k < f && actions[k] == ReapPick(e);
      PickedIsSeen(states, actions, k, f, e);
    }
  }

  /** What the end of a pass finds. */
  lemma PassDone(states: seq<State>, actions: seq<Action>, b: nat, f: nat, known: map<EndpointId, Correlation>)
    requires b <= |actions| && b < |states| && IsPass(states, actions, b, f, known)
    requires known == Known(states, actions, b)
    ensures var s := states[f]; var now, ttl := states[b].now, states[b].ttl;
      && s.reaper.Ranging? && known.Keys <= s.reaper.seen && states[f + 1].store == s.store
      && Known(states, actions, f + 1) == LeftOf(known, s.reaper.seen, now, ttl)
      && Deleted(s.store, s.reaper.seen, known, now, ttl)
  {
    hide LeftOf, Enabled, Next, Init, ByReaper, Effect, Deleted;
    AllSeen(states, actions, b, f, known);
    PassInRun(states, actions, b, f);
    EndsRanging(states[f], Known(states, actions, f));
  }

  /** A pass of the reaper that nothing interrupts and that picks every known endpoint does to what is known what the
      whole-pass operation of the simple form does: it forgets exactly the endpoints long gone. */
  lemma WholePass(states: seq<State>, actions: seq<Action>, b: nat, f: nat, known: map<EndpointId, Correlation>)
    requires b <= |actions| && b < |states| && known == Known(states, actions, b)
    requires IsPass(states, actions, b, f, known)
    ensures var now, ttl := states[b].now, states[b].ttl;
      && Known(states, actions, f + 1) == CorrelationStore.Apply(known, CorrelationStore.ReapOp(now), ttl)
      && Known(states, actions, f + 1) == (map e | e in known && !LongGone(known[e], now, ttl) :: known[e])
      && (forall e :: e in known ==> (e in states[f + 1].store.correlations <==> !LongGone(known[e], now, ttl)))
  {
    hide LongGone, LeftOf, CorrelationStore.Apply, Known, Operations, HasNoType, CorrelationStore.ApplyAll, Enabled,
      Next, Init, ByReaper;
    PassDone(states, actions, b, f, known);
    KnownIsSequential(states, actions, f + 1, 0);
    PassEnds(known, states[f].reaper.seen, states[b].now, states[b].ttl);
  }
}
