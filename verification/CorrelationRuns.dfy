/** The theorems about every run of the correlation store: coherence, no deadlock, safe reaping. */
module CorrelationRuns {
  import opened Strings
  import opened CorrelationMachine
  import opened CorrelationSafety

  // ---------- the invariant over runs ----------

  lemma TickKeeps(s: State, d: nat)
    requires Inv(s)
    ensures Inv(s.(now := s.now + d))
  {
    hide Exclusive, ThreadsOk, NoTypeOk, SoundOk, MapsOk, EntriesOk, CreatedOnce;
    var s' := s.(now := s.now + d);
    assert Exclusive(s') && ThreadsOk(s') && NoTypeOk(s') && SoundOk(s') by { SameThreads(s, s'); }
  }

  /** Nothing but the clock and the reaper's position changed. */
  lemma SameThreads(s: State, s': State)
    requires s'.store == s.store && s'.threads == s.threads && ReaperHeld(s'.reaper) == ReaperHeld(s.reaper)
    ensures Exclusive(s) ==> Exclusive(s')
    ensures ThreadsOk(s) ==> ThreadsOk(s')
    ensures NoTypeOk(s) ==> NoTypeOk(s')
    ensures SoundOk(s) ==> SoundOk(s')
  {
    hide EndpointHeld, ReceiverHeld, ReaperHeld, ThreadOk, Sound;
  }

  lemma StartHoldsNothing(st: Store, th: Thread)
    requires AtStart(th)
    ensures EndpointHeld(th).None? && ReceiverHeld(th).None? && ThreadOk(st, th)
  {
  }

  lemma SpawnKeeps(s: State, t: nat, th: Thread)
    requires Inv(s) && t !in s.threads && AtStart(th)
    ensures Inv(s.(threads := s.threads[t := th]))
  {
    hide StoreOk, ReaperOk, Sound, Exclusive, ThreadsOk, NoTypeOk, SoundOk, AtStart;
    SpawnExclusive(s, t, th);
    SpawnThreads(s, t, th);
    WitnessesStay(s, s.(threads := s.threads[t := th]));
  }

  lemma SpawnExclusive(s: State, t: nat, th: Thread)
    requires Exclusive(s) && t !in s.threads && AtStart(th)
    ensures Exclusive(s.(threads := s.threads[t := th]))
  {
    hide EndpointHeld, ReceiverHeld, ReaperHeld, ThreadOk, AtStart;
    StartHoldsNothing(s.store, th);
  }

  lemma SpawnThreads(s: State, t: nat, th: Thread)
    requires ThreadsOk(s) && AtStart(th)
    ensures ThreadsOk(s.(threads := s.threads[t := th]))
  {
    hide EndpointHeld, ReceiverHeld, ThreadOk, AtStart;
    StartHoldsNothing(s.store, th);
  }

  /** Operations that are being waited for are still there. */
  lemma WitnessesStay(s: State, s': State)
    requires s'.store.heap == s.store.heap && s'.store.correlations.Keys <= s.store.correlations.Keys
    requires forall e :: e in s'.store.correlations && Sound(s.store, e) ==> Sound(s'.store, e)
    requires forall t :: t in s.threads ==> t in s'.threads && s'.threads[t] == s.threads[t]
    ensures NoTypeOk(s) ==> NoTypeOk(s')
    ensures SoundOk(s) ==> SoundOk(s')
  {
    hide Filling, Updating, Sound;
    if NoTypeOk(s) {
      forall m | 0 <= m < |s'.store.heap| && NO_TYPE !in s'.store.heap[m]
        ensures exists u :: u in s'.threads && Filling(s'.threads[u], m)
      {
        var u :| u in s.threads && Filling(s.threads[u], m);
        assert s'.threads[u] == s.threads[u];
      }
    }
    if SoundOk(s) {
      forall e | e in s'.store.correlations && !Sound(s'.store, e)
        ensures exists u :: u in s'.threads && Updating(s'.threads[u], e)
      {
        var u :| u in s.threads && Updating(s.threads[u], e);
        assert s'.threads[u] == s.threads[u];
      }
    }
  }

  /** The reaper moves without deleting. */
  lemma ReaperMoves(s: State, pc: ReaperPc)
    requires Inv(s) && ReaperOk(s.store, s.now, s.ttl, pc)
    requires ReaperHeld(pc).Some? && ReaperHeld(pc) != ReaperHeld(s.reaper) ==> EndpointFree(s, ReaperHeld(pc).value)
    ensures Inv(s.(reaper := pc))
  {
    hide EndpointHeld, ReceiverHeld, ReaperHeld, ThreadOk, Sound, StoreOk, ReaperOk, Filling, Updating;
    var s' := s.(reaper := pc);
    assert NoTypeOk(s') && SoundOk(s') && ThreadsOk(s');
  }

  lemma ReaperHoldsQuiet(s: State, e: EndpointId)
    requires Exclusive(s) && ReaperHeld(s.reaper) == Some(e)
    ensures forall t :: t in s.threads ==> EndpointHeld(s.threads[t]) != Some(e) && !Updating(s.threads[t], e)
  {
    hide EndpointHeld, ReaperHeld;
  }

  /** What the reaper finds under the endpoint's lock before it deletes. */
  lemma CheckedIsRemoved(s: State, seen: set<EndpointId>, e: EndpointId, m: nat)
    requires Inv(s) && s.reaper == RCheck(seen, e, m)
    requires NO_TYPE in s.store.Inner(m) && s.store.Inner(m)[NO_TYPE].lastState == REMOVED
    requires s.now - s.store.Inner(m)[NO_TYPE].lastUpdated > s.ttl
    ensures ReaperOk(s.store, s.now, s.ttl, RDelete(seen, e, m))
  {
    hide ThreadsOk, NoTypeOk, SoundOk, Exclusive, StoreOk;
    ReaperHoldsQuiet(s, e);
    QuietIsSound(s, e);
  }

  lemma DropEndpoint(st: Store, now: int, e: EndpointId)
    requires StoreOk(st, now)
    ensures var st' := st.(correlations := st.correlations - {e});
      && StoreOk(st', now) && Guarantee(st, st', Some(e), None)
      && (forall e' :: e' in st'.correlations && Sound(st, e') ==> Sound(st', e'))
  {
    var st' := st.(correlations := st.correlations - {e});
    assert forall m: nat :: st'.Inner(m) == st.Inner(m);
  }

  lemma DeleteKeeps(s: State, e: EndpointId, pc: ReaperPc)
    requires Inv(s) && s.reaper.RDelete? && s.reaper.e == e && pc == RUnlock(s.reaper.seen, e)
    ensures Inv(s.(store := s.store.(correlations := s.store.correlations - {e}), reaper := pc))
  {
    hide EndpointHeld, ReceiverHeld, ThreadsOk, Sound, Guarantee, NoTypeOk, SoundOk, StoreOk;
    var st' := s.store.(correlations := s.store.correlations - {e});
    DropEndpoint(s.store, s.now, e);
    DropThreads(s, e, st', pc);
    WitnessesStay(s, s.(store := st', reaper := pc));
  }

  lemma DropThreads(s: State, e: EndpointId, st': Store, pc: ReaperPc)
    requires StoreOk(s.store, s.now) && ThreadsOk(s) && Exclusive(s) && ReaperHeld(s.reaper) == Some(e)
    requires Guarantee(s.store, st', Some(e), None)
    ensures ThreadsOk(s.(store := st', reaper := pc))
  {
    hide ThreadOk, Guarantee, MapsOk, EntriesOk, CreatedOnce, EventsOk;
    ReaperHoldsQuiet(s, e);
    forall t | t in s.threads ensures ThreadOk(st', s.threads[t]) {
      ThreadStable(s.store, st', Some(e), None, s.threads[t]);
    }
  }

  lemma ReapKeeps(s: State, a: Action)
    requires Inv(s) && Enabled(s, a) && (a.ReapBegin? || a.ReapPick? || a.ReapEnd? || a.ReapRun?)
    ensures Inv(Next(s, a))
  {
    hide Inv;
    match a
    case ReapBegin => ReaperMoves(s, Ranging({}));
    case ReapPick(e) =>
      assert Current(s.store, e, s.store.correlations[e]) by { CurrentMap(s, e); }
      ReaperMoves(s, RLock(s.reaper.seen + {e}, e, s.store.correlations[e]));
    case ReapEnd => ReaperMoves(s, Idle);
    case ReapRun =>
      var (st, pc) := ReaperStep(s.store, s.now, s.ttl, s.reaper);
      assert ReaperOk(s.store, s.now, s.ttl, s.reaper) by { ReaperFact(s); }
      match s.reaper {
        case RLock(_, _, _) => ReaperMoves(s, pc);
        case RCheck(seen, e, m) =>
          if pc.RDelete? { CheckedIsRemoved(s, seen, e, m); }
          ReaperMoves(s, pc);
        case RDelete(_, e, _) => DeleteKeeps(s, e, pc);
        case RUnlock(_, _) => ReaperMoves(s, pc);
      }
  }

  lemma CurrentMap(s: State, e: EndpointId)
    requires Inv(s) && e in s.store.correlations
    ensures Current(s.store, e, s.store.correlations[e])
  {
    hide Exclusive, ThreadsOk, NoTypeOk, SoundOk, ReaperOk;
  }

  lemma ReaperFact(s: State)
    requires Inv(s)
    ensures ReaperOk(s.store, s.now, s.ttl, s.reaper)
  {
    hide Exclusive, ThreadsOk, NoTypeOk, SoundOk, StoreOk;
  }

  lemma StepKeeps(s: State, a: Action)
    requires Inv(s) && Enabled(s, a)
    ensures Inv(Next(s, a))
  {
    hide Inv, CanRun, ThreadStep, ReaperStep;
    match a
    case Tick(d) => TickKeeps(s, d);
    case Spawn(t, th) => SpawnKeeps(s, t, th);
    case Run(_) => OperationKeeps(s, a);
    case Visit(_, _) => OperationKeeps(s, a);
    case EndVisits(_) => OperationKeeps(s, a);
    case _ => ReapKeeps(s, a);
  }

  lemma InvAtFirst(s: State)
    requires Init(s)
    ensures Inv(s)
  {
  }

  lemma {:induction false} InvInEveryRun(states: seq<State>, actions: seq<Action>, i: nat)
    requires IsRun(states, actions) && i < |states|
    ensures Inv(states[i])
  {
    hide Inv, Enabled, Next, Init;
    if i > 0 {
      InvInEveryRun(states, actions, i - 1);
      StepKeeps(states[i - 1], actions[i - 1]);
    } else {
      InvAtFirst(states[0]);
    }
  }

  // ---------- theorems ----------

  /** In every state of every run: an inner map whose endpoint lock is free has its no-type entry; every entry names
      the receiver it is stored under; GetOrCreate never finds the no-type entry missing, and what it returns names the
      receiver asked for; no entry was created twice; and no lock has two holders. */
  lemma CoherentInEveryRun(states: seq<State>, actions: seq<Action>, i: nat)
    requires IsRun(states, actions) && i < |states|
    ensures var st := states[i].store;
      && |st.home| == |st.heap|
      && (forall m :: 0 <= m < |st.heap| && EndpointFree(states[i], st.home[m]) ==> NO_TYPE in st.heap[m])
      && (forall m, k :: 0 <= m < |st.heap| && k in st.heap[m] ==> st.heap[m][k].receiverId == k)
      && (forall m: nat, k :: st.created[(m, k)] <= 1)
    ensures forall t :: t in states[i].threads && states[i].threads[t].Get? ==>
      var g := states[i].threads[t]; g.gpc != GCrash && (g.gpc.GDone? ==> g.gpc.result.receiverId == g.receiver)
    ensures Exclusive(states[i])
  {
    InvInEveryRun(states, actions, i);
    CoherentState(states[i]);
  }

  lemma CoherentState(s: State)
    requires Inv(s)
    ensures |s.store.home| == |s.store.heap|
    ensures forall m :: 0 <= m < |s.store.heap| && EndpointFree(s, s.store.home[m]) ==> NO_TYPE in s.store.heap[m]
    ensures forall m, k :: 0 <= m < |s.store.heap| && k in s.store.heap[m] ==> s.store.heap[m][k].receiverId == k
    ensures forall m: nat, k :: s.store.created[(m, k)] <= 1
    ensures forall t :: t in s.threads && s.threads[t].Get? ==>
      var g := s.threads[t]; g.gpc != GCrash && (g.gpc.GDone? ==> g.gpc.result.receiverId == g.receiver)
  {
    hide SoundOk, ReaperOk, Exclusive, ReceiverHeld, Filling, EndpointHeld, EndpointFree, NoTypeOk, UpdateOk;
    forall m | 0 <= m < |s.store.heap| && NO_TYPE !in s.store.heap[m] ensures !EndpointFree(s, s.store.home[m]) {
      FillerHolds(s, m);
    }
  }

  /** An inner map without its no-type entry belongs to a locked endpoint. */
  lemma FillerHolds(s: State, m: nat)
    requires Inv(s) && m < |s.store.heap| && |s.store.home| == |s.store.heap| && NO_TYPE !in s.store.heap[m]
    ensures !EndpointFree(s, s.store.home[m])
  {
    hide SoundOk, ReaperOk, Exclusive, ReceiverHeld, EntriesOk, CreatedOnce, EventsOk;
    var t :| t in s.threads && Filling(s.threads[t], m);
    assert ThreadOk(s.store, s.threads[t]);
    assert EndpointHeld(s.threads[t]) == Some(s.store.home[m]);
  }

  /** Reaping is safe in every run: an endpoint disappears only in a reaper step, and then its latest UpdateEndpoint
      said removed and is older than the ttl. So an endpoint re-added while the reaper waits for its lock, or one never
      seen in an event, is never deleted. */
  lemma ReapIsSafe(states: seq<State>, actions: seq<Action>, i: nat, e: EndpointId)
    requires IsRun(states, actions) && i < |actions|
    requires e in states[i].store.correlations && e !in states[i + 1].store.correlations
    ensures actions[i] == ReapRun
    ensures e in states[i].store.latest && states[i].store.latest[e].state == REMOVED
    ensures states[i].now - states[i].store.latest[e].time > states[i].ttl
  {
    InvInEveryRun(states, actions, i);
    DeletionIsSafe(states[i], actions[i], e);
  }

  lemma DeletionIsSafe(s: State, a: Action, e: EndpointId)
    requires Inv(s) && Enabled(s, a) && e in s.store.correlations && e !in Next(s, a).store.correlations
    ensures a == ReapRun
    ensures e in s.store.latest && s.store.latest[e].state == REMOVED && s.now - s.store.latest[e].time > s.ttl
  {
    hide Inv, ThreadStep, CanRun;
    ReaperFact(s);
    if a.Run? { StepGrows(s.store, s.now, s.threads[a.t]); }
  }

  lemma StepGrows(st: Store, now: int, th: Thread)
    ensures Grows(st, ThreadStep(st, now, th).0)
  {
    hide UpdateStep, GetStep, AttrsStep, Grows;
    if th.Update? {
      UpdateGrows(st, now, th);
    } else if th.Get? {
      GetGrows(st, th);
    } else {
      AttrsGrows(st, th);
    }
  }

  lemma UpdateGrows(st: Store, now: int, u: Thread)
    requires u.Update?
    ensures Grows(st, UpdateStep(st, now, u).0)
  {
    hide WriteField;
  }

  lemma AttrsGrows(st: Store, a: Thread)
    requires a.Attrs?
    ensures Grows(st, AttrsStep(st, a).0)
  {
  }

  // ---------- no deadlock ----------

  /** An action by which some operation in progress, or the reaper, advances. */
  ghost predicate Progress(a: Action) {
    a.Run? || a.Visit? || a.EndVisits? || a.ReapEnd? || a.ReapRun?
  }

  ghost predicate Unfinished(s: State) {
    !s.reaper.Idle? || exists t :: t in s.threads && !Finished(s.threads[t])
  }

  /** Whoever holds a receiver lock asks for no lock; whoever holds an endpoint lock asks for no endpoint lock. */
  lemma LockOrder(th: Thread)
    ensures ReceiverHeld(th).Some? ==> EndpointWanted(th).None? && ReceiverWanted(th).None?
    ensures EndpointHeld(th).Some? ==> EndpointWanted(th).None?
    ensures EndpointHeld(th).Some? || ReceiverHeld(th).Some? ==> !Finished(th)
  {
  }

  /** An unfinished operation that is not waiting can take a step. */
  lemma CanAdvance(s: State, t: nat)
    requires Inv(s) && t in s.threads && !Finished(s.threads[t])
    requires EndpointWanted(s.threads[t]).Some? ==> EndpointFree(s, EndpointWanted(s.threads[t]).value)
    requires ReceiverWanted(s.threads[t]).Some? ==> ReceiverFree(s, ReceiverWanted(s.threads[t]).value)
    ensures exists a :: Progress(a) && Enabled(s, a)
  {
    hide StoreOk, Exclusive, ReaperOk, NoTypeOk, SoundOk, EndpointFree, ReceiverFree, EndpointHeld, ReceiverHeld;
    var th := s.threads[t];
    assert ThreadOk(s.store, th);
    if !InWalk(th) {
      assert Progress(Run(t)) && Enabled(s, Run(t));
    } else if th.upc.must <= th.upc.visited {
      assert Progress(EndVisits(t)) && Enabled(s, EndVisits(t));
    } else {
      var key :| key in th.upc.must && key !in th.upc.visited;
      assert Progress(Visit(t, key)) && Enabled(s, Visit(t, key));
    }
  }

  /** The keyed locks never deadlock: in every state of every run in which something is unfinished, some operation or
      the reaper can take a step. */
  lemma NeverDeadlocks(states: seq<State>, actions: seq<Action>, i: nat)
    requires IsRun(states, actions) && i < |states| && Unfinished(states[i])
    ensures exists a :: Progress(a) && Enabled(states[i], a)
  {
    InvInEveryRun(states, actions, i);
    SomeoneAdvances(states[i]);
  }

  lemma SomeoneAdvances(s: State)
    requires Inv(s) && Unfinished(s)
    ensures exists a :: Progress(a) && Enabled(s, a)
  {
    hide Inv, EndpointHeld, ReceiverHeld, EndpointWanted, ReceiverWanted, Finished;
    if t :| t in s.threads && ReceiverHeld(s.threads[t]).Some? {
      LockOrder(s.threads[t]);
      CanAdvance(s, t);
    } else if t :| t in s.threads && EndpointHeld(s.threads[t]).Some? {
      LockOrder(s.threads[t]);
      CanAdvance(s, t);
    } else if ReaperHeld(s.reaper).Some? {
      assert Progress(ReapRun) && Enabled(s, ReapRun);
    } else if s.reaper.Ranging? {
      assert Progress(ReapEnd) && Enabled(s, ReapEnd);
    } else if s.reaper.RLock? {
      assert EndpointFree(s, s.reaper.e);
      assert Progress(ReapRun) && Enabled(s, ReapRun);
    } else {
      var t :| t in s.threads && !Finished(s.threads[t]);
      CanAdvance(s, t);
    }
  }
}
