/** What every interleaving of the correlation store keeps. The proof is rely-guarantee: each step guarantees the others
    that it only touches what its locks cover (`Guarantee`), and each operation's own facts survive such steps. */
module CorrelationSafety {
  import opened Strings
  import opened CorrelationMachine

  // ---------- the invariant ----------

  ghost predicate MapsOk(st: Store) {
    && |st.home| == |st.heap|
    && (forall e :: e in st.correlations ==> st.correlations[e] < |st.heap| && st.home[st.correlations[e]] == e)
  }

  ghost predicate EntriesOk(st: Store) {
    forall m, k :: 0 <= m < |st.heap| && k in st.heap[m] ==> st.heap[m][k].receiverId == k
  }

  ghost predicate CreatedOnce(st: Store) {
    forall m: nat, k :: st.created[(m, k)] == if k in st.Inner(m) then 1 else 0
  }

  ghost predicate EventsOk(st: Store, now: int) {
    now >= 0 && forall e :: e in st.latest ==> st.latest[e].time <= now
  }

  ghost predicate StoreOk(st: Store, now: int) {
    MapsOk(st) && EntriesOk(st) && CreatedOnce(st) && EventsOk(st, now)
  }

  /** `m` is the inner map of `e`. */
  ghost predicate Current(st: Store, e: EndpointId, m: nat) {
    m < |st.heap| && e in st.correlations && st.correlations[e] == m
  }

  ghost predicate HasNoType(st: Store, m: nat) {
    m < |st.heap| && NO_TYPE in st.heap[m]
  }

  /** The no-type entry carries the update's state, and a time not before the update began. */
  ghost predicate Written(st: Store, u: Thread, m: nat)
    requires u.Update?
  {
    && HasNoType(st, m) && u.endpoint.id in st.latest
    && st.heap[m][NO_TYPE].lastState == u.state && st.latest[u.endpoint.id].time <= st.heap[m][NO_TYPE].lastUpdated
  }

  ghost predicate UpdateOk(st: Store, u: Thread)
    requires u.Update?
  {
    var e := u.endpoint.id;
    && (!u.upc.UStart? && !u.upc.UDone? ==> e in st.latest && st.latest[e].state == u.state)
    && match u.upc
       case UStore(m) => Current(st, e, m) && NO_TYPE !in st.heap[m]
       case URange(m, visited, must) =>
         && Current(st, e, m) && NO_TYPE in must && must <= st.heap[m].Keys
         && (NO_TYPE in visited ==> Written(st, u, m))
       case UField(m, visited, must, key, field) =>
         && Current(st, e, m) && NO_TYPE in must && must <= st.heap[m].Keys && key in st.heap[m] && key !in visited
         && (NO_TYPE in visited ==> Written(st, u, m))
         && (key == NO_TYPE && field == 3 ==> st.latest[e].time <= st.heap[m][NO_TYPE].lastUpdated)
         && field <= 3
       case UUnlock(m) => Current(st, e, m) && Written(st, u, m)
       case _ => true
  }

  ghost predicate GetOk(st: Store, g: Thread)
    requires g.Get?
  {
    var r := g.receiver;
    match g.gpc
    case GStore(m) => Current(st, g.endpointId, m) && NO_TYPE !in st.heap[m]
    case GLockReceiver(m) => HasNoType(st, m) && Current(st, g.endpointId, m)
    case GUnlockEndpoint(m) => HasNoType(st, m) && Current(st, g.endpointId, m)
    case GFind(m) => HasNoType(st, m)
    case GNoType(m) => HasNoType(st, m) && r !in st.heap[m]
    case GSave(m, copy) => HasNoType(st, m) && r !in st.heap[m] && copy.receiverId == r
    case GCopy(m, _, field) => HasNoType(st, m) && r !in st.heap[m] && field <= 4
    case GRead(m, copy, field) =>
      m < |st.heap| && r in st.heap[m] && (field == 4 ==> copy.receiverId == r) && field <= 4
    case GUnlockReceiver(c) => c.receiverId == r
    case GDone(c) => c.receiverId == r
    case GCrash => false
    case _ => true
  }

  ghost predicate ThreadOk(st: Store, th: Thread) {
    match th
    case Update(_, _, _, _) => UpdateOk(st, th)
    case Get(_, _, _) => GetOk(st, th)
    case Attrs(_, _, _) => true
  }

  ghost predicate ReaperOk(st: Store, now: int, ttl: int, pc: ReaperPc) {
    match pc
    case RLock(_, e, m) => Current(st, e, m)
    case RCheck(_, e, m) => Current(st, e, m)
    case RDelete(_, e, m) =>
      Current(st, e, m) && e in st.latest && st.latest[e].state == REMOVED && now - st.latest[e].time > ttl
    case _ => true
  }

  /** No two holders of one lock. */
  ghost predicate Exclusive(s: State) {
    && (forall t, u :: t in s.threads && u in s.threads && t != u && EndpointHeld(s.threads[t]).Some? ==>
          EndpointHeld(s.threads[t]) != EndpointHeld(s.threads[u]))
    && (forall t, u :: t in s.threads && u in s.threads && t != u && ReceiverHeld(s.threads[t]).Some? ==>
          ReceiverHeld(s.threads[t]) != ReceiverHeld(s.threads[u]))
    && (forall t :: t in s.threads && EndpointHeld(s.threads[t]).Some? ==>
          EndpointHeld(s.threads[t]) != ReaperHeld(s.reaper))
  }

  ghost predicate ThreadsOk(s: State) {
    forall t :: t in s.threads ==> ThreadOk(s.store, s.threads[t])
  }

  /** The operation that made an inner map and has yet to store its no-type entry. */
  ghost predicate Filling(th: Thread, m: nat) {
    (th.Update? && th.upc == UStore(m)) || (th.Get? && th.gpc == GStore(m))
  }

  ghost predicate NoTypeOk(s: State) {
    forall m :: 0 <= m < |s.store.heap| && NO_TYPE !in s.store.heap[m] ==>
      exists t :: t in s.threads && Filling(s.threads[t], m)
  }

  /** An endpoint whose no-type entry says removed had its latest update say so, no later than the entry says. */
  ghost predicate Sound(st: Store, e: EndpointId) {
    e in st.correlations && HasNoType(st, st.correlations[e]) &&
    st.heap[st.correlations[e]][NO_TYPE].lastState == REMOVED ==>
      && e in st.latest && st.latest[e].state == REMOVED
      && st.latest[e].time <= st.heap[st.correlations[e]][NO_TYPE].lastUpdated
  }

  ghost predicate Updating(th: Thread, e: EndpointId) {
    th.Update? && EndpointHeld(th) == Some(e)
  }

  ghost predicate SoundOk(s: State) {
    forall e :: e in s.store.correlations && !Sound(s.store, e) ==>
      exists t :: t in s.threads && Updating(s.threads[t], e)
  }

  ghost predicate Inv(s: State) {
    && StoreOk(s.store, s.now) && Exclusive(s) && ThreadsOk(s) && ReaperOk(s.store, s.now, s.ttl, s.reaper)
    && NoTypeOk(s) && SoundOk(s)
  }

  // ---------- what a step guarantees to the others ----------

  /** A step that touches endpoint `e` and receiver `r` only: inner maps are never dropped from the heap or shrunk,
      entries appear only under `r` or as the no-type entry of `e`, and everything about other endpoints stays. */
  ghost predicate Guarantee(st: Store, st': Store, e: Option<EndpointId>, r: Option<ReceiverId>) {
    && |st.heap| <= |st'.heap| && |st.home| <= |st'.home|
    && (forall m :: 0 <= m < |st.home| ==> st'.home[m] == st.home[m])
    && (forall m, k :: 0 <= m < |st.heap| && k in st.heap[m] ==> k in st'.heap[m])
    && (forall m, k :: 0 <= m < |st.heap| && k !in st.heap[m] && k in st'.heap[m] ==>
          (r == Some(k) && k != NO_TYPE) || (k == NO_TYPE && m < |st.home| && e == Some(st.home[m])))
    && (forall m :: 0 <= m < |st.heap| && NO_TYPE in st.heap[m] && m < |st.home| && e != Some(st.home[m]) ==>
          st'.heap[m][NO_TYPE] == st.heap[m][NO_TYPE])
    && (forall e' :: e != Some(e') ==>
          && (e' in st'.correlations <==> e' in st.correlations)
          && (e' in st.correlations ==> st'.correlations[e'] == st.correlations[e'])
          && (e' in st'.latest <==> e' in st.latest)
          && (e' in st.latest ==> st'.latest[e'] == st.latest[e']))
  }

  /** What an operation knows survives any step that touches none of the locks it holds. */
  lemma ThreadStable(st: Store, st': Store, e: Option<EndpointId>, r: Option<ReceiverId>, th: Thread)
    requires MapsOk(st) && ThreadOk(st, th) && Guarantee(st, st', e, r)
    requires EndpointHeld(th).Some? ==> EndpointHeld(th) != e
    requires ReceiverHeld(th).Some? ==> ReceiverHeld(th) != r
    ensures ThreadOk(st', th)
  {
    hide Guarantee, UpdateOk, GetOk;
    if th.Update? {
      UpdateStable(st, st', e, r, th);
    } else if th.Get? {
      GetStable(st, st', e, r, th);
    }
  }

  lemma UpdateStable(st: Store, st': Store, e: Option<EndpointId>, r: Option<ReceiverId>, u: Thread)
    requires u.Update? && MapsOk(st) && UpdateOk(st, u) && Guarantee(st, st', e, r)
    requires EndpointHeld(u).Some? ==> EndpointHeld(u) != e
    ensures UpdateOk(st', u)
  {
  }

  lemma GetStable(st: Store, st': Store, e: Option<EndpointId>, r: Option<ReceiverId>, g: Thread)
    requires g.Get? && MapsOk(st) && GetOk(st, g) && Guarantee(st, st', e, r)
    requires EndpointHeld(g).Some? ==> EndpointHeld(g) != e
    requires ReceiverHeld(g).Some? ==> ReceiverHeld(g) != r
    ensures GetOk(st', g)
  {
  }

  // ---------- the steps ----------

  lemma NothingGuaranteed(st: Store, e: Option<EndpointId>)
    ensures Guarantee(st, st, e, None)
  {
  }

  lemma EventStep(st: Store, now: int, e: EndpointId, state: string)
    requires StoreOk(st, now)
    ensures var st' := st.(latest := st.latest[e := Event(state, now)]);
      StoreOk(st', now) && Guarantee(st, st', Some(e), None)
  {
  }

  lemma HomeOf(st: Store, e: EndpointId, m: nat)
    requires MapsOk(st) && Current(st, e, m)
    ensures |st.home| == |st.heap| && st.home[m] == e
  {
  }

  lemma NamesItself(st: Store, m: nat, k: ReceiverId)
    requires EntriesOk(st) && m < |st.heap| && k in st.heap[m]
    ensures st.heap[m][k].receiverId == k
  {
  }

  lemma NewMapStep(st: Store, now: int, e: EndpointId)
    requires StoreOk(st, now) && e !in st.correlations
    ensures StoreOk(st.NewMap(e), now) && Guarantee(st, st.NewMap(e), Some(e), None)
    ensures Current(st.NewMap(e), e, |st.heap|) && NO_TYPE !in st.NewMap(e).heap[|st.heap|]
  {
    var st' := st.NewMap(e);
    assert forall m: nat, k :: k in st'.Inner(m) <==> k in st.Inner(m);
  }

  /** Storing a new entry under the receiver it names. */
  lemma CreateStep(st: Store, now: int, m: nat, k: ReceiverId, c: Correlation, e: Option<EndpointId>,
                   r: Option<ReceiverId>)
    requires StoreOk(st, now) && m < |st.heap| && k !in st.heap[m] && c.receiverId == k
    requires (r == Some(k) && k != NO_TYPE) || (k == NO_TYPE && e == Some(st.home[m]))
    ensures StoreOk(st.Create(m, k, c), now) && Guarantee(st, st.Create(m, k, c), e, r)
  {
    var st' := st.Create(m, k, c);
    assert forall m': nat, k' :: k' in st'.Inner(m') <==> k' in st.Inner(m') || (m' == m && k' == k);
  }

  /** Changing fields of an entry of `e`'s inner map, other than the receiver it names. */
  lemma PutStep(st: Store, now: int, m: nat, k: ReceiverId, c: Correlation, e: EndpointId)
    requires StoreOk(st, now) && m < |st.heap| && k in st.heap[m] && c.receiverId == k && st.home[m] == e
    ensures StoreOk(st.Put(m, k, c), now) && Guarantee(st, st.Put(m, k, c), Some(e), None)
  {
    var st' := st.Put(m, k, c);
    assert forall m': nat, k' :: k' in st'.Inner(m') <==> k' in st.Inner(m');
  }

  lemma UpdateStepOk(st: Store, now: int, u: Thread)
    requires u.Update? && StoreOk(st, now) && UpdateOk(st, u)
    requires u.upc.ULoad? && u.endpoint.id in st.correlations ==> HasNoType(st, st.correlations[u.endpoint.id])
    ensures var (st', th') := ThreadStep(st, now, u);
      StoreOk(st', now) && ThreadOk(st', th') && Guarantee(st, st', Some(u.endpoint.id), None)
  {
    hide Guarantee, MapsOk, EntriesOk, CreatedOnce;
    var e := u.endpoint.id;
    NothingGuaranteed(st, Some(e));
    match u.upc
    case UStart => EventStep(st, now, e, u.state);
    case ULoad => if e !in st.correlations { NewMapStep(st, now, e); }
    case UStore(m) =>
      HomeOf(st, e, m);
      CreateStep(st, now, m, NO_TYPE, Correlation(u.state, now, u.endpoint, NO_TYPE, u.observer), Some(e), None);
    case UField(m, visited, must, key, field) =>
      HomeOf(st, e, m);
      NamesItself(st, m, key);
      PutStep(st, now, m, key, WriteField(st.heap[m][key], u, field, now), e);
    case _ =>
  }

  lemma GetStepOk(st: Store, now: int, g: Thread)
    requires g.Get? && StoreOk(st, now) && GetOk(st, g)
    requires g.gpc.GLoad? && g.endpointId in st.correlations ==> HasNoType(st, st.correlations[g.endpointId])
    ensures var (st', th') := ThreadStep(st, now, g);
      StoreOk(st', now) && ThreadOk(st', th') &&
      Guarantee(st, st', EndpointHeld(g), if g.gpc.GSave? then Some(g.receiver) else None)
  {
    hide Guarantee, MapsOk, EntriesOk, CreatedOnce, EventsOk, GetOk;
    if g.gpc.GLoad? || g.gpc.GStore? || g.gpc.GSave? {
      GetWritesOk(st, now, g);
    } else {
      NothingGuaranteed(st, EndpointHeld(g));
      GetReadsOk(st, g);
    }
  }

  /** The steps that may change the store. */
  lemma GetWritesOk(st: Store, now: int, g: Thread)
    requires g.Get? && StoreOk(st, now) && GetOk(st, g) && (g.gpc.GLoad? || g.gpc.GStore? || g.gpc.GSave?)
    requires g.gpc.GLoad? && g.endpointId in st.correlations ==> HasNoType(st, st.correlations[g.endpointId])
    ensures var (st', pc) := GetStep(st, g);
      StoreOk(st', now) && GetOk(st', g.(gpc := pc)) &&
      Guarantee(st, st', EndpointHeld(g), if g.gpc.GSave? then Some(g.receiver) else None)
  {
    hide Guarantee, MapsOk, EntriesOk, CreatedOnce, EventsOk;
    NothingGuaranteed(st, EndpointHeld(g));
    match g.gpc
    case GLoad =>
      if g.endpointId !in st.correlations { NewMapStep(st, now, g.endpointId); } else { LoadedIsCurrent(st, g); }
    case GStore(m) =>
      HomeOf(st, g.endpointId, m);
      CreateStep(st, now, m, NO_TYPE, NEW_CORRELATION, Some(g.endpointId), None);
    case GSave(m, copy) => CreateStep(st, now, m, g.receiver, copy, None, Some(g.receiver));
    case _ =>
  }

  lemma LoadedIsCurrent(st: Store, g: Thread)
    requires g.Get? && MapsOk(st) && g.endpointId in st.correlations
    ensures Current(st, g.endpointId, st.correlations[g.endpointId])
  {
  }

  /** The steps that leave it alone. */
  lemma GetReadsOk(st: Store, g: Thread)
    requires g.Get? && EntriesOk(st) && GetOk(st, g) && !g.gpc.GLoad? && !g.gpc.GStore? && !g.gpc.GSave?
    ensures GetStep(st, g).0 == st && GetOk(st, g.(gpc := GetStep(st, g).1))
  {
    hide EntriesOk;
    if g.gpc.GRead? { NamesItself(st, g.gpc.m, g.receiver); }
  }

  lemma AttrsStepOk(st: Store, now: int, a: Thread)
    requires a.Attrs? && StoreOk(st, now)
    ensures StoreOk(AttrsStep(st, a).0, now) && Guarantee(st, AttrsStep(st, a).0, None, None)
  {
    var st' := AttrsStep(st, a).0;
    assert st' == st.(attrs := st'.attrs);
    assert forall m: nat :: st'.Inner(m) == st.Inner(m);
  }

  // ---------- operations keep the invariant ----------

  /** Operations add inner maps and never take them away. */
  ghost predicate Grows(st: Store, st': Store) {
    forall e :: e in st.correlations ==> e in st'.correlations && st'.correlations[e] == st.correlations[e]
  }

  /** Every inner map still without a no-type entry is one the step's operation is filling, or was so before. */
  ghost predicate FillsOnly(st: Store, st': Store, th: Thread, th': Thread) {
    forall m :: 0 <= m < |st'.heap| && NO_TYPE !in st'.heap[m] ==>
      Filling(th', m) || (m < |st.heap| && NO_TYPE !in st.heap[m] && !Filling(th, m))
  }

  /** An operation's step, with what it touches. */
  ghost predicate GoodStep(s: State, t: nat, st': Store, th': Thread, e: Option<EndpointId>, r: Option<ReceiverId>) {
    && t in s.threads && StoreOk(st', s.now) && ThreadOk(st', th') && Guarantee(s.store, st', e, r)
    && Grows(s.store, st')
    && (EndpointHeld(th').Some? ==> EndpointHeld(th') == e) && (r.Some? ==> ReceiverHeld(s.threads[t]) == r)
    && (ReceiverHeld(th').Some? && ReceiverHeld(th') != ReceiverHeld(s.threads[t]) ==>
          ReceiverFree(s, ReceiverHeld(th').value))
    && (e.Some? ==> EndpointHeld(s.threads[t]) == e || EndpointFree(s, e.value))
    && FillsOnly(s.store, st', s.threads[t], th')
    && (e.Some? ==> Updating(th', e.value) || Sound(st', e.value))
  }

  lemma ExclusiveKept(s: State, t: nat, st': Store, th': Thread, e: Option<EndpointId>, r: Option<ReceiverId>)
    requires Exclusive(s) && GoodStep(s, t, st', th', e, r)
    ensures Exclusive(s.(store := st', threads := s.threads[t := th']))
  {
    hide EndpointHeld, ReceiverHeld, ReaperHeld, StoreOk, ThreadOk, Guarantee;
  }

  lemma ThreadsKept(s: State, t: nat, st': Store, th': Thread, e: Option<EndpointId>, r: Option<ReceiverId>)
    requires MapsOk(s.store) && Exclusive(s) && ThreadsOk(s) && GoodStep(s, t, st', th', e, r)
    ensures ThreadsOk(s.(store := st', threads := s.threads[t := th']))
  {
    hide EndpointHeld, ReceiverHeld, ReaperHeld, StoreOk, ThreadOk, Guarantee;
    forall u | u in s.threads && u != t ensures ThreadOk(st', s.threads[u]) {
      ThreadStable(s.store, st', e, r, s.threads[u]);
    }
  }

  lemma ReaperKept(s: State, t: nat, st': Store, th': Thread, e: Option<EndpointId>, r: Option<ReceiverId>)
    requires Exclusive(s) && ReaperOk(s.store, s.now, s.ttl, s.reaper) && GoodStep(s, t, st', th', e, r)
    ensures ReaperOk(st', s.now, s.ttl, s.reaper)
  {
    hide StoreOk, ThreadOk;
  }

  lemma NoTypeKept(s: State, t: nat, st': Store, th': Thread, e: Option<EndpointId>, r: Option<ReceiverId>)
    requires NoTypeOk(s) && GoodStep(s, t, st', th', e, r)
    ensures NoTypeOk(s.(store := st', threads := s.threads[t := th']))
  {
    hide Filling, StoreOk, ThreadOk, Guarantee, Sound, EndpointHeld, ReceiverHeld;
    var s' := s.(store := st', threads := s.threads[t := th']);
    forall m | 0 <= m < |st'.heap| && NO_TYPE !in st'.heap[m]
      ensures exists u :: u in s'.threads && Filling(s'.threads[u], m)
    {
      if Filling(th', m) {
        assert s'.threads[t] == th';
      } else {
        var u :| u in s.threads && Filling(s.threads[u], m);
        assert s'.threads[u] == s.threads[u];
      }
    }
  }

  lemma SoundStable(st: Store, st': Store, e: Option<EndpointId>, r: Option<ReceiverId>, e': EndpointId)
    requires MapsOk(st) && Guarantee(st, st', e, r) && e != Some(e') && e' in st'.correlations && Sound(st, e')
    ensures Sound(st', e')
  {
    var m := st.correlations[e'];
    assert st.home[m] == e';
  }

  lemma SoundKept(s: State, t: nat, st': Store, th': Thread, e: Option<EndpointId>, r: Option<ReceiverId>)
    requires MapsOk(s.store) && SoundOk(s) && GoodStep(s, t, st', th', e, r)
    requires forall e' :: Updating(s.threads[t], e') ==> e == Some(e')
    ensures SoundOk(s.(store := st', threads := s.threads[t := th']))
  {
    hide Filling, FillsOnly, StoreOk, ThreadOk, Sound, EndpointHeld, ReceiverHeld, Updating;
    var s' := s.(store := st', threads := s.threads[t := th']);
    forall e' | e' in st'.correlations && !Sound(st', e')
      ensures exists u :: u in s'.threads && Updating(s'.threads[u], e')
    {
      if e == Some(e') {
        assert s'.threads[t] == th';
      } else {
        if Sound(s.store, e') { SoundStable(s.store, st', e, r, e'); }
        var u :| u in s.threads && Updating(s.threads[u], e');
        assert s'.threads[u] == s.threads[u];
      }
    }
  }

  lemma GoodStepKeeps(s: State, t: nat, st': Store, th': Thread, e: Option<EndpointId>, r: Option<ReceiverId>)
    requires Inv(s) && GoodStep(s, t, st', th', e, r)
    requires forall e' :: Updating(s.threads[t], e') ==> e == Some(e')
    ensures Inv(s.(store := st', threads := s.threads[t := th']))
  {
    hide EndpointHeld, ReceiverHeld, ReaperHeld, ThreadOk, Guarantee, Exclusive, ThreadsOk, ReaperOk, NoTypeOk, SoundOk,
      MapsOk, EntriesOk, CreatedOnce, EventsOk, FillsOnly, Sound, Grows;
    ExclusiveKept(s, t, st', th', e, r);
    ThreadsKept(s, t, st', th', e, r);
    ReaperKept(s, t, st', th', e, r);
    NoTypeKept(s, t, st', th', e, r);
    SoundKept(s, t, st', th', e, r);
  }

  /** Under the endpoint's lock an inner map has its no-type entry, unless the holder is the one filling it. */
  lemma LoadedHasNoType(s: State, t: nat, e: EndpointId)
    requires Inv(s) && t in s.threads && EndpointHeld(s.threads[t]) == Some(e) && e in s.store.correlations
    requires forall m :: !Filling(s.threads[t], m)
    ensures HasNoType(s.store, s.store.correlations[e])
  {
    hide Guarantee, SoundOk, CreatedOnce, EntriesOk, EventsOk, ReaperOk, ReceiverHeld;
  }

  /** An endpoint that no update is working on is sound. */
  lemma QuietIsSound(s: State, e: EndpointId)
    requires SoundOk(s) && forall t :: t in s.threads ==> !Updating(s.threads[t], e)
    ensures Sound(s.store, e)
  {
    hide HasNoType;
  }

  lemma UpdateGood(s: State, t: nat)
    requires Inv(s) && t in s.threads && s.threads[t].Update? && CanRun(s, s.threads[t])
    ensures var (st', th') := ThreadStep(s.store, s.now, s.threads[t]);
      GoodStep(s, t, st', th', Some(s.threads[t].endpoint.id), None)
  {
    hide Guarantee, StoreOk, ThreadsOk, NoTypeOk, SoundOk, Exclusive, ReaperOk, WriteField;
    var u := s.threads[t];
    assert UpdateOk(s.store, u) by { assert ThreadsOk(s); ThreadFact(s, t); }
    if u.upc.ULoad? && u.endpoint.id in s.store.correlations { LoadedHasNoType(s, t, u.endpoint.id); }
    UpdateStepOk(s.store, s.now, u);
  }

  lemma ThreadFact(s: State, t: nat)
    requires ThreadsOk(s) && t in s.threads
    ensures ThreadOk(s.store, s.threads[t])
  {
  }

  lemma GetGood(s: State, t: nat, e: Option<EndpointId>, r: Option<ReceiverId>)
    requires Inv(s) && t in s.threads && s.threads[t].Get? && CanRun(s, s.threads[t])
    requires e == if s.threads[t].gpc.GStart? then Some(s.threads[t].endpointId) else EndpointHeld(s.threads[t])
    requires r == if s.threads[t].gpc.GSave? then Some(s.threads[t].receiver) else None
    ensures var (st', th') := ThreadStep(s.store, s.now, s.threads[t]); GoodStep(s, t, st', th', e, r)
  {
    hide Guarantee, StoreOk, ThreadsOk, NoTypeOk, SoundOk, Exclusive, ReaperOk, FillsOnly, Sound, GetStep, Grows,
      ThreadOk, GetOk;
    var g := s.threads[t];
    ThreadFact(s, t);
    if g.gpc.GLoad? && g.endpointId in s.store.correlations { LoadedHasNoType(s, t, g.endpointId); }
    GetStepOk(s.store, s.now, g);
    NothingGuaranteed(s.store, e);
    GetFills(s.store, g);
    GetGrows(s.store, g);
    GetLocks(s.store, g);
    if e.Some? {
      GetHoldsQuiet(s, t, e.value);
      QuietIsSound(s, e.value);
      GetSound(s.store, g, e.value);
    }
  }

  lemma GetFills(st: Store, g: Thread)
    requires g.Get? && GetOk(st, g)
    ensures var (st', pc) := GetStep(st, g); FillsOnly(st, st', g, g.(gpc := pc))
    ensures g.gpc.GStart? ==> GetStep(st, g).0 == st
  {
  }

  lemma GetGrows(st: Store, g: Thread)
    requires g.Get?
    ensures Grows(st, GetStep(st, g).0)
  {
  }

  /** How the locks held change: at most one is taken in a step. */
  lemma GetLocks(st: Store, g: Thread)
    requires g.Get?
    ensures var g' := g.(gpc := GetStep(st, g).1);
      && (EndpointHeld(g').Some? ==> EndpointHeld(g') == EndpointHeld(g) || EndpointWanted(g) == EndpointHeld(g'))
      && (ReceiverHeld(g').Some? ==> ReceiverHeld(g') == ReceiverHeld(g) || ReceiverWanted(g) == ReceiverHeld(g'))
  {
  }

  lemma GetSound(st: Store, g: Thread, e: EndpointId)
    requires g.Get? && GetOk(st, g) && Sound(st, e) && (EndpointHeld(g) == Some(e) || EndpointWanted(g) == Some(e))
    ensures Sound(GetStep(st, g).0, e)
  {
  }

  lemma GetHoldsQuiet(s: State, t: nat, e: EndpointId)
    requires Exclusive(s) && t in s.threads && s.threads[t].Get?
    requires EndpointHeld(s.threads[t]) == Some(e) || EndpointFree(s, e)
    ensures forall u :: u in s.threads ==> !Updating(s.threads[u], e)
  {
    hide EndpointHeld;
  }

  lemma AttrsGood(s: State, t: nat)
    requires Inv(s) && t in s.threads && s.threads[t].Attrs? && CanRun(s, s.threads[t])
    ensures var (st', th') := ThreadStep(s.store, s.now, s.threads[t]); GoodStep(s, t, st', th', None, None)
  {
    hide Guarantee, StoreOk, ThreadsOk, NoTypeOk, SoundOk, Exclusive, ReaperOk;
    AttrsStepOk(s.store, s.now, s.threads[t]);
  }

  lemma WalkGood(s: State, t: nat, pc: UpdatePc)
    requires Inv(s) && t in s.threads && InWalk(s.threads[t])
    requires
      var from := s.threads[t].upc;
      || (pc == UUnlock(from.m) && from.must <= from.visited)
      || (pc.UField? && pc == UField(from.m, from.visited, from.must, pc.key, 0) &&
          pc.key in s.store.Inner(from.m) && pc.key !in from.visited)
    ensures GoodStep(s, t, s.store, s.threads[t].(upc := pc), Some(s.threads[t].endpoint.id), None)
  {
    hide Guarantee, ThreadsOk, NoTypeOk, SoundOk, Exclusive, ReaperOk;
    ThreadFact(s, t);
    NothingGuaranteed(s.store, Some(s.threads[t].endpoint.id));
  }

  /** A thread's step keeps the invariant. */
  lemma OperationKeeps(s: State, a: Action)
    requires Inv(s) && Enabled(s, a) && (a.Run? || a.Visit? || a.EndVisits?)
    ensures Inv(Next(s, a))
  {
    hide Inv, CanRun, GoodStep, UpdateStep, GetStep, AttrsStep;
    var th := s.threads[a.t];
    match a
    case Run(t) =>
      var (st', th') := ThreadStep(s.store, s.now, th);
      match th {
        case Update(_, _, _, _) =>
          UpdateGood(s, t);
          GoodStepKeeps(s, t, st', th', Some(th.endpoint.id), None);
        case Get(_, _, _) =>
          var e := if th.gpc.GStart? then Some(th.endpointId) else EndpointHeld(th);
          var r := if th.gpc.GSave? then Some(th.receiver) else None;
          GetGood(s, t, e, r);
          GoodStepKeeps(s, t, st', th', e, r);
        case Attrs(_, _, _) =>
          AttrsGood(s, t);
          GoodStepKeeps(s, t, st', th', None, None);
      }
    case Visit(t, key) =>
      var pc := UField(th.upc.m, th.upc.visited, th.upc.must, key, 0);
      WalkGood(s, t, pc);
      GoodStepKeeps(s, t, s.store, th.(upc := pc), Some(th.endpoint.id), None);
    case EndVisits(t) =>
      WalkGood(s, t, UUnlock(th.upc.m));
      GoodStepKeeps(s, t, s.store, th.(upc := UUnlock(th.upc.m)), Some(th.endpoint.id), None);
  }
}
