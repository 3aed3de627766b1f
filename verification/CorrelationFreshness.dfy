/** How stale an entry of the correlation store can be. GetOrCreate gives up the endpoint's lock before it copies the
    no-type entry, so an UpdateEndpoint may pass it. Then, and only then, the new entry can be left behind. */
module CorrelationFreshness {
  import opened Strings
  import opened CorrelationMachine
  import opened CorrelationSafety
  import opened CorrelationRuns

  /** The same state, endpoint and observer; times differ within one update. */
  predicate Agrees(c: Correlation, d: Correlation) {
    c.lastState == d.lastState && c.endpoint == d.endpoint && c.observerId == d.observerId
  }

  /** The same in the fields copied so far. */
  predicate AgreesUpTo(c: Correlation, d: Correlation, field: nat) {
    (field > 0 ==> c.lastState == d.lastState) && (field > 2 ==> c.endpoint == d.endpoint)
  }

  predicate Carries(c: Correlation, u: Thread)
    requires u.Update?
  {
    c.lastState == u.state && c.endpoint == u.endpoint && c.observerId == u.observer
  }

  /** The inner map of a GetOrCreate that has given up the endpoint's lock and not yet stored its entry. */
  function Window(th: Thread): Option<nat> {
    if th.Get? && (th.gpc.GFind? || th.gpc.GNoType? || th.gpc.GCopy? || th.gpc.GSave?) then Some(th.gpc.m) else None
  }

  function GetMap(th: Thread): Option<nat> {
    if th.Get? && (th.gpc.GStore? || th.gpc.GLockReceiver? || th.gpc.GUnlockEndpoint?) then Some(th.gpc.m)
    else Window(th)
  }

  /** The inner map an UpdateEndpoint is writing. */
  function Walk(th: Thread): Option<nat> {
    if th.Update? && (th.upc.UStore? || th.upc.URange? || th.upc.UField? || th.upc.UUnlock?) then Some(th.upc.m)
    else None
  }

  /** The update of an endpoint is under way while the operation is past the endpoint's lock. */
  ghost predicate Crosses(s: State, t: nat) {
    t in s.threads && Window(s.threads[t]).Some? &&
    exists u :: u in s.threads && Updating(s.threads[u], s.threads[t].endpointId)
  }

  ghost predicate Saves(s: State, a: Action, m: nat, k: ReceiverId) {
    a.Run? && a.t in s.threads && s.threads[a.t].Get? && s.threads[a.t].gpc.GSave? && s.threads[a.t].gpc.m == m &&
    s.threads[a.t].receiver == k
  }

  /** The operations an update has passed so far, and the entries such operations have stored. */
  datatype Log = Log(crossed: iset<nat>, stale: iset<(nat, ReceiverId)>)

  // ---------- the invariant ----------

  ghost predicate MapFresh(st: Store, log: Log, m: nat) {
    m < |st.heap| && NO_TYPE in st.heap[m] ==>
      forall k :: k in st.heap[m] ==> Agrees(st.heap[m][k], st.heap[m][NO_TYPE]) || (m, k) in log.stale
  }

  /** Visited entries carry the update; unvisited ones must still be visited, or were stored past it. */
  ghost predicate Walking(st: Store, log: Log, u: Thread, m: nat, visited: set<ReceiverId>, must: set<ReceiverId>)
    requires u.Update?
  {
    && m < |st.heap| && NO_TYPE in must && visited <= st.heap[m].Keys
    && (forall k :: k in visited ==> Carries(st.heap[m][k], u))
    && (forall k :: k in st.heap[m] ==> k in must || k in visited || (m, k) in log.stale)
  }

  ghost predicate WalkFresh(st: Store, log: Log, u: Thread)
    requires u.Update?
  {
    match u.upc
    case URange(m, visited, must) => Walking(st, log, u, m, visited, must)
    case UField(m, visited, must, key, field) =>
      && Walking(st, log, u, m, visited, must) && key in st.heap[m] && key !in visited
      && (field > 0 ==> st.heap[m][key].endpoint == u.endpoint)
      && (field > 1 ==> st.heap[m][key].observerId == u.observer)
    case UUnlock(m) =>
      && m < |st.heap| && NO_TYPE in st.heap[m] && Carries(st.heap[m][NO_TYPE], u)
      && (forall k :: k in st.heap[m] ==> Carries(st.heap[m][k], u) || (m, k) in log.stale)
    case _ => true
  }

  ghost predicate GetFresh(st: Store, log: Log, t: nat, g: Thread)
    requires g.Get?
  {
    && (GetMap(g).Some? ==> GetMap(g).value < |st.home| && st.home[GetMap(g).value] == g.endpointId)
    && (g.gpc.GSave? && t !in log.crossed ==>
          HasNoType(st, g.gpc.m) && Agrees(g.gpc.copy, st.heap[g.gpc.m][NO_TYPE]))
    && (g.gpc.GCopy? && t !in log.crossed ==>
          HasNoType(st, g.gpc.m) && AgreesUpTo(g.gpc.copy, st.heap[g.gpc.m][NO_TYPE], g.gpc.field))
  }

  ghost predicate ThreadFresh(st: Store, log: Log, t: nat, th: Thread) {
    (th.Update? ==> WalkFresh(st, log, th)) && (th.Get? ==> GetFresh(st, log, t, th))
  }

  ghost predicate Walked(s: State, m: nat) {
    exists u :: u in s.threads && Walk(s.threads[u]) == Some(m)
  }

  ghost predicate LogsCrossings(s: State, log: Log) {
    forall t :: Crosses(s, t) ==> t in log.crossed
  }

  ghost predicate EmptyUntilNoType(st: Store) {
    forall m :: 0 <= m < |st.heap| && NO_TYPE !in st.heap[m] ==> st.heap[m] == map[]
  }

  ghost predicate ThreadsFresh(s: State, log: Log) {
    forall t :: t in s.threads ==> ThreadFresh(s.store, log, t, s.threads[t])
  }

  ghost predicate MapsFresh(s: State, log: Log) {
    forall m :: 0 <= m < |s.store.heap| ==> MapFresh(s.store, log, m) || Walked(s, m)
  }

  /** Every inner map that no update is writing agrees with its no-type entry but for logged entries. */
  ghost predicate Fresh(s: State, log: Log) {
    LogsCrossings(s, log) && EmptyUntilNoType(s.store) && ThreadsFresh(s, log) && MapsFresh(s, log)
  }

  ghost predicate Extends(log: Log, log': Log) {
    log.crossed <= log'.crossed && log.stale <= log'.stale
  }

  // ---------- one step ----------

  /** Nothing but the entry of `k0` in inner map `m0` changes, and new inner maps are empty. */
  ghost predicate OnlyAt(st: Store, st': Store, m0: nat, k0: ReceiverId) {
    && |st.heap| <= |st'.heap| && |st.home| <= |st'.home| && st.home == st'.home[..|st.home|]
    && (forall m :: 0 <= m < |st.heap| && m != m0 ==> st'.heap[m] == st.heap[m])
    && (m0 < |st.heap| ==> k0 in st'.heap[m0] && st'.heap[m0] == st.heap[m0][k0 := st'.heap[m0][k0]])
    && (forall m :: |st.heap| <= m < |st'.heap| ==> st'.heap[m] == map[])
  }

  /** What another operation has to fear from the change. */
  ghost predicate Spared(st: Store, log': Log, m0: nat, k0: ReceiverId, t: nat, th: Thread) {
    && (Walk(th) == Some(m0) && m0 < |st.heap| ==> k0 !in st.heap[m0] && (m0, k0) in log'.stale)
    && (Window(th) == Some(m0) && m0 < |st.heap| && k0 == NO_TYPE ==> t in log'.crossed)
  }

  lemma OtherFresh(st: Store, st': Store, log: Log, log': Log, m0: nat, k0: ReceiverId, t: nat, th: Thread)
    requires OnlyAt(st, st', m0, k0) && Extends(log, log') && ThreadOk(st, th) && ThreadFresh(st, log, t, th)
    requires Spared(st, log', m0, k0, t, th)
    ensures ThreadFresh(st', log', t, th)
  {
  }

  /** A step of operation `t` that changes the entry of `k0` in `m0` at most; `log'` is the log after it. */
  ghost predicate GoodMove(s: State, s': State, t: nat, m0: nat, k0: ReceiverId, log: Log, log': Log) {
    && t in s.threads && t in s'.threads && s'.threads == s.threads[t := s'.threads[t]]
    && OnlyAt(s.store, s'.store, m0, k0) && Extends(log, log') && LogsCrossings(s', log')
    && ThreadFresh(s'.store, log', t, s'.threads[t])
    && (forall t2 :: t2 in s.threads && t2 != t ==> Spared(s.store, log', m0, k0, t2, s.threads[t2]))
    && (m0 < |s.store.heap| ==> NO_TYPE in s'.store.heap[m0] && (MapFresh(s'.store, log', m0) || Walked(s', m0)))
    && (var m := Walk(s.threads[t]);
        m.Some? ==> MapFresh(s'.store, log', m.value) || Walk(s'.threads[t]) == m)
  }

  lemma MoveThreads(s: State, s': State, t: nat, m0: nat, k0: ReceiverId, log: Log, log': Log)
    requires ThreadsOk(s) && ThreadsFresh(s, log) && GoodMove(s, s', t, m0, k0, log, log')
    ensures ThreadsFresh(s', log')
  {
    hide ThreadOk, ThreadFresh, OnlyAt, Extends, Spared, LogsCrossings, MapFresh, Walk;
    forall t2 | t2 in s'.threads ensures ThreadFresh(s'.store, log', t2, s'.threads[t2]) {
      if t2 != t { OtherFresh(s.store, s'.store, log, log', m0, k0, t2, s.threads[t2]); }
    }
  }

  lemma MapStays(st: Store, st': Store, log: Log, log': Log, m0: nat, k0: ReceiverId, m: nat)
    requires OnlyAt(st, st', m0, k0) && Extends(log, log') && m != m0 && m < |st'.heap|
    requires m < |st.heap| ==> MapFresh(st, log, m)
    ensures MapFresh(st', log', m)
  {
    hide Agrees;
  }

  lemma MoveMaps(s: State, s': State, t: nat, m0: nat, k0: ReceiverId, log: Log, log': Log)
    requires MapsFresh(s, log) && GoodMove(s, s', t, m0, k0, log, log')
    ensures MapsFresh(s', log')
  {
    hide ThreadFresh, OnlyAt, Extends, Spared, LogsCrossings, MapFresh, Walk;
    forall m | 0 <= m < |s'.store.heap| ensures MapFresh(s'.store, log', m) || Walked(s', m) {
      if m >= |s.store.heap| {
        NewMapFresh(s.store, s'.store, log', m0, k0, m);
      } else if m != m0 {
        if MapFresh(s.store, log, m) {
          MapStays(s.store, s'.store, log, log', m0, k0, m);
        } else {
          var u :| u in s.threads && Walk(s.threads[u]) == Some(m);
          assert u in s'.threads;
        }
      }
    }
  }

  lemma NewMapFresh(st: Store, st': Store, log': Log, m0: nat, k0: ReceiverId, m: nat)
    requires OnlyAt(st, st', m0, k0) && |st.heap| <= m < |st'.heap|
    ensures MapFresh(st', log', m)
  {
  }

  lemma MoveEmpty(st: Store, st': Store, m0: nat, k0: ReceiverId)
    requires OnlyAt(st, st', m0, k0) && EmptyUntilNoType(st) && (m0 < |st.heap| ==> NO_TYPE in st'.heap[m0])
    ensures EmptyUntilNoType(st')
  {
  }

  lemma MoveFresh(s: State, s': State, t: nat, m0: nat, k0: ReceiverId, log: Log, log': Log)
    requires ThreadsOk(s) && Fresh(s, log) && GoodMove(s, s', t, m0, k0, log, log')
    ensures Fresh(s', log')
  {
    hide ThreadsOk, ThreadFresh, OnlyAt, Extends, Spared, LogsCrossings, MapFresh, Walk, MapsFresh, ThreadsFresh,
      EmptyUntilNoType;
    MoveThreads(s, s', t, m0, k0, log, log');
    MoveMaps(s, s', t, m0, k0, log, log');
    MoveEmpty(s.store, s'.store, m0, k0);
  }

  // ---------- who is in the way ----------

  lemma WalkerFacts(s: State, u: nat, m: nat)
    requires Inv(s) && u in s.threads && Walk(s.threads[u]) == Some(m)
    ensures m < |s.store.heap| == |s.store.home| && Updating(s.threads[u], s.store.home[m])
  {
    hide SoundOk, NoTypeOk, ReaperOk, Exclusive, EntriesOk, CreatedOnce, EventsOk;
    assert ThreadOk(s.store, s.threads[u]);
  }

  /** Whoever holds the endpoint's lock is the only one to walk its inner maps. */
  lemma NoOtherWalker(s: State, t: nat, u: nat, m: nat)
    requires Inv(s) && t in s.threads && u in s.threads && t != u && m < |s.store.heap| == |s.store.home|
    requires EndpointHeld(s.threads[t]) == Some(s.store.home[m])
    ensures Walk(s.threads[u]) != Some(m)
  {
    hide SoundOk, NoTypeOk, ReaperOk, StoreOk, ThreadsOk;
    if Walk(s.threads[u]) == Some(m) { WalkerFacts(s, u, m); }
  }

  lemma WindowFacts(s: State, t: nat, m: nat)
    requires Inv(s) && t in s.threads && Window(s.threads[t]) == Some(m)
    ensures HasNoType(s.store, m)
  {
    hide SoundOk, NoTypeOk, ReaperOk, StoreOk, Exclusive;
    assert ThreadOk(s.store, s.threads[t]);
  }

  /** An operation past the endpoint's lock with an update under way is logged as passed. */
  lemma PassedIsLogged(s: State, t: nat, u: nat, m: nat, log: Log)
    requires Fresh(s, log) && t in s.threads && u in s.threads && Window(s.threads[t]) == Some(m)
    requires m < |s.store.home| && Updating(s.threads[u], s.store.home[m])
    ensures t in log.crossed
  {
    hide MapsFresh, EmptyUntilNoType, Updating;
    assert ThreadFresh(s.store, log, t, s.threads[t]);
    assert Crosses(s, t);
  }

  ghost predicate LogsSaves(s: State, a: Action, log: Log, log': Log) {
    forall m: nat, k :: Saves(s, a, m, k) && a.t in log.crossed ==> (m, k) in log'.stale
  }

  // ---------- steps that leave the entries alone ----------

  /** A move of operation `t` that changes no inner map. */
  lemma QuietMove(s: State, s': State, t: nat, log: Log, log': Log)
    requires ThreadsOk(s) && Fresh(s, log) && Extends(log, log') && LogsCrossings(s', log')
    requires t in s.threads && t in s'.threads && s'.threads == s.threads[t := s'.threads[t]]
    requires s'.store.heap == s.store.heap && s'.store.home == s.store.home
    requires ThreadFresh(s'.store, log', t, s'.threads[t])
    requires var m := Walk(s.threads[t]);
      m.Some? ==> MapFresh(s'.store, log', m.value) || Walk(s'.threads[t]) == m
    ensures Fresh(s', log')
  {
    hide ThreadsOk, Fresh, ThreadFresh, MapFresh, LogsCrossings, Extends;
    var n := |s.store.heap|;
    assert OnlyAt(s.store, s'.store, n, NO_TYPE);
    MoveFresh(s, s', t, n, NO_TYPE, log, log');
  }

  lemma SameFresh(s: State, s': State, log: Log, log': Log)
    requires Fresh(s, log) && Extends(log, log') && s'.store.heap == s.store.heap && s'.store.home == s.store.home
    requires forall t :: t in s.threads ==> t in s'.threads && s'.threads[t] == s.threads[t]
    requires forall t :: t in s'.threads && t !in s.threads ==> AtStart(s'.threads[t])
    requires LogsCrossings(s', log')
    ensures Fresh(s', log')
  {
    hide LogsCrossings;
    assert ThreadsFresh(s', log') by { SameThreadsFresh(s, s', log, log'); }
    forall m | 0 <= m < |s'.store.heap| ensures MapFresh(s'.store, log', m) || Walked(s', m) {
      assert MapFresh(s.store, log, m) || Walked(s, m);
      if Walked(s, m) {
        var u :| u in s.threads && Walk(s.threads[u]) == Some(m);
        assert s'.threads[u] == s.threads[u];
      }
    }
  }

  lemma SameThreadsFresh(s: State, s': State, log: Log, log': Log)
    requires ThreadsFresh(s, log) && Extends(log, log')
    requires s'.store.heap == s.store.heap && s'.store.home == s.store.home
    requires forall t :: t in s.threads ==> t in s'.threads && s'.threads[t] == s.threads[t]
    requires forall t :: t in s'.threads && t !in s.threads ==> AtStart(s'.threads[t])
    ensures ThreadsFresh(s', log')
  {
    forall t | t in s'.threads ensures ThreadFresh(s'.store, log', t, s'.threads[t]) {
      if t in s.threads { assert ThreadFresh(s.store, log, t, s.threads[t]); }
    }
  }

  // ---------- UpdateEndpoint ----------

  /** What every step lemma starts from. */
  ghost predicate Stepping(s: State, a: Action, s': State, log: Log, log': Log) {
    && Inv(s) && Fresh(s, log) && Enabled(s, a) && s' == Next(s, a)
    && Extends(log, log') && LogsCrossings(s', log') && LogsSaves(s, a, log, log')
  }

  lemma UpdateQuiet(s: State, t: nat, s': State, log: Log, log': Log)
    requires Stepping(s, Run(t), s', log, log') && t in s.threads && s.threads[t].Update?
    requires s.threads[t].upc.UStart? || s.threads[t].upc.UUnlock? ||
      (s.threads[t].upc.ULoad? && s.threads[t].endpoint.id in s.store.correlations)
    ensures Fresh(s', log')
  {
    hide Inv, Exclusive, MapsFresh, EmptyUntilNoType, LogsCrossings, LogsSaves, CanRun, Updating;
    var u := s.threads[t];
    assert ThreadsOk(s) by { InvParts(s); }
    assert ThreadFresh(s.store, log, t, u);
    if u.upc.ULoad? { LoadHasNoType(s, t); }
    QuietMove(s, s', t, log, log');
  }

  lemma InvParts(s: State)
    requires Inv(s)
    ensures ThreadsOk(s) && MapsOk(s.store)
  {
    hide ThreadsOk, Exclusive, NoTypeOk, SoundOk, MapsOk, EntriesOk, CreatedOnce, EventsOk;
  }

  lemma LoadHasNoType(s: State, t: nat)
    requires Inv(s) && t in s.threads && s.threads[t].Update? && s.threads[t].upc.ULoad?
    requires s.threads[t].endpoint.id in s.store.correlations
    ensures HasNoType(s.store, s.store.correlations[s.threads[t].endpoint.id])
  {
    hide Inv;
    LoadedHasNoType(s, t, s.threads[t].endpoint.id);
  }

  lemma WalkQuiet(s: State, a: Action, s': State, log: Log, log': Log)
    requires Stepping(s, a, s', log, log') && (a.Visit? || a.EndVisits?)
    ensures Fresh(s', log')
  {
    hide Inv, Exclusive, MapsFresh, EmptyUntilNoType, LogsCrossings, LogsSaves, Updating;
    assert ThreadsOk(s) by { InvParts(s); }
    assert ThreadFresh(s.store, log, a.t, s.threads[a.t]);
    QuietMove(s, s', a.t, log, log');
  }

  /** A new inner map is made. */
  lemma NewMapMove(s: State, t: nat, s': State, log: Log, log': Log)
    requires Stepping(s, Run(t), s', log, log') && t in s.threads && !s.threads[t].Attrs?
    requires var th := s.threads[t];
      var e := if th.Update? then th.endpoint.id else th.endpointId;
      e !in s.store.correlations && (if th.Update? then th.upc.ULoad? else th.gpc.GLoad?)
    ensures Fresh(s', log')
  {
    hide Inv, Exclusive, MapsFresh, EmptyUntilNoType, LogsCrossings, LogsSaves, CanRun, Updating, ThreadsFresh,
      ThreadsOk;
    InvParts(s);
    var n := |s.store.heap|;
    assert OnlyAt(s.store, s'.store, n, NO_TYPE);
    MoveFresh(s, s', t, n, NO_TYPE, log, log');
  }

  /** The lock of the endpoint keeps other updates off its inner maps; an operation past the lock is logged, or could
      not have got there before the no-type entry. */
  lemma LockSpares(s: State, t: nat, m: nat, k: ReceiverId, log: Log, log': Log)
    requires Inv(s) && Fresh(s, log) && Extends(log, log') && t in s.threads && m < |s.store.heap| == |s.store.home|
    requires EndpointHeld(s.threads[t]) == Some(s.store.home[m])
    requires k == NO_TYPE && NO_TYPE in s.store.heap[m] ==> s.threads[t].Update?
    ensures forall t2 :: t2 in s.threads && t2 != t ==> Spared(s.store, log', m, k, t2, s.threads[t2])
  {
    hide Inv, Fresh, Walk, EndpointHeld;
    forall t2 | t2 in s.threads && t2 != t ensures Spared(s.store, log', m, k, t2, s.threads[t2]) {
      NoOtherWalker(s, t, t2, m);
      if Window(s.threads[t2]) == Some(m) && k == NO_TYPE {
        WindowFacts(s, t2, m);
        PassedIsLogged(s, t2, t, m, log);
      }
    }
  }

  lemma FillMove(s: State, t: nat, s': State, m: nat, log: Log, log': Log)
    requires Stepping(s, Run(t), s', log, log') && t in s.threads && Filling(s.threads[t], m)
    ensures Fresh(s', log')
  {
    hide Exclusive, NoTypeOk, SoundOk, ReaperOk, EntriesOk, CreatedOnce, EventsOk, MapsFresh, LogsCrossings, LogsSaves,
      CanRun, Updating, ThreadsFresh;
    assert ThreadOk(s.store, s.threads[t]);
    assert s.store.heap[m] == map[];
    LockSpares(s, t, m, NO_TYPE, log, log');
    FillFacts(s, t, s', m, log');
    MoveFresh(s, s', t, m, NO_TYPE, log, log');
  }

  lemma FillFacts(s: State, t: nat, s': State, m: nat, log': Log)
    requires Enabled(s, Run(t)) && s' == Next(s, Run(t)) && t in s.threads && Filling(s.threads[t], m)
    requires m < |s.store.heap| == |s.store.home| && s.store.heap[m] == map[]
    requires s.threads[t].Get? ==> s.store.home[m] == s.threads[t].endpointId
    ensures OnlyAt(s.store, s'.store, m, NO_TYPE) && NO_TYPE in s'.store.heap[m] && MapFresh(s'.store, log', m)
    ensures ThreadFresh(s'.store, log', t, s'.threads[t])
  {
    hide CanRun, OnlyAt, MapFresh, ThreadFresh;
    var th := s.threads[t];
    var c := if th.Update? then Correlation(th.state, s.now, th.endpoint, NO_TYPE, th.observer) else NEW_CORRELATION;
    FilledMap(s.store, m, c, log');
    if th.Update? {
      UpdateFilled(s.store.Create(m, NO_TYPE, c), th, m, t, log');
    } else {
      GetFilled(s.store.Create(m, NO_TYPE, c), th, m, t, log');
    }
  }

  lemma FilledMap(st: Store, m: nat, c: Correlation, log': Log)
    requires m < |st.heap| == |st.home| && st.heap[m] == map[]
    ensures var st' := st.Create(m, NO_TYPE, c);
      OnlyAt(st, st', m, NO_TYPE) && st'.home == st.home && m < |st'.heap| && st'.heap[m] == map[NO_TYPE := c] &&
      MapFresh(st', log', m)
  {
  }

  lemma UpdateFilled(st: Store, u: Thread, m: nat, t: nat, log': Log)
    requires u.Update? && m < |st.heap| && st.heap[m].Keys == {NO_TYPE} && Carries(st.heap[m][NO_TYPE], u)
    ensures ThreadFresh(st, log', t, u.(upc := UUnlock(m)))
  {
  }

  lemma GetFilled(st: Store, g: Thread, m: nat, t: nat, log': Log)
    requires g.Get? && m < |st.home| && st.home[m] == g.endpointId
    ensures ThreadFresh(st, log', t, g.(gpc := GLockReceiver(m)))
  {
  }

  lemma FieldMove(s: State, t: nat, s': State, log: Log, log': Log)
    requires Stepping(s, Run(t), s', log, log') && t in s.threads && s.threads[t].Update? && s.threads[t].upc.UField?
    ensures Fresh(s', log')
  {
    hide Exclusive, NoTypeOk, SoundOk, ReaperOk, EntriesOk, CreatedOnce, EventsOk, MapsFresh, LogsCrossings, LogsSaves,
      CanRun, Updating, ThreadsFresh, EmptyUntilNoType, WalkFresh;
    var u := s.threads[t];
    assert ThreadOk(s.store, u);
    assert WalkFresh(s.store, log, u) by { FreshThread(s, t, log); }
    LockSpares(s, t, u.upc.m, u.upc.key, log, log');
    FieldFacts(s, t, s', log, log');
    assert Walked(s', u.upc.m);
    MoveFresh(s, s', t, u.upc.m, u.upc.key, log, log');
  }

  lemma FreshThread(s: State, t: nat, log: Log)
    requires Fresh(s, log) && t in s.threads
    ensures ThreadFresh(s.store, log, t, s.threads[t])
  {
    hide ThreadFresh, MapsFresh, EmptyUntilNoType, LogsCrossings;
  }

  lemma FieldFacts(s: State, t: nat, s': State, log: Log, log': Log)
    requires Enabled(s, Run(t)) && s' == Next(s, Run(t)) && t in s.threads && s.threads[t].Update? && Extends(log, log')
    requires s.threads[t].upc.UField? && UpdateOk(s.store, s.threads[t]) && WalkFresh(s.store, log, s.threads[t])
    ensures var u := s.threads[t];
      && OnlyAt(s.store, s'.store, u.upc.m, u.upc.key) && NO_TYPE in s'.store.heap[u.upc.m]
      && ThreadFresh(s'.store, log', t, s'.threads[t]) && Walk(s'.threads[t]) == Walk(u)
  {
    hide CanRun;
  }

  // ---------- GetOrCreate ----------

  lemma GetQuiet(s: State, t: nat, s': State, log: Log, log': Log)
    requires Stepping(s, Run(t), s', log, log') && t in s.threads && s.threads[t].Get?
    requires !s.threads[t].gpc.GStore? && !s.threads[t].gpc.GSave?
    requires s.threads[t].gpc.GLoad? ==> s.threads[t].endpointId in s.store.correlations
    ensures Fresh(s', log')
  {
    hide Inv, Fresh, LogsCrossings, LogsSaves, CanRun, GetStep, GetFresh, Extends, GetOk;
    InvParts(s);
    assert ThreadOk(s.store, s.threads[t]);
    FreshThread(s, t, log);
    QuietGet(s.store, t, s.threads[t], log, log');
    QuietMove(s, s', t, log, log');
  }

  lemma QuietGet(st: Store, t: nat, g: Thread, log: Log, log': Log)
    requires g.Get? && MapsOk(st) && GetOk(st, g) && GetFresh(st, log, t, g) && Extends(log, log')
    requires !g.gpc.GStore? && !g.gpc.GSave? && (g.gpc.GLoad? ==> g.endpointId in st.correlations)
    ensures GetStep(st, g).0 == st && GetFresh(st, log', t, g.(gpc := GetStep(st, g).1))
  {
  }

  lemma SaveMove(s: State, t: nat, s': State, log: Log, log': Log)
    requires Stepping(s, Run(t), s', log, log') && t in s.threads && s.threads[t].Get? && s.threads[t].gpc.GSave?
    ensures Fresh(s', log')
  {
    hide Inv, LogsCrossings, CanRun, Updating, ThreadsFresh, EmptyUntilNoType, GetFresh, MapFresh, OnlyAt, Walk, Walked,
      Spared;
    var g := s.threads[t];
    var m, r := g.gpc.m, g.receiver;
    InvParts(s);
    assert ThreadOk(s.store, g);
    assert GetFresh(s.store, log, t, g) by { FreshThread(s, t, log); }
    assert t in log.crossed ==> (m, r) in log'.stale by { assert Saves(s, Run(t), m, r); }
    SaveFacts(s, t, s', log, log');
    SaveSpares(s, t, log, log');
    if !MapFresh(s.store, log, m) { StillWalked(s, s', t, m); }
    MoveFresh(s, s', t, m, r, log, log');
  }

  lemma StillWalked(s: State, s': State, t: nat, m: nat)
    requires Walked(s, m) && t in s.threads && s.threads[t].Get? && t in s'.threads
    requires s'.threads == s.threads[t := s'.threads[t]]
    ensures Walked(s', m)
  {
    var u :| u in s.threads && Walk(s.threads[u]) == Some(m);
    assert u in s'.threads && s'.threads[u] == s.threads[u];
  }

  lemma SaveFacts(s: State, t: nat, s': State, log: Log, log': Log)
    requires Enabled(s, Run(t)) && s' == Next(s, Run(t)) && t in s.threads && s.threads[t].Get? && Extends(log, log')
    requires s.threads[t].gpc.GSave? && GetOk(s.store, s.threads[t]) && GetFresh(s.store, log, t, s.threads[t])
    requires t in log.crossed ==> (s.threads[t].gpc.m, s.threads[t].receiver) in log'.stale
    ensures var g := s.threads[t];
      && OnlyAt(s.store, s'.store, g.gpc.m, g.receiver) && NO_TYPE in s'.store.heap[g.gpc.m]
      && ThreadFresh(s'.store, log', t, s'.threads[t]) && Walk(g) == None
      && (MapFresh(s.store, log, g.gpc.m) ==> MapFresh(s'.store, log', g.gpc.m))
  {
    hide CanRun;
  }

  /** If an update is writing the inner map, the operation storing an entry there has been passed and is logged. */
  lemma SaveSpares(s: State, t: nat, log: Log, log': Log)
    requires Inv(s) && Fresh(s, log) && t in s.threads && s.threads[t].Get? && s.threads[t].gpc.GSave?
    requires GetOk(s.store, s.threads[t])
    requires t in log.crossed ==> (s.threads[t].gpc.m, s.threads[t].receiver) in log'.stale
    ensures var g := s.threads[t];
      forall t2 :: t2 in s.threads && t2 != t ==> Spared(s.store, log', g.gpc.m, g.receiver, t2, s.threads[t2])
  {
    hide Inv, Fresh, Walk, Updating;
    var g := s.threads[t];
    forall t2 | t2 in s.threads && t2 != t
      ensures Spared(s.store, log', g.gpc.m, g.receiver, t2, s.threads[t2])
    {
      if Walk(s.threads[t2]) == Some(g.gpc.m) {
        WalkerFacts(s, t2, g.gpc.m);
        PassedIsLogged(s, t, t2, g.gpc.m, log);
      }
    }
  }

  // ---------- every step, every run ----------

  lemma RunFresh(s: State, t: nat, s': State, log: Log, log': Log)
    requires Stepping(s, Run(t), s', log, log')
    ensures Fresh(s', log')
  {
    hide Inv, Fresh, Next, CanRun, LogsCrossings, LogsSaves, Extends;
    var th := s.threads[t];
    if th.Attrs? {
      AttrsQuiet(s, t, s', log, log');
    } else if th.Update? {
      match th.upc
      case UStore(m) => FillMove(s, t, s', m, log, log');
      case UField(_, _, _, _, _) => FieldMove(s, t, s', log, log');
      case ULoad =>
        if th.endpoint.id in s.store.correlations {
          UpdateQuiet(s, t, s', log, log');
        } else {
          NewMapMove(s, t, s', log, log');
        }
      case _ =>
        NotInWalk(s, t);
        UpdateQuiet(s, t, s', log, log');
    } else {
      match th.gpc
      case GStore(m) => FillMove(s, t, s', m, log, log');
      case GSave(_, _) => SaveMove(s, t, s', log, log');
      case GLoad =>
        if th.endpointId in s.store.correlations {
          GetQuiet(s, t, s', log, log');
        } else {
          NewMapMove(s, t, s', log, log');
        }
      case _ => GetQuiet(s, t, s', log, log');
    }
  }

  lemma NotInWalk(s: State, t: nat)
    requires Enabled(s, Run(t)) && s.threads[t].Update?
    ensures !s.threads[t].upc.URange? && !s.threads[t].upc.UDone?
  {
  }

  lemma AttrsQuiet(s: State, t: nat, s': State, log: Log, log': Log)
    requires Stepping(s, Run(t), s', log, log') && t in s.threads && s.threads[t].Attrs?
    ensures Fresh(s', log')
  {
    hide Inv, Fresh, LogsCrossings, LogsSaves, Extends, CanRun;
    InvParts(s);
    QuietMove(s, s', t, log, log');
  }

  lemma StepFresh(s: State, a: Action, s': State, log: Log, log': Log)
    requires Stepping(s, a, s', log, log')
    ensures Fresh(s', log')
  {
    hide Inv, Fresh, LogsCrossings, LogsSaves, Extends, ThreadStep;
    match a
    case Run(t) => RunFresh(s, t, s', log, log');
    case Visit(_, _) => WalkQuiet(s, a, s', log, log');
    case EndVisits(_) => WalkQuiet(s, a, s', log, log');
    case _ => SameFresh(s, s', log, log');
  }

  /** By state `i` an update of the endpoint was under way while operation `t` was past the endpoint's lock. */
  ghost predicate Passed(states: seq<State>, i: nat, t: nat) {
    exists b :: 0 <= b <= i && b < |states| && Crosses(states[b], t)
  }

  /** The entry was stored before state `i` by an operation that an update had passed. */
  ghost predicate Overtaken(states: seq<State>, actions: seq<Action>, i: nat, m: nat, k: ReceiverId) {
    exists c :: 0 <= c < i && c < |actions| && c < |states| && Saves(states[c], actions[c], m, k) &&
                Passed(states, c, actions[c].t)
  }

  ghost function LogAt(states: seq<State>, actions: seq<Action>, i: nat): Log {
    Log(iset t: nat | Passed(states, i, t), iset m: nat, k: ReceiverId | Overtaken(states, actions, i, m, k) :: (m, k))
  }

  lemma LogGrows(states: seq<State>, actions: seq<Action>, i: nat)
    requires i < |actions| && |states| == |actions| + 1
    ensures Extends(LogAt(states, actions, i), LogAt(states, actions, i + 1))
    ensures LogsCrossings(states[i], LogAt(states, actions, i))
    ensures LogsCrossings(states[i + 1], LogAt(states, actions, i + 1))
    ensures LogsSaves(states[i], actions[i], LogAt(states, actions, i), LogAt(states, actions, i + 1))
  {
    hide Crosses, Saves;
  }

  lemma {:induction false} FreshInEveryRun(states: seq<State>, actions: seq<Action>, i: nat)
    requires IsRun(states, actions) && i < |states|
    ensures Fresh(states[i], LogAt(states, actions, i))
  {
    hide Inv, Fresh, LogAt, Enabled, Next, Init, LogsCrossings, LogsSaves, Extends;
    if i == 0 {
      FreshAtFirst(states[0], LogAt(states, actions, 0));
    } else {
      FreshInEveryRun(states, actions, i - 1);
      InvInEveryRun(states, actions, i - 1);
      LogGrows(states, actions, i - 1);
      StepFresh(states[i - 1], actions[i - 1], states[i], LogAt(states, actions, i - 1), LogAt(states, actions, i));
    }
  }

  lemma FreshAtFirst(s: State, log: Log)
    requires Init(s)
    ensures Fresh(s, log)
  {
  }

  /** In every run, an entry of an inner map that no update is writing agrees with the no-type entry in state, endpoint
      and observer, unless the GetOrCreate that stored it had been passed by an update of the endpoint. */
  lemma StaleOnlyIfPassed(states: seq<State>, actions: seq<Action>, i: nat, m: nat, k: ReceiverId)
    requires IsRun(states, actions) && i < |states| && HasNoType(states[i].store, m) && k in states[i].store.heap[m]
    requires forall t :: t in states[i].threads ==> Walk(states[i].threads[t]) != Some(m)
    ensures var entries := states[i].store.heap[m];
      Agrees(entries[k], entries[NO_TYPE]) || Overtaken(states, actions, i, m, k)
  {
    hide Overtaken, Passed, ThreadsFresh, LogsCrossings, EmptyUntilNoType;
    FreshInEveryRun(states, actions, i);
    assert MapFresh(states[i].store, LogAt(states, actions, i), m);
  }
}
