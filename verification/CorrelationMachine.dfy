/** The correlation store under concurrency: every lock, load, store, field write and unlock of
    internal/receiver/discoveryreceiver/correlation.go is one atomic step, and any number of operations and one reaper
    take steps in any order. */
module CorrelationMachine {
  import opened Strings
  import Sentinel

  type EndpointId = string
  type ReceiverId = string

  const NO_TYPE: ReceiverId := Sentinel.NO_TYPE_TEXT
  const REMOVED := "removed"

  datatype Endpoint = Endpoint(id: EndpointId, target: string)

  datatype Correlation = Correlation(
    lastState: string, lastUpdated: int, endpoint: Endpoint, receiverId: ReceiverId, observerId: string)

  const NEW_CORRELATION := Correlation("", 0, Endpoint("", ""), NO_TYPE, NO_TYPE)

  /** An UpdateEndpoint call that got the endpoint's lock: the state it carries and when that was. */
  datatype Event = Event(state: string, time: int)

  /** `correlations` maps endpoints to inner maps, which live in `heap` and are shared by reference. The last three
      fields only record history: which endpoint an inner map was made for, the latest event of each endpoint, and
      how often each entry was created. */
  datatype Store = Store(
    correlations: map<EndpointId, nat>,
    heap: seq<map<ReceiverId, Correlation>>,
    attrs: map<ReceiverId, map<string, string>>,
    home: seq<EndpointId>,
    latest: map<EndpointId, Event>,
    created: multiset<(nat, ReceiverId)>)
  {
    function Inner(m: nat): map<ReceiverId, Correlation> {
      if m < |heap| then heap[m] else map[]
    }

    /** Overwrites the entry of a receiver in an inner map. */
    function Put(m: nat, k: ReceiverId, c: Correlation): Store {
      if m < |heap| then this.(heap := heap[m := heap[m][k := c]]) else this
    }

    /** Stores an entry under a receiver, as opposed to changing a field of one that is there. */
    function Create(m: nat, k: ReceiverId, c: Correlation): Store {
      Put(m, k, c).(created := created + multiset{(m, k)})
    }

    /** Puts a new empty inner map in place for an endpoint; its number is the old length of the heap. */
    function NewMap(e: EndpointId): Store {
      this.(heap := heap + [map[]], home := home + [e], correlations := correlations[e := |heap|])
    }
  }

  // ---------- operations in progress ----------

  /** UpdateEndpoint. `URange` and `UField` are the walk over the inner map: `visited` receivers are done, those of
      `must` were there when the walk began; a walk may or may not see receivers added meanwhile. */
  datatype UpdatePc =
    | UStart
    | ULoad
    | UStore(m: nat)
    | URange(m: nat, visited: set<ReceiverId>, must: set<ReceiverId>)
    | UField(m: nat, visited: set<ReceiverId>, must: set<ReceiverId>, key: ReceiverId, field: nat)
    | UUnlock(m: nat)
    | UDone

  /** GetOrCreate. `GCopy` copies the no-type entry and `GRead` the entry to return, a field at a time; `GCrash` is the
      nil dereference that a missing no-type entry would cause. */
  datatype GetPc =
    | GStart
    | GLoad
    | GStore(m: nat)
    | GLockReceiver(m: nat)
    | GUnlockEndpoint(m: nat)
    | GFind(m: nat)
    | GNoType(m: nat)
    | GCopy(m: nat, copy: Correlation, field: nat)
    | GSave(m: nat, copy: Correlation)
    | GRead(m: nat, copy: Correlation, field: nat)
    | GUnlockReceiver(result: Correlation)
    | GDone(result: Correlation)
    | GCrash

  /** Attrs and UpdateAttrs; reading is writing nothing, and only Attrs hands out its copy. */
  datatype AttrsPc = AStart | ABody | AUnlock(copy: map<string, string>) | ADone(copy: map<string, string>)

  datatype Thread =
    | Update(endpoint: Endpoint, state: string, observer: string, upc: UpdatePc)
    | Get(receiver: ReceiverId, endpointId: EndpointId, gpc: GetPc)
    | Attrs(receiver: ReceiverId, write: map<string, string>, apc: AttrsPc)

  datatype ReaperPc =
    | Idle
    | Ranging(seen: set<EndpointId>)
    | RLock(seen: set<EndpointId>, e: EndpointId, m: nat)
    | RCheck(seen: set<EndpointId>, e: EndpointId, m: nat)
    | RDelete(seen: set<EndpointId>, e: EndpointId, m: nat)
    | RUnlock(seen: set<EndpointId>, e: EndpointId)

  datatype State = State(now: int, ttl: int, store: Store, threads: map<nat, Thread>, reaper: ReaperPc)

  ghost predicate Init(s: State) {
    s.now >= 0 && s.store == Store(map[], [], map[], [], map[], multiset{}) && s.threads == map[] && s.reaper == Idle
  }

  // ---------- locks ----------

  /** The endpoint lock an operation is holding: from its Lock step up to its Unlock step. */
  function EndpointHeld(th: Thread): Option<EndpointId> {
    match th
    case Update(ep, _, _, pc) => if pc.UStart? || pc.UDone? then None else Some(ep.id)
    case Get(_, e, pc) => if pc.GLoad? || pc.GStore? || pc.GLockReceiver? || pc.GUnlockEndpoint? then Some(e) else None
    case Attrs(_, _, _) => None
  }

  /** The receiver lock an operation is holding. */
  function ReceiverHeld(th: Thread): Option<ReceiverId> {
    match th
    case Update(_, _, _, _) => None
    case Get(r, _, pc) =>
      if pc.GStart? || pc.GLoad? || pc.GStore? || pc.GLockReceiver? || pc.GDone? || pc.GCrash? then None else Some(r)
    case Attrs(r, _, pc) => if pc.ABody? || pc.AUnlock? then Some(r) else None
  }

  function ReaperHeld(pc: ReaperPc): Option<EndpointId> {
    if pc.RCheck? || pc.RDelete? || pc.RUnlock? then Some(pc.e) else None
  }

  /** The lock an operation is about to take, when its next step is a Lock. */
  function EndpointWanted(th: Thread): Option<EndpointId> {
    if th.Update? && th.upc.UStart? then Some(th.endpoint.id)
    else if th.Get? && th.gpc.GStart? then Some(th.endpointId)
    else None
  }

  function ReceiverWanted(th: Thread): Option<ReceiverId> {
    if th.Get? && th.gpc.GLockReceiver? then Some(th.receiver)
    else if th.Attrs? && th.apc.AStart? then Some(th.receiver)
    else None
  }

  ghost predicate EndpointFree(s: State, e: EndpointId) {
    ReaperHeld(s.reaper) != Some(e) && forall t :: t in s.threads ==> EndpointHeld(s.threads[t]) != Some(e)
  }

  ghost predicate ReceiverFree(s: State, r: ReceiverId) {
    forall t :: t in s.threads ==> ReceiverHeld(s.threads[t]) != Some(r)
  }

  // ---------- steps ----------

  /** One field write of UpdateEndpoint's walk, in source order. */
  function WriteField(c: Correlation, u: Thread, field: nat, now: int): Correlation
    requires u.Update?
  {
    match field
    case 0 => c.(endpoint := u.endpoint)
    case 1 => c.(observerId := u.observer)
    case 2 => c.(lastUpdated := now)
    case _ => c.(lastState := u.state)
  }

  /** One field read of a struct copy, in the order of declaration. */
  function ReadField(copy: Correlation, entries: map<ReceiverId, Correlation>, k: ReceiverId, field: nat): Correlation {
    if k !in entries then copy else
      match field
      case 0 => copy.(lastState := entries[k].lastState)
      case 1 => copy.(lastUpdated := entries[k].lastUpdated)
      case 2 => copy.(endpoint := entries[k].endpoint)
      case 3 => copy.(receiverId := entries[k].receiverId)
      case _ => copy.(observerId := entries[k].observerId)
  }

  function UpdateStep(st: Store, now: int, u: Thread): (r: (Store, UpdatePc))
    requires u.Update?
  {
    var e := u.endpoint.id;
    match u.upc
    case UStart => (st.(latest := st.latest[e := Event(u.state, now)]), ULoad)
    case ULoad =>
      if e in st.correlations then (st, URange(st.correlations[e], {}, st.Inner(st.correlations[e]).Keys))
      else (st.NewMap(e), UStore(|st.heap|))
    case UStore(m) => (st.Create(m, NO_TYPE, Correlation(u.state, now, u.endpoint, NO_TYPE, u.observer)), UUnlock(m))
    case UField(m, visited, must, key, field) =>
      (if key in st.Inner(m) then st.Put(m, key, WriteField(st.Inner(m)[key], u, field, now)) else st,
       if field < 3 then UField(m, visited, must, key, field + 1) else URange(m, visited + {key}, must))
    case UUnlock(_) => (st, UDone)
    case _ => (st, u.upc)
  }

  function GetStep(st: Store, g: Thread): (r: (Store, GetPc))
    requires g.Get?
  {
    var e, r := g.endpointId, g.receiver;
    match g.gpc
    case GStart => (st, GLoad)
    case GLoad =>
      if e in st.correlations then (st, GLockReceiver(st.correlations[e])) else (st.NewMap(e), GStore(|st.heap|))
    case GStore(m) => (st.Create(m, NO_TYPE, NEW_CORRELATION), GLockReceiver(m))
    case GLockReceiver(m) => (st, GUnlockEndpoint(m))
    case GUnlockEndpoint(m) => (st, GFind(m))
    case GFind(m) => (st, if r in st.Inner(m) then GRead(m, NEW_CORRELATION, 0) else GNoType(m))
    case GNoType(m) => (st, if NO_TYPE in st.Inner(m) then GCopy(m, NEW_CORRELATION, 0) else GCrash)
    case GCopy(m, copy, field) =>
      var read := ReadField(copy, st.Inner(m), NO_TYPE, field);
      (st, if field < 4 then GCopy(m, read, field + 1) else GSave(m, read.(receiverId := r)))
    case GSave(m, copy) => (st.Create(m, r, copy), GRead(m, NEW_CORRELATION, 0))
    case GRead(m, copy, field) =>
      var read := ReadField(copy, st.Inner(m), r, field);
      (st, if field < 4 then GRead(m, read, field + 1) else GUnlockReceiver(read))
    case GUnlockReceiver(c) => (st, GDone(c))
    case _ => (st, g.gpc)
  }

  function AttrsStep(st: Store, a: Thread): (r: (Store, AttrsPc))
    requires a.Attrs?
  {
    var r := a.receiver;
    match a.apc
    case AStart => (st, ABody)
    case ABody =>
      var merged := (if r in st.attrs then st.attrs[r] else map[]) + a.write;
      (st.(attrs := st.attrs[r := merged]), AUnlock(merged))
    case AUnlock(copy) => (st, ADone(copy))
    case ADone(_) => (st, a.apc)
  }

  function ThreadStep(st: Store, now: int, th: Thread): (r: (Store, Thread)) {
    match th
    case Update(_, _, _, _) => var (st', pc) := UpdateStep(st, now, th); (st', th.(upc := pc))
    case Get(_, _, _) => var (st', pc) := GetStep(st, th); (st', th.(gpc := pc))
    case Attrs(_, _, _) => var (st', pc) := AttrsStep(st, th); (st', th.(apc := pc))
  }

  function ReaperStep(st: Store, now: int, ttl: int, pc: ReaperPc): (r: (Store, ReaperPc)) {
    match pc
    case RLock(seen, e, m) => (st, RCheck(seen, e, m))
    case RCheck(seen, e, m) =>
      (st,
       if NO_TYPE in st.Inner(m) && st.Inner(m)[NO_TYPE].lastState == REMOVED &&
          now - st.Inner(m)[NO_TYPE].lastUpdated > ttl
       then RDelete(seen, e, m) else RUnlock(seen, e))
    case RDelete(seen, e, _) => (st.(correlations := st.correlations - {e}), RUnlock(seen, e))
    case RUnlock(seen, _) => (st, Ranging(seen))
    case _ => (st, pc)
  }

  predicate AtStart(th: Thread) {
    match th
    case Update(_, _, _, pc) => pc == UStart
    case Get(_, _, pc) => pc == GStart
    case Attrs(_, _, pc) => pc == AStart
  }

  predicate Finished(th: Thread) {
    match th
    case Update(_, _, _, pc) => pc == UDone
    case Get(_, _, pc) => pc.GDone?
    case Attrs(_, _, pc) => pc.ADone?
  }

  /** At a step whose successor depends on what the walk visits next. */
  predicate InWalk(th: Thread) {
    th.Update? && th.upc.URange?
  }

  datatype Action =
    | Tick(d: nat)
    | Spawn(t: nat, thread: Thread)
    | Run(t: nat)
    | Visit(t: nat, key: ReceiverId)
    | EndVisits(t: nat)
    | ReapBegin
    | ReapPick(e: EndpointId)
    | ReapEnd
    | ReapRun

  ghost predicate CanRun(s: State, th: Thread) {
    && !Finished(th) && !InWalk(th) && !(th.Get? && th.gpc.GCrash?)
    && (EndpointWanted(th).Some? ==> EndpointFree(s, EndpointWanted(th).value))
    && (ReceiverWanted(th).Some? ==> ReceiverFree(s, ReceiverWanted(th).value))
  }

  ghost predicate Enabled(s: State, a: Action) {
    match a
    case Tick(_) => true
    case Spawn(t, th) => t !in s.threads && AtStart(th)
    case Run(t) => t in s.threads && CanRun(s, s.threads[t])
    case Visit(t, key) =>
      t in s.threads && InWalk(s.threads[t]) &&
      key in s.store.Inner(s.threads[t].upc.m) && key !in s.threads[t].upc.visited
    case EndVisits(t) =>
      t in s.threads && InWalk(s.threads[t]) && s.threads[t].upc.must <= s.threads[t].upc.visited
    case ReapBegin => s.reaper.Idle?
    case ReapPick(e) => s.reaper.Ranging? && e in s.store.correlations && e !in s.reaper.seen
    case ReapEnd => s.reaper.Ranging?
    case ReapRun =>
      !s.reaper.Idle? && !s.reaper.Ranging? && (s.reaper.RLock? ==> EndpointFree(s, s.reaper.e))
  }

  ghost function Next(s: State, a: Action): State
    requires Enabled(s, a)
  {
    match a
    case Tick(d) => s.(now := s.now + d)
    case Spawn(t, th) => s.(threads := s.threads[t := th])
    case Run(t) =>
      var (st, th) := ThreadStep(s.store, s.now, s.threads[t]);
      s.(store := st, threads := s.threads[t := th])
    case Visit(t, key) =>
      var u := s.threads[t];
      s.(threads := s.threads[t := u.(upc := UField(u.upc.m, u.upc.visited, u.upc.must, key, 0))])
    case EndVisits(t) => s.(threads := s.threads[t := s.threads[t].(upc := UUnlock(s.threads[t].upc.m))])
    case ReapBegin => s.(reaper := Ranging({}))
    case ReapPick(e) => s.(reaper := RLock(s.reaper.seen + {e}, e, s.store.correlations[e]))
    case ReapEnd => s.(reaper := Idle)
    case ReapRun =>
      var (st, pc) := ReaperStep(s.store, s.now, s.ttl, s.reaper);
      s.(store := st, reaper := pc)
  }

  /** A run: states joined by enabled actions, from the empty store. */
  ghost predicate IsRun(states: seq<State>, actions: seq<Action>) {
    && |states| == |actions| + 1
    && Init(states[0])
    && forall i :: 0 <= i < |actions| ==> Enabled(states[i], actions[i]) && states[i + 1] == Next(states[i], actions[i])
  }
}
