/** A run that leaves a stale entry behind: an UpdateEndpoint passes a GetOrCreate between its copy of the no-type entry
    and its store, and everything finishes. */
module CorrelationStale {
  import opened Strings
  import opened CorrelationMachine
  import opened CorrelationFreshness

  /** A run that ends with operation `t` at `th` and the store `st`, nothing else having moved from `base`. */
  ghost predicate EndsAt(states: seq<State>, actions: seq<Action>, base: map<nat, Thread>, t: nat, th: Thread,
                         st: Store)
  {
    && states != [] && IsRun(states, actions) && t !in base
    && var s := states[|states| - 1];
    s.now == 0 && s.reaper == Idle && s.store == st && s.threads == base[t := th]
  }

  lemma Appended(states: seq<State>, actions: seq<Action>, a: Action)
    requires IsRun(states, actions) && Enabled(states[|states| - 1], a)
    ensures IsRun(states + [Next(states[|states| - 1], a)], actions + [a])
  {
    hide Enabled, Next, Init;
    var states', actions' := states + [Next(states[|states| - 1], a)], actions + [a];
    forall i | 0 <= i < |actions'|
      ensures Enabled(states'[i], actions'[i]) && states'[i + 1] == Next(states'[i], actions'[i])
    {
      if i < |actions| {
        assert states'[i] == states[i] && states'[i + 1] == states[i + 1] && actions'[i] == actions[i];
      }
    }
  }

  lemma Overwritten(base: map<nat, Thread>, t: nat, a: Thread, b: Thread)
    ensures base[t := a][t := b] == base[t := b]
  {
  }

  /** The locks the operation asks for are free of the others. */
  ghost predicate Unhindered(base: map<nat, Thread>, th: Thread) {
    && (EndpointWanted(th).Some? ==> forall t :: t in base ==> EndpointHeld(base[t]) != EndpointWanted(th))
    && (ReceiverWanted(th).Some? ==> forall t :: t in base ==> ReceiverHeld(base[t]) != ReceiverWanted(th))
  }

  lemma Go(states: seq<State>, actions: seq<Action>, base: map<nat, Thread>, t: nat, th: Thread, st: Store, th': Thread,
           st': Store)
    returns (states': seq<State>, actions': seq<Action>)
    requires EndsAt(states, actions, base, t, th, st) && ThreadStep(st, 0, th) == (st', th') && Unhindered(base, th)
    requires !Finished(th) && !InWalk(th) && !(th.Get? && th.gpc.GCrash?)
    requires EndpointHeld(th) != EndpointWanted(th) || EndpointWanted(th).None?
    requires ReceiverHeld(th) != ReceiverWanted(th) || ReceiverWanted(th).None?
    ensures EndsAt(states', actions', base, t, th', st')
  {
    hide IsRun, ThreadStep, EndpointHeld, EndpointWanted, ReceiverHeld, ReceiverWanted, InWalk, Finished;
    var s := states[|states| - 1];
    assert CanRun(s, th);
    assert Enabled(s, Run(t));
    Appended(states, actions, Run(t));
    Overwritten(base, t, th, th');
    states', actions' := states + [Next(s, Run(t))], actions + [Run(t)];
  }

  lemma Begin(states: seq<State>, actions: seq<Action>, base: map<nat, Thread>, t: nat, th: Thread, st: Store, t': nat,
              th': Thread)
    returns (states': seq<State>, actions': seq<Action>)
    requires EndsAt(states, actions, base, t, th, st) && t' != t && t' !in base && AtStart(th')
    ensures EndsAt(states', actions', base[t := th], t', th', st)
  {
    hide IsRun, AtStart;
    var s := states[|states| - 1];
    assert Enabled(s, Spawn(t', th'));
    Appended(states, actions, Spawn(t', th'));
    states', actions' := states + [Next(s, Spawn(t', th'))], actions + [Spawn(t', th')];
  }

  // ---------- the cast ----------

  function Upd(e: EndpointId, state: string, pc: UpdatePc): Thread {
    Update(Endpoint(e, ""), state, "", pc)
  }

  function Copy(e: EndpointId, state: string, k: ReceiverId): Correlation {
    Correlation(state, 0, Endpoint(e, ""), k, "")
  }

  function StoreWith(e: EndpointId, latest: string, entries: map<ReceiverId, Correlation>,
                     created: multiset<(nat, ReceiverId)>): Store
  {
    Store(map[e := 0], [entries], map[], [e], map[e := Event(latest, 0)], created)
  }

  lemma FirstLoads(e: EndpointId, a: string, ttl: int) returns (states: seq<State>, actions: seq<Action>)
    ensures EndsAt(states, actions, map[], 0, Upd(e, a, ULoad),
                   Store(map[], [], map[], [], map[e := Event(a, 0)], multiset{}))
  {
    var empty := Store(map[], [], map[], [], map[], multiset{});
    var s0 := State(0, ttl, empty, map[], Idle);
    states, actions := [s0, Next(s0, Spawn(0, Upd(e, a, UStart)))], [Spawn(0, Upd(e, a, UStart))];
    assert EndsAt(states, actions, map[], 0, Upd(e, a, UStart), empty);
    hide EndsAt;
    var st := empty.(latest := map[e := Event(a, 0)]);
    assert empty.latest[e := Event(a, 0)] == st.latest;
    states, actions := Go(states, actions, map[], 0, Upd(e, a, UStart), empty, Upd(e, a, ULoad), st);
  }

  /** The endpoint is added by a first update. */
  lemma FirstUpdate(e: EndpointId, a: string, ttl: int) returns (states: seq<State>, actions: seq<Action>)
    ensures EndsAt(states, actions, map[], 0, Upd(e, a, UDone),
                   StoreWith(e, a, map[NO_TYPE := Copy(e, a, NO_TYPE)], multiset{(0, NO_TYPE)}))
  {
    hide EndsAt;
    var st1 := Store(map[], [], map[], [], map[e := Event(a, 0)], multiset{});
    var st2 := StoreWith(e, a, map[], multiset{});
    var st3 := StoreWith(e, a, map[NO_TYPE := Copy(e, a, NO_TYPE)], multiset{(0, NO_TYPE)});
    assert st1.NewMap(e) == st2 by { assert st1.correlations[e := 0] == st2.correlations && [] + [map[]] == st2.heap; }
    assert st2.Create(0, NO_TYPE, Copy(e, a, NO_TYPE)) == st3 by {
      assert st2.heap[0 := st2.heap[0][NO_TYPE := Copy(e, a, NO_TYPE)]] == st3.heap;
    }
    states, actions := FirstLoads(e, a, ttl);
    states, actions := Go(states, actions, map[], 0, Upd(e, a, ULoad), st1, Upd(e, a, UStore(0)), st2);
    states, actions := Go(states, actions, map[], 0, Upd(e, a, UStore(0)), st2, Upd(e, a, UUnlock(0)), st3);
    states, actions := Go(states, actions, map[], 0, Upd(e, a, UUnlock(0)), st3, Upd(e, a, UDone), st3);
  }

  lemma PastTheLock(states: seq<State>, actions: seq<Action>, base: map<nat, Thread>, t: nat, e: EndpointId,
                    r: ReceiverId, st: Store)
    returns (states': seq<State>, actions': seq<Action>)
    requires e in st.correlations && st.correlations[e] == 0 && EndsAt(states, actions, base, t, Get(r, e, GStart), st)
    requires forall u :: u in base ==> EndpointHeld(base[u]).None? && ReceiverHeld(base[u]).None?
    ensures EndsAt(states', actions', base, t, Get(r, e, GFind(0)), st)
  {
    hide EndsAt;
    states', actions' := Go(states, actions, base, t, Get(r, e, GStart), st, Get(r, e, GLoad), st);
    states', actions' := Go(states', actions', base, t, Get(r, e, GLoad), st, Get(r, e, GLockReceiver(0)), st);
    var both := Get(r, e, GUnlockEndpoint(0));
    states', actions' := Go(states', actions', base, t, Get(r, e, GLockReceiver(0)), st, both, st);
    states', actions' := Go(states', actions', base, t, both, st, Get(r, e, GFind(0)), st);
  }

  /** A GetOrCreate copies the no-type entry and is about to store it. */
  lemma CopyTaken(states: seq<State>, actions: seq<Action>, base: map<nat, Thread>, t: nat, e: EndpointId,
                  r: ReceiverId, a: string, st: Store)
    returns (states': seq<State>, actions': seq<Action>)
    requires st == StoreWith(e, a, map[NO_TYPE := Copy(e, a, NO_TYPE)], multiset{(0, NO_TYPE)}) && r != NO_TYPE
    requires EndsAt(states, actions, base, t, Get(r, e, GStart), st)
    requires forall u :: u in base ==> EndpointHeld(base[u]).None? && ReceiverHeld(base[u]).None?
    ensures EndsAt(states', actions', base, t, Get(r, e, GSave(0, Copy(e, a, r))), st)
  {
    hide EndsAt;
    states', actions' := PastTheLock(states, actions, base, t, e, r, st);
    states', actions' := Go(states', actions', base, t, Get(r, e, GFind(0)), st, Get(r, e, GNoType(0)), st);
    var c0 := NEW_CORRELATION;
    states', actions' := Go(states', actions', base, t, Get(r, e, GNoType(0)), st, Get(r, e, GCopy(0, c0, 0)), st);
    states', actions' := FieldsCopied(states', actions', base, t, e, r, a, st);
  }

  lemma FieldsCopied(states: seq<State>, actions: seq<Action>, base: map<nat, Thread>, t: nat, e: EndpointId,
                     r: ReceiverId, a: string, st: Store)
    returns (states': seq<State>, actions': seq<Action>)
    requires st == StoreWith(e, a, map[NO_TYPE := Copy(e, a, NO_TYPE)], multiset{(0, NO_TYPE)})
    requires EndsAt(states, actions, base, t, Get(r, e, GCopy(0, NEW_CORRELATION, 0)), st)
    ensures EndsAt(states', actions', base, t, Get(r, e, GSave(0, Copy(e, a, r))), st)
  {
    hide EndsAt;
    var d := Copy(e, a, NO_TYPE);
    var c1 := NEW_CORRELATION.(lastState := d.lastState);
    var c2 := c1.(endpoint := d.endpoint);
    var at := (c: Correlation, i: nat) => Get(r, e, GCopy(0, c, i));
    states', actions' := Go(states, actions, base, t, at(NEW_CORRELATION, 0), st, at(c1, 1), st);
    states', actions' := Go(states', actions', base, t, at(c1, 1), st, at(c1, 2), st);
    states', actions' := Go(states', actions', base, t, at(c1, 2), st, at(c2, 3), st);
    states', actions' := Go(states', actions', base, t, at(c2, 3), st, at(c2, 4), st);
    states', actions' := Go(states', actions', base, t, at(c2, 4), st, Get(r, e, GSave(0, Copy(e, a, r))), st);
  }

  lemma FieldsRead(states: seq<State>, actions: seq<Action>, base: map<nat, Thread>, t: nat, e: EndpointId,
                   r: ReceiverId, a: string, st: Store)
    returns (states': seq<State>, actions': seq<Action>)
    requires st.heap != [] && r in st.heap[0] && st.heap[0][r] == Copy(e, a, r)
    requires EndsAt(states, actions, base, t, Get(r, e, GRead(0, NEW_CORRELATION, 0)), st)
    ensures EndsAt(states', actions', base, t, Get(r, e, GUnlockReceiver(Copy(e, a, r))), st)
  {
    hide EndsAt;
    var d := Copy(e, a, r);
    var c1 := NEW_CORRELATION.(lastState := d.lastState);
    var c2 := c1.(endpoint := d.endpoint);
    var c3 := c2.(receiverId := r);
    var at := (c: Correlation, i: nat) => Get(r, e, GRead(0, c, i));
    states', actions' := Go(states, actions, base, t, at(NEW_CORRELATION, 0), st, at(c1, 1), st);
    states', actions' := Go(states', actions', base, t, at(c1, 1), st, at(c1, 2), st);
    states', actions' := Go(states', actions', base, t, at(c1, 2), st, at(c2, 3), st);
    states', actions' := Go(states', actions', base, t, at(c2, 3), st, at(c3, 4), st);
    states', actions' := Go(states', actions', base, t, at(c3, 4), st, Get(r, e, GUnlockReceiver(d)), st);
  }

  /** A second update begins its walk, which has only the no-type entry to visit. */
  lemma WalkBegins(states: seq<State>, actions: seq<Action>, base: map<nat, Thread>, t: nat, e: EndpointId, a: string,
                   b: string)
    returns (states': seq<State>, actions': seq<Action>)
    requires EndsAt(states, actions, base, t, Upd(e, b, UStart),
                    StoreWith(e, a, map[NO_TYPE := Copy(e, a, NO_TYPE)], multiset{(0, NO_TYPE)}))
    requires forall u :: u in base ==> EndpointHeld(base[u]) != Some(e)
    ensures EndsAt(states', actions', base, t, Upd(e, b, UField(0, {}, {NO_TYPE}, NO_TYPE, 0)),
                   StoreWith(e, b, map[NO_TYPE := Copy(e, a, NO_TYPE)], multiset{(0, NO_TYPE)}))
  {
    hide EndsAt;
    var entries := map[NO_TYPE := Copy(e, a, NO_TYPE)];
    var st, st1 := StoreWith(e, a, entries, multiset{(0, NO_TYPE)}), StoreWith(e, b, entries, multiset{(0, NO_TYPE)});
    assert st.latest[e := Event(b, 0)] == st1.latest;
    states', actions' := Go(states, actions, base, t, Upd(e, b, UStart), st, Upd(e, b, ULoad), st1);
    assert st1.Inner(0).Keys == {NO_TYPE};
    var range := Upd(e, b, URange(0, {}, {NO_TYPE}));
    states', actions' := Go(states', actions', base, t, Upd(e, b, ULoad), st1, range, st1);
    states', actions' := Visits(states', actions', base, t, range, st1, NO_TYPE);
  }

  lemma Visits(states: seq<State>, actions: seq<Action>, base: map<nat, Thread>, t: nat, u: Thread, st: Store,
               key: ReceiverId)
    returns (states': seq<State>, actions': seq<Action>)
    requires EndsAt(states, actions, base, t, u, st) && InWalk(u) && key in st.Inner(u.upc.m) && key !in u.upc.visited
    ensures EndsAt(states', actions', base, t, u.(upc := UField(u.upc.m, u.upc.visited, u.upc.must, key, 0)), st)
  {
    hide IsRun;
    var s := states[|states| - 1];
    assert Enabled(s, Visit(t, key));
    Appended(states, actions, Visit(t, key));
    Overwritten(base, t, u, u.(upc := UField(u.upc.m, u.upc.visited, u.upc.must, key, 0)));
    states', actions' := states + [Next(s, Visit(t, key))], actions + [Visit(t, key)];
  }

  lemma EndsWalk(states: seq<State>, actions: seq<Action>, base: map<nat, Thread>, t: nat, u: Thread, st: Store)
    returns (states': seq<State>, actions': seq<Action>)
    requires EndsAt(states, actions, base, t, u, st) && InWalk(u) && u.upc.must <= u.upc.visited
    ensures EndsAt(states', actions', base, t, u.(upc := UUnlock(u.upc.m)), st)
  {
    hide IsRun;
    var s := states[|states| - 1];
    assert Enabled(s, EndVisits(t));
    Appended(states, actions, EndVisits(t));
    Overwritten(base, t, u, u.(upc := UUnlock(u.upc.m)));
    states', actions' := states + [Next(s, EndVisits(t))], actions + [EndVisits(t)];
  }

  /** The walk writes the no-type entry, the state last. */
  lemma WalkWrites(states: seq<State>, actions: seq<Action>, base: map<nat, Thread>, t: nat, e: EndpointId, a: string,
                   b: string, st: Store)
    returns (states': seq<State>, actions': seq<Action>)
    requires st == StoreWith(e, b, map[NO_TYPE := Copy(e, a, NO_TYPE)], multiset{(0, NO_TYPE)})
    requires EndsAt(states, actions, base, t, Upd(e, b, UField(0, {}, {NO_TYPE}, NO_TYPE, 0)), st)
    ensures EndsAt(states', actions', base, t, Upd(e, b, UField(0, {}, {NO_TYPE}, NO_TYPE, 3)), st)
  {
    hide EndsAt;
    var n := NO_TYPE;
    assert st.Put(0, n, Copy(e, a, n)) == st by {
      assert st.heap[0][n := Copy(e, a, n)] == st.heap[0] && st.heap[0 := st.heap[0]] == st.heap;
    }
    var f := (i: nat) => Upd(e, b, UField(0, {}, {n}, n, i));
    states', actions' := Go(states, actions, base, t, f(0), st, f(1), st);
    states', actions' := Go(states', actions', base, t, f(1), st, f(2), st);
    states', actions' := Go(states', actions', base, t, f(2), st, f(3), st);
  }

  /** The walk ends. */
  lemma WalkEnds(states: seq<State>, actions: seq<Action>, base: map<nat, Thread>, t: nat, e: EndpointId, a: string,
                 b: string)
    returns (states': seq<State>, actions': seq<Action>)
    requires EndsAt(states, actions, base, t, Upd(e, b, UField(0, {}, {NO_TYPE}, NO_TYPE, 0)),
                    StoreWith(e, b, map[NO_TYPE := Copy(e, a, NO_TYPE)], multiset{(0, NO_TYPE)}))
    ensures EndsAt(states', actions', base, t, Upd(e, b, UDone),
                   StoreWith(e, b, map[NO_TYPE := Copy(e, b, NO_TYPE)], multiset{(0, NO_TYPE)}))
  {
    hide EndsAt;
    var n := NO_TYPE;
    var before, after := map[n := Copy(e, a, n)], map[n := Copy(e, b, n)];
    var st, st' := StoreWith(e, b, before, multiset{(0, n)}), StoreWith(e, b, after, multiset{(0, n)});
    assert st.Put(0, n, Copy(e, b, n)) == st' by {
      assert before[n := Copy(e, b, n)] == after && st.heap[0 := after] == st'.heap;
    }
    states', actions' := WalkWrites(states, actions, base, t, e, a, b, st);
    assert {} + {n} == {n};
    var last, range := Upd(e, b, UField(0, {}, {n}, n, 3)), Upd(e, b, URange(0, {n}, {n}));
    states', actions' := Go(states', actions', base, t, last, st, range, st');
    states', actions' := EndsWalk(states', actions', base, t, range, st');
    states', actions' := Go(states', actions', base, t, Upd(e, b, UUnlock(0)), st', Upd(e, b, UDone), st');
  }

  lemma Turn(states: seq<State>, actions: seq<Action>, base: map<nat, Thread>, t: nat, th: Thread, u: nat, uth: Thread,
             st: Store)
    requires EndsAt(states, actions, base[t := th], u, uth, st) && t !in base && u !in base && t != u
    ensures EndsAt(states, actions, base[u := uth], t, th, st)
  {
    hide IsRun;
    assert base[t := th][u := uth] == base[u := uth][t := th];
  }

  /** The copy is stored and the operation ends. */
  lemma CopySaved(states: seq<State>, actions: seq<Action>, base: map<nat, Thread>, t: nat, e: EndpointId,
                  r: ReceiverId, a: string, b: string)
    returns (states': seq<State>, actions': seq<Action>)
    requires r != NO_TYPE
    requires EndsAt(states, actions, base, t, Get(r, e, GSave(0, Copy(e, a, r))),
                    StoreWith(e, b, map[NO_TYPE := Copy(e, b, NO_TYPE)], multiset{(0, NO_TYPE)}))
    ensures EndsAt(states', actions', base, t, Get(r, e, GDone(Copy(e, a, r))),
                   StoreWith(e, b, map[NO_TYPE := Copy(e, b, NO_TYPE), r := Copy(e, a, r)],
                             multiset{(0, NO_TYPE), (0, r)}))
  {
    hide EndsAt;
    var c := Copy(e, a, r);
    var before, after := map[NO_TYPE := Copy(e, b, NO_TYPE)], map[NO_TYPE := Copy(e, b, NO_TYPE), r := c];
    var st := StoreWith(e, b, before, multiset{(0, NO_TYPE)});
    var st' := StoreWith(e, b, after, multiset{(0, NO_TYPE), (0, r)});
    assert st.Create(0, r, c) == st' by {
      assert before[r := c] == after && st.heap[0 := after] == st'.heap;
      assert multiset{(0, NO_TYPE)} + multiset{(0, r)} == multiset{(0, NO_TYPE), (0, r)};
    }
    var reading := Get(r, e, GRead(0, NEW_CORRELATION, 0));
    states', actions' := Go(states, actions, base, t, Get(r, e, GSave(0, c)), st, reading, st');
    states', actions' := FieldsRead(states', actions', base, t, e, r, a, st');
    states', actions' := Go(states', actions', base, t, Get(r, e, GUnlockReceiver(c)), st', Get(r, e, GDone(c)), st');
  }

  /** So for every endpoint, receiver and two states there is a run after which nothing is under way and the receiver's
      entry still has the first state, though the endpoint's latest update brought the second. */
  lemma StaleEntry(e: EndpointId, r: ReceiverId, a: string, b: string, ttl: int)
    returns (states: seq<State>, actions: seq<Action>)
    requires r != NO_TYPE && a != b
    ensures IsRun(states, actions)
    ensures var s := states[|states| - 1];
      && s.reaper == Idle && (forall t :: t in s.threads ==> Finished(s.threads[t]))
      && e in s.store.correlations && s.store.correlations[e] == 0 && |s.store.heap| == 1
      && NO_TYPE in s.store.heap[0] && s.store.heap[0][NO_TYPE].lastState == b
      && r in s.store.heap[0] && s.store.heap[0][r].lastState == a
      && !Agrees(s.store.heap[0][r], s.store.heap[0][NO_TYPE])
  {
    hide EndsAt, IsRun;
    var first, second := Upd(e, a, UDone), Upd(e, b, UDone);
    var saving := Get(r, e, GSave(0, Copy(e, a, r)));
    var st1 := StoreWith(e, a, map[NO_TYPE := Copy(e, a, NO_TYPE)], multiset{(0, NO_TYPE)});
    var st2 := StoreWith(e, b, map[NO_TYPE := Copy(e, b, NO_TYPE)], multiset{(0, NO_TYPE)});
    states, actions := FirstUpdate(e, a, ttl);
    states, actions := Begin(states, actions, map[], 0, first, st1, 1, Get(r, e, GStart));
    states, actions := CopyTaken(states, actions, map[][0 := first], 1, e, r, a, st1);
    states, actions := Begin(states, actions, map[][0 := first], 1, saving, st1, 2, Upd(e, b, UStart));
    states, actions := WalkBegins(states, actions, map[][0 := first][1 := saving], 2, e, a, b);
    states, actions := WalkEnds(states, actions, map[][0 := first][1 := saving], 2, e, a, b);
    Turn(states, actions, map[][0 := first], 1, saving, 2, second, st2);
    states, actions := CopySaved(states, actions, map[][0 := first][2 := second], 1, e, r, a, b);
    LeftStale(states, actions, e, r, a, b);
  }

  lemma LeftStale(states: seq<State>, actions: seq<Action>, e: EndpointId, r: ReceiverId, a: string, b: string)
    requires EndsAt(states, actions, map[][0 := Upd(e, a, UDone)][2 := Upd(e, b, UDone)], 1,
                    Get(r, e, GDone(Copy(e, a, r))),
                    StoreWith(e, b, map[NO_TYPE := Copy(e, b, NO_TYPE), r := Copy(e, a, r)],
                              multiset{(0, NO_TYPE), (0, r)}))
    requires r != NO_TYPE && a != b
    ensures IsRun(states, actions)
    ensures var s := states[|states| - 1];
      && s.reaper == Idle && (forall t :: t in s.threads ==> Finished(s.threads[t]))
      && e in s.store.correlations && s.store.correlations[e] == 0 && |s.store.heap| == 1
      && NO_TYPE in s.store.heap[0] && s.store.heap[0][NO_TYPE].lastState == b
      && r in s.store.heap[0] && s.store.heap[0][r].lastState == a
      && !Agrees(s.store.heap[0][r], s.store.heap[0][NO_TYPE])
  {
    hide IsRun;
  }
}
