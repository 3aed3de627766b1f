/** The receiver attributes of the correlation store under concurrency: what Attrs returns is, key by key, what the last
    UpdateAttrs of the receiver wrote, in the order in which the calls pass through the receiver's lock. */
module CorrelationAttrs {
  import opened Strings
  import opened CorrelationMachine

  /** The step in which a call on `r` reads and merges the attributes. */
  ghost predicate Merges(s: State, a: Action, r: ReceiverId) {
    a.Run? && a.t in s.threads && s.threads[a.t].Attrs? && s.threads[a.t].receiver == r && s.threads[a.t].apc.ABody?
  }

  /** What the last call before state `i` that wrote the key wrote. */
  ghost function LastWrite(states: seq<State>, actions: seq<Action>, i: nat, r: ReceiverId, k: string): Option<string>
    requires i <= |actions| && i <= |states|
  {
    if i == 0 then None
    else if Merges(states[i - 1], actions[i - 1], r) && k in states[i - 1].threads[actions[i - 1].t].write then
      Some(states[i - 1].threads[actions[i - 1].t].write[k])
    else LastWrite(states, actions, i - 1, r, k)
  }

  function Lookup(attrs: map<string, string>, k: string): Option<string> {
    if k in attrs then Some(attrs[k]) else None
  }

  function AttrsOf(st: Store, r: ReceiverId): map<string, string> {
    if r in st.attrs then st.attrs[r] else map[]
  }

  /** Attributes change only when a call on the receiver merges. */
  lemma AttrsChange(s: State, a: Action, s': State, r: ReceiverId, k: string)
    requires Enabled(s, a) && s' == Next(s, a)
    ensures Lookup(AttrsOf(s'.store, r), k) ==
      if Merges(s, a, r) && k in s.threads[a.t].write then Some(s.threads[a.t].write[k])
      else Lookup(AttrsOf(s.store, r), k)
  {
    hide CanRun, EndpointFree;
    if a.Run? && s.threads[a.t].Update? { UpdateLeavesAttrs(s.store, s.now, s.threads[a.t]); }
    if a.Run? && s.threads[a.t].Get? { GetLeavesAttrs(s.store, s.threads[a.t]); }
  }

  lemma UpdateLeavesAttrs(st: Store, now: int, u: Thread)
    requires u.Update?
    ensures UpdateStep(st, now, u).0.attrs == st.attrs
  {
    hide WriteField;
  }

  lemma GetLeavesAttrs(st: Store, g: Thread)
    requires g.Get?
    ensures GetStep(st, g).0.attrs == st.attrs
  {
  }

  /** In every run the store holds of each receiver's attribute what was last written. */
  lemma {:induction false} AttrsInEveryRun(states: seq<State>, actions: seq<Action>, i: nat, r: ReceiverId, k: string)
    requires IsRun(states, actions) && i < |states|
    ensures Lookup(AttrsOf(states[i].store, r), k) == LastWrite(states, actions, i, r, k)
  {
    hide Enabled, Next, Merges;
    if i > 0 {
      hide Lookup, AttrsOf, Init;
      AttrsInEveryRun(states, actions, i - 1, r, k);
      AttrsChange(states[i - 1], actions[i - 1], states[i], r, k);
    }
  }

  // ---------- what a call returns ----------

  /** A call that has merged did so with what it hands out. */
  lemma {:induction false} MergedAt(states: seq<State>, actions: seq<Action>, i: nat, t: nat) returns (b: nat)
    requires IsRun(states, actions) && i < |states| && t in states[i].threads && states[i].threads[t].Attrs?
    requires states[i].threads[t].apc.AUnlock? || states[i].threads[t].apc.ADone?
    ensures b < i && actions[b] == Run(t) && Merges(states[b], actions[b], states[i].threads[t].receiver)
    ensures states[b].threads[t] == states[i].threads[t].(apc := ABody)
    ensures AttrsOf(states[b + 1].store, states[i].threads[t].receiver) == states[i].threads[t].apc.copy
    decreases i
  {
    hide Enabled, Next;
    if i == 0 { assert false; }
    var s, a, s' := states[i - 1], actions[i - 1], states[i];
    CallBefore(s, a, s', t);
    b := i - 1;
    if !s.threads[t].apc.ABody? { b := MergedAt(states, actions, i - 1, t); }
  }

  lemma CallBefore(s: State, a: Action, s': State, t: nat)
    requires Enabled(s, a) && s' == Next(s, a) && t in s'.threads && s'.threads[t].Attrs?
    requires s'.threads[t].apc.AUnlock? || s'.threads[t].apc.ADone?
    ensures t in s.threads && s.threads[t].Attrs?
    ensures
      if s.threads[t].apc.ABody? then
        && a == Run(t) && s.threads[t] == s'.threads[t].(apc := ABody)
        && AttrsOf(s'.store, s'.threads[t].receiver) == s'.threads[t].apc.copy
      else
        && (s.threads[t].apc.AUnlock? || s.threads[t].apc.ADone?) && s.threads[t].apc.copy == s'.threads[t].apc.copy
        && s'.threads[t] == s.threads[t].(apc := s'.threads[t].apc)
  {
    hide UpdateStep, GetStep, EndpointFree, ReceiverFree;
  }

  /** In every run, a finished Attrs call returned, for every key, what the last UpdateAttrs of the receiver before the
      call's own turn under the receiver's lock wrote there, and no other keys. */
  lemma AttrsAreLastWrites(states: seq<State>, actions: seq<Action>, i: nat, t: nat)
    requires IsRun(states, actions) && i < |states| && t in states[i].threads && states[i].threads[t].Attrs?
    requires states[i].threads[t].apc.ADone? && states[i].threads[t].write == map[]
    ensures var a := states[i].threads[t];
      exists b: nat :: b < i && actions[b] == Run(t) && Merges(states[b], actions[b], a.receiver) &&
        forall k :: Lookup(a.apc.copy, k) == LastWrite(states, actions, b, a.receiver, k)
  {
    hide Enabled, Next, Init, Lookup, AttrsOf;
    var a := states[i].threads[t];
    var b := MergedAt(states, actions, i, t);
    forall k ensures Lookup(a.apc.copy, k) == LastWrite(states, actions, b, a.receiver, k) {
      AttrsInEveryRun(states, actions, b + 1, a.receiver, k);
    }
  }
}
