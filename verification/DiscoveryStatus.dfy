/** Discovery statuses (confmapprovider/discovery/discoverer.go): what the log records of the discovery receiver make
    of each receiver's and each observer's status, and which receivers enter the suggested configuration. */
module DiscoveryStatus {
  import opened Strings

  type Id = string

  /** `Unset` is the absent map entry. */
  datatype Status = Unset | Failed | Partial | Successful

  function Rank(s: Status): nat {
    match s
    case Unset => 0
    case Failed => 1
    case Partial => 2
    case Successful => 3
  }

  function Max(a: Status, b: Status): Status {
    if Rank(a) < Rank(b) then b else a
  }

  function DetermineCurrentStatus(current: Status, observed: Status): (r: Status)
    ensures observed != Unset ==> r == Max(current, observed)
  {
    if current == Successful then current
    else if observed == Successful then Successful
    else if current == Partial then current
    else observed
  }

  // ---------- the logs ----------

  /** A log record's status attribute, if any. */
  datatype Record = Record(status: Option<string>)

  function Reported(r: Record): (s: Option<Status>)
    ensures s.Some? ==> s.value != Unset
  {
    if r.status == Some("successful") then Some(Successful)
    else if r.status == Some("partial") then Some(Partial)
    else if r.status == Some("failed") then Some(Failed)
    else None
  }

  datatype Entry = Entry(rule: Option<string>, section: Option<string>, rest: string)

  /** A recorded configuration is a receiver's bare entry, or one that holds the entry under the receiver's ID. */
  datatype Config = Bare(entry: Entry) | Keyed(entry: Entry)

  /** The configuration attribute: absent, impossible to decode, or decoded. */
  datatype ConfigAttr = NoConfig | Undecodable | Decoded(entry: Entry)

  /** One group of logs of the same resource. No `receiver` stands for a missing type attribute, no `observer` for an
      observer ID that does not parse; an absent observer ID is the empty one. */
  datatype Group = Group(receiver: Option<Id>, observer: Option<Id>, config: ConfigAttr, scopes: seq<seq<Record>>)

  function LastStatus(records: seq<Record>): (s: Option<Status>)
    ensures s.Some? ==> s.value != Unset
  {
    if records == [] then None else
      var last := Reported(records[|records| - 1]);
      if last.Some? then last else LastStatus(records[..|records| - 1])
  }

  function GroupStatus(g: Group): Option<Status> {
    if g.scopes == [] then None else LastStatus(g.scopes[0])
  }

  function RecordCount(groups: seq<Group>): nat {
    if groups == [] then 0 else ScopesCount(groups[0].scopes) + RecordCount(groups[1..])
  }

  function ScopesCount(scopes: seq<seq<Record>>): nat {
    if scopes == [] then 0 else |scopes[0]| + ScopesCount(scopes[1..])
  }

  // ---------- what one group does ----------

  /** The unexpanded entry known for a receiver and an observer. */
  type Known = (Id, Id) -> Option<Entry>

  datatype State = State(receivers: map<Id, Status>, observers: map<Id, Status>, configs: map<Id, Config>)

  const EMPTY := State(map[], map[], map[])

  function Get(m: map<Id, Status>, id: Id): Status {
    if id in m then m[id] else Unset
  }

  predicate Fails(g: Group) {
    g.receiver.Some? && g.observer.Some? && g.config == Undecodable
  }

  /** The reported entry, with a known rule that is not empty and a known section put in. */
  function Merge(known: Option<Entry>, reported: Entry): Entry {
    if known.None? then reported else
      Entry(if known.value.rule.Some? && known.value.rule.value != "" then known.value.rule else reported.rule,
            if known.value.section.Some? then known.value.section else reported.section, reported.rest)
  }

  /** What a group records for its receiver. */
  function ConfigOf(known: Option<Entry>, attr: ConfigAttr): Option<Config> {
    if attr.Decoded? then Some(Keyed(Merge(known, attr.entry)))
    else if known.Some? then Some(Bare(known.value))
    else None
  }

  function RecordConfig(s: State, id: Id, known: Option<Entry>, attr: ConfigAttr): State {
    var config := ConfigOf(known, attr);
    if config.None? then s else s.(configs := s.configs[id := config.value])
  }

  /** Both statuses move to the group's status, unless both are already successful. */
  function RecordStatus(s: State, receiver: Id, observer: Id, status: Option<Status>): State {
    var r, o := Get(s.receivers, receiver), Get(s.observers, observer);
    if status.None? || (r == Successful && o == Successful) then s else
      s.(receivers := s.receivers[receiver := DetermineCurrentStatus(r, status.value)],
         observers := s.observers[observer := DetermineCurrentStatus(o, status.value)])
  }

  function Apply(known: Known, s: State, g: Group): State {
    if g.receiver.None? || g.observer.None? then s else
      var r, o := g.receiver.value, g.observer.value;
      var s1 := RecordConfig(s, r, known(r, o), g.config);
      if Fails(g) then s1 else RecordStatus(s1, r, o, GroupStatus(g))
  }

  /** The groups in order, given up at the first whose configuration cannot be decoded. */
  function ApplyAll(known: Known, s: State, groups: seq<Group>): State
    decreases |groups|
  {
    if groups == [] then s else
      var s1 := Apply(known, s, groups[0]);
      if Fails(groups[0]) then s1 else ApplyAll(known, s1, groups[1..])
  }

  function Consume(known: Known, s: State, groups: seq<Group>): State {
    if RecordCount(groups) == 0 then s else ApplyAll(known, s, groups)
  }

  function ConsumeAll(known: Known, s: State, calls: seq<seq<Group>>): State
    decreases |calls|
  {
    if calls == [] then s else ConsumeAll(known, Consume(known, s, calls[0]), calls[1..])
  }

  // ---------- the code ----------

  class Discoverer {
    const known: Known
    var discoveredReceivers: map<Id, Status>
    var discoveredObservers: map<Id, Status>
    var discoveredConfig: map<Id, Config>

    constructor (known: Known)
      ensures this.known == known && Abstract() == EMPTY
    {
      this.known := known;
      discoveredReceivers, discoveredObservers, discoveredConfig := map[], map[], map[];
    }

    ghost function Abstract(): State
      reads this
    {
      State(discoveredReceivers, discoveredObservers, discoveredConfig)
    }

    method ConsumeConfig(receiver: Id, observer: Id, attr: ConfigAttr) returns (ok: bool)
      modifies this`discoveredConfig
      ensures ok == !attr.Undecodable?
      ensures Abstract() == RecordConfig(old(Abstract()), receiver, known(receiver, observer), attr)
    {
      var rule, section := "", None;
      var cfg := known(receiver, observer);
      if cfg.Some? {
        if cfg.value.rule.Some? { rule := cfg.value.rule.value; }
        section := cfg.value.section;
        discoveredConfig := discoveredConfig[receiver := Bare(cfg.value)];
      }
      if attr.NoConfig? { return true; }
      if attr.Undecodable? { return false; }
      var rMap := attr.entry;
      if rule != "" { rMap := rMap.(rule := Some(rule)); }
      if section.Some? { rMap := rMap.(section := section); }
      discoveredConfig := discoveredConfig[receiver := Keyed(rMap)];
      return true;
    }

    /** The records of a scope, with the statuses as they were when the group began. */
    method ConsumeRecords(receiver: Id, observer: Id, records: seq<Record>, currentReceiver: Status,
                          currentObserver: Status, ghost before: State, ghost earlier: Option<Status>)
      requires Abstract() == RecordStatus(before, receiver, observer, earlier)
      requires currentReceiver == Get(before.receivers, receiver) && currentObserver == Get(before.observers, observer)
      modifies this`discoveredReceivers, this`discoveredObservers
      ensures Abstract() == RecordStatus(before, receiver, observer, LastOr(records, earlier))
    {
      hide LastStatus, RecordStatus, Reported;
      ghost var status := earlier;
      LastOfNone(records, earlier);
      for k := 0 to |records|
        invariant Abstract() == RecordStatus(before, receiver, observer, status)
        invariant status == LastOr(records[..k], earlier)
      {
        LastOfMore(records, k);
        var observed := Reported(records[k]);
        if observed.Some? {
          Overwrite(before, receiver, observer, status, observed.value);
          if currentReceiver != Successful || currentObserver != Successful {
            var receiverStatus := DetermineCurrentStatus(currentReceiver, observed.value);
            var observerStatus := DetermineCurrentStatus(currentObserver, observed.value);
            discoveredReceivers := discoveredReceivers[receiver := receiverStatus];
            discoveredObservers := discoveredObservers[observer := observerStatus];
          }
          status := observed;
        }
      }
      assert records[..|records|] == records;
    }

    /** The inner loops read the first scope once for every scope there is. */
    method ConsumeScopes(receiver: Id, observer: Id, scopes: seq<seq<Record>>)
      modifies this`discoveredReceivers, this`discoveredObservers
      ensures Abstract() == RecordStatus(old(Abstract()), receiver, observer,
                                         if scopes == [] then None else LastStatus(scopes[0]))
    {
      hide LastStatus;
      ghost var before := Abstract();
      var currentReceiver := if receiver in discoveredReceivers then discoveredReceivers[receiver] else Unset;
      var currentObserver := if observer in discoveredObservers then discoveredObservers[observer] else Unset;
      ghost var status: Option<Status> := None;
      for j := 0 to |scopes|
        invariant Abstract() == RecordStatus(before, receiver, observer, status)
        invariant status == if j == 0 then None else LastStatus(scopes[0])
      {
        ConsumeRecords(receiver, observer, scopes[0], currentReceiver, currentObserver, before, status);
        status := LastOr(scopes[0], status);
      }
    }

    method ConsumeLogs(groups: seq<Group>) returns (ok: bool)
      modifies this
      ensures Abstract() == Consume(known, old(Abstract()), groups)
      ensures ok <==> RecordCount(groups) == 0 || forall i :: 0 <= i < |groups| ==> !Fails(groups[i])
    {
      if RecordCount(groups) == 0 { return true; }
      hide RecordConfig, RecordStatus;
      assert groups[0..] == groups;
      for i := 0 to |groups|
        invariant forall k :: 0 <= k < i ==> !Fails(groups[k])
        invariant ApplyAll(known, Abstract(), groups[i..]) == ApplyAll(known, old(Abstract()), groups)
      {
        var g := groups[i];
        assert groups[i..][1..] == groups[i + 1..];
        if g.receiver.None? || g.observer.None? { continue; }
        ok := ConsumeConfig(g.receiver.value, g.observer.value, g.config);
        if !ok { return; }
        ConsumeScopes(g.receiver.value, g.observer.value, g.scopes);
      }
      ok := true;
    }

    /** Merges the selected configurations, in any order, under the one receiver creator: keyed entries by receiver,
        bare ones over each other. `receiverAdded` tells whether the service lists the receiver creator. */
    method DiscoveryConfig() returns (named: map<Id, Entry>, rule: Option<string>, receiverAdded: bool)
      ensures named == Named(Abstract())
      ensures receiverAdded <==> exists r :: Selected(Abstract(), r)
      ensures rule.Some? <==> exists r :: BareRule(Abstract(), r).Some?
      ensures rule.Some? ==> exists r :: BareRule(Abstract(), r) == rule
    {
      hide Selected, BareRule;
      named, rule, receiverAdded := map[], None, false;
      var todo := discoveredReceivers.Keys;
      ghost var done := {};
      while todo != {}
        invariant todo + done == discoveredReceivers.Keys && todo !! done
        invariant named == map r | r in Named(Abstract()) && r in done :: Named(Abstract())[r]
        invariant receiverAdded <==> exists r :: r in done && Selected(Abstract(), r)
        invariant rule.Some? <==> exists r :: r in done && BareRule(Abstract(), r).Some?
        invariant rule.Some? ==> exists r :: BareRule(Abstract(), r) == rule
      {
        var receiver :| receiver in todo;
        Cases(Abstract(), receiver);
        todo, done := todo - {receiver}, done + {receiver};
        if discoveredReceivers[receiver] == Successful && receiver in discoveredConfig {
          var cfg := discoveredConfig[receiver];
          if cfg.Keyed? {
            named := named[receiver := cfg.entry];
          } else if cfg.entry.rule.Some? {
            rule := cfg.entry.rule;
          }
          receiverAdded := true;
        }
      }
      OnlyDiscovered(Abstract());
    }
  }

  /** Successful, with a recorded configuration. */
  predicate Selected(s: State, r: Id) {
    r in s.receivers && s.receivers[r] == Successful && r in s.configs
  }

  /** The entries that the suggested configuration names by their receiver. */
  function Named(s: State): map<Id, Entry> {
    map r | r in s.receivers && Selected(s, r) && s.configs[r].Keyed? :: s.configs[r].entry
  }

  function BareRule(s: State, r: Id): Option<string> {
    if Selected(s, r) && s.configs[r].Bare? then s.configs[r].entry.rule else None
  }

  lemma Cases(s: State, r: Id)
    requires r in s.receivers
    ensures Selected(s, r) <==> s.receivers[r] == Successful && r in s.configs
    ensures Selected(s, r) ==> BareRule(s, r) == if s.configs[r].Bare? then s.configs[r].entry.rule else None
    ensures !Selected(s, r) ==> BareRule(s, r) == None
    ensures r in Named(s) <==> Selected(s, r) && s.configs[r].Keyed?
    ensures r in Named(s) ==> Named(s)[r] == s.configs[r].entry
  {
  }

  lemma OnlyDiscovered(s: State)
    ensures forall r :: Selected(s, r) ==> r in s.receivers
    ensures forall r :: BareRule(s, r).Some? ==> r in s.receivers
    ensures forall r :: r in Named(s) ==> r in s.receivers
  {
  }

  function LastOr(records: seq<Record>, earlier: Option<Status>): Option<Status> {
    if LastStatus(records).Some? then LastStatus(records) else earlier
  }

  lemma LastOfNone(records: seq<Record>, earlier: Option<Status>)
    ensures LastOr(records[..0], earlier) == earlier
  {
  }

  lemma LastOfMore(records: seq<Record>, k: nat)
    requires k < |records|
    ensures LastStatus(records[..k + 1]) ==
      if Reported(records[k]).Some? then Reported(records[k]) else LastStatus(records[..k])
  {
    assert records[..k + 1][..k] == records[..k];
  }

  /** A later status of the same group replaces an earlier one. */
  lemma Overwrite(s: State, receiver: Id, observer: Id, earlier: Option<Status>, later: Status)
    ensures var r, o := Get(s.receivers, receiver), Get(s.observers, observer);
      var s1 := RecordStatus(s, receiver, observer, earlier);
      RecordStatus(s, receiver, observer, Some(later)) == if r == Successful && o == Successful then s1 else
        s1.(receivers := s1.receivers[receiver := DetermineCurrentStatus(r, later)],
            observers := s1.observers[observer := DetermineCurrentStatus(o, later)])
  {
    hide DetermineCurrentStatus;
    if earlier.Some? {
      var r, o := Get(s.receivers, receiver), Get(s.observers, observer);
      MapTwice(s.receivers, receiver, DetermineCurrentStatus(r, earlier.value), DetermineCurrentStatus(r, later));
      MapTwice(s.observers, observer, DetermineCurrentStatus(o, earlier.value), DetermineCurrentStatus(o, later));
    }
  }

  lemma MapTwice(m: map<Id, Status>, k: Id, v: Status, w: Status)
    ensures m[k := v][k := w] == m[k := w]
  {
  }

  // ---------- statuses are maxima ----------

  datatype Side = Receiver | Observer

  function IdOf(side: Side, g: Group): Option<Id> {
    if side.Receiver? then g.receiver else g.observer
  }

  function StatusIn(side: Side, s: State, id: Id): Status {
    Get(if side.Receiver? then s.receivers else s.observers, id)
  }

  /** The groups of a call that are looked at: those with a receiver and an observer, up to and including one whose
      configuration cannot be decoded. */
  function Visited(groups: seq<Group>): seq<Group> {
    if groups == [] then []
    else if Fails(groups[0]) then [groups[0]]
    else (if groups[0].receiver.Some? && groups[0].observer.Some? then [groups[0]] else []) + Visited(groups[1..])
  }

  function VisitedIn(calls: seq<seq<Group>>): seq<Group> {
    if calls == [] then [] else (if RecordCount(calls[0]) == 0 then [] else Visited(calls[0])) + VisitedIn(calls[1..])
  }

  /** What a group says of an ID: nothing if its configuration cannot be decoded. */
  function Says(side: Side, g: Group, id: Id): Status {
    if !Fails(g) && IdOf(side, g) == Some(id) && GroupStatus(g).Some? then GroupStatus(g).value else Unset
  }

  function Best(side: Side, groups: seq<Group>, id: Id): Status {
    if groups == [] then Unset else Max(Says(side, groups[0], id), Best(side, groups[1..], id))
  }

  lemma {:induction false} BestAppend(side: Side, a: seq<Group>, b: seq<Group>, id: Id)
    ensures Best(side, a + b, id) == Max(Best(side, a, id), Best(side, b, id))
  {
    if a == [] {
      assert a + b == b;
    } else {
      assert (a + b)[1..] == a[1..] + b;
      BestAppend(side, a[1..], b, id);
    }
  }

  lemma ConfigLeavesStatus(s: State, r: Id, known: Option<Entry>, attr: ConfigAttr)
    ensures var s1 := RecordConfig(s, r, known, attr); s1.receivers == s.receivers && s1.observers == s.observers
  {
  }

  /** One group raises each status to what it says, skipped or not. */
  lemma ApplyRaises(known: Known, s: State, g: Group, side: Side, id: Id)
    requires g.receiver.Some? && g.observer.Some?
    ensures StatusIn(side, Apply(known, s, g), id) == Max(StatusIn(side, s, id), Says(side, g, id))
  {
    hide RecordConfig, GroupStatus;
    var r, o := g.receiver.value, g.observer.value;
    ConfigLeavesStatus(s, r, known(r, o), g.config);
    StatusNotUnset(g);
  }

  lemma StatusNotUnset(g: Group)
    ensures GroupStatus(g).Some? ==> GroupStatus(g).value != Unset
  {
  }

  lemma {:induction false} ApplyAllRaises(known: Known, s: State, groups: seq<Group>, side: Side, id: Id)
    ensures StatusIn(side, ApplyAll(known, s, groups), id) ==
      Max(StatusIn(side, s, id), Best(side, Visited(groups), id))
    decreases |groups|
  {
    hide StatusIn, Apply, Says;
    if groups != [] {
      var g := groups[0];
      if g.receiver.Some? && g.observer.Some? {
        ApplyRaises(known, s, g, side, id);
        BestAppend(side, [g], Visited(groups[1..]), id);
        assert Best(side, [g], id) == Says(side, g, id);
      } else {
        assert [] + Visited(groups[1..]) == Visited(groups[1..]);
        NothingApplied(known, s, g);
      }
      if !Fails(g) { ApplyAllRaises(known, Apply(known, s, g), groups[1..], side, id); }
    }
  }

  lemma NothingApplied(known: Known, s: State, g: Group)
    requires g.receiver.None? || g.observer.None?
    ensures Apply(known, s, g) == s
  {
  }

  lemma {:induction false} ConsumeAllRaises(known: Known, s: State, calls: seq<seq<Group>>, side: Side, id: Id)
    ensures StatusIn(side, ConsumeAll(known, s, calls), id) ==
      Max(StatusIn(side, s, id), Best(side, VisitedIn(calls), id))
    decreases |calls|
  {
    hide StatusIn, Apply, Says, ApplyAll, RecordCount, Visited;
    if calls != [] {
      var first := if RecordCount(calls[0]) == 0 then [] else Visited(calls[0]);
      BestAppend(side, first, VisitedIn(calls[1..]), id);
      ApplyAllRaises(known, s, calls[0], side, id);
      ConsumeAllRaises(known, Consume(known, s, calls[0]), calls[1..], side, id);
    }
  }

  ghost predicate IsMaximum(status: Status, side: Side, groups: seq<Group>, id: Id) {
    && (forall i :: 0 <= i < |groups| ==> Rank(Says(side, groups[i], id)) <= Rank(status))
    && (status == Unset || exists i :: 0 <= i < |groups| && Says(side, groups[i], id) == status)
  }

  lemma {:induction false} BestIsMaximum(side: Side, groups: seq<Group>, id: Id)
    ensures IsMaximum(Best(side, groups, id), side, groups, id)
  {
    hide Says;
    if groups != [] {
      var best := Best(side, groups[1..], id);
      BestIsMaximum(side, groups[1..], id);
      if best != Unset {
        var i :| 0 <= i < |groups[1..]| && Says(side, groups[1..][i], id) == best;
        assert Says(side, groups[i + 1], id) == best;
      }
      assert forall i :: 1 <= i < |groups| ==> groups[i] == groups[1..][i - 1];
    }
  }

  /** After any sequence of calls, every receiver's and every observer's status is the greatest that any group looked
      at says of it. */
  lemma StatusIsMaximum(known: Known, calls: seq<seq<Group>>, side: Side, id: Id)
    ensures IsMaximum(StatusIn(side, ConsumeAll(known, EMPTY, calls), id), side, VisitedIn(calls), id)
  {
    hide Says, IsMaximum, ConsumeAll, VisitedIn, Best;
    ConsumeAllRaises(known, EMPTY, calls, side, id);
    BestIsMaximum(side, VisitedIn(calls), id);
  }

  /** No status ever goes down. */
  lemma StatusNeverDecreases(known: Known, s: State, calls: seq<seq<Group>>, side: Side, id: Id)
    ensures Rank(StatusIn(side, s, id)) <= Rank(StatusIn(side, ConsumeAll(known, s, calls), id))
  {
    hide ConsumeAll, VisitedIn, Best;
    ConsumeAllRaises(known, s, calls, side, id);
  }

  // ---------- the suggested configuration ----------

  /** What a group records for a receiver, if anything. */
  function Configures(known: Known, g: Group, id: Id): Option<Config> {
    if g.receiver == Some(id) && g.observer.Some? then ConfigOf(known(id, g.observer.value), g.config) else None
  }

  /** The last configuration recorded for a receiver. */
  function LastConfig(known: Known, groups: seq<Group>, id: Id): Option<Config> {
    if groups == [] then None else
      var last := Configures(known, groups[|groups| - 1], id);
      if last.Some? then last else LastConfig(known, groups[..|groups| - 1], id)
  }

  function Lookup(s: State, id: Id): Option<Config> {
    if id in s.configs then Some(s.configs[id]) else None
  }

  function Over(later: Option<Config>, earlier: Option<Config>): Option<Config> {
    if later.Some? then later else earlier
  }

  lemma {:induction false} LastConfigAppend(known: Known, a: seq<Group>, b: seq<Group>, id: Id)
    ensures LastConfig(known, a + b, id) == Over(LastConfig(known, b, id), LastConfig(known, a, id))
  {
    hide Configures;
    if b == [] {
      assert a + b == a;
    } else {
      assert (a + b)[..|a + b| - 1] == a + b[..|b| - 1];
      LastConfigAppend(known, a, b[..|b| - 1], id);
    }
  }

  lemma OneConfigures(known: Known, s: State, g: Group, id: Id)
    ensures Lookup(Apply(known, s, g), id) == Over(Configures(known, g, id), Lookup(s, id))
  {
    hide RecordStatus, GroupStatus, ConfigOf;
    if g.receiver.Some? && g.observer.Some? {
      var r, o := g.receiver.value, g.observer.value;
      StatusLeavesConfigs(RecordConfig(s, r, known(r, o), g.config), r, o, GroupStatus(g));
    }
  }

  lemma StatusLeavesConfigs(s: State, receiver: Id, observer: Id, status: Option<Status>)
    ensures RecordStatus(s, receiver, observer, status).configs == s.configs
  {
    hide DetermineCurrentStatus;
  }

  lemma {:induction false} ApplyAllConfigures(known: Known, s: State, groups: seq<Group>, id: Id)
    ensures Lookup(ApplyAll(known, s, groups), id) == Over(LastConfig(known, Visited(groups), id), Lookup(s, id))
    decreases |groups|
  {
    hide Apply, Lookup, Configures, LastConfig;
    NoConfigYet(known, id);
    if groups != [] {
      var g, s1, rest := groups[0], Apply(known, s, groups[0]), Visited(groups[1..]);
      OneConfigures(known, s, g, id);
      OneGroup(known, g, id);
      LastConfigAppend(known, [g], rest, id);
      if g.receiver.None? || g.observer.None? {
        NoConfigFrom(known, g, id);
        assert [] + rest == rest;
      }
      if !Fails(g) { ApplyAllConfigures(known, s1, groups[1..], id); }
    }
  }

  lemma NoConfigYet(known: Known, id: Id)
    ensures LastConfig(known, [], id) == None
  {
  }

  lemma OneGroup(known: Known, g: Group, id: Id)
    ensures LastConfig(known, [g], id) == Configures(known, g, id)
  {
    assert [g][..0] == [];
  }

  lemma NoConfigFrom(known: Known, g: Group, id: Id)
    requires g.receiver.None? || g.observer.None?
    ensures Configures(known, g, id) == None
  {
  }

  lemma {:induction false} ConsumeAllConfigures(known: Known, s: State, calls: seq<seq<Group>>, id: Id)
    ensures Lookup(ConsumeAll(known, s, calls), id) == Over(LastConfig(known, VisitedIn(calls), id), Lookup(s, id))
    decreases |calls|
  {
    hide Configures, ApplyAll, RecordCount, Visited, Lookup, LastConfig;
    NoConfigYet(known, id);
    if calls != [] {
      var first := if RecordCount(calls[0]) == 0 then [] else Visited(calls[0]);
      LastConfigAppend(known, first, VisitedIn(calls[1..]), id);
      ApplyAllConfigures(known, s, calls[0], id);
      ConsumeAllConfigures(known, Consume(known, s, calls[0]), calls[1..], id);
    }
  }

  ghost predicate SaidSuccessful(groups: seq<Group>, id: Id) {
    exists g :: g in groups && Says(Receiver, g, id) == Successful
  }

  lemma SuccessfulIff(known: Known, calls: seq<seq<Group>>, id: Id)
    ensures StatusIn(Receiver, ConsumeAll(known, EMPTY, calls), id) == Successful <==>
      SaidSuccessful(VisitedIn(calls), id)
  {
    hide Says, ConsumeAll, VisitedIn;
    var s, groups := ConsumeAll(known, EMPTY, calls), VisitedIn(calls);
    StatusIsMaximum(known, calls, Receiver, id);
    if StatusIn(Receiver, s, id) == Successful {
      var i :| 0 <= i < |groups| && Says(Receiver, groups[i], id) == Successful;
      assert groups[i] in groups;
    } else {
      assert forall g :: g in groups ==> Rank(Says(Receiver, g, id)) < Rank(Successful);
    }
  }

  /** Exactly those receivers are selected that some group looked at reports successful and some group, perhaps another,
      has a configuration for; and exactly those of them are named in the result for which the last group with a
      configuration carries it itself. */
  lemma NamedIff(known: Known, calls: seq<seq<Group>>, id: Id)
    ensures var s, groups := ConsumeAll(known, EMPTY, calls), VisitedIn(calls);
      var config := LastConfig(known, groups, id);
      && (Selected(s, id) <==> SaidSuccessful(groups, id) && config.Some?)
      && (id in Named(s) <==> SaidSuccessful(groups, id) && config.Some? && config.value.Keyed?)
      && (id in Named(s) ==> Named(s)[id] == config.value.entry)
  {
    hide ConsumeAll, VisitedIn, LastConfig, SaidSuccessful;
    ConsumeAllConfigures(known, EMPTY, calls, id);
    SuccessfulIff(known, calls, id);
  }

  ghost predicate LastAt(known: Known, groups: seq<Group>, id: Id, i: nat) {
    && i < |groups| && Configures(known, groups[i], id).Some?
    && forall k :: i < k < |groups| ==> Configures(known, groups[k], id).None?
  }

  /** The last configuration is that of the last group that has one, and it is keyed exactly if that group carries a
      configuration itself. */
  lemma {:induction false} LastConfigIs(known: Known, groups: seq<Group>, id: Id, i: nat)
    requires LastAt(known, groups, id, i)
    ensures LastConfig(known, groups, id) == Configures(known, groups[i], id)
    ensures LastConfig(known, groups, id).value.Keyed? <==> groups[i].config.Decoded?
  {
    hide Configures;
    if i + 1 < |groups| { LastConfigIs(known, groups[..|groups| - 1], id, i); }
    KeyedIfCarried(known, groups[i], id);
  }

  lemma KeyedIfCarried(known: Known, g: Group, id: Id)
    requires Configures(known, g, id).Some?
    ensures Configures(known, g, id).value.Keyed? <==> g.config.Decoded?
  {
  }

  lemma {:induction false} NoLastConfig(known: Known, groups: seq<Group>, id: Id)
    requires forall k :: 0 <= k < |groups| ==> Configures(known, groups[k], id).None?
    ensures LastConfig(known, groups, id) == None
  {
    hide Configures;
    if groups != [] { NoLastConfig(known, groups[..|groups| - 1], id); }
  }

  ghost predicate NoneCarries(groups: seq<Group>, id: Id) {
    forall g :: g in groups && g.receiver == Some(id) ==> !g.config.Decoded?
  }

  lemma {:induction false} NeverKeyed(known: Known, groups: seq<Group>, id: Id)
    requires NoneCarries(groups, id)
    ensures LastConfig(known, groups, id).Some? ==> LastConfig(known, groups, id).value.Bare?
  {
    if groups != [] { NeverKeyed(known, groups[..|groups| - 1], id); }
  }

  /** A receiver whose configuration no group looked at carries is named nowhere, known or not. */
  lemma KnownIsNotNamed(known: Known, calls: seq<seq<Group>>, id: Id)
    requires NoneCarries(VisitedIn(calls), id)
    ensures id !in Named(ConsumeAll(known, EMPTY, calls))
  {
    hide ConsumeAll, LastConfig, SaidSuccessful, Named, NoneCarries;
    NeverKeyed(known, VisitedIn(calls), id);
    NamedIff(known, calls, id);
  }

  /** For one, a receiver that a single group reports successful and that has a known configuration: it is selected and
      yet not named. */
  lemma SelectedNotNamed(known: Known, receiver: Id, observer: Id)
    requires known(receiver, observer).Some?
    ensures var g := Group(Some(receiver), Some(observer), NoConfig, [[Record(Some("successful"))]]);
      var s := ConsumeAll(known, EMPTY, [[g]]);
      Selected(s, receiver) && receiver !in Named(s)
  {
    var g := Group(Some(receiver), Some(observer), NoConfig, [[Record(Some("successful"))]]);
    OneSuccess(g, receiver);
    assert VisitedIn([[g]]) == [g];
    OneGroup(known, g, receiver);
    NamedIff(known, [[g]], receiver);
    assert g in [g];
  }

  lemma OneSuccess(g: Group, receiver: Id)
    requires g == Group(Some(receiver), g.observer, NoConfig, [[Record(Some("successful"))]]) && g.observer.Some?
    ensures Says(Receiver, g, receiver) == Successful && RecordCount([g]) == 1 && Visited([g]) == [g]
  {
    assert [g][1..] == [];
    assert g.scopes[1..] == [];
  }
}
