/** Discovery statuses on the texts of the log records, and which groups count. */
module DiscoveryReports {
  import opened Strings
  import opened DiscoveryStatus

  // ---------- which records count ----------

  predicate ValidText(text: string) {
    text == "failed" || text == "partial" || text == "successful"
  }

  predicate HasValidText(r: Record) {
    r.status.Some? && ValidText(r.status.value)
  }

  /** The last valid status text of the records. */
  ghost predicate LastText(records: seq<Record>, text: string) {
    exists k :: 0 <= k < |records| && records[k].status == Some(text) && ValidText(text) &&
                forall l :: k < l < |records| ==> !HasValidText(records[l])
  }

  /** A record counts exactly if its text is one of the three. */
  lemma ReportedIff(r: Record)
    ensures Reported(r).Some? <==> HasValidText(r)
    ensures Reported(r) == Some(Failed) <==> r.status == Some("failed")
    ensures Reported(r) == Some(Partial) <==> r.status == Some("partial")
    ensures Reported(r) == Some(Successful) <==> r.status == Some("successful")
  {
    TextsDiffer();
  }

  lemma TextsDiffer()
    ensures "failed" != "partial" && "partial" != "successful" && "failed" != "successful"
  {
    assert "failed"[0] == 'f' && "partial"[0] == 'p' && "successful"[0] == 's';
  }

  /** The text of a status. */
  function TextOf(s: Status): string {
    match s
    case Unset => ""
    case Failed => "failed"
    case Partial => "partial"
    case Successful => "successful"
  }

  lemma ReportedText(r: Record, s: Status)
    requires s != Unset
    ensures Reported(r) == Some(s) <==> r.status == Some(TextOf(s))
    ensures ValidText(TextOf(s)) && (Reported(r).Some? <==> HasValidText(r))
  {
    hide Reported;
    ReportedIff(r);
  }

  lemma {:induction false} LastStatusIs(records: seq<Record>, s: Status)
    requires s != Unset
    ensures LastStatus(records) == Some(s) <==> LastText(records, TextOf(s))
  {
    hide Reported, TextOf, ValidText;
    if records != [] {
      var n := |records| - 1;
      var init := records[..n];
      LastStatusIs(init, s);
      ReportedText(records[n], s);
      assert forall k :: 0 <= k < n ==> init[k] == records[k];
      if LastText(init, TextOf(s)) && !HasValidText(records[n]) {
        var k :| 0 <= k < n && init[k].status == Some(TextOf(s)) && ValidText(TextOf(s)) &&
          forall l :: k < l < n ==> !HasValidText(init[l]);
        assert records[k].status == Some(TextOf(s));
      }
    }
  }

  // ---------- what a group tells ----------

  /** The group says this of the receiver or observer: it is about it, its configuration decodes, and the text is the
      last valid one of its first scope. */
  ghost predicate Tells(side: Side, g: Group, id: Id, text: string) {
    && (if side.Receiver? then g.receiver == Some(id) else g.observer == Some(id))
    && g.receiver.Some? && g.observer.Some? && g.config != Undecodable
    && g.scopes != [] && LastText(g.scopes[0], text)
  }

  ghost predicate Told(side: Side, groups: seq<Group>, id: Id, text: string) {
    exists g :: g in groups && Tells(side, g, id, text)
  }

  lemma SaysIs(side: Side, g: Group, id: Id, s: Status)
    requires s != Unset && g.receiver.Some? && g.observer.Some?
    ensures Says(side, g, id) == s <==> Tells(side, g, id, TextOf(s))
  {
    hide LastStatus, LastText, TextOf;
    if g.scopes != [] { LastStatusIs(g.scopes[0], s); }
    StatusNotUnset(g);
  }

  lemma {:induction false} VisitedHaveBoth(groups: seq<Group>)
    ensures forall g :: g in Visited(groups) ==> g.receiver.Some? && g.observer.Some?
  {
    if groups != [] { VisitedHaveBoth(groups[1..]); }
  }

  lemma {:induction false} AllVisitedHaveBoth(calls: seq<seq<Group>>)
    ensures forall g :: g in VisitedIn(calls) ==> g.receiver.Some? && g.observer.Some?
  {
    hide Visited, RecordCount;
    if calls != [] {
      VisitedHaveBoth(calls[0]);
      AllVisitedHaveBoth(calls[1..]);
    }
  }

  lemma ToldIff(side: Side, calls: seq<seq<Group>>, id: Id, s: Status)
    requires s != Unset
    ensures Told(side, VisitedIn(calls), id, TextOf(s)) <==>
      exists g :: g in VisitedIn(calls) && Says(side, g, id) == s
  {
    hide Says, Tells, TextOf;
    AllVisitedHaveBoth(calls);
    forall g | g in VisitedIn(calls) ensures Says(side, g, id) == s <==> Tells(side, g, id, TextOf(s)) {
      SaysIs(side, g, id, s);
    }
  }

  lemma AtMaximum(known: Known, calls: seq<seq<Group>>, side: Side, id: Id)
    ensures var status, groups := StatusIn(side, ConsumeAll(known, EMPTY, calls), id), VisitedIn(calls);
      && (forall g :: g in groups ==> Rank(Says(side, g, id)) <= Rank(status))
      && (status == Unset || exists g :: g in groups && Says(side, g, id) == status)
  {
    hide Says, ConsumeAll, Rank;
    var status, groups := StatusIn(side, ConsumeAll(known, EMPTY, calls), id), VisitedIn(calls);
    StatusIsMaximum(known, calls, side, id);
    if status != Unset {
      var i :| 0 <= i < |groups| && Says(side, groups[i], id) == status;
      assert groups[i] in groups;
    }
  }

  /** After any calls, a receiver or observer is successful exactly if some group tells so, partial exactly if some
      group tells that and none more, failed exactly if some group tells that and none more, and otherwise not there. */
  lemma StatusIsToldText(known: Known, calls: seq<seq<Group>>, side: Side, id: Id)
    ensures var status := StatusIn(side, ConsumeAll(known, EMPTY, calls), id); var groups := VisitedIn(calls);
      var f := Told(side, groups, id, "failed"); var p := Told(side, groups, id, "partial");
      var s := Told(side, groups, id, "successful");
      && (status == Successful <==> s) && (status == Partial <==> p && !s) && (status == Failed <==> f && !p && !s)
      && (status == Unset <==> !f && !p && !s)
  {
    hide Says, ConsumeAll, Told;
    AtMaximum(known, calls, side, id);
    ToldIff(side, calls, id, Failed);
    ToldIff(side, calls, id, Partial);
    ToldIff(side, calls, id, Successful);
  }

  // ---------- which groups are looked at ----------

  ghost predicate HasRecord(groups: seq<Group>) {
    exists i, j :: 0 <= i < |groups| && 0 <= j < |groups[i].scopes| && groups[i].scopes[j] != []
  }

  lemma {:induction false} ScopesCountIff(scopes: seq<seq<Record>>)
    ensures ScopesCount(scopes) > 0 <==> exists j :: 0 <= j < |scopes| && scopes[j] != []
  {
    if scopes != [] {
      ScopesCountIff(scopes[1..]);
      assert forall j :: 1 <= j < |scopes| ==> scopes[j] == scopes[1..][j - 1];
    }
  }

  /** A call is looked at exactly if there is a record anywhere in it. */
  lemma {:induction false} RecordCountIff(groups: seq<Group>)
    ensures RecordCount(groups) > 0 <==> HasRecord(groups)
  {
    hide ScopesCount;
    if groups != [] {
      RecordCountIff(groups[1..]);
      ScopesCountIff(groups[0].scopes);
      assert forall i :: 1 <= i < |groups| ==> groups[i] == groups[1..][i - 1];
    }
  }

  predicate Stops(g: Group) {
    g.receiver.Some? && g.observer.Some? && g.config == Undecodable
  }

  ghost predicate LookedAt(groups: seq<Group>, i: nat) {
    i < |groups| && groups[i].receiver.Some? && groups[i].observer.Some? && forall k :: 0 <= k < i ==> !Stops(groups[k])
  }

  ghost predicate LooksAt(groups: seq<Group>, g: Group) {
    exists i: nat :: LookedAt(groups, i) && groups[i] == g
  }

  /** In a call exactly the groups with a receiver and an observer are looked at, up to one that does not decode. */
  lemma {:induction false} VisitedIff(groups: seq<Group>, g: Group)
    ensures g in Visited(groups) <==> LooksAt(groups, g)
  {
    hide LooksAt;
    if groups == [] {
      NothingToLookAt(g);
    } else {
      VisitedIff(groups[1..], g);
      LooksStep(groups, g);
    }
  }

  lemma NothingToLookAt(g: Group)
    ensures !LooksAt([], g)
  {
  }

  lemma LooksStep(groups: seq<Group>, g: Group)
    requires groups != []
    ensures LooksAt(groups, g) <==>
      || (groups[0] == g && g.receiver.Some? && g.observer.Some?)
      || (!Stops(groups[0]) && LooksAt(groups[1..], g))
  {
    var rest := groups[1..];
    LookFirst(groups);
    if LooksAt(groups, g) {
      var i: nat :| LookedAt(groups, i) && groups[i] == g;
      if i > 0 {
        ShiftLook(groups, i - 1);
        assert rest[i - 1] == g;
      }
    }
    if !Stops(groups[0]) && LooksAt(rest, g) {
      var i: nat :| LookedAt(rest, i) && rest[i] == g;
      ShiftLook(groups, i);
      assert groups[i + 1] == g;
    }
  }

  lemma LookFirst(groups: seq<Group>)
    requires groups != []
    ensures LookedAt(groups, 0) <==> groups[0].receiver.Some? && groups[0].observer.Some?
    ensures Stops(groups[0]) ==> forall i: nat :: LookedAt(groups, i) ==> i == 0
  {
  }

  lemma ShiftLook(groups: seq<Group>, i: nat)
    requires groups != [] && !Stops(groups[0]) && i + 1 < |groups|
    ensures LookedAt(groups[1..], i) <==> LookedAt(groups, i + 1)
  {
    var rest := groups[1..];
    assert forall k :: 0 <= k < |rest| ==> rest[k] == groups[k + 1];
    assert forall k :: 1 <= k < |groups| ==> groups[k] == rest[k - 1];
  }

  /** Over calls, those of every call with a record. */
  lemma {:induction false} VisitedInIff(calls: seq<seq<Group>>, g: Group)
    ensures g in VisitedIn(calls) <==> exists c :: c in calls && HasRecord(c) && g in Visited(c)
  {
    hide Visited, RecordCount, HasRecord;
    if calls != [] {
      RecordCountIff(calls[0]);
      VisitedInIff(calls[1..], g);
    }
  }

  // ---------- what is recorded ----------

  /** A known rule that is not empty and a known section replace the reported ones, the rest is as reported. */
  lemma MergedEntry(known: Entry, reported: Entry)
    ensures var merged := Merge(Some(known), reported);
      && merged.rest == reported.rest
      && (known.rule.Some? && known.rule.value != "" ==> merged.rule == known.rule)
      && (known.rule == None || known.rule == Some("") ==> merged.rule == reported.rule)
      && (known.section.Some? ==> merged.section == known.section)
      && (known.section.None? ==> merged.section == reported.section)
    ensures Merge(None, reported) == reported
  {
  }

  /** A carried configuration is recorded under the receiver's ID, merged with what is known; a known one alone is
      recorded bare, also when the carried one does not decode. */
  lemma RecordedConfig(known: Option<Entry>, attr: ConfigAttr)
    ensures attr.Decoded? ==> ConfigOf(known, attr) == Some(Keyed(Merge(known, attr.entry)))
    ensures !attr.Decoded? && known.Some? ==> ConfigOf(known, attr) == Some(Bare(known.value))
    ensures !attr.Decoded? && known.None? ==> ConfigOf(known, attr) == None
  {
  }
}
