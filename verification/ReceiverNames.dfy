/** Taking apart the logger names of dynamically created receivers (statussources/statements.go), and the check on
    configured receiver IDs meant to keep that possible (config.go). */
module ReceiverNames {
  import opened Strings
  import Sentinel

  // ---------- the separators ----------

  /** The two regular expressions `receiver_creator/` and `{endpoint=[^}]*}/`. */
  datatype Separator = Creator | Target

  function CreatorText(): string { "receiver_creator/" }

  function TargetText(): string { "{endpoint=" }

  /** Length of the match at the start of `s`, 0 if there is none. */
  function MatchLength(sep: Separator, s: string): (n: nat)
    ensures n <= |s|
  {
    match sep
    case Creator => if CreatorText() <= s then |CreatorText()| else 0
    case Target => if TargetText() <= s then ToClose(s) else 0
  }

  /** Up to the first `}`, which must be followed by `/`. */
  function ToClose(s: string): (n: nat)
    ensures n <= |s|
  {
    var q := IndexOf(s, '}');
    if q + 1 < |s| && s[q + 1] == '/' then q + 2 else 0
  }

  /** Number of leftmost non-overlapping matches. */
  function Count(sep: Separator, s: string): nat {
    if s == "" then 0 else
      var n := MatchLength(sep, s);
      if n > 0 then 1 + Count(sep, s[n..]) else Count(sep, s[1..])
  }

  // ---------- taking a name apart ----------

  datatype Id = Id(typ: string, name: string)

  function NoTypeText(): string { Sentinel.NO_TYPE_TEXT }

  function NoType(): Id { Id(NoTypeText(), "") }

  predicate ValidType(typ: string) {
    typ != "" && ('a' <= typ[0] <= 'z' || 'A' <= typ[0] <= 'Z') &&
    forall i :: 0 <= i < |typ| ==> IsAlphaNum(typ[i])
  }

  /** Position of the first occurrence of `pat`, `|s|` if there is none. */
  function Find(pat: string, s: string): (k: nat)
    ensures k <= |s|
  {
    if s == "" || pat <= s then 0 else Find(pat, s[1..]) + 1
  }

  /** Position of the last `}/`. */
  function LastClose(s: string): (k: Option<nat>)
    ensures k.Some? ==> k.value + 2 <= |s|
  {
    if |s| < 2 then None
    else if s[|s| - 2..] == "}/" then Some(|s| - 2)
    else LastClose(s[..|s| - 1])
  }

  /** `^(?P<type>[^/]+)/(?P<name>.*)$`, where `.` is any character but a newline. */
  function SplitName(s: string): Option<Id> {
    var k := IndexOf(s, '/');
    if k == 0 || k == |s| || '\n' in s[k + 1..] then None else Some(Id(s[..k], s[k + 1..]))
  }

  /** `^.*{endpoint=.*}/(?P<id>.*)$`, whose greedy parts leave to `id` what follows the last `}/`. */
  function EndpointId(s: string): string {
    var k := LastClose(s);
    if '\n' in s || k.None? || Find(TargetText(), s[..k.value]) == k.value then "" else s[k.value + 2..]
  }

  function StripSlash(s: string): string {
    if s != "" && s[|s| - 1] == '/' then s[..|s| - 1] else s
  }

  function TypeOr(typ: string): string {
    if ValidType(typ) then typ else NoTypeText()
  }

  function Decompose(name: string): (Id, string) {
    if Count(Creator, name) != 1 || Count(Target, name) != 1 then (NoType(), "") else
      var k := Find(CreatorText(), name);
      var id := SplitName(name[..k]);
      if id.None? then (NoType(), "")
      else (Id(TypeOr(id.value.typ), StripSlash(id.value.name)), EndpointId(name[k..]))
  }

  /** The name used for the receiver creator's own statements, which carry the endpoint ID in a field. */
  function Placeholder(name: string, endpointId: string): string {
    name + "/" + CreatorText() + "<PLACEHOLDER>/" + TargetText() + "\"PLACEHOLDER\"" + "}/" + endpointId
  }

  function ReceiverNameToIds(name: Option<string>, endpointId: Option<string>): (Id, string) {
    if name.None? then (NoType(), "")
    else Decompose(if endpointId.Some? then Placeholder(name.value, endpointId.value) else name.value)
  }

  // ---------- the documented form ----------

  /** How a component ID is written. */
  function IdText(id: Id): string {
    if id.name == "" then id.typ else id.typ + "/" + id.name
  }

  /** From the receiver creator's name up to the `}` that ends the endpoint's target. */
  function Middle(creator: string, target: string): string {
    creator + TargetText() + "\"" + target + "\""
  }

  function Section(creator: string, target: string, endpointId: string): string {
    CreatorText() + Middle(creator, target) + "}/" + endpointId
  }

  function FullName(id: Id, creator: string, target: string, endpointId: string): string {
    IdText(id) + "/" + Section(creator, target, endpointId)
  }

  predicate NoClose(s: string) {
    forall i :: 0 <= i < |s| - 1 ==> !(s[i] == '}' && s[i + 1] == '/')
  }

  /** What the receiver creator puts around the ID holds no further separator. */
  predicate Plain(creator: string, target: string, endpointId: string) {
    && '}' !in creator && '}' !in target && NoClose(endpointId)
    && Count(Creator, creator) == Count(Creator, target) == Count(Creator, endpointId) == 0
  }

  /** The ID, with the slash that follows it, holds neither separator. */
  predicate Separable(id: Id) {
    Count(Creator, IdText(id) + "/") == Count(Target, IdText(id) + "/") == 0
  }

  // ---------- counting matches ----------

  lemma {:induction false} CountSome(sep: Separator, s: string, k: nat)
    requires k <= |s| && MatchLength(sep, s[k..]) > 0
    ensures Count(sep, s) >= 1
  {
    if k == 0 {
      assert s[0..] == s;
    } else if MatchLength(sep, s) == 0 {
      assert s[1..][k - 1..] == s[k..];
      CountSome(sep, s[1..], k - 1);
    }
  }

  lemma {:induction false} FirstMatch(sep: Separator, s: string) returns (k: nat)
    requires Count(sep, s) >= 1
    ensures k <= |s| && MatchLength(sep, s[k..]) > 0
  {
    if MatchLength(sep, s) > 0 {
      k := 0;
      assert s[0..] == s;
    } else {
      var j := FirstMatch(sep, s[1..]);
      k := j + 1;
      assert s[1..][j..] == s[k..];
    }
  }

  lemma {:induction false} CloseAt(s: string, q: nat)
    requires q < |s| && s[q] == '}'
    ensures IndexOf(s, '}') <= q
  {
    if q > 0 { CloseAt(s[1..], q - 1); }
  }

  lemma TargetHasNoClose(s: string)
    requires TargetText() <= s
    ensures IndexOf(s, '}') >= |TargetText()|
  {
    assert forall i :: 0 <= i < |TargetText()| ==> s[i] == TargetText()[i] && s[i] != '}';
  }

  /** A match that ends inside `t` is one in every extension of `t`, and one of an extension that ends inside `t` is
      one in `t`. */
  lemma MatchLocal(sep: Separator, t: string, u: string)
    ensures MatchLength(sep, t) > 0 ==> MatchLength(sep, t + u) == MatchLength(sep, t)
    ensures MatchLength(sep, t + u) <= |t| ==> MatchLength(sep, t) == MatchLength(sep, t + u)
  {
    hide CreatorText, TargetText;
    var s, k := t + u, IndexOf(t + u, '}');
    assert t == s[..|t|];
    if TargetText() <= s { TargetHasNoClose(s); }
    if k < |t| {
      assert t[..k] == s[..k];
      IndexOfIs(t, '}', k);
    } else {
      assert s[..k][..|t|] == t;
      IndexOfIs(t, '}', |t|);
    }
  }

  /** If `t` holds a match, one at the start of an extension of `t` ends inside `t`. */
  lemma MatchWithin(sep: Separator, t: string, u: string)
    requires Count(sep, t) >= 1
    ensures MatchLength(sep, t + u) <= |t|
  {
    hide CreatorText, TargetText, Count;
    var k := FirstMatch(sep, t);
    if sep.Target? {
      var q := k + IndexOf(t[k..], '}');
      assert q + 1 < |t| && (t + u)[q] == '}';
      CloseAt(t + u, q);
    }
  }

  /** A match in `t` and one after it are two. */
  lemma {:induction false} TwoMatches(sep: Separator, t: string, u: string)
    requires Count(sep, t) >= 1 && Count(sep, u) >= 1
    ensures Count(sep, t + u) >= 2
  {
    hide MatchLength;
    var s := t + u;
    MatchWithin(sep, t, u);
    MatchLocal(sep, t, u);
    var k := FirstMatch(sep, u);
    var n := MatchLength(sep, s);
    if n > 0 {
      assert s[n..][|t| - n + k..] == u[k..];
      CountSome(sep, s[n..], |t| - n + k);
    } else {
      assert s[1..] == t[1..] + u;
      TwoMatches(sep, t[1..], u);
    }
  }

  /** Nothing that ends in a slash runs into `receiver_creator/`. */
  lemma {:induction false} CreatorOnce(t: string, u: string)
    requires t == "" || t[|t| - 1] == '/'
    requires Count(Creator, t) == 0
    ensures Count(Creator, t + CreatorText() + u) == 1 + Count(Creator, u)
    ensures Find(CreatorText(), t + CreatorText() + u) == |t|
  {
    assert CreatorText() != "";
    hide CreatorText;
    var s := t + CreatorText() + u;
    if t == "" {
      assert s == CreatorText() + u && s[|CreatorText()|..] == u;
    } else {
      NotYetCreator(t, u);
      assert s[1..] == t[1..] + CreatorText() + u;
      CreatorOnce(t[1..], u);
    }
  }

  lemma NotYetCreator(t: string, u: string)
    requires t != "" && t[|t| - 1] == '/' && MatchLength(Creator, t) == 0
    ensures !(CreatorText() <= t + CreatorText() + u)
  {
    var s := t + CreatorText() + u;
    assert forall i :: 0 <= i < |CreatorText()| - 1 ==> CreatorText()[i] != '/';
    assert s[|t| - 1] == '/';
    assert s[..|t|] == t;
  }

  /** No occurrence of `receiver_creator/` runs across a character it does not contain. */
  lemma {:induction false} NoCreatorAcross(a: string, c: char, b: string)
    requires c !in CreatorText() && Count(Creator, a) == Count(Creator, b) == 0
    ensures Count(Creator, a + [c] + b) == 0
  {
    hide CreatorText;
    var s := a + [c] + b;
    var x := s[|a|];
    assert |a| < |CreatorText()| && CreatorText() <= s ==> x in CreatorText();
    MatchLocal(Creator, a, [c] + b);
    assert a + ([c] + b) == s;
    if a == "" {
      assert s[1..] == b;
    } else {
      assert s[1..] == a[1..] + [c] + b;
      NoCreatorAcross(a[1..], c, b);
    }
  }

  /** Exactly one `{endpoint=…}/` if its `}` is the first after `t`. */
  lemma {:induction false} TargetOnce(t: string, v: string, e: string)
    requires t == "" || t[|t| - 1] == '/'
    requires Count(Target, t) == 0 && '}' !in v && Find(TargetText(), v) < |v| && NoClose(e)
    ensures Count(Target, t + v + "}/" + e) == 1
    decreases |t| + |v|
  {
    hide TargetText, MatchLength, IndexOf, NoClose;
    var s := t + v + "}/" + e;
    if MatchLength(Target, s) > 0 {
      TargetEnds(t, v, e);
      assert s[|t| + |v| + 2..] == e;
      NoTarget(e);
    } else if t != "" {
      MatchLocal(Target, t, v + "}/" + e);
      assert t + (v + "}/" + e) == s;
      assert s[1..] == t[1..] + v + "}/" + e;
      TargetOnce(t[1..], v, e);
    } else {
      NotAtStart(v, e);
      assert s == v + "}/" + e;
      assert s[1..] == "" + v[1..] + "}/" + e;
      TargetOnce("", v[1..], e);
    }
  }

  /** A match starting in `t` ends at the `}` after `v`. */
  lemma TargetEnds(t: string, v: string, e: string)
    requires t == "" || t[|t| - 1] == '/'
    requires MatchLength(Target, t) == 0 && '}' !in v
    requires MatchLength(Target, t + v + "}/" + e) > 0
    ensures MatchLength(Target, t + v + "}/" + e) == |t| + |v| + 2
  {
    hide TargetText, IndexOf;
    var s := t + v + "}/" + e;
    assert t + (v + "}/" + e) == s;
    MatchLocal(Target, t, v + "}/" + e);
    CloseAfter(t, v, e);
  }

  lemma {:induction false} CloseAfter(t: string, v: string, e: string)
    requires '}' !in v
    ensures var q := IndexOf(t + v + "}/" + e, '}'); q == |t| + |v| || (q < |t| && t[q] == '}')
  {
    var s := t + v + "}/" + e;
    if t != "" {
      assert s[1..] == t[1..] + v + "}/" + e;
      CloseAfter(t[1..], v, e);
    } else {
      assert s[..|v|] == v;
      IndexOfIs(s, '}', |v|);
    }
  }

  lemma NotAtStart(v: string, e: string)
    requires '}' !in v && Find(TargetText(), v) < |v| && MatchLength(Target, "" + v + "}/" + e) == 0
    ensures Find(TargetText(), v[1..]) < |v[1..]|
  {
    hide TargetText;
    var s := "" + v + "}/" + e;
    assert s[..|v|] == v;
    IndexOfIs(s, '}', |v|);
    assert !(TargetText() <= v);
  }

  lemma {:induction false} NoTarget(e: string)
    requires NoClose(e)
    ensures Count(Target, e) == 0
  {
    if e != "" { NoTarget(e[1..]); }
  }

  // ---------- the parts of a full name ----------

  lemma {:induction false} TooShort(s: string)
    requires |s| < |CreatorText()|
    ensures Count(Creator, s) == 0
  {
    if s != "" { TooShort(s[1..]); }
  }

  /** After its own separator the section holds no second one. */
  lemma MiddleHasNone(creator: string, target: string, e: string)
    requires Plain(creator, target, e)
    ensures Count(Creator, Middle(creator, target) + "}/" + e) == 0
  {
    hide Count, CreatorText;
    OutsideCreator();
    CloseHasNone(e);
    var close := "}/" + e;
    NoCreatorAcross(target, '"', close);
    var quoted := target + ['"'] + close;
    NoCreatorAcross("endpoint=", '"', quoted) by { TooShort("endpoint="); }
    var rest := "endpoint=" + ['"'] + quoted;
    NoCreatorAcross(creator, '{', rest);
    assert creator + ['{'] + rest == Middle(creator, target) + "}/" + e;
  }

  lemma OutsideCreator()
    ensures '{' !in CreatorText() && '}' !in CreatorText() && '"' !in CreatorText() && |CreatorText()| > 9
  {
  }

  lemma CloseHasNone(e: string)
    requires Count(Creator, e) == 0
    ensures Count(Creator, "}/" + e) == 0
  {
    hide Count, CreatorText;
    OutsideCreator();
    AfterSlash(e);
    NoCreatorAcross("", '}', "/" + e) by { TooShort(""); }
    assert "" + ['}'] + ("/" + e) == "}/" + e;
  }

  lemma AfterSlash(e: string)
    ensures Count(Creator, "/" + e) == Count(Creator, e)
  {
    var s := "/" + e;
    assert s[0] == '/' && s[1..] == e;
  }

  lemma {:induction false} FindsIn(a: string, pat: string, b: string)
    requires pat != ""
    ensures Find(pat, a + pat + b) < |a + pat + b|
  {
    var s := a + pat + b;
    if a == "" {
      assert s == pat + b;
    } else {
      assert s[1..] == a[1..] + pat + b;
      FindsIn(a[1..], pat, b);
    }
  }

  lemma HeadOfSection(creator: string, target: string)
    requires '}' !in creator && '}' !in target
    ensures var v := CreatorText() + Middle(creator, target); '}' !in v && Find(TargetText(), v) < |v|
  {
    var a, b := CreatorText() + creator, "\"" + target + "\"";
    assert CreatorText() + Middle(creator, target) == a + TargetText() + b;
    FindsIn(a, TargetText(), b);
  }

  /** A prefix without separators that ends in a slash leaves one of each; any other prefix makes more. */
  lemma FullCounts(t: string, creator: string, target: string, e: string)
    requires t == "" || t[|t| - 1] == '/'
    requires Plain(creator, target, e)
    ensures var s := t + Section(creator, target, e);
      && (Count(Creator, t) == 0 ==> Count(Creator, s) == 1 && Find(CreatorText(), s) == |t|)
      && (Count(Target, t) == 0 ==> Count(Target, s) == 1)
  {
    hide Count, Find, CreatorText, TargetText, Middle, NoClose;
    var mid := Middle(creator, target);
    var u, v := mid + "}/" + e, CreatorText() + mid;
    MiddleHasNone(creator, target, e);
    HeadOfSection(creator, target);
    var s := t + Section(creator, target, e);
    assert s == t + CreatorText() + u;
    assert s == t + v + "}/" + e;
    if Count(Creator, t) == 0 { CreatorOnce(t, u); }
    if Count(Target, t) == 0 { TargetOnce(t, v, e); }
  }

  lemma TooMany(sep: Separator, t: string, creator: string, target: string, e: string)
    requires Plain(creator, target, e) && Count(sep, t) > 0
    ensures Count(sep, t + Section(creator, target, e)) > 1
  {
    hide Section, Plain;
    var section := Section(creator, target, e);
    FullCounts("", creator, target, e);
    assert "" + section == section;
    assert Count(sep, "") == 0;
    TwoMatches(sep, t, section);
  }

  lemma {:induction false} LastCloseIs(x: string, e: string)
    requires NoClose(e)
    ensures LastClose(x + "}/" + e) == Some(|x|)
    decreases |e|
  {
    var s := x + "}/" + e;
    if e == "" {
      assert s[|s| - 2..] == "}/";
    } else {
      var e' := e[..|e| - 1];
      assert s[..|s| - 1] == x + "}/" + e';
      assert |e| == 1 ==> s[|s| - 2] == '/';
      assert |e| > 1 ==> s[|s| - 2] == e[|e| - 2] && s[|s| - 1] == e[|e| - 1];
      LastCloseIs(x, e');
    }
  }

  lemma SectionId(creator: string, target: string, e: string)
    requires Plain(creator, target, e)
    ensures var s := Section(creator, target, e); EndpointId(s) == if '\n' in s then "" else e
  {
    hide CreatorText, TargetText, Middle, Find, NoClose, Count;
    var v := CreatorText() + Middle(creator, target);
    var s := Section(creator, target, e);
    assert s == v + "}/" + e;
    LastCloseIs(v, e);
    HeadOfSection(creator, target);
    assert s[..|v|] == v && s[|v| + 2..] == e;
  }

  lemma SplitsId(id: Id)
    requires id.typ != "" && '/' !in id.typ
    ensures var split := SplitName(IdText(id) + "/");
      if '\n' in id.name then split.None? else
        split.Some? && split.value.typ == id.typ && StripSlash(split.value.name) == id.name
  {
    hide IdText, ReadTail;
    var s, k := IdText(id) + "/", |id.typ|;
    SplitsAt(id);
    IndexOfIs(s, '/', k);
    ReadTailIs(id);
  }

  /** What stands after the type and its slash. */
  function ReadTail(id: Id): string {
    if id.name == "" then "" else id.name + "/"
  }

  lemma SplitsAt(id: Id)
    ensures var s, k := IdText(id) + "/", |id.typ|;
      k < |s| && s[..k] == id.typ && s[k] == '/' && s[k + 1..] == ReadTail(id)
  {
    var s, k := IdText(id) + "/", |id.typ|;
    if id.name == "" {
      assert s[k + 1..] == "";
    } else {
      assert s == id.typ + "/" + (id.name + "/");
      assert s[k + 1..] == id.name + "/";
    }
  }

  lemma ReadTailIs(id: Id)
    ensures StripSlash(ReadTail(id)) == id.name && ('\n' in ReadTail(id) <==> '\n' in id.name)
  {
    if id.name != "" { assert (id.name + "/")[..|id.name|] == id.name; }
  }

  // ---------- main results ----------

  /** What becomes of a name of the documented form, whatever its type and name. */
  lemma Decomposes(id: Id, creator: string, target: string, e: string)
    requires id.typ != "" && '/' !in id.typ && Plain(creator, target, e)
    ensures Decompose(FullName(id, creator, target, e)) ==
      if !Separable(id) || '\n' in id.name then (NoType(), "")
      else (Id(TypeOr(id.typ), id.name), if '\n' in Section(creator, target, e) then "" else e)
  {
    hide Count, Plain, Section, IdText, SplitName, EndpointId, StripSlash, Find, TypeOr;
    var t, section := IdText(id) + "/", Section(creator, target, e);
    var s := FullName(id, creator, target, e);
    assert s == t + section;
    FullCounts(t, creator, target, e);
    if Count(Creator, t) > 0 {
      TooMany(Creator, t, creator, target, e);
    } else if Count(Target, t) > 0 {
      TooMany(Target, t, creator, target, e);
    } else {
      assert s[..|t|] == t && s[|t|..] == section;
      SplitsId(id);
      SectionId(creator, target, e);
    }
  }

  /** The ID and the endpoint ID come back exactly when the ID followed by a slash holds no separator and no newline is
      in the way. */
  lemma NameRoundTrip(id: Id, creator: string, target: string, e: string)
    requires ValidType(id.typ) && Plain(creator, target, e)
    ensures ReceiverNameToIds(Some(FullName(id, creator, target, e)), None) == (id, e) <==>
      Separable(id) && '\n' !in id.name && ('\n' in Section(creator, target, e) ==> e == "")
  {
    hide Count, Plain, Section, Separable, FullName, Decompose;
    assert '/' !in id.typ;
    Decomposes(id, creator, target, e);
    SentinelSeparable();
  }

  /** The receiver creator's own statements, with the endpoint ID in a field, likewise. */
  lemma FieldRoundTrip(id: Id, e: string)
    requires ValidType(id.typ) && NoClose(e) && Count(Creator, e) == 0
    ensures ReceiverNameToIds(Some(IdText(id)), Some(e)) == (id, e) <==>
      Separable(id) && '\n' !in id.name && '\n' !in e
  {
    hide Separable, Decompose, IdText, Count, Section, Placeholder, Plain, NoClose;
    var creator, target := "<PLACEHOLDER>/", "PLACEHOLDER";
    PlaceholderIs(IdText(id), e);
    PlaceholderPlain(e);
    NameRoundTrip(id, creator, target, e);
  }

  lemma PlaceholderIs(name: string, e: string)
    ensures var section := Section("<PLACEHOLDER>/", "PLACEHOLDER", e);
      Placeholder(name, e) == name + "/" + section && ('\n' in section <==> '\n' in e)
  {
    hide CreatorText, TargetText;
    var section := Section("<PLACEHOLDER>/", "PLACEHOLDER", e);
    assert Placeholder(name, e) == name + "/" + section;
    assert '\n' !in CreatorText() && '\n' !in TargetText() by { NoNewlines(); }
  }

  lemma NoNewlines()
    ensures '\n' !in CreatorText() && '\n' !in TargetText()
  {
  }

  lemma PlaceholderPlain(e: string)
    requires NoClose(e) && Count(Creator, e) == 0
    ensures Plain("<PLACEHOLDER>/", "PLACEHOLDER", e)
  {
    hide Count;
    TooShort("<PLACEHOLDER>/");
    TooShort("PLACEHOLDER");
  }

  lemma {:induction false} NoCreatorWithout(s: string)
    requires 'r' !in s
    ensures Count(Creator, s) == 0
  {
    assert CreatorText()[0] == 'r';
    if s != "" { NoCreatorWithout(s[1..]); }
  }

  lemma SentinelCharacters()
    ensures 'r' !in NoTypeText() && '}' !in NoTypeText()
  {
  }

  lemma SentinelSeparable()
    ensures Separable(NoType())
  {
    hide Count, NoClose, NoTypeText;
    SentinelCharacters();
    var s := NoTypeText() + "/";
    NoCreatorWithout(s);
    NoTarget(s) by { NoBraceNoClose(s); }
  }

  lemma NoBraceNoClose(s: string)
    requires '}' !in s
    ensures NoClose(s)
  {
  }

  // ---------- what the tests promise ----------

  /** Without a receiver there is no endpoint ID, and without a type there is no name. */
  predicate NothingLeftOver(ids: (Id, string)) {
    (ids.0 == NoType() ==> ids.1 == "") && (ids.0 != NoType() && ids.0.typ == NoTypeText() ==> ids.0.name == "")
  }

  /** That promise is kept exactly unless a name that can be taken apart has a type that is not one (or is the
      sentinel) and something beside it. */
  lemma PromiseKept(id: Id, creator: string, target: string, e: string)
    requires id.typ != "" && '/' !in id.typ && Plain(creator, target, e)
    ensures NothingLeftOver(ReceiverNameToIds(Some(FullName(id, creator, target, e)), None)) <==>
      || (ValidType(id.typ) && id.typ != NoTypeText()) || !Separable(id) || '\n' in id.name
      || (id.name == "" && (e == "" || '\n' in Section(creator, target, e)))
  {
    hide Separable, Decompose, FullName, Section, Plain, ValidType, NoTypeText;
    Decomposes(id, creator, target, e);
  }

  /** It is broken by every type segment that is no type (or the sentinel) and, with its slash, holds neither separator:
      the receiver is the sentinel, and the endpoint ID is left over. */
  lemma EndpointLeftOver(typ: string, creator: string, target: string, e: string)
    requires typ != "" && '/' !in typ && Separable(Id(typ, "")) && (!ValidType(typ) || typ == NoTypeText())
    requires Plain(creator, target, e) && e != "" && '\n' !in Section(creator, target, e)
    ensures var ids := ReceiverNameToIds(Some(FullName(Id(typ, ""), creator, target, e)), None);
      ids == (NoType(), e) && !NothingLeftOver(ids)
  {
    hide Separable, Plain, Section, FullName, Decompose, ValidType, NoTypeText;
    Decomposes(Id(typ, ""), creator, target, e);
  }

  /** For one, by `1/receiver_creator/c{endpoint="t"}/e`. */
  lemma LeftOverInput()
    ensures var ids := ReceiverNameToIds(Some(FullName(Id("1", ""), "c", "t", "e")), None);
      ids == (NoType(), "e") && !NothingLeftOver(ids)
  {
    hide ReceiverNameToIds, NoType, NothingLeftOver, Plain, FullName, Count, CreatorText, TargetText, NoClose;
    var s := "1" + "/";
    NoCreatorWithout(s);
    NoTarget(s) by { NoBraceNoClose(s); }
    LettersPlain();
    NoNewlines();
    EndpointLeftOver("1", "c", "t", "e");
  }

  lemma LettersPlain()
    ensures Plain("c", "t", "e")
  {
    hide Count;
    TooShort("c");
    TooShort("t");
    TooShort("e");
  }

  // ---------- validating receiver IDs ----------

  datatype Problem = IsCreator(id: Id) | Contains(id: Id, sep: Separator) | BadEntry(id: Id) | NoObservers

  /** The checks on a configured receiver's ID. */
  predicate Accepted(id: Id) {
    id.typ != "receiver_creator" && Count(Creator, IdText(id)) == 0 && Count(Target, IdText(id)) == 0
  }

  /** The problems of one receiver, given whether its entry is valid by itself; a receiver creator is not looked at
      further. */
  predicate Concerns(p: Problem, id: Id, entryOk: bool) {
    match p
    case NoObservers => false
    case IsCreator(i) => i == id && id.typ == "receiver_creator"
    case Contains(i, Creator) => i == id && id.typ != "receiver_creator" && Count(Creator, IdText(id)) > 0
    case Contains(i, Target) => i == id && id.typ != "receiver_creator" && Count(Target, IdText(id)) > 0
    case BadEntry(i) => i == id && id.typ != "receiver_creator" && !entryOk
  }

  method ValidateReceiver(id: Id, entryOk: bool) returns (problems: seq<Problem>)
    ensures forall p :: p in problems <==> Concerns(p, id, entryOk)
  {
    hide Count, IdText;
    if id.typ == "receiver_creator" { return [IsCreator(id)]; }
    problems := [];
    if Count(Creator, IdText(id)) > 0 { problems := problems + [Contains(id, Creator)]; }
    if Count(Target, IdText(id)) > 0 { problems := problems + [Contains(id, Target)]; }
    if !entryOk { problems := problems + [BadEntry(id)]; }
  }

  /** Exactly the problems there are get listed. */
  method Validate(receivers: seq<(Id, bool)>, observers: nat) returns (problems: seq<Problem>)
    ensures forall p :: p in problems <==>
      (p == NoObservers && observers == 0) || exists r :: r in receivers && Concerns(p, r.0, r.1)
  {
    hide Concerns;
    problems := [];
    for i := 0 to |receivers|
      invariant forall p :: p in problems <==> exists r :: r in receivers[..i] && Concerns(p, r.0, r.1)
    {
      assert receivers[..i + 1] == receivers[..i] + [receivers[i]];
      var more := ValidateReceiver(receivers[i].0, receivers[i].1);
      problems := problems + more;
    }
    assert receivers[..|receivers|] == receivers;
    if observers == 0 { problems := problems + [NoObservers]; }
  }

  /** A receiver has no problem exactly if its ID is accepted and its entry is valid. */
  lemma NoProblemIff(id: Id, entryOk: bool)
    ensures (forall p :: !Concerns(p, id, entryOk)) <==> Accepted(id) && entryOk
  {
    hide Count, IdText;
    if forall p :: !Concerns(p, id, entryOk) {
      assert !Concerns(IsCreator(id), id, entryOk) && !Concerns(BadEntry(id), id, entryOk);
      assert !Concerns(Contains(id, Creator), id, entryOk) && !Concerns(Contains(id, Target), id, entryOk);
    }
  }

  /** A separator that only the slash to come will complete. */
  ghost predicate EndsIn(sep: Separator, s: string) {
    exists k :: 0 <= k <= |s| && MatchLength(sep, s[k..] + "/") == |s| - k + 1
  }

  lemma {:induction false} SlashCompletes(sep: Separator, s: string)
    requires Count(sep, s) == 0
    ensures Count(sep, s + "/") > 0 <==> EndsIn(sep, s)
  {
    hide MatchLength;
    MatchLocal(sep, s, "/");
    var n := MatchLength(sep, s + "/");
    if n > 0 {
      assert s[0..] == s;
      assert EndsIn(sep, s);
    } else if s != "" {
      assert (s + "/")[1..] == s[1..] + "/";
      SlashCompletes(sep, s[1..]);
      ShiftEnds(sep, s);
    } else {
      assert (s + "/")[1..] == "";
      assert s[0..] == s;
    }
  }

  lemma ShiftEnds(sep: Separator, s: string)
    requires s != "" && MatchLength(sep, s + "/") == 0
    ensures EndsIn(sep, s[1..]) <==> EndsIn(sep, s)
  {
    hide MatchLength;
    assert s[0..] == s;
    assert forall k :: 1 <= k <= |s| ==> s[k..] == s[1..][k - 1..];
    if EndsIn(sep, s[1..]) {
      var k :| 0 <= k <= |s[1..]| && MatchLength(sep, s[1..][k..] + "/") == |s[1..]| - k + 1;
      assert s[k + 1..] == s[1..][k..];
    }
  }

  /** An accepted ID can be taken out of its names again exactly if it does not end in what a slash makes a
      separator. */
  lemma AcceptedGap(id: Id)
    requires Accepted(id)
    ensures Separable(id) <==> !EndsIn(Creator, IdText(id)) && !EndsIn(Target, IdText(id))
  {
    hide Count, IdText, EndsIn;
    SlashCompletes(Creator, IdText(id));
    SlashCompletes(Target, IdText(id));
  }

  lemma {:induction false} NoCreatorInLast(t: string, w: string)
    requires t == "" || t[|t| - 1] == '/'
    requires '/' !in w && Count(Creator, t) == 0
    ensures Count(Creator, t + w) == 0
    decreases |t| + |w|
  {
    var s := t + w;
    MatchLocal(Creator, t, w);
    assert CreatorText()[|CreatorText()| - 1] == '/';
    assert forall i :: 0 <= i < |CreatorText()| - 1 ==> CreatorText()[i] != '/';
    if t != "" {
      assert s[|t| - 1] == '/';
      assert s[1..] == t[1..] + w;
      NoCreatorInLast(t[1..], w);
    } else if w != "" {
      assert s == w && s[1..] == "" + w[1..];
      NoCreatorInLast("", w[1..]);
    }
  }

  /** So there are IDs that validation accepts and that are then lost: any `<type>/receiver_creator`, say. */
  lemma AcceptedButLost(typ: string, creator: string, target: string, e: string)
    requires ValidType(typ) && Count(Creator, typ + "/") == 0 && Plain(creator, target, e)
    ensures var id := Id(typ, "receiver_creator");
      Accepted(id) && ReceiverNameToIds(Some(FullName(id, creator, target, e)), None) == (NoType(), "")
  {
    hide Count, Plain, Section, FullName, Decompose, Find, Accepted, Separable, CreatorText;
    assert '/' !in typ;
    LastIsAccepted(typ);
    Decomposes(Id(typ, "receiver_creator"), creator, target, e);
  }

  lemma LastIsAccepted(typ: string)
    requires ValidType(typ) && Count(Creator, typ + "/") == 0
    ensures Accepted(Id(typ, "receiver_creator")) && !Separable(Id(typ, "receiver_creator"))
  {
    hide Count, Find, NoClose;
    var w, s := "receiver_creator", typ + "/" + "receiver_creator";
    assert '}' !in s;
    NoCreatorInLast(typ + "/", w);
    NoBraceNoClose(s);
    NoTarget(s);
    assert (s + "/")[|typ| + 1..] == CreatorText();
    CountSome(Creator, s + "/", |typ| + 1);
    if typ == w { CreatorItself(); }
  }

  lemma CreatorItself()
    ensures Count(Creator, "receiver_creator" + "/") > 0
  {
    assert "receiver_creator" + "/" == CreatorText();
    assert ("receiver_creator" + "/")[0..] == CreatorText();
    CountSome(Creator, "receiver_creator" + "/", 0);
  }
}
