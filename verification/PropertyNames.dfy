/** Discovery properties and the environment variables that stand for them (properties/property.go, env_var.go). */
module PropertyNames {
  import opened Strings
  import opened Wordify

  datatype Section = Receivers | Extensions
  datatype Kind = Config | Enabled

  function SectionText(s: Section): string { if s.Receivers? then "receivers" else "extensions" }
  function SectionUpper(s: Section): string { if s.Receivers? then "RECEIVERS" else "EXTENSIONS" }
  function KindText(k: Kind): string { if k.Config? then "config" else "enabled" }
  function KindUpper(k: Kind): string { if k.Config? then "CONFIG" else "ENABLED" }

  datatype Property = Property(section: Section, ctype: string, name: string, kind: Kind, key: string, input: string)

  /** The text before the first `stop`, or all of it. */
  function Upto(s: string, stop: char): string {
    s[..IndexOf(s, stop)]
  }

  // ---------- properties ----------

  predicate IsSpace(c: char) {
    c in " \t\n\r" || c as nat == 12
  }

  predicate IsDelimiter(c: char) {
    c == '.' || c == '/'
  }

  /** The text of the tokens of `s`: white space that begins a token is skipped, other white space is part of one. */
  function Squeeze(s: string, atStart: bool): string {
    if s == "" then ""
    else if atStart && IsSpace(s[0]) then Squeeze(s[1..], true)
    else [s[0]] + Squeeze(s[1..], IsDelimiter(s[0]))
  }

  /** No token is preceded by white space. */
  ghost predicate Tidy(s: string) {
    && (s != "" ==> !IsSpace(s[0]))
    && (forall i :: 0 < i < |s| && IsDelimiter(s[i - 1]) ==> !IsSpace(s[i]))
  }

  function PlainSpan(s: string): (k: nat)
    ensures k <= |s|
  {
    if s != "" && !IsDelimiter(s[0]) then 1 + PlainSpan(s[1..]) else 0
  }

  /** The kind of `s` when it begins with a dot followed by exactly the word `config` or `enabled`. */
  function KindAt(s: string): (r: Option<Kind>)
    ensures r.Some? ==> |s| > |KindText(r.value)| && s[..1 + |KindText(r.value)|] == "." + KindText(r.value)
  {
    if s == "" || s[0] != '.' then None else
      var word := s[1..][..PlainSpan(s[1..])];
      assert s[..1 + |word|] == "." + word;
      if word == KindText(Config) then Some(Config)
      else if word == KindText(Enabled) then Some(Enabled)
      else None
  }

  /** Length of the component ID: everything before the first such dot. */
  function ComponentSpan(s: string): (k: nat)
    ensures k <= |s|
    ensures k < |s| ==> KindAt(s[k..]).Some?
  {
    if s == "" then 0
    else if KindAt(s).Some? then assert s[0..] == s; 0
    else
      var k := ComponentSpan(s[1..]);
      assert s[1..][k..] == s[1 + k..];
      1 + k
  }

  function Header(section: Section): string {
    "splunk.discovery." + SectionText(section) + "."
  }

  /** A component ID is `type` or `type/name`; the name may itself contain slashes. */
  function TypeOf(cid: string): string {
    Upto(cid, '/')
  }

  function NameOf(cid: string): string {
    if |TypeOf(cid)| < |cid| then cid[|TypeOf(cid)| + 1..] else ""
  }

  /** The key after `.config.`, or whatever follows `.enabled`. */
  function ReadKey(tail: string): Option<(Kind, string)> {
    if KindAt(tail).None? then None else
      var kind := KindAt(tail).value;
      var rest := tail[1 + |KindText(kind)|..];
      if kind.Enabled? then Some((Enabled, rest))
      else if rest != "" && rest[0] == '.' then Some((Config, rest[1..]))
      else None
  }

  /** `<type>[/<name>].config.<key>` or `<type>[/<name>].enabled<ignored>`. */
  function ParseBody(section: Section, body: string, input: string): Option<Property> {
    var k := ComponentSpan(body);
    var cid, key := body[..k], ReadKey(body[k..]);
    if key.None? || TypeOf(cid) == "" then None
    else Some(Property(section, TypeOf(cid), NameOf(cid), key.value.0, key.value.1, input))
  }

  function NewProperty(input: string): Option<Property> {
    var s := Squeeze(input, true);
    if Header(Receivers) <= s then ParseBody(Receivers, s[|Header(Receivers)|..], input)
    else if Header(Extensions) <= s then ParseBody(Extensions, s[|Header(Extensions)|..], input)
    else None
  }

  // ---------- environment variables ----------

  function EnvVarHeader(section: Section): string {
    "SPLUNK_DISCOVERY_" + SectionUpper(section) + "_"
  }

  /** The component ID as the environment variable spells it: the slash of `type/` is kept without a name. */
  function ComponentText(p: Property): string {
    if p.name != "" || Header(p.section) + p.ctype + "/." <= p.input then p.ctype + ("/" + p.name) else p.ctype
  }

  function ToEnvVar(p: Property): string {
    var name := if p.name != "" || Header(p.section) + p.ctype + "/." <= p.input then Wordified("/" + p.name) else "";
    EnvVarHeader(p.section) + Wordified(p.ctype) + name + "_" + KindUpper(p.kind) +
    (if p.kind.Config? then "_" + Wordified(p.key) else "")
  }

  /** The kind of `s` when it begins with an underscore followed by exactly the token `CONFIG` or `ENABLED`. */
  function UpperAt(s: string): (r: Option<Kind>)
    ensures r.Some? ==> |s| > |KindUpper(r.value)| && s[..1 + |KindUpper(r.value)|] == "_" + KindUpper(r.value)
  {
    if s == "" || s[0] != '_' then None else
      var token := Upto(s[1..], '_');
      assert s[..1 + |token|] == "_" + token;
      if token == KindUpper(Config) then Some(Config)
      else if token == KindUpper(Enabled) then Some(Enabled)
      else None
  }

  /** Length of the text before the first such underscore. */
  function TokenSpan(s: string): (k: nat)
    ensures k <= |s|
    ensures k < |s| ==> UpperAt(s[k..]).Some?
  {
    if s == "" then 0
    else if UpperAt(s).Some? then assert s[0..] == s; 0
    else
      var k := TokenSpan(s[1..]);
      assert s[1..][k..] == s[1 + k..];
      1 + k
  }

  /** `<component>_CONFIG_<key>` or `<component>_ENABLED`, each part still escaped. */
  datatype EnvVarProperty = EnvVarProperty(component: string, kind: Kind, key: string)

  function SplitEnvVar(body: string): Option<EnvVarProperty> {
    var k := TokenSpan(body);
    if k == 0 || k == |body| then None else
      var kind := UpperAt(body[k..]).value;
      var after := body[k..][1 + |KindUpper(kind)|..];
      if |after| == 1 then None
      else Some(EnvVarProperty(body[..k], kind, if after == "" then "" else after[1..]))
  }

  function PropertyText(section: Section, cid: string, kind: Kind, key: string): string {
    Header(section) + cid + "." + KindText(kind) + (if kind.Config? then "." + key else "")
  }

  function FromBody(section: Section, body: string): Option<Property> {
    match SplitEnvVar(body)
    case None => None
    case Some(split) =>
      var cid, key := Unwordify(split.component), Unwordify(split.key);
      if cid.None? || key.None? then None
      else NewProperty(PropertyText(section, cid.value, split.kind, key.value))
  }

  function FromEnvVar(envVar: string): Option<Property> {
    var r, e := EnvVarHeader(Receivers), EnvVarHeader(Extensions);
    if r <= envVar then FromBody(Receivers, envVar[|r|..])
    else if e <= envVar then FromBody(Extensions, envVar[|e|..])
    else None
  }

  // ---------- the round trip ----------

  ghost predicate Same(q: Option<Property>, p: Property) {
    && q.Some? && q.value.section == p.section && q.value.ctype == p.ctype && q.value.name == p.name
    && q.value.kind == p.kind && (p.kind.Config? ==> q.value.key == p.key)
  }

  /** The escaped component ID has no token `CONFIG` or `ENABLED` after an underscore, and a config key is not empty. */
  ghost predicate EnvSafe(p: Property) {
    var c := Wordified(ComponentText(p));
    TokenSpan(c) == |c| && (p.kind.Config? ==> p.key != "")
  }

  // Reading a property.

  lemma {:induction false} TidySqueeze(s: string, atStart: bool)
    requires atStart && s != "" ==> !IsSpace(s[0])
    requires forall i :: 0 < i < |s| && IsDelimiter(s[i - 1]) ==> !IsSpace(s[i])
    ensures Squeeze(s, atStart) == s
  {
    hide IsSpace;
    if s != "" {
      assert forall i :: 0 < i < |s[1..]| ==> s[1..][i - 1] == s[i] && s[1..][i] == s[i + 1];
      TidySqueeze(s[1..], IsDelimiter(s[0]));
    }
  }

  /** A component ID is put together again from its pieces. */
  lemma ComponentPieces(cid: string)
    ensures '/' !in TypeOf(cid)
    ensures cid == TypeOf(cid) + "/" + NameOf(cid) || (cid == TypeOf(cid) && NameOf(cid) == "")
  {
    hide IndexOf;
    var slash := IndexOf(cid, '/');
    if slash < |cid| {
      assert cid == cid[..slash] + [cid[slash]] + cid[slash + 1..];
    } else {
      assert cid[..slash] == cid;
    }
  }

  lemma KeyPieces(tail: string)
    requires ReadKey(tail).Some?
    ensures var (kind, key) := ReadKey(tail).value;
      tail == "." + KindText(kind) + (if kind.Config? then "." + key else key)
  {
    hide KindAt, KindText;
    var n := 1 + |KindText(ReadKey(tail).value.0)|;
    assert tail == tail[..n] + tail[n..];
  }

  /** What a property says about the text it was read from. */
  lemma ParsedBody(section: Section, body: string, input: string)
    requires ParseBody(section, body, input).Some?
    ensures var p := ParseBody(section, body, input).value; var k := ComponentSpan(body);
      && p.section == section && p.input == input && p.ctype != "" && '/' !in p.ctype
      && p.ctype == TypeOf(body[..k]) && p.name == NameOf(body[..k])
      && (body[..k] == p.ctype + "/" + p.name || (body[..k] == p.ctype && p.name == ""))
      && body[k..] == "." + KindText(p.kind) + (if p.kind.Config? then "." + p.key else p.key)
  {
    hide ComponentSpan, TypeOf, NameOf, ReadKey, KindText;
    var k := ComponentSpan(body);
    ComponentPieces(body[..k]);
    KeyPieces(body[k..]);
  }

  lemma HeaderFirst(section: Section, body: string)
    ensures Header(Receivers) <= Header(section) + body <==> section.Receivers?
    ensures Header(section) <= Header(section) + body && (Header(section) + body)[|Header(section)|..] == body
  {
    var s := Header(section) + body;
    if section.Extensions? { assert Header(Receivers)[17] == 'r' && s[17] == 'e'; }
  }

  /** A tidy property is read from its own text. */
  lemma NewPropertyOf(section: Section, body: string)
    requires Tidy(Header(section) + body)
    ensures NewProperty(Header(section) + body) == ParseBody(section, body, Header(section) + body)
  {
    hide Header, ParseBody, IsSpace;
    TidySqueeze(Header(section) + body, true);
    HeaderFirst(section, body);
  }

  /** The body of a property, behind the header it names. */
  lemma BodyOf(input: string) returns (section: Section, body: string)
    requires Tidy(input) && NewProperty(input).Some?
    ensures input == Header(section) + body && NewProperty(input) == ParseBody(section, body, input)
  {
    hide Header, ParseBody, IsSpace;
    TidySqueeze(input, true);
    section := if Header(Receivers) <= input then Receivers else Extensions;
    body := input[|Header(section)|..];
  }

  /** The environment variable spells the component ID as the property did. */
  lemma ComponentTextIs(section: Section, body: string, input: string)
    requires input == Header(section) + body && ParseBody(section, body, input).Some?
    ensures ComponentText(ParseBody(section, body, input).value) == body[..ComponentSpan(body)]
  {
    hide Header, ParseBody, ComponentSpan, TypeOf, NameOf, KindText;
    ParsedBody(section, body, input);
    var p, k := ParseBody(section, body, input).value, ComponentSpan(body);
    if p.name == "" { SlashKept(Header(section), p.ctype, body[..k], body[k..]); }
    assert body == body[..k] + body[k..];
    assert p.ctype + "/" + p.name == p.ctype + ("/" + p.name);
  }

  /** Whether a component ID without a name ends in a slash shows in the text. */
  lemma SlashKept(h: string, ctype: string, cid: string, tail: string)
    requires tail != "" && tail[0] == '.' && (cid == ctype || cid == ctype + "/" + "")
    ensures h + ctype + "/." <= h + (cid + tail) <==> cid != ctype
  {
    var input, n := h + (cid + tail), |h + ctype|;
    if cid == ctype {
      assert input[n] == '.' && (h + ctype + "/.")[n] == '/';
    } else {
      assert input[..n + 2] == h + ctype + "/.";
    }
  }

  // What follows a token does not change it.

  lemma {:induction false} UptoLocal(a: string, r: string, stop: char)
    requires r != "" && r[0] == stop
    ensures Upto(a + r, stop) == Upto(a, stop)
  {
    hide IndexOf;
    var k := IndexOf(a, stop);
    assert (a + r)[..k] == a[..k];
    IndexOfIs(a + r, stop, k);
  }

  lemma UpperAtLocal(a: string, r: string)
    requires a != "" && r != "" && r[0] == '_'
    ensures UpperAt(a + r) == UpperAt(a)
  {
    hide Upto, KindUpper;
    assert (a + r)[1..] == a[1..] + r;
    UptoLocal(a[1..], r, '_');
  }

  lemma {:induction false} TokenSpanLocal(c: string, r: string)
    requires r != "" && r[0] == '_'
    ensures TokenSpan(c + r) == if TokenSpan(c) < |c| then TokenSpan(c) else |c| + TokenSpan(r)
  {
    hide UpperAt;
    if c == "" {
      assert c + r == r;
    } else {
      assert (c + r)[1..] == c[1..] + r;
      UpperAtLocal(c, r);
      TokenSpanLocal(c[1..], r);
    }
  }

  lemma UpperAtKind(kind: Kind, t: string)
    requires t == "" || t[0] == '_'
    ensures UpperAt("_" + KindUpper(kind) + t) == Some(kind)
  {
    hide IndexOf;
    var s, word := "_" + KindUpper(kind) + t, KindUpper(kind);
    assert s[1..] == word + t && s[1..][..|word|] == word;
    assert '_' !in word;
    IndexOfIs(s[1..], '_', |word|);
  }

  lemma {:induction false} PlainLocal(a: string, r: string)
    requires r != "" && IsDelimiter(r[0])
    ensures PlainSpan(a + r) == PlainSpan(a)
  {
    if a == "" {
      assert a + r == r;
    } else {
      assert (a + r)[1..] == a[1..] + r;
      PlainLocal(a[1..], r);
    }
  }

  lemma {:induction false} PlainAll(s: string)
    requires '.' !in s && '/' !in s
    ensures PlainSpan(s) == |s|
  {
    if s != "" { PlainAll(s[1..]); }
  }

  lemma KindAtLocal(a: string, r: string)
    requires a != "" && r != "" && IsDelimiter(r[0])
    ensures KindAt(a + r) == KindAt(a)
  {
    hide PlainSpan, KindText, IsDelimiter;
    var k := PlainSpan(a[1..]);
    assert (a + r)[1..] == a[1..] + r;
    PlainLocal(a[1..], r);
    assert (a[1..] + r)[..k] == a[1..][..k];
  }

  lemma {:induction false} ComponentSpanLocal(cid: string, r: string)
    requires r != "" && r[0] == '.'
    ensures ComponentSpan(cid + r) ==
      if ComponentSpan(cid) < |cid| then ComponentSpan(cid) else |cid| + ComponentSpan(r)
  {
    hide KindAt;
    if cid == "" {
      assert cid + r == r;
    } else {
      assert (cid + r)[1..] == cid[1..] + r;
      KindAtLocal(cid, r);
      ComponentSpanLocal(cid[1..], r);
    }
  }

  lemma KindsDiffer()
    ensures KindText(Config) != KindText(Enabled)
    ensures forall kind :: '.' !in KindText(kind) && '/' !in KindText(kind)
  {
  }

  lemma KindAtKind(kind: Kind, t: string)
    requires t == "" || IsDelimiter(t[0])
    ensures KindAt("." + KindText(kind) + t) == Some(kind)
  {
    hide KindText, PlainSpan;
    var s, word := "." + KindText(kind) + t, KindText(kind);
    assert s[1..] == word + t && s[1..][..|word|] == word;
    KindsDiffer();
    PlainAll(word);
    if t != "" { PlainLocal(word, t); } else { assert word + t == word; }
  }

  // Through the environment variable and back.

  /** Splitting the environment variable built from a component, a kind and the rest. */
  lemma SplitBuilt(c: string, kind: Kind, t: string)
    requires c != "" && TokenSpan(c) == |c| && (t == "" || t[0] == '_')
    ensures SplitEnvVar(c + ("_" + KindUpper(kind) + t)) ==
      if |t| == 1 then None else Some(EnvVarProperty(c, kind, if t == "" then "" else t[1..]))
  {
    hide TokenSpan, UpperAt, KindUpper;
    var r := "_" + KindUpper(kind) + t;
    var s := c + r;
    TokenSpanLocal(c, r);
    UpperAtKind(kind, t);
    TokenSpanHere(r);
    assert s[..|c|] == c && s[|c|..] == r && r[1 + |KindUpper(kind)|..] == t;
  }

  lemma TokenSpanHere(s: string)
    requires UpperAt(s).Some?
    ensures TokenSpan(s) == 0
  {
    hide UpperAt;
  }

  /** What follows the component ID in the environment variable. */
  function EnvVarTail(p: Property): string {
    if p.kind.Config? then "_" + Wordified(p.key) else ""
  }

  lemma EnvVarBody(p: Property)
    ensures FromEnvVar(ToEnvVar(p)) ==
      FromBody(p.section, Wordified(ComponentText(p)) + ("_" + KindUpper(p.kind) + EnvVarTail(p)))
  {
    hide Wordified, FromBody, Header, KindUpper, EnvVarHeader, FromEnvVar;
    var h := EnvVarHeader(p.section);
    var body := Wordified(ComponentText(p)) + ("_" + KindUpper(p.kind) + EnvVarTail(p));
    WordifiedAppend(p.ctype, "/" + p.name);
    EnvVarIs(p, h);
    EnvVarOf(p.section, body);
  }

  lemma EnvVarIs(p: Property, h: string)
    requires h == EnvVarHeader(p.section)
    requires Wordified(p.ctype + ("/" + p.name)) == Wordified(p.ctype) + Wordified("/" + p.name)
    ensures ToEnvVar(p) == h + (Wordified(ComponentText(p)) + ("_" + KindUpper(p.kind) + EnvVarTail(p)))
  {
    hide Wordified, Header, KindUpper, SectionUpper;
  }

  lemma EnvVarOf(section: Section, body: string)
    ensures FromEnvVar(EnvVarHeader(section) + body) == FromBody(section, body)
  {
    hide FromBody;
    var h, r := EnvVarHeader(section), EnvVarHeader(Receivers);
    assert h <= h + body && (h + body)[|h|..] == body;
    assert section.Extensions? ==> r[17] == 'R' && (h + body)[17] == 'E';
  }

  lemma {:induction false} WordifiedEmpty(s: string)
    ensures Wordified(s) == "" <==> s == ""
  {
    hide Hex;
  }

  lemma TidyPrefix(a: string, b: string)
    requires Tidy(a + b)
    ensures Tidy(a)
  {
    hide IsSpace, IsDelimiter;
    assert forall i :: 0 <= i < |a| ==> (a + b)[i] == a[i];
  }

  /** Without the text after `.enabled`, the same property is read. */
  lemma EnabledAgain(section: Section, cid: string, rest: string)
    requires Tidy(Header(section) + (cid + ("." + KindText(Enabled) + rest)))
    requires ComponentSpan(cid + ("." + KindText(Enabled) + rest)) == |cid| && TypeOf(cid) != ""
    ensures var q := NewProperty(PropertyText(section, cid, Enabled, ""));
      q.Some? && q.value.section == section && q.value.ctype == TypeOf(cid) && q.value.name == NameOf(cid) &&
      q.value.kind == Enabled
  {
    hide Header, ComponentSpan, TypeOf, NameOf, KindText, ReadKey, Tidy, NewProperty;
    var t, h := "." + KindText(Enabled), Header(section);
    assert h + (cid + (t + rest)) == h + (cid + t) + rest;
    TidyPrefix(h + (cid + t), rest);
    assert PropertyText(section, cid, Enabled, "") == h + (cid + t);
    NewPropertyOf(section, cid + t);
    CutBeforeKey(cid, rest);
    assert (cid + t)[..|cid|] == cid && (cid + t)[|cid|..] == t;
  }

  lemma CutBeforeKey(cid: string, rest: string)
    requires ComponentSpan(cid + ("." + KindText(Enabled) + rest)) == |cid|
    ensures ComponentSpan(cid + ("." + KindText(Enabled))) == |cid|
    ensures ReadKey("." + KindText(Enabled)) == Some((Enabled, ""))
  {
    hide ComponentSpan, KindText, KindAt;
    var t := "." + KindText(Enabled);
    assert t + "" == t;
    KindAtKind(Enabled, "");
    ComponentSpanLocal(cid, t + rest);
    ComponentSpanLocal(cid, t);
    ComponentSpanHere(t);
  }

  lemma ComponentSpanHere(s: string)
    requires KindAt(s).Some?
    ensures ComponentSpan(s) == 0
  {
    hide KindAt;
  }

  /** The pieces of a property's text, and that none of them holds a NUL. */
  lemma TextPieces(section: Section, cid: string, tail: string, p: Property)
    requires p.input == Header(section) + (cid + tail) && '\0' !in p.input
    requires Some(p) == ParseBody(section, cid + tail, p.input) && ComponentSpan(cid + tail) == |cid|
    ensures p.section == section && cid != "" && TypeOf(cid) == p.ctype != "" && NameOf(cid) == p.name
    ensures cid == p.ctype + "/" + p.name || (cid == p.ctype && p.name == "")
    ensures '\0' !in cid && '\0' !in p.key
    ensures tail == "." + KindText(p.kind) + (if p.kind.Config? then "." + p.key else p.key)
  {
    hide Header, ComponentSpan, TypeOf, NameOf, KindText, ParseBody;
    ParsedBody(section, cid + tail, p.input);
    assert (cid + tail)[..|cid|] == cid && (cid + tail)[|cid|..] == tail;
    assert forall c :: c in cid ==> c in cid + tail && c in p.input;
    assert forall c :: c in p.key ==> c in tail && c in cid + tail && c in p.input;
  }

  /** A safe property comes back from its environment variable. */
  lemma SafeComesBack(section: Section, cid: string, tail: string, p: Property)
    requires p.input == Header(section) + (cid + tail) && Tidy(p.input) && '\0' !in p.input
    requires NewProperty(p.input) == Some(p) == ParseBody(section, cid + tail, p.input)
    requires ComponentSpan(cid + tail) == |cid| && ComponentText(p) == cid && EnvSafe(p)
    ensures Same(FromEnvVar(ToEnvVar(p)), p)
  {
    hide Header, ComponentSpan, TypeOf, NameOf, KindText, KindUpper, Tidy, ParseBody, FromBody, SplitEnvVar, TokenSpan,
      NewProperty, Wordified, Unwordify, ToEnvVar, FromEnvVar, ComponentText, PropertyText;
    var c, body := Wordified(cid), Wordified(cid) + ("_" + KindUpper(p.kind) + EnvVarTail(p));
    TextPieces(section, cid, tail, p);
    EnvVarBody(p);
    WordifiedEmpty(cid);
    WordifiedEmpty(p.key);
    SplitBuilt(c, p.kind, EnvVarTail(p));
    WordifyRoundTrip(cid);
    if p.kind.Config? {
      WordifyRoundTrip(p.key);
      SameText(section, cid, p.key);
      FromSplit(section, body, EnvVarProperty(c, Config, Wordified(p.key)), cid, p.key);
    } else {
      UnwordifyEmpty();
      EnabledAgain(section, cid, p.key);
      FromSplit(section, body, EnvVarProperty(c, Enabled, ""), cid, "");
    }
  }

  lemma SameText(section: Section, cid: string, key: string)
    ensures PropertyText(section, cid, Config, key) == Header(section) + (cid + ("." + KindText(Config) + ("." + key)))
  {
    hide Header, KindText;
  }

  lemma FromSplit(section: Section, body: string, split: EnvVarProperty, cid: string, key: string)
    requires SplitEnvVar(body) == Some(split) && Unwordify(split.component) == Some(cid)
    requires Unwordify(split.key) == Some(key)
    ensures FromBody(section, body) == NewProperty(PropertyText(section, cid, split.kind, key))
  {
    hide SplitEnvVar, Unwordify, NewProperty, PropertyText;
  }

  // When it does not come back.

  lemma {:induction false} NoTokenWithoutUnderscore(s: string)
    requires '_' !in s
    ensures TokenSpan(s) == |s|
  {
    if s != "" { NoTokenWithoutUnderscore(s[1..]); }
  }

  /** An escape that has lost its closing underscore contains no token of interest. */
  lemma NoTokenInEscape(h: string)
    requires '_' !in h
    ensures TokenSpan("_x" + h) == |"_x" + h|
  {
    var s := "_x" + h;
    assert s[1..] == "x" + h;
    NoTokenWithoutUnderscore("x" + h);
    assert Upto("x" + h, '_') == "x" + h by { IndexOfIs("x" + h, '_', |h| + 1); }
    assert ("x" + h)[0] == 'x' && KindUpper(Config)[0] == 'C' && KindUpper(Enabled)[0] == 'E';
  }

  lemma HexNoUnderscore(n: nat)
    ensures '_' !in Hex(n)
  {
    HexShape(n);
  }

  lemma EscapeThen(c: char, rest: string)
    requires !IsWord(c)
    ensures var a := "_x" + Hex(c as nat);
      && Encode(c) + rest == a + ("_" + rest)
      && TokenSpan(Encode(c) + rest) == if UpperAt("_" + rest).Some? then |a| else |a| + 1 + TokenSpan(rest)
  {
    hide Hex, UpperAt;
    var a := "_x" + Hex(c as nat);
    HexNoUnderscore(c as nat);
    NoTokenInEscape(Hex(c as nat));
    assert Encode(c) + rest == a + ("_" + rest);
    TokenSpanLocal(a, "_" + rest);
    assert ("_" + rest)[1..] == rest;
  }

  lemma UpperAtFirst(s: string)
    requires UpperAt("_" + Wordified(s)).Some?
    ensures s != "" && (s[0] == 'C' || s[0] == 'E')
  {
    hide Hex;
    var w := Wordified(s);
    var kind := UpperAt("_" + w).value;
    assert ("_" + w)[1] == ("_" + w)[..1 + |KindUpper(kind)|][1] == KindUpper(kind)[0];
    assert w[0] == 'C' || w[0] == 'E';
  }

  /** The first token of interest either cuts the first character's escape or comes after it. */
  lemma FirstCut(cid: string) returns (here: bool)
    requires cid != ""
    ensures here ==> |cid| > 1 && (cid[1] == 'C' || cid[1] == 'E')
    ensures here ==> Wordified(cid)[..TokenSpan(Wordified(cid))] == "_x" + Hex(cid[0] as nat)
    ensures !here ==> TokenSpan(Wordified(cid)) == |Encode(cid[0])| + TokenSpan(Wordified(cid[1..]))
  {
    hide Hex, UpperAt, TokenSpan;
    var c, w := Wordified(cid), Wordified(cid[1..]);
    here := !IsWord(cid[0]) && UpperAt("_" + w).Some?;
    if IsWord(cid[0]) {
      assert c[1..] == w;
      NotUpper(c);
    } else {
      EscapeThen(cid[0], w);
      if here { UpperAtFirst(cid[1..]); }
    }
  }

  /** Where the first token `CONFIG` or `ENABLED` cuts an escaped ID: in the escape of some character that is followed
      by `C` or `E`, just before its closing underscore. */
  lemma {:induction false} CutPoint(cid: string) returns (i: nat)
    requires TokenSpan(Wordified(cid)) < |Wordified(cid)|
    ensures i + 1 < |cid| && (cid[i + 1] == 'C' || cid[i + 1] == 'E')
    ensures Wordified(cid)[..TokenSpan(Wordified(cid))] == Wordified(cid[..i]) + ("_x" + Hex(cid[i] as nat))
  {
    hide *;
    WordifiedEmpty(cid);
    WordifiedStep(cid);
    var here := FirstCut(cid);
    if here {
      i := 0;
      WordifiedEmpty(cid[..0]);
      assert "" + ("_x" + Hex(cid[0] as nat)) == "_x" + Hex(cid[0] as nat);
    } else {
      var j := CutPoint(cid[1..]);
      i := j + 1;
      var front := cid[1..][..j];
      assert cid[..i][0] == cid[0] && cid[..i][1..] == front;
      WordifiedStep(cid[..i]);
      var w := Wordified(cid[1..]);
      CutJoin(Encode(cid[0]), w, TokenSpan(w), Wordified(front), "_x" + Hex(cid[i] as nat));
    }
  }

  lemma CutJoin(e: string, w: string, k: nat, a: string, x: string)
    requires k <= |w| && w[..k] == a + x
    ensures (e + w)[..|e| + k] == e + a + x
  {
    assert (e + w)[..|e| + k] == e + w[..k];
  }

  lemma WordifiedStep(s: string)
    requires s != ""
    ensures Wordified(s) == Encode(s[0]) + Wordified(s[1..])
  {
    hide Encode;
  }

  lemma NotUpper(s: string)
    requires s != "" && s[0] != '_'
    ensures TokenSpan(s) == 1 + TokenSpan(s[1..])
  {
  }

  lemma {:induction false} NothingToDecode(t: string)
    requires '_' !in t
    ensures Unwordify(t) == Some(t)
  {
    if t != "" {
      NothingToDecode(t[1..]);
      assert t[0] != '_' && [t[0]] + t[1..] == t;
    }
  }

  /** An escape cut before its closing underscore is read as plain text. */
  lemma CutDecoded(u: string, h: string)
    requires '\0' !in u && '_' !in h
    ensures Unwordify(Wordified(u) + ("_x" + h)) == Some(u + ("_x" + h))
  {
    hide Wordified;
    var x := "_x" + h;
    assert x[1..] == "x" + h && x[2..] == h;
    NothingToDecode("x" + h);
    assert Unwordify(x) == Some(x) by { assert MatchLength(x) == 0; assert ['_'] + ("x" + h) == x; }
    DecodePrefix(u, x);
  }

  lemma {:induction false} SqueezePrefix(a: string, b: string, atStart: bool)
    requires atStart && a != "" ==> !IsSpace(a[0])
    requires forall i :: 0 < i < |a| && IsDelimiter(a[i - 1]) ==> !IsSpace(a[i])
    ensures a <= Squeeze(a + b, atStart)
  {
    hide IsSpace;
    if a != "" {
      assert (a + b)[1..] == a[1..] + b;
      assert forall i :: 0 < i < |a[1..]| ==> a[1..][i - 1] == a[i] && a[1..][i] == a[i + 1];
      SqueezePrefix(a[1..], b, IsDelimiter(a[0]));
    }
  }

  lemma TidyExtend(a: string, b: string)
    requires Tidy(a) && forall i :: 0 <= i < |b| ==> !IsSpace(b[i])
    ensures Tidy(a + b)
  {
    hide IsSpace, IsDelimiter;
  }

  /** A text whose component starts `u_x` is not read as a property whose component ID has `C` or `E` after `u` and one
      more character. */
  lemma ReadsOther(section: Section, u: string, rest: string, p: Property, cid: string)
    requires Tidy(Header(section) + u) && |u| + 1 < |cid| && (cid[|u| + 1] == 'C' || cid[|u| + 1] == 'E')
    requires cid == p.ctype + "/" + p.name || (cid == p.ctype && p.name == "")
    ensures !Same(NewProperty(Header(section) + u + "_x" + rest), p)
  {
    hide *;
    var h := Header(section);
    var a := h + u + "_x";
    PlainText();
    TidyExtend(h + u, "_x");
    TidyParts(a);
    SqueezePrefix(a, rest, true);
    var s := Squeeze(a + rest, true);
    var body := s[|h|..];
    SameFront(h, u, s);
    ReadFrom(section, a + rest, body);
    OtherBody(section, body, u, a + rest, p, cid);
  }

  lemma ReadFrom(section: Section, input: string, body: string)
    requires Squeeze(input, true) == Header(section) + body
    ensures NewProperty(input) == ParseBody(section, body, input)
  {
    hide Squeeze, Header, ParseBody;
    HeaderFirst(section, body);
  }

  lemma OtherBody(section: Section, body: string, u: string, input: string, p: Property, cid: string)
    requires |u| + 1 < |body| && body[|u| + 1] == 'x'
    requires |u| + 1 < |cid| && (cid[|u| + 1] == 'C' || cid[|u| + 1] == 'E')
    requires cid == p.ctype + "/" + p.name || (cid == p.ctype && p.name == "")
    ensures !Same(ParseBody(section, body, input), p)
  {
    hide ParseBody, ComponentSpan, TypeOf, NameOf, KindText;
    if ParseBody(section, body, input).Some? { ParsedBody(section, body, input); }
  }

  lemma SameFront(h: string, u: string, s: string)
    requires h + u + "_x" <= s
    ensures s == h + s[|h|..] && |u| + 1 < |s[|h|..]| && s[|h|..][|u| + 1] == 'x'
  {
    assert (h + u + "_x")[|h| + |u| + 1] == 'x' && (h + u + "_x")[..|h|] == h;
  }

  lemma PlainText()
    ensures !IsSpace('_') && !IsSpace('x')
  {
  }

  lemma TidyParts(a: string)
    requires Tidy(a)
    ensures a != "" ==> !IsSpace(a[0])
    ensures forall i :: 0 < i < |a| && IsDelimiter(a[i - 1]) ==> !IsSpace(a[i])
  {
  }

  /** What is read when the first token of interest leaves `u_x<h>` as the component. */
  lemma FromCut(section: Section, body: string, u: string, h: string) returns (rest: string)
    requires Unwordify(body[..TokenSpan(body)]) == Some(u + ("_x" + h))
    ensures FromBody(section, body).None? || FromBody(section, body) == NewProperty(Header(section) + u + "_x" + rest)
  {
    hide Unwordify, TokenSpan, Header, KindText, NewProperty, UpperAt, KindUpper;
    rest := "";
    if FromBody(section, body).Some? {
      var split := SplitEnvVar(body).value;
      var key := Unwordify(split.key).value;
      rest := h + "." + KindText(split.kind) + (if split.kind.Config? then "." + key else "");
      assert PropertyText(section, u + ("_x" + h), split.kind, key) == Header(section) + u + "_x" + rest;
    }
  }

  /** A component ID cut short by a token `CONFIG` or `ENABLED` is read as another one. */
  lemma CutIsLost(section: Section, cid: string, r: string, p: Property)
    requires TokenSpan(Wordified(cid)) < |Wordified(cid)| && r != "" && r[0] == '_'
    requires Tidy(Header(section) + cid) && '\0' !in cid
    requires cid == p.ctype + "/" + p.name || (cid == p.ctype && p.name == "")
    ensures !Same(FromBody(section, Wordified(cid) + r), p)
  {
    hide Header, Tidy, FromBody, TokenSpan, NewProperty, Wordified, Unwordify, Hex;
    var c := Wordified(cid);
    var i := CutPoint(cid);
    var u, h := cid[..i], Hex(cid[i] as nat);
    HexNoUnderscore(cid[i] as nat);
    CutDecoded(u, h);
    CutFront(c, r);
    var rest := FromCut(section, c + r, u, h);
    TidyTake(Header(section), cid, i);
    ReadsOther(section, u, rest, p, cid);
  }

  lemma CutFront(c: string, r: string)
    requires TokenSpan(c) < |c| && r != "" && r[0] == '_'
    ensures (c + r)[..TokenSpan(c + r)] == c[..TokenSpan(c)]
  {
    hide TokenSpan;
    TokenSpanLocal(c, r);
  }

  lemma TidyTake(h: string, cid: string, i: nat)
    requires Tidy(h + cid) && i <= |cid|
    ensures Tidy(h + cid[..i])
  {
    hide Tidy;
    assert h + cid == h + cid[..i] + cid[i..];
    TidyPrefix(h + cid[..i], cid[i..]);
  }

  /** An unsafe property does not come back. */
  lemma UnsafeIsLost(section: Section, cid: string, tail: string, p: Property)
    requires p.input == Header(section) + (cid + tail) && Tidy(p.input) && '\0' !in p.input
    requires Some(p) == ParseBody(section, cid + tail, p.input)
    requires ComponentSpan(cid + tail) == |cid| && ComponentText(p) == cid && !EnvSafe(p)
    ensures !Same(FromEnvVar(ToEnvVar(p)), p)
  {
    hide Header, ComponentSpan, TypeOf, NameOf, KindText, KindUpper, Tidy, ParseBody, FromBody, SplitEnvVar, TokenSpan,
      NewProperty, Wordified, Unwordify, ToEnvVar, FromEnvVar, ComponentText;
    var c, r := Wordified(cid), "_" + KindUpper(p.kind) + EnvVarTail(p);
    TextPieces(section, cid, tail, p);
    EnvVarBody(p);
    if TokenSpan(c) < |c| {
      assert p.input == Header(section) + cid + tail;
      TidyPrefix(Header(section) + cid, tail);
      CutIsLost(section, cid, r, p);
    } else {
      WordifiedEmpty(cid);
      WordifiedEmpty(p.key);
      SplitBuilt(c, p.kind, EnvVarTail(p));
      FromNothing(section, c + r);
    }
  }

  lemma FromNothing(section: Section, body: string)
    requires SplitEnvVar(body).None?
    ensures FromBody(section, body).None?
  {
    hide SplitEnvVar;
  }

  /** A NUL-free property in which no token follows white space comes back from its own environment variable - the same
      section, component type, component name, kind and config key - exactly when its escaped component ID contains no
      token `CONFIG` or `ENABLED` after an underscore and, for config, its key is not empty. */
  lemma EnvVarRoundTrip(input: string)
    requires Tidy(input) && '\0' !in input && NewProperty(input).Some?
    ensures var p := NewProperty(input).value; Same(FromEnvVar(ToEnvVar(p)), p) <==> EnvSafe(p)
  {
    hide Header, ComponentSpan, Tidy, ParseBody, NewProperty, ToEnvVar, FromEnvVar, ComponentText, EnvSafe, Same;
    var section, body := BodyOf(input);
    var p, k := NewProperty(input).value, ComponentSpan(body);
    assert body == body[..k] + body[k..];
    ComponentTextIs(section, body, input);
    InputKept(section, body, input);
    if EnvSafe(p) {
      SafeComesBack(section, body[..k], body[k..], p);
    } else {
      UnsafeIsLost(section, body[..k], body[k..], p);
    }
  }

  lemma InputKept(section: Section, body: string, input: string)
    requires ParseBody(section, body, input).Some?
    ensures ParseBody(section, body, input).value.input == input
  {
  }
}
