/** Properties that do not come back from their environment variable, at inputs. */
module PropertyLosses {
  import opened Strings
  import opened Wordify
  import opened PropertyNames

  ghost predicate Words(s: string) {
    forall i :: 0 <= i < |s| ==> IsWord(s[i])
  }

  lemma {:induction false} WordsStay(s: string)
    requires Words(s)
    ensures Wordified(s) == s
  {
    if s != "" { WordsStay(s[1..]); }
  }

  lemma {:induction false} NoDot(s: string)
    requires '.' !in s
    ensures ComponentSpan(s) == |s|
  {
    if s != "" { NoDot(s[1..]); }
  }

  /** Neither white space nor NUL. */
  ghost predicate Clean(s: string) {
    forall i :: 0 <= i < |s| ==> s[i] > ' '
  }

  lemma CleanIsTidy(s: string)
    requires Clean(s)
    ensures Tidy(s) && '\0' !in s
  {
    assert forall c :: c > ' ' ==> !IsSpace(c);
    hide IsSpace;
  }

  lemma CleanHeader(section: Section)
    ensures Clean(Header(section))
  {
    assert Clean("splunk.discovery.") && Clean(SectionText(section)) && Clean(".");
  }

  lemma CleanTail(key: string)
    requires Clean(key)
    ensures Clean("." + KindText(Config) + ("." + key))
  {
    assert Clean(KindText(Config));
  }

  function Tail(key: string): string {
    "." + KindText(Config) + ("." + key)
  }

  lemma ReadsKey(key: string)
    ensures ReadKey(Tail(key)) == Some((Config, key)) && ComponentSpan(Tail(key)) == 0
  {
    hide ComponentSpan, KindAt, KindText;
    var t := "." + key;
    KindAtKind(Config, t);
    ComponentSpanHere(Tail(key));
    var n := 1 + |KindText(Config)|;
    assert Tail(key)[n..] == t && t[1..] == key;
  }

  lemma TypeNotEmpty(cid: string)
    requires cid != "" && cid[0] != '/'
    ensures TypeOf(cid) != ""
  {
  }

  /** The text of a config property: tidy, without NUL, and with a component ID that ends where the kind begins. */
  ghost predicate ConfigText(section: Section, cid: string, key: string) {
    && cid != "" && cid[0] != '/' && ComponentSpan(cid) == |cid|
    && var input := Header(section) + (cid + Tail(key));
    Tidy(input) && '\0' !in input
  }

  lemma PlainConfigText(section: Section, cid: string, key: string)
    requires '.' !in cid && cid != "" && cid[0] != '/' && Clean(cid) && Clean(key)
    ensures ConfigText(section, cid, key)
  {
    hide ComponentSpan, Tidy, Header;
    CleanHeader(section);
    CleanTail(key);
    CleanIsTidy(Header(section) + (cid + Tail(key)));
    NoDot(cid);
  }

  /** Such a text is read as it was written. */
  lemma ReadsBack(section: Section, cid: string, key: string)
    requires ConfigText(section, cid, key)
    ensures var input := Header(section) + (cid + Tail(key));
      NewProperty(input) == Some(Property(section, TypeOf(cid), NameOf(cid), Config, key, input)) &&
      ComponentText(NewProperty(input).value) == cid
  {
    hide ComponentSpan, ReadKey, Header, NameOf, TypeOf, Tidy, NewProperty, ComponentText;
    var tail := Tail(key);
    var body := cid + tail;
    NewPropertyOf(section, body);
    ReadsKey(key);
    ComponentSpanLocal(cid, tail);
    assert body[..|cid|] == cid && body[|cid|..] == tail;
    TypeNotEmpty(cid);
    ComponentTextIs(section, body, Header(section) + body);
  }

  /** The property parses, is not safe, and is not what its environment variable gives back. */
  ghost predicate IsLost(input: string) {
    var p := NewProperty(input);
    p.Some? && !EnvSafe(p.value) && !Same(FromEnvVar(ToEnvVar(p.value)), p.value)
  }

  /** Every config property of a component whose ID ends in `/CONFIG` or `/ENABLED` is lost: its environment variable is
      cut at the name. */
  lemma KindNameIsLost(section: Section, front: string, kind: Kind, key: string)
    requires ConfigText(section, front + "/" + KindUpper(kind), key)
    ensures IsLost(Header(section) + (front + "/" + KindUpper(kind) + Tail(key)))
  {
    hide Tidy, NewProperty, FromEnvVar, ToEnvVar, Same, Header, Tail, ComponentText, Wordified, TokenSpan, TypeOf,
      NameOf, KindUpper;
    var cid := front + "/" + KindUpper(kind);
    ReadsBack(section, cid, key);
    CutAtKind(front, kind);
    EnvVarRoundTrip(Header(section) + (cid + Tail(key)));
  }

  lemma CutAtKind(front: string, kind: Kind)
    ensures var c := Wordified(front + "/" + KindUpper(kind)); TokenSpan(c) < |c|
  {
    hide TokenSpan, Hex, Wordified, UpperAt, KindUpper;
    var c := KindUpper(kind);
    var a := Wordified(front) + ("_x" + Hex('/' as nat));
    KindIsWords(kind);
    WordsStay(c);
    WordifiedAppend(front, "/" + c);
    assert front + "/" + c == front + ("/" + c);
    WordifiedFirst('/', c);
    EscapeThen('/', c);
    assert Wordified(front + "/" + c) == a + ("_" + c);
    UpperAtKind(kind, "");
    assert "_" + c + "" == "_" + c;
    TokenSpanHere("_" + c);
    TokenSpanLocal(a, "_" + c);
  }

  lemma KindIsWords(kind: Kind)
    ensures Words(KindUpper(kind))
  {
  }

  /** Every config property with an empty key is lost: its environment variable does not parse. */
  lemma EmptyKeyIsLost(section: Section, cid: string)
    requires ConfigText(section, cid, "")
    ensures IsLost(Header(section) + (cid + Tail("")))
  {
    hide Tidy, NewProperty, FromEnvVar, ToEnvVar, Same, Header, Tail, ComponentText, Wordified, TokenSpan, TypeOf,
      NameOf;
    ReadsBack(section, cid, "");
    EnvVarRoundTrip(Header(section) + (cid + Tail("")));
  }

  lemma Spelled()
    ensures Header(Receivers) == "splunk.discovery.receivers."
    ensures KindUpper(Config) == "CONFIG" && "a" + "/" + "CONFIG" + Tail("k") == "a/CONFIG.config.k"
    ensures "a" + Tail("") == "a.config."
  {
  }

  /** Two such properties written out: a name that is a token of the grammar, and an empty key. */
  lemma LostProperties()
    ensures IsLost("splunk.discovery.receivers." + "a/CONFIG.config.k")
    ensures IsLost("splunk.discovery.receivers." + "a.config.")
  {
    hide IsLost, Header, Tail, KindUpper, ConfigText;
    Spelled();
    PlainConfigText(Receivers, "a" + "/" + "CONFIG", "k");
    KindNameIsLost(Receivers, "a", Config, "k");
    PlainConfigText(Receivers, "a", "");
    EmptyKeyIsLost(Receivers, "a");
  }
}
