/** How properties and their environment variables are spelled. */
module PropertySpelling {
  import opened Strings
  import opened Wordify
  import opened PropertyNames
  import opened PropertyLosses

  // ---------- escapes ----------

  const LOWER := "0123456789abcdef"
  const UPPER := "0123456789ABCDEF"

  /** Hex digits are written in lower case and read in either. */
  lemma HexDigits(d: nat)
    requires d < 16
    ensures HexDigit(d) == LOWER[d]
    ensures IsHex(LOWER[d]) && HexValue(LOWER[d]) == d && IsHex(UPPER[d]) && HexValue(UPPER[d]) == d
  {
  }

  lemma ByteIs(b: nat)
    requires b < 256
    ensures ByteHex(b) == [LOWER[b / 16], LOWER[b % 16]]
  {
    hide HexDigit;
    HexDigits(b / 16);
    HexDigits(b % 16);
  }

  /** A number is written a byte at a time, the most significant first. */
  lemma HexIs(n: nat)
    ensures n > 0 ==> Hex(n) == Hex(n / 256) + [LOWER[n % 256 / 16], LOWER[n % 256 % 16]]
    ensures Hex(0) == ""
  {
    hide HexDigit, ByteHex;
    if n > 0 { ByteIs(n % 256); }
  }

  /** Letters and digits stand for themselves, and every other character for its code between `_x` and `_`. */
  lemma EncodeIs(c: char)
    ensures '0' <= c <= '9' || 'A' <= c <= 'Z' || 'a' <= c <= 'z' ==> Encode(c) == [c]
    ensures !('0' <= c <= '9' || 'A' <= c <= 'Z' || 'a' <= c <= 'z') ==> Encode(c) == "_x" + Hex(c as nat) + "_"
  {
    hide Hex;
  }

  lemma SlashIs()
    ensures Encode('/') == "_x2f_"
  {
    hide Hex;
    EncodeIs('/');
    HexIs(0x2f);
    HexIs(0);
    assert "" + ['2', 'f'] == "2f";
  }

  /** An escape with an odd number of digits fails the whole text. */
  lemma OddDigitsFail(h: string, rest: string)
    requires |h| % 2 == 1 && forall i :: 0 <= i < |h| ==> IsHex(h[i])
    ensures Unwordify("_x" + h + "_" + rest) == None
  {
    hide Unwordify, IsHex;
    var s := "_x" + h + "_" + rest;
    EscapeLength(h, rest);
    assert s[2..|h| + 2] == h;
    UnwordifyEscape(s, |h| + 3);
  }

  /** An escape with an even number of digits is the character with that code, its first four bytes counting. */
  lemma EvenDigitsDecode(h: string, rest: string)
    requires |h| % 2 == 0 && 0 < |h| <= 8 && forall i :: 0 <= i < |h| ==> IsHex(h[i])
    requires HexNumber(h) < 0xD800 || 0xE000 <= HexNumber(h) < 0x11_0000
    ensures var decoded := Unwordify(rest);
      Unwordify("_x" + h + "_" + rest) ==
        if decoded.None? then None else Some([HexNumber(h) as char] + decoded.value)
  {
    hide Unwordify, IsHex, HexNumber;
    var s := "_x" + h + "_" + rest;
    EscapeLength(h, rest);
    assert s[2..|h| + 2] == h && s[|h| + 3..] == rest;
    UnwordifyEscape(s, |h| + 3);
  }

  lemma EscapeLength(h: string, rest: string)
    requires h != "" && forall i :: 0 <= i < |h| ==> IsHex(h[i])
    ensures MatchLength("_x" + h + "_" + rest) == |h| + 3
  {
    hide HexSpan, IsHex;
    var s := "_x" + h + "_" + rest;
    HexSpanIs(h, rest);
    assert s[2..] == h + "_" + rest && s[..2] == "_x" && s[2 + |h|] == '_';
  }

  lemma UnwordifyEscape(s: string, k: nat)
    requires s != "" && MatchLength(s) == k > 0
    ensures Unwordify(s) == Prepend(DecodeDigits(s[2..k - 1]), Unwordify(s[k..]))
  {
  }

  /** Text that begins no escape is kept. */
  lemma OtherTextStays(c: char, rest: string)
    requires c != '_'
    ensures var decoded := Unwordify(rest);
      Unwordify([c] + rest) == if decoded.None? then None else Some([c] + decoded.value)
  {
    assert ([c] + rest)[1..] == rest;
  }

  // ---------- properties ----------

  lemma Texts()
    ensures Header(Receivers) == "splunk.discovery." + "receivers."
    ensures Header(Extensions) == "splunk.discovery." + "extensions."
    ensures Tail("") == ".config." && KindText(Enabled) == "enabled"
  {
  }

  lemma VariableTexts()
    ensures EnvVarHeader(Receivers) == "SPLUNK_DISCOVERY_" + "RECEIVERS_"
    ensures EnvVarHeader(Extensions) == "SPLUNK_DISCOVERY_" + "EXTENSIONS_"
    ensures KindUpper(Config) == "CONFIG" && KindUpper(Enabled) == "ENABLED"
  {
  }

  lemma WordsAreClean(s: string)
    requires Words(s)
    ensures Clean(s) && '.' !in s && '/' !in s
  {
  }

  lemma TypeAndName(ctype: string, name: string)
    requires '/' !in ctype
    ensures TypeOf(ctype + "/" + name) == ctype && NameOf(ctype + "/" + name) == name
    ensures TypeOf(ctype) == ctype && NameOf(ctype) == ""
  {
    var cid := ctype + "/" + name;
    assert cid[..|ctype|] == ctype && ctype[..|ctype|] == ctype && cid[|ctype| + 1..] == name;
    IndexOfIs(cid, '/', |ctype|);
    IndexOfIs(ctype, '/', |ctype|);
  }

  function Cid(ctype: string, name: string): string {
    if name == "" then ctype else ctype + "/" + name
  }

  /** The text of a config property, with a name or without. */
  function Spelled(section: Section, ctype: string, name: string, key: string): string {
    "splunk.discovery." + (if section.Receivers? then "receivers." else "extensions.") + Cid(ctype, name) + ".config." +
    key
  }

  lemma SpelledIs(section: Section, ctype: string, name: string, key: string)
    ensures Spelled(section, ctype, name, key) == Header(section) + (Cid(ctype, name) + Tail(key))
  {
    hide Header, Tail, Cid;
    Texts();
    TailIs(key);
    Joined(Header(section), Cid(ctype, name), ".config.", key);
  }

  lemma Joined(a: string, b: string, c: string, d: string)
    ensures a + b + c + d == a + (b + (c + d))
  {
  }

  lemma TailIs(key: string)
    ensures Tail(key) == ".config." + key
  {
    assert "." + "config" + ("." + key) == ".config." + key;
  }

  /** `splunk.discovery.receivers.<type>[/<name>].config.<key>` is read as its parts. */
  lemma ReadsSpelled(section: Section, ctype: string, name: string, key: string)
    requires ctype != "" && Words(ctype) && Words(name) && Words(key)
    ensures var input := Spelled(section, ctype, name, key);
      && NewProperty(input) == Some(Property(section, ctype, name, Config, key, input))
      && Tidy(input) && '\0' !in input
  {
    hide NewProperty, Header, Tail, Spelled, Tidy, ComponentSpan, TypeOf, NameOf;
    var cid := Cid(ctype, name);
    WordsAreClean(ctype);
    WordsAreClean(name);
    WordsAreClean(key);
    SpelledIs(section, ctype, name, key);
    TypeAndName(ctype, name);
    PlainConfigText(section, cid, key);
    ReadsBack(section, cid, key);
  }

  /** Its environment variable is `SPLUNK_DISCOVERY_RECEIVERS_<type>[_x2f_<name>]_CONFIG_<key>`. */
  lemma VariableSpelled(section: Section, ctype: string, name: string, key: string)
    requires ctype != "" && Words(ctype) && Words(name) && Words(key)
    ensures var p := Property(section, ctype, name, Config, key, Spelled(section, ctype, name, key));
      ToEnvVar(p) ==
        "SPLUNK_DISCOVERY_" + (if section.Receivers? then "RECEIVERS_" else "EXTENSIONS_") + ctype +
        (if name == "" then "" else "_x2f_" + name) + "_" + "CONFIG" + "_" + key
  {
    hide Wordified, Header, Spelled, EnvVarHeader, KindUpper, Encode;
    VariableTexts();
    WordsStay(ctype);
    WordsStay(name);
    WordsStay(key);
    SlashIs();
    WordifiedFirst('/', name);
    assert Wordified("/" + name) == "_x2f_" + name;
    if name == "" { NoSlashInText(section, ctype, key); }
  }

  lemma NoSlashInText(section: Section, ctype: string, key: string)
    ensures !(Header(section) + ctype + "/." <= Spelled(section, ctype, "", key))
  {
    hide Header;
    SpelledIs(section, ctype, "", key);
    TailIs(key);
    SlashKept(Header(section), ctype, ctype, Tail(key));
  }

  lemma {:induction false} SpanBefore(cid: string, t: string)
    requires '.' !in cid && KindAt(t).Some?
    ensures ComponentSpan(cid + t) == |cid|
  {
    hide KindAt;
    if cid == "" {
      assert cid + t == t;
    } else {
      assert (cid + t)[1..] == cid[1..] + t;
      NoKind(cid, t);
      SpanBefore(cid[1..], t);
    }
  }

  lemma NoKind(cid: string, t: string)
    requires '.' !in cid && cid != ""
    ensures KindAt(cid + t).None?
  {
    assert (cid + t)[0] == cid[0];
  }

  /** `splunk.discovery.receivers.<type>[/<name>].enabled` is read as its parts. */
  lemma ReadsEnabled(section: Section, ctype: string, name: string)
    requires ctype != "" && Words(ctype) && Words(name)
    ensures var p := NewProperty(Header(section) + Cid(ctype, name) + ".enabled");
      && p.Some? && p.value.section == section && p.value.ctype == ctype && p.value.name == name
      && p.value.kind == Enabled
  {
    hide NewProperty, Header, PropertyText, KindText, Tidy, ComponentSpan, TypeOf, NameOf, KindAt, Clean, Words;
    var cid, t := Cid(ctype, name), "." + KindText(Enabled) + "";
    assert Clean(cid) && '.' !in cid by { CidIsClean(ctype, name); }
    TypeAndName(ctype, name) by { WordsAreClean(ctype); }
    EnabledTidy(section, cid);
    EnabledText(section, cid);
    KindAtKind(Enabled, "");
    SpanBefore(cid, t);
    EnabledAgain(section, cid, "");
  }

  lemma EnabledText(section: Section, cid: string)
    ensures PropertyText(section, cid, Enabled, "") == Header(section) + cid + ".enabled"
  {
    hide Header;
    assert "." + "enabled" == ".enabled";
    assert Header(section) + cid + "." + "enabled" + "" == Header(section) + cid + ("." + "enabled");
  }

  lemma CidIsClean(ctype: string, name: string)
    requires Words(ctype) && Words(name)
    ensures Clean(Cid(ctype, name)) && '.' !in Cid(ctype, name)
  {
    WordsAreClean(ctype);
    WordsAreClean(name);
  }

  lemma EnabledTidy(section: Section, cid: string)
    requires Clean(cid)
    ensures Tidy(Header(section) + (cid + ("." + KindText(Enabled) + "")))
  {
    hide Header, Tidy;
    CleanHeader(section);
    assert Clean("." + KindText(Enabled) + "");
    CleanIsTidy(Header(section) + (cid + ("." + KindText(Enabled) + "")));
  }

  /** Its environment variable, without a name, is `SPLUNK_DISCOVERY_RECEIVERS_<type>_ENABLED`, whatever follows. */
  lemma EnabledSpelled(section: Section, ctype: string, name: string, key: string, input: string)
    requires Words(ctype) && name == "" && !(Header(section) + ctype + "/." <= input)
    ensures ToEnvVar(Property(section, ctype, name, Enabled, key, input)) ==
      "SPLUNK_DISCOVERY_" + (if section.Receivers? then "RECEIVERS_" else "EXTENSIONS_") + ctype + "_" + "ENABLED"
  {
    hide Wordified, Header, EnvVarHeader, KindUpper;
    VariableTexts();
    WordsStay(ctype);
  }
}
