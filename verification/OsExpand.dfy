/** Where the expander agrees with Go's `os.Expand`, from which its scan was derived, and when doubling `$` escapes. */
module OsExpand {
  import opened Strings
  import opened Expansion

  // ---------- os.Expand ----------

  /** `getShellName` of Go's os package: the variable name at the front of `s` and the characters it takes. */
  function ShellName(s: string): (r: (string, nat))
    requires s != ""
    ensures r.1 <= |s|
  {
    if s[0] == '{' then
      if |s| > 2 && IsShellSpecialVar(s[1]) && s[2] == '}' then (s[1..2], 3) else
        var k := IndexOf(s[1..], '}') + 1;
        if k == |s| then ("", 1) else if k == 1 then ("", 2) else (s[1..k], k + 1)
    else if IsShellSpecialVar(s[0]) then (s[..1], 1)
    else (s[..AlphaNumSpan(s)], AlphaNumSpan(s))
  }

  /** Go's `os.Expand`. */
  function GoExpand(s: string, mapping: string -> string): string {
    if s == "" then ""
    else if s[0] != '$' || |s| == 1 then [s[0]] + GoExpand(s[1..], mapping)
    else
      var (name, k) := ShellName(s[1..]);
      GoPiece(name, k, mapping) + GoExpand(s[1 + k..], mapping)
  }

  function GoPiece(name: string, k: nat, mapping: string -> string): string {
    if name == "" && k > 0 then "" else if name == "" then "$" else mapping(name)
  }

  /** The lookup the expander performs: spaces around the name are allowed, `$` stands for itself. */
  function Lookup(w: World): string -> string {
    name => var t := Trim(name); if t == "" then "" else if t == "$" then "$" else w.env(t)
  }

  lemma NoSourceWithoutColon(t: string)
    requires t != "" && ':' !in t
    ensures RefAt(t).source == ""
    ensures !CompatApplies(t)
  {
    hide TokenWidth;
  }

  lemma BracketAgrees(t: string)
    requires t != "" && t[0] == '{' && ':' !in t
    ensures RefAt(t).width == ShellName(t).1 > 0 && RefAt(t).content == Trim(ShellName(t).0)
  {
    hide Trim;
    if |t| > 2 && t[2] == '}' && t[1] != '}' { IndexOfIs(t[1..], '}', 1); }
    assert Trim("") == "" by { TrimEmpty(); }
  }

  lemma TrimEmpty()
    ensures Trim("") == ""
  {
  }

  lemma BareAgrees(t: string)
    requires t != "" && t[0] != '{' && ':' !in t
    ensures RefAt(t).width == ShellName(t).1 && RefAt(t).content == ShellName(t).0
    ensures Trim(ShellName(t).0) == ShellName(t).0
  {
    hide Trim;
    assert ' ' !in ShellName(t).0;
  }

  /** Without a `:`, what follows a `$` is cut and replaced the same way, in spite of the extra `/` handling. */
  lemma RefAgrees(w: World, t: string)
    requires t != "" && ':' !in t
    ensures RefAt(t).width == ShellName(t).1
    ensures ExpandEnv(w, RefAt(t).content, RefAt(t).width) == GoPiece(ShellName(t).0, ShellName(t).1, Lookup(w))
  {
    hide RefAt, ShellName, Trim;
    TrimEmpty();
    if t[0] == '{' {
      BracketAgrees(t);
    } else {
      BareAgrees(t);
    }
  }

  lemma GoLiteral(s: string, mapping: string -> string)
    requires s == "" || s[0] != '$' || |s| == 1
    ensures GoExpand(s, mapping) == if s == "" then "" else [s[0]] + GoExpand(s[1..], mapping)
  {
  }

  lemma GoStep(s: string, mapping: string -> string)
    requires |s| > 1 && s[0] == '$'
    ensures var (name, k) := ShellName(s[1..]);
      GoExpand(s, mapping) == GoPiece(name, k, mapping) + GoExpand(s[1 + k..], mapping)
  {
    hide ShellName;
  }

  /** A string without `:` never reaches a config source, and is expanded exactly as `os.Expand` would, whether or not
      `$$` compatibility is on. */
  lemma {:induction false} ColonFreeIsOsExpand(w: World, s: string, out: string, n: nat)
    requires ':' !in s
    ensures Expand(w, s, out, n) == Done(Str(out + GoExpand(s, Lookup(w))), n)
    decreases |s|
  {
    hide *;
    if s == "" {
      GoLiteral(s, Lookup(w));
      EndStep(w, out, n);
      assert out + "" == out;
    } else if s[0] != '$' || |s| == 1 {
      GoLiteral(s, Lookup(w));
      LiteralStep(w, s, out, n);
      ColonFreeIsOsExpand(w, s[1..], out + [s[0]], n);
      assert out + [s[0]] + GoExpand(s[1..], Lookup(w)) == out + ([s[0]] + GoExpand(s[1..], Lookup(w)));
    } else {
      var k := ShellName(s[1..]).1;
      var piece := GoPiece(ShellName(s[1..]).0, k, Lookup(w));
      ReferenceStep(w, s, out, n);
      GoStep(s, Lookup(w));
      ColonFreeIsOsExpand(w, s[1 + k..], out + piece, n);
      assert out + piece + GoExpand(s[1 + k..], Lookup(w)) == out + (piece + GoExpand(s[1 + k..], Lookup(w)));
    }
  }

  lemma ReferenceStep(w: World, s: string, out: string, n: nat)
    requires |s| > 1 && s[0] == '$' && ':' !in s
    ensures var (name, k) := ShellName(s[1..]);
      Expand(w, s, out, n) == Expand(w, s[1 + k..], out + GoPiece(name, k, Lookup(w)), n)
  {
    hide Head, RefAt, CompatApplies, ShellName, Lookup, Expand, GoPiece, ExpandEnv;
    if s[1] != '$' {
      HeadReference(s, w.compat);
      NoSourceWithoutColon(s[1..]);
      RefAgrees(w, s[1..]);
      EnvVarStep(w, s, RefAt(s[1..]).content, RefAt(s[1..]).width, 1 + RefAt(s[1..]).width, out, n);
    } else {
      assert s[..2] == "$$";
      HeadDouble(s, w.compat);
      if s[2..] != "" { NoSourceWithoutColon(s[2..]); } else { CompatNeedsText(); }
      DollarPiece(w, s[1..]);
      EnvVarStep(w, s, "$", 1, 2, out, n);
    }
  }

  lemma CompatNeedsText()
    ensures !CompatApplies("")
  {
  }

  lemma DollarPiece(w: World, t: string)
    requires t != "" && t[0] == '$'
    ensures ShellName(t).1 == 1 && GoPiece(ShellName(t).0, 1, Lookup(w)) == "$" == ExpandEnv(w, "$", 1)
  {
    hide Trim, Expand;
    assert t[..1] == "$" && IsShellSpecialVar('$');
    hide IsShellSpecialVar, IsAlphaNum, AlphaNumSpan;
    assert Trim("$") == "$";
    assert Lookup(w)("$") == "$";
  }

  // ---------- escaping ----------

  /** Doubles every `$`. */
  function Escape(s: string): (r: string)
    ensures s != "" ==> |r| > 0 && r[0] == s[0]
    ensures ':' !in s ==> ':' !in r
  {
    if s == "" then "" else (if s[0] == '$' then "$$" else [s[0]]) + Escape(s[1..])
  }

  /** No `$` of `s`, once doubled, would be taken by the back-compatibility rule. */
  ghost predicate EscapeSafe(s: string, compat: bool) {
    compat ==> forall p :: 0 <= p < |s| && s[p] == '$' ==> !CompatApplies(Escape(s[p + 1..]))
  }

  lemma EscapeSafeTail(s: string, compat: bool)
    requires s != ""
    ensures EscapeSafe(s, compat) <==>
      EscapeSafe(s[1..], compat) && !(compat && s[0] == '$' && CompatApplies(Escape(s[1..])))
  {
    assert forall p :: 1 <= p < |s| ==> s[p] == s[1..][p - 1] && s[p + 1..] == s[1..][p..];
    if EscapeSafe(s, compat) && compat {
      forall p | 0 <= p < |s[1..]| && s[1..][p] == '$' ensures !CompatApplies(Escape(s[1..][p + 1..])) {
        assert s[p + 1] == '$' && s[p + 1 + 1..] == s[1..][p + 1..];
      }
    }
  }

  /** Doubling every `$` is an escape exactly when no doubled `$` starts a reference that the back-compatibility rule
      still honours: then the expander gives the text back and retrieves nothing; otherwise it fails or retrieves. */
  lemma {:induction false} EscapeRoundTrip(w: World, s: string, out: string, n: nat)
    ensures Expand(w, Escape(s), out, n) == Done(Str(out + s), n) <==> EscapeSafe(s, w.compat)
    decreases |s|
  {
    hide *;
    EscapeStep(s);
    if s == "" {
      EndStep(w, out, n);
      EscapeSafeEmpty(w.compat);
      assert out + s == out;
    } else {
      var e, tail := Escape(s), Escape(s[1..]);
      EscapeSafeTail(s, w.compat);
      assert out + s == out + [s[0]] + s[1..];
      if s[0] != '$' {
        LiteralStep(w, e, out, n);
        EscapeRoundTrip(w, s[1..], out + [s[0]], n);
      } else {
        HeadDouble(e, w.compat);
        if w.compat && CompatApplies(tail) {
          CompatRetrieves(w, e, tail, out, n);
        } else {
          EnvVarStep(w, e, "$", 1, 2, out, n);
          DollarPiece(w, "$");
          EscapeRoundTrip(w, s[1..], out + [s[0]], n);
        }
      }
    }
  }

  lemma EscapeStep(s: string)
    ensures s == "" ==> Escape(s) == ""
    ensures s != "" && s[0] != '$' ==> Escape(s)[1..] == Escape(s[1..])
    ensures s != "" && s[0] == '$' ==> |Escape(s)| > 1 && Escape(s)[..2] == "$$" && Escape(s)[2..] == Escape(s[1..])
  {
  }

  lemma EscapeSafeEmpty(compat: bool)
    ensures EscapeSafe("", compat)
  {
  }

  /** A doubled reference under the compatibility rule goes to a config source: it fails or retrieves. */
  lemma CompatRetrieves(w: World, s: string, t: string, out: string, n: nat)
    requires |s| > 1 && s[..2] == "$$" && t == s[2..] && w.compat && CompatApplies(t)
    ensures Expand(w, s, out, n).Failed? || Expand(w, s, out, n).count > n
  {
    hide Head, RefAt, Expand, Retrieve, Normalize, Display;
    HeadDouble(s, w.compat);
    SourceStep(w, s, RefAt(t).source, RefAt(t).content, 2 + RefAt(t).width, out, n);
  }

  /** With compatibility off every string can be escaped; with it on, every string without `:` can. */
  lemma EscapeAlwaysWorks(w: World, s: string, n: nat)
    requires !w.compat || ':' !in s
    ensures Expand(w, Escape(s), "", n) == Done(Str(s), n)
  {
    if w.compat {
      forall p | 0 <= p < |s| && s[p] == '$' ensures !CompatApplies(Escape(s[p + 1..])) {
        var t := Escape(s[p + 1..]);
        if t != "" { NoSourceWithoutColon(t); }
      }
    }
    EscapeRoundTrip(w, s, "", n);
    assert "" + s == s;
  }

  /** Where compatibility does apply, `$$ref` means exactly what `$ref` means. */
  lemma CompatSameAsSingle(w: World, t: string, out: string, n: nat)
    requires w.compat && CompatApplies(t) && t[0] != '$'
    ensures Expand(w, "$$" + t, out, n) == Expand(w, "$" + t, out, n)
  {
    hide Head, RefAt, Expand, Retrieve, Normalize, Display;
    var a, b := "$$" + t, "$" + t;
    var r := RefAt(t);
    assert a[2..] == t && b[1..] == t && a[..2] == "$$";
    assert a[2 + r.width..] == t[r.width..] && b[1 + r.width..] == t[r.width..];
    HeadDouble(a, w.compat);
    HeadReference(b, w.compat);
    SourceStep(w, a, r.source, r.content, 2 + r.width, out, n);
    SourceStep(w, b, r.source, r.content, 1 + r.width, out, n);
  }

  lemma {:induction false} EscapeAppend(a: string, b: string)
    ensures Escape(a + b) == Escape(a) + Escape(b)
  {
    if a == "" {
      assert a + b == b;
    } else {
      assert (a + b)[1..] == a[1..] + b;
      EscapeAppend(a[1..], b);
    }
  }

  lemma {:induction false} EscapeKeepsOut(s: string, c: char)
    requires c !in s && c != '$'
    ensures c !in Escape(s)
  {
    if s != "" { EscapeKeepsOut(s[1..], c); }
  }

  /** A bracketed reference names a source exactly if its text, trimmed, has a `:` after its first character. */
  lemma BracketedSource(inner: string)
    requires '}' !in inner
    ensures var content := Trim(inner);
      CompatApplies("{" + inner + "}") <==> 0 < IndexOf(content, ':') < |content|
  {
    hide IndexOf, Trim;
    var t := "{" + inner + "}";
    assert t[1..] == inner + "}" && t[1..][..|inner|] == inner == t[1..|inner| + 1];
    IndexOfIs(t[1..], '}', |inner|);
    assert ToClosingBracket(t) == (inner, |t|);
  }

  /** Doubling does not escape any bracketed config source `${name:selector}` while compatibility is on: the text
      between the brackets may hold anything but a `}` as long as, doubled and trimmed, it still has a name before its
      `:`. */
  lemma EscapeCanFail(w: World, inner: string, n: nat)
    requires w.compat && '}' !in inner
    requires 0 < IndexOf(Trim(Escape(inner)), ':') < |Trim(Escape(inner))|
    ensures Expand(w, Escape("${" + inner + "}"), "", n) != Done(Str("${" + inner + "}"), n)
  {
    hide *;
    var s, t := "${" + inner + "}", "{" + inner + "}";
    assert s[0] == '$' && s[1..] == t;
    EscapeBrackets(inner);
    EscapeKeepsOut(inner, '}');
    BracketedSource(Escape(inner));
    CompatDefeats(w, s, n);
  }

  lemma EscapeBrackets(inner: string)
    ensures Escape("{" + inner + "}") == "{" + Escape(inner) + "}"
  {
    EscapeAppend("{" + inner, "}");
    EscapeAppend("{", inner);
    assert Escape("{") == "{" && Escape("}") == "}";
  }

  lemma CompatDefeats(w: World, s: string, n: nat)
    requires w.compat && s != "" && s[0] == '$' && CompatApplies(Escape(s[1..]))
    ensures Expand(w, Escape(s), "", n) != Done(Str(s), n)
  {
    hide *;
    assert "" + s == s;
    EscapeRoundTrip(w, s, "", n);
    EscapeSafeTail(s, w.compat);
  }
}
