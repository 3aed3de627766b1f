/** What references to config sources and providers mean, on the strings themselves. */
module Invocations {
  import opened Strings
  import opened Expansion

  // ---------- the parts of an invocation ----------

  /** The first `c` of a text that has none before it. */
  lemma SplitAt(a: string, c: char, b: string)
    requires c !in a
    ensures IndexOf(a + [c] + b, c) == |a|
    ensures (a + [c] + b)[..|a|] == a && (a + [c] + b)[|a| + 1..] == b
  {
    assert (a + [c] + b)[..|a|] == a;
    IndexOfIs(a + [c] + b, c, |a|);
  }

  lemma NoSuch(s: string, c: char)
    requires c !in s
    ensures IndexOf(s, c) == |s| && s[..|s|] == s
  {
    assert s[..|s|] == s;
    IndexOfIs(s, c, |s|);
  }

  /** `name:selector`, with neither line break nor question mark: no parameters. */
  lemma ParsesPlain(w: World, name: string, sel: string)
    requires ':' !in name && '\n' !in sel && '?' !in sel
    ensures ParseInvocation(w, name + ":" + sel) == Invocation(Trim(name), Trim(sel), None)
  {
    hide Trim, IndexOf;
    SplitAt(name, ':', sel);
    NoSuch(sel, '?');
  }

  /** `name:selector?query`: the query is decoded as one, and what does not decode is an error. */
  lemma ParsesQuery(w: World, name: string, sel: string, q: string)
    requires ':' !in name && '\n' !in sel && '?' !in sel && '\n' !in q
    ensures ParseInvocation(w, name + ":" + (sel + "?" + q)) ==
      if w.queryParams(q).None? then BadParams else Invocation(Trim(name), Trim(sel), w.queryParams(q))
  {
    hide Trim, IndexOf;
    SplitAt(name, ':', sel + "?" + q);
    SplitAt(sel, '?', q);
  }

  /** `name:selector` and further lines: those are decoded as YAML, question marks in the selector are part of it. */
  lemma ParsesLines(w: World, name: string, sel: string, text: string)
    requires ':' !in name && '\n' !in sel
    ensures ParseInvocation(w, name + ":" + (sel + "\n" + text)) ==
      if text == "" then Invocation(Trim(name), Trim(sel), None)
      else if w.yamlParams(text).None? then BadParams
      else Invocation(Trim(name), Trim(sel), w.yamlParams(text))
  {
    hide Trim, IndexOf;
    SplitAt(name, ':', sel + "\n" + text);
    SplitAt(sel, '\n', text);
  }

  /** Without a colon there is no invocation, and only then. */
  lemma MalformedIff(w: World, s: string)
    ensures ParseInvocation(w, s).Malformed? <==> ':' !in s
  {
    if ':' !in s { NoSuch(s, ':'); }
  }

  // ---------- what is asked of sources and providers ----------

  lemma {:induction false} PlainExpands(w: World, s: string, out: string, n: nat)
    requires '$' !in s
    ensures Expand(w, s, out, n) == Done(Str(out + s), n)
    decreases |s|
  {
    hide Expand;
    if s == "" {
      EndStep(w, out, n);
      assert out + s == out;
    } else {
      LiteralStep(w, s, out, n);
      PlainExpands(w, s[1..], out + [s[0]], n);
      assert out + [s[0]] + s[1..] == out + s;
    }
  }

  /** A name or selector that is read as it stands: no spaces around it and nothing to expand. */
  predicate Plain(s: string) {
    Trim(s) == s && '$' !in s && '\n' !in s && '?' !in s
  }

  /** A source is asked for what the selector expands to, which must be text. */
  lemma AsksForExpanded(w: World, name: string, sel: string, n: nat)
    requires name in w.sources && Trim(name) == name && ':' !in name && Trim(sel) == sel && '\n' !in sel && '?' !in sel
    ensures var expanded := Expand(w, sel, "", n);
      Retrieve(w, name, name + ":" + sel, n) ==
        if expanded.Failed? then Failed(expanded.error)
        else if !expanded.value.Str? then Failed(SelectorNotString(sel))
        else
          var got := w.retrieve(expanded.count, name, expanded.value.text, None);
          if got.None? then Failed(RetrieveFailed(name)) else Done(got.value, expanded.count + 1)
  {
    hide Expand, ParseInvocation, Trim;
    ParsesPlain(w, name, sel);
    assert Retrieve(w, name, name + ":" + sel, n) == RetrieveFromSource(w, name, Invocation(name, sel, None), n);
  }

  /** A source is asked for a plain selector as it stands. */
  lemma AsksSource(w: World, name: string, sel: string, n: nat)
    requires name in w.sources && Plain(name) && ':' !in name && Plain(sel)
    ensures var got := w.retrieve(n, name, sel, None);
      Retrieve(w, name, name + ":" + sel, n) ==
        if got.None? then Failed(RetrieveFailed(name)) else Done(got.value, n + 1)
  {
    hide Expand, Trim, Retrieve;
    AsksForExpanded(w, name, sel, n);
    PlainExpands(w, sel, "", n);
    assert "" + sel == sel;
  }

  /** With a query, its parameters are resolved after the selector and handed to the source. */
  lemma AsksSourceWith(w: World, name: string, sel: string, q: string, p: Value, n: nat)
    requires name in w.sources && Plain(name) && ':' !in name && Plain(sel) && '\n' !in q && w.queryParams(q) == Some(p)
    ensures var params := Resolve(w, p, n);
      Retrieve(w, name, name + ":" + (sel + "?" + q), n) ==
        if params.Failed? then Failed(params.error) else
          var got := w.retrieve(params.count, name, sel, Some(params.value));
          if got.None? then Failed(RetrieveFailed(name)) else Done(got.value, params.count + 1)
  {
    hide Expand, ParseInvocation, Trim, Resolve;
    ParsesQuery(w, name, sel, q);
    PlainExpands(w, sel, "", n);
    assert "" + sel == sel;
    var parsed := Invocation(name, sel, Some(p));
    ResolvesParams(w, p, n);
    assert Retrieve(w, name, name + ":" + (sel + "?" + q), n) == RetrieveFromSource(w, name, parsed, n);
  }

  lemma ResolvesParams(w: World, p: Value, n: nat)
    ensures var params := Resolve(w, p, n);
      ResolveParams(w, Some(p), n) ==
        if params.Failed? then Failed(params.error) else Done(Some(params.value), params.count)
  {
    hide Resolve;
  }

  /** A provider is asked for the whole `name:selector`, nothing in which is expanded; a nil one is an error. */
  lemma AsksProvider(w: World, name: string, sel: string, n: nat)
    requires name !in w.sources && name in w.providers && ':' !in name && Trim(name) == name
    requires Trim(sel) == sel && '\n' !in sel && '?' !in sel
    ensures var got := w.provide(n, name + ":" + sel);
      Retrieve(w, name, name + ":" + sel, n) ==
        if !w.providers[name] then Failed(NilProvider(name))
        else if got.None? then Failed(RetrieveFailed(name))
        else Done(got.value, n + 1)
  {
    hide ParseInvocation, Trim;
    ParsesPlain(w, name, sel);
  }

  /** A source goes before a provider of the same name, and a name that is neither is an error. */
  lemma NobodyToAsk(w: World, name: string, invocation: string, n: nat)
    requires name !in w.sources && name !in w.providers
    ensures Retrieve(w, name, invocation, n) == Failed(UnknownSource(name))
  {
  }

  // ---------- references in a string ----------

  /** A bracketed reference is `${name:selector}`, spaces around it dropped. */
  lemma BracketedIs(name: string, sel: string, left: string, right: string, rest: string)
    requires name != "" && ':' !in name && '}' !in name && '}' !in sel
    requires '}' !in left && '}' !in right && Trim(left + (name + ":" + sel) + right) == name + ":" + sel
    ensures var inner := left + (name + ":" + sel) + right;
      RefAt("{" + inner + "}" + rest) == Ref(name + ":" + sel, |inner| + 2, name)
  {
    hide Trim, BracketedRef;
    var content := name + ":" + sel;
    var inner := left + content + right;
    assert '}' !in inner;
    BracketedAround(inner, rest, "{" + inner + "}" + rest, content, name, sel);
  }

  lemma ClosesAt(inner: string, rest: string, s: string)
    requires '}' !in inner && s == "{" + inner + "}" + rest
    ensures s != "" && s[0] == '{' && ToClosingBracket(s) == (inner, |inner| + 2)
  {
    hide IndexOf;
    assert s[1..] == inner + ['}'] + rest && s[1..|inner| + 1] == inner;
    SplitAt(inner, '}', rest);
  }

  lemma BracketedAround(inner: string, rest: string, s: string, content: string, name: string, sel: string)
    requires '}' !in inner && s == "{" + inner + "}" + rest && Trim(inner) == content
    requires name != "" && ':' !in name && content == name + ":" + sel
    ensures s != "" && s[0] == '{' && BracketedRef(s) == Ref(content, |inner| + 2, name)
  {
    hide Trim, IndexOf, ToClosingBracket;
    ClosesAt(inner, rest, s);
    SplitAt(name, ':', sel);
  }

  /** A letter or an underscore: what a name begins with that is no special variable. */
  predicate NameStart(c: char) {
    IsAlphaNum(c) && !('0' <= c <= '9')
  }

  predicate IsName(s: string) {
    s != "" && NameStart(s[0]) && forall i :: 0 <= i < |s| ==> IsAlphaNum(s[i])
  }

  predicate AllAlphaNum(s: string) {
    forall i :: 0 <= i < |s| ==> IsAlphaNum(s[i])
  }

  lemma {:induction false} SpanOf(a: string, b: string)
    requires AllAlphaNum(a) && (b == "" || !IsAlphaNum(b[0]))
    ensures AlphaNumSpan(a + b) == |a|
  {
    if a == "" {
      assert a + b == b;
    } else {
      assert (a + b)[1..] == a[1..] + b;
      SpanOf(a[1..], b);
    }
  }

  lemma PlainWidth(name: string, rest: string, s: string)
    requires IsName(name) && s == name + rest && (rest == "" || (!IsAlphaNum(rest[0]) && rest[0] != '/'))
    ensures s[0] != '{' && TokenWidth(s) == |name| && s[..|name|] == name
  {
    hide AlphaNumSpan, IsAlphaNum, IsShellSpecialVar;
    SpanOf(name, rest);
    NotSpecial(s[0]);
  }

  /** A bare reference `$name:selector` or `$type/name:selector` takes the rest of the string. */
  lemma BareIs(name: string, sel: string)
    requires IsName(name)
    ensures RefAt(name + ":" + sel) == Ref(name + ":" + sel, |name + ":" + sel|, name)
  {
    hide TokenWidth, IsName;
    var s := name + ":" + sel;
    assert s == name + (":" + sel) && s[|name|] == ':';
    PlainWidth(name, ":" + sel, s);
  }

  lemma NotSpecial(c: char)
    requires NameStart(c)
    ensures !IsShellSpecialVar(c) && c != '{'
  {
  }

  /** A slash belongs to the name exactly if a name part and a colon follow it. */
  lemma SlashWidth(name: string, part: string, rest: string, s: string)
    requires IsName(name) && AllAlphaNum(part) && (rest == "" || !IsAlphaNum(rest[0]))
    requires s == name + ("/" + (part + rest))
    ensures s[0] != '{'
    ensures TokenWidth(s) == if rest != "" && rest[0] == ':' then |name| + 1 + |part| else |name|
  {
    hide AlphaNumSpan, IsAlphaNum, IsShellSpecialVar;
    var k := |name|;
    assert !IsAlphaNum('/') by { SlashIsNone(); }
    SpanOf(name, "/" + (part + rest));
    SpanOf(part, rest);
    NotSpecial(s[0]);
    assert s[k] == '/' && s[k + 1..] == part + rest;
    assert rest != "" ==> s[k + 1 + |part|] == rest[0];
  }

  lemma SlashIsNone()
    ensures !IsAlphaNum('/')
  {
  }

  lemma BareWithTypeIs(ctype: string, name: string, sel: string)
    requires IsName(ctype) && AllAlphaNum(name)
    ensures var full := ctype + "/" + name; RefAt(full + ":" + sel) == Ref(full + ":" + sel, |full + ":" + sel|, full)
  {
    hide TokenWidth, IsName, AllAlphaNum;
    var full := ctype + "/" + name;
    var s := full + ":" + sel;
    assert s == ctype + ("/" + (name + (":" + sel)));
    SlashWidth(ctype, name, ":" + sel, s);
    assert s[|full|] == ':' && s[..|full|] == full;
  }

  /** A slash that no name and colon follow is not part of the name. */
  lemma SlashEnds(name: string, part: string, rest: string)
    requires IsName(name) && AllAlphaNum(part) && (rest == "" || (!IsAlphaNum(rest[0]) && rest[0] != ':'))
    ensures RefAt(name + "/" + part + rest) == Ref(name, |name|, "")
  {
    hide TokenWidth, IsName, AllAlphaNum, IsAlphaNum;
    var s := name + "/" + part + rest;
    assert s == name + ("/" + (part + rest));
    SlashWidth(name, part, rest, s);
    assert s[|name|] == '/' && s[..|name|] == name;
  }

  /** The compatibility rule honours a bare `$$name:selector` exactly if the selector is not empty and holds no `$`. */
  lemma BareCompatIff(name: string, sel: string)
    requires IsName(name)
    ensures CompatApplies(name + ":" + sel) <==> sel != "" && '$' !in sel
  {
    hide RefAt;
    BareIs(name, sel);
    NotSpecial(name[0]);
    assert (name + ":" + sel)[|name| + 1..] == sel;
  }

  // ---------- what becomes of them ----------

  /** What a retrieved value shows as inside other text: nothing for nil. */
  function Shown(w: World, v: Value): string {
    match v
    case Nil => ""
    case _ => w.format(v)
  }

  /** What it becomes alone: text is read as YAML if it is that, and maps get string keys. */
  function Alone(w: World, v: Value): Value {
    match v
    case Str(t) => w.stringMap(if w.yaml(t).Some? then w.yaml(t).value else Str(t))
    case Bytes(t) => w.stringMap(if w.yaml(t).Some? then w.yaml(t).value else Bytes(t))
    case _ => w.stringMap(v)
  }

  /** A name and a selector that a bracketed reference can carry as they stand. */
  predicate Bracketable(name: string, sel: string) {
    && name != "" && ':' !in name && '}' !in name && '}' !in sel && Plain(name) && Plain(sel)
    && Trim(name + ":" + sel) == name + ":" + sel
  }

  function Bracketed(name: string, sel: string): string {
    "${" + (name + ":" + sel) + "}"
  }

  lemma BracketedHead(name: string, sel: string, after: string, s: string, compat: bool)
    requires Bracketable(name, sel) && s == Bracketed(name, sel) + after
    ensures s != "" && Head(s, compat) == (Source(name, name + ":" + sel), |Bracketed(name, sel)|)
    ensures s[|Bracketed(name, sel)|..] == after
  {
    hide RefAt, Trim, Head, Plain;
    var content := name + ":" + sel;
    assert "" + content + "" == content;
    BracketedIs(name, sel, "", "", after);
    ReferenceIn(content, after, s);
    HeadReference(s, compat);
  }

  lemma ReferenceIn(content: string, after: string, s: string)
    requires s == "${" + content + "}" + after
    ensures |s| > 1 && s[0] == '$' && s[1] != '$' && s[1..] == "{" + content + "}" + after
  {
  }

  /** What text with a reference in it becomes, given what the source has. */
  function InText(w: World, before: string, name: string, got: Option<Value>, after: string, n: nat): Outcome<Value> {
    if got.None? then Failed(RetrieveFailed(name))
    else if before == "" && after == "" then Done(Alone(w, got.value), n + 1)
    else Done(Str(before + Shown(w, got.value) + after), n + 1)
  }

  /** `${name:selector}` in the middle of text without `$` is replaced by what the source has, shown as text; alone, it
      is what the source has. */
  lemma BracketedInText(w: World, before: string, name: string, sel: string, after: string, s: string, n: nat)
    requires '$' !in before && '$' !in after && name in w.sources && Bracketable(name, sel)
    requires s == before + (Bracketed(name, sel) + after)
    ensures Expand(w, s, "", n) == InText(w, before, name, w.retrieve(n, name, sel, None), after, n)
  {
    hide Expand, Retrieve, Trim, Head, Plain, Bracketed;
    var t := Bracketed(name, sel) + after;
    BracketedHead(name, sel, after, t, w.compat);
    PlainPrefix(w, before, t, "", n);
    assert "" + before == before;
    AsksSource(w, name, sel, n);
    SourceStep(w, t, name, name + ":" + sel, |Bracketed(name, sel)|, before, n);
    var got := w.retrieve(n, name, sel, None);
    if got.Some? && (before != "" || after != "") {
      PlainExpands(w, after, before + Shown(w, got.value), n + 1);
    }
  }

  lemma {:induction false} PlainPrefix(w: World, before: string, s: string, out: string, n: nat)
    requires '$' !in before && s != ""
    ensures Expand(w, before + s, out, n) == Expand(w, s, out + before, n)
    decreases |before|
  {
    hide Expand;
    if before == "" {
      assert before + s == s && out + before == out;
    } else {
      var t := before + s;
      LiteralStep(w, t, out, n);
      assert t[1..] == before[1..] + s && t[0] == before[0];
      PlainPrefix(w, before[1..], s, out + [before[0]], n);
      assert out + [before[0]] + before[1..] == out + before;
    }
  }

  /** `$name:selector` takes everything to the end of the string. */
  lemma BareInText(w: World, before: string, name: string, sel: string, s: string, n: nat)
    requires '$' !in before && name in w.sources && Plain(name) && IsName(name) && Plain(sel)
    requires s == before + ("$" + (name + ":" + sel))
    ensures Expand(w, s, "", n) == InText(w, before, name, w.retrieve(n, name, sel, None), "", n)
  {
    hide Expand, Retrieve, Trim, Head, Plain, RefAt;
    var content := name + ":" + sel;
    var t := "$" + content;
    assert t[1..] == content && t[|content| + 1..] == "";
    BareIs(name, sel);
    NotDollar(name[0]);
    NoColon(name);
    HeadReference(t, w.compat);
    PlainPrefix(w, before, t, "", n);
    assert "" + before == before;
    AsksSource(w, name, sel, n);
    SourceStep(w, t, name, content, |content| + 1, before, n);
    var got := w.retrieve(n, name, sel, None);
    if got.Some? && before != "" {
      PlainExpands(w, "", before + Shown(w, got.value), n + 1);
      assert before + Shown(w, got.value) + "" == before + Shown(w, got.value);
    }
  }

  lemma NotDollar(c: char)
    requires NameStart(c)
    ensures c != '$'
  {
  }

  lemma NoColon(name: string)
    requires AllAlphaNum(name)
    ensures ':' !in name
  {
  }

  // ---------- trimming ----------

  predicate Blank(s: string) {
    forall i :: 0 <= i < |s| ==> s[i] == ' '
  }

  lemma {:induction false} TrimsLeft(a: string, s: string)
    requires Blank(a) && (s == "" || s[0] != ' ')
    ensures TrimLeft(a + s) == s
  {
    if a == "" {
      assert a + s == s;
    } else {
      assert (a + s)[1..] == a[1..] + s;
      TrimsLeft(a[1..], s);
    }
  }

  lemma {:induction false} TrimsRight(s: string, a: string)
    requires Blank(a) && (s == "" || s[|s| - 1] != ' ')
    ensures TrimRight(s + a) == s
    decreases |a|
  {
    if a == "" {
      assert s + a == s;
    } else {
      assert (s + a)[..|s + a| - 1] == s + a[..|a| - 1];
      TrimsRight(s, a[..|a| - 1]);
    }
  }

  /** Exactly the spaces around a text are dropped. */
  lemma TrimIs(left: string, s: string, right: string)
    requires Blank(left) && Blank(right) && s != "" && s[0] != ' ' && s[|s| - 1] != ' '
    ensures Trim(left + s + right) == s
  {
    hide TrimLeft, TrimRight;
    assert left + s + right == left + (s + right);
    TrimsLeft(left, s + right);
    TrimsRight(s, right);
  }

  // ---------- nested values ----------

  /** Strings are expanded; lists and maps keep their shape and keys, and anything else is left alone. */
  lemma ResolvesNode(w: World, v: Value, n: nat)
    ensures v.Str? ==> Resolve(w, v, n) == Expand(w, v.text, "", n)
    ensures v.List? || v.Dict? ==>
      var all := ResolveAll(w, v.elems, n);
      Resolve(w, v, n) == if all.Failed? then Failed(all.error) else Done(v.(elems := all.value), all.count)
    ensures v.Nil? || v.Bytes? || v.Scalar? ==> Resolve(w, v, n) == Done(v, n)
  {
    hide ResolveAll, Expand;
  }

  /** Elements are resolved in order, each after the retrievals of those before it. */
  lemma {:induction false} ResolvesInOrder(w: World, vs: seq<Value>, n: nat) returns (counts: seq<nat>)
    requires ResolveAll(w, vs, n).Done?
    ensures |counts| == |vs| + 1 && counts[0] == n && counts[|vs|] == ResolveAll(w, vs, n).count
    ensures forall i :: 0 <= i < |vs| ==>
      Resolve(w, vs[i], counts[i]) == Done(ResolveAll(w, vs, n).value[i], counts[i + 1])
    decreases |vs|
  {
    hide Resolve;
    if vs == [] {
      counts := [n];
    } else {
      var first := Resolve(w, vs[0], n);
      var rest := ResolvesInOrder(w, vs[1..], first.count);
      counts := [n] + rest;
      forall i | 0 <= i < |vs|
        ensures Resolve(w, vs[i], counts[i]) == Done(ResolveAll(w, vs, n).value[i], counts[i + 1])
      {
        if i > 0 { assert vs[i] == vs[1..][i - 1] && counts[i] == rest[i - 1]; }
      }
    }
  }

  /** The first element that fails is the error. */
  lemma {:induction false} FailsInOrder(w: World, vs: seq<Value>, n: nat) returns (k: nat, counts: seq<nat>)
    requires ResolveAll(w, vs, n).Failed?
    ensures k < |vs| && |counts| == k + 1 && counts[0] == n
    ensures forall i :: 0 <= i < k ==>
      Resolve(w, vs[i], counts[i]).Done? && Resolve(w, vs[i], counts[i]).count == counts[i + 1]
    ensures Resolve(w, vs[k], counts[k]) == Failed(ResolveAll(w, vs, n).error)
    decreases |vs|
  {
    hide Resolve;
    var first := Resolve(w, vs[0], n);
    if first.Failed? {
      k, counts := 0, [n];
    } else {
      var j, rest := FailsInOrder(w, vs[1..], first.count);
      k, counts := j + 1, [n] + rest;
      forall i | 0 <= i < k
        ensures Resolve(w, vs[i], counts[i]).Done? && Resolve(w, vs[i], counts[i]).count == counts[i + 1]
      {
        if i > 0 { assert vs[i] == vs[1..][i - 1] && counts[i] == rest[i - 1]; }
      }
    }
  }
}
