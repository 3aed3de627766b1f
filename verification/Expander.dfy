/** The scanning code of internal/configsource/source.go: index loops over the string, an output buffer and a list
    of close functions. Each method is proved against `Expansion`. */
module Expander {
  import opened Strings
  import opened Expansion
  import opened CloseFuncs

  method ScanToClosingBracket(s: string) returns (content: string, consumed: nat)
    requires s != ""
    ensures (content, consumed) == ToClosingBracket(s)
  {
    var i := 1;
    while i < |s|
      invariant 1 <= i <= |s|
      invariant '}' !in s[1..][..i - 1]
    {
      if s[i] == '}' {
        IndexOfIs(s[1..], '}', i - 1);
        if i == 1 { return "", 2; }
        return s[1..i], i + 1;
      }
      i := i + 1;
    }
    IndexOfIs(s[1..], '}', |s| - 1);
    return "", 1;
  }

  lemma SpanIs(s: string, k: nat)
    requires k <= |s|
    requires forall i :: 0 <= i < k ==> IsAlphaNum(s[i])
    requires k < |s| ==> !IsAlphaNum(s[k])
    ensures AlphaNumSpan(s) == k
  {
  }

  method GetTokenName(s: string) returns (name: string, consumed: nat)
    ensures consumed == TokenWidth(s) && name == s[..consumed]
  {
    assert !IsAlphaNum('/');
    hide IsAlphaNum, AlphaNumSpan, IsShellSpecialVar;
    if |s| > 0 && IsShellSpecialVar(s[0]) { return s[..1], 1; }
    var i := 0;
    var firstNameSep := -1;
    while i < |s| && (IsAlphaNum(s[i]) || (s[i] == '/' && firstNameSep == -1))
      invariant 0 <= i <= |s|
      invariant -1 <= firstNameSep < i
      invariant firstNameSep >= 0 ==> s[firstNameSep] == '/'
      invariant forall k :: 0 <= k < i && k != firstNameSep ==> IsAlphaNum(s[k])
    {
      if !IsAlphaNum(s[i]) { firstNameSep := i; }
      i := i + 1;
    }
    if firstNameSep == -1 {
      SpanIs(s, i);
    } else {
      SpanIs(s, firstNameSep);
      SpanIs(s[firstNameSep + 1..], i - firstNameSep - 1);
    }
    if firstNameSep != -1 && (i >= |s| || s[i] != ':') {
      return s[..firstNameSep], firstNameSep;
    }
    return s[..i], i;
  }

  method GetBracketedExpandableContent(s: string, i: nat) returns (r: Ref)
    requires i < |s|
    ensures r == BracketedRef(s[i..])
  {
    var inner, consumed := ScanToClosingBracket(s[i..]);
    var content := Trim(inner);
    var delim := IndexOf(content, ':');
    var source := "";
    if |content| > 1 && delim < |content| { source := content[..delim]; }
    r := Ref(content, consumed, source);
  }

  method GetBareExpandableContent(s: string, i: nat) returns (r: Ref)
    requires i < |s|
    ensures r == BareRef(s[i..])
  {
    var name, consumed := GetTokenName(s[i..]);
    r := Ref(name, consumed, "");
    if i + consumed < |s| && s[i + consumed] == ':' {
      r := Ref(s[i..], |s[i..]|, name);
    }
  }

  /** The reference that starts at the `$` at `j`; its width counts from the character after that `$`. */
  method ReferenceAt(s: string, j: nat, compat: bool) returns (r: Ref)
    requires j + 1 < |s| && s[j] == '$'
    ensures Head(s[j..], compat) ==
      (if r.source == "" then EnvVar(r.content, r.width) else Source(r.source, r.content), 1 + r.width)
    ensures |r.content| < |s|
    ensures r.source != "" ==> |r.content| < |s| - j
  {
    hide BracketedRef, BareRef;
    if s[j + 1] == '$' {
      var required := false;
      r := Ref("$", 1, "");
      if compat && |s[j + 1..]| > 2 {
        assert s[j..][2..] == s[j + 2..];
        var doubled := Ref("", 0, "");
        if s[j + 2] == '{' {
          doubled := GetBracketedExpandableContent(s, j + 2);
          if doubled.source != "" { required := true; }
        } else {
          doubled := GetBareExpandableContent(s, j + 2);
          if doubled.source != "" && |doubled.content| > |doubled.source| + 1 {
            required := '$' !in doubled.content[|doubled.source| + 1..];
          }
        }
        if required { r := Ref(doubled.content, doubled.width + 1, doubled.source); }
      }
    } else {
      assert s[j..][1..] == s[j + 1..];
      if s[j + 1] == '{' {
        r := GetBracketedExpandableContent(s, j + 1);
      } else {
        r := GetBareExpandableContent(s, j + 1);
      }
    }
  }

  /** Expands the reference at `j` into the buffer, or ends the scan: on an error, or when a source consumes the whole
      string and its value is the result as it is. */
  method ExpandReference(w: World, s: string, j: nat, r: Ref, buf: string, closeFuncs: seq<Close>, n: nat, count: nat)
    returns (ended: bool, result: Outcome<Value>, close: Close, more: string, moreFuncs: seq<Close>)
    requires j + 1 + r.width <= |s| && AllClose(closeFuncs, n, count)
    requires Head(s[j..], w.compat) ==
      (if r.source == "" then EnvVar(r.content, r.width) else Source(r.source, r.content), 1 + r.width)
    requires |r.content| < |s|
    ensures ended ==> result == Expand(w, s[j..], buf, count)
    ensures ended ==> (result.Done? ==> Closes(close, n, result.count)) && (result.Failed? ==> close == NoClose)
    ensures !ended ==> result.Done? && AllClose(moreFuncs, n, result.count)
    ensures !ended ==> Expand(w, s[j + 1 + r.width..], more, result.count) == Expand(w, s[j..], buf, count)
    decreases |s|, 0, 0
  {
    hide *;
    ended, result, close, more, moreFuncs := false, Done(Nil, count), NoClose, buf, closeFuncs;
    assert s[j..][1 + r.width..] == s[j + 1 + r.width..];
    if r.source == "" {
      EnvVarStep(w, s[j..], r.content, r.width, 1 + r.width, buf, count);
      more := buf + ExpandEnv(w, r.content, r.width);
    } else {
      SourceStep(w, s[j..], r.source, r.content, 1 + r.width, buf, count);
      var closeFunc;
      result, closeFunc := RetrieveConfigSourceData(w, r.source, r.content, count);
      if result.Failed? { return true, result, NoClose, buf, closeFuncs; }
      CollectCloses(closeFuncs, closeFunc, n, count, result.count);
      moreFuncs := Collect(closeFuncs, closeFunc);
      var consumedAll := j + r.width + 1 == |s|;
      if consumedAll && |buf| == 0 {
        MergeCloses(moreFuncs, n, result.count);
        return true, Done(Normalize(w, result.value), result.count), MergeCloseFuncs(moreFuncs), buf, moreFuncs;
      }
      more := buf + Display(w, result.value);
    }
  }

  lemma OneMore(buf: string, s: string, i: nat, j: nat)
    requires i <= j < |s|
    ensures buf + s[i..j] + [s[j]] == buf + s[i..j + 1]
  {
  }

  /** The scan: `i` is where the text not yet copied starts, `j` the character looked at, `r.width` the characters a
      reference takes. It computes exactly the token-by-token expansion, and on success the close function covers
      exactly the handles retrieved meanwhile. */
  method ResolveStringValue(w: World, s: string, n: nat) returns (result: Outcome<Value>, close: Close)
    ensures result == Expand(w, s, "", n)
    ensures result.Done? ==> Closes(close, n, result.count)
    ensures result.Failed? ==> close == NoClose
    decreases |s|, 0
  {
    hide *;
    NothingCloses(n);
    var closeFuncs: seq<Close> := [];
    var buf, started := "", false;
    var count: nat, i, j := n, 0, 0;
    ghost var goal, out := Expand(w, s, "", n), "";
    assert s[0..] == s;
    while j < |s|
      invariant 0 <= i <= j <= |s|
      invariant !started ==> i == 0 && buf == ""
      invariant out == buf + s[i..j]
      invariant Expand(w, s[j..], out, count) == goal
      invariant AllClose(closeFuncs, n, count)
    {
      if s[j] == '$' && j + 1 < |s| {
        started := true;
        buf := buf + s[i..j];
        var r := ReferenceAt(s, j, w.compat);
        var ended;
        ended, result, close, buf, closeFuncs := ExpandReference(w, s, j, r, buf, closeFuncs, n, count);
        if ended { return; }
        count := result.count;
        j := j + r.width;
        i := j + 1;
        assert s[i..i] == "" && buf + "" == buf;
        out := buf;
      } else {
        assert s[j..][1..] == s[j + 1..];
        LiteralStep(w, s[j..], out, count);
        OneMore(buf, s, i, j);
        out := out + [s[j]];
      }
      j := j + 1;
    }
    assert s[j..] == "" && s[i..j] == s[i..];
    EndStep(w, out, count);
    MergeCloses(closeFuncs, n, count);
    if !started {
      assert out == s;
      return Done(Str(s), count), MergeCloseFuncs(closeFuncs);
    }
    return Done(Str(buf + s[i..]), count), MergeCloseFuncs(closeFuncs);
  }

  method RetrieveConfigSourceData(w: World, name: string, invocation: string, n: nat)
    returns (result: Outcome<Value>, close: Close)
    ensures result == Retrieve(w, name, invocation, n)
    ensures result.Done? ==> Closes(close, n, result.count)
    ensures result.Failed? ==> close == NoClose
    decreases |invocation|, 0
  {
    hide ParseInvocation, RetrieveFromSource, RetrieveFromProvider, Closes;
    if name !in w.sources && name !in w.providers { return Failed(UnknownSource(name)), NoClose; }
    var parsed := ParseInvocation(w, invocation);
    if parsed.Malformed? { return Failed(InvalidSyntax(invocation)), NoClose; }
    if parsed.BadParams? { return Failed(InvalidParams(invocation)), NoClose; }
    if name !in w.sources {
      result := RetrieveFromProvider(w, w.providers[name], parsed, n);
      close := if result.Done? then Handle(n) else NoClose;
      ProviderHandle(w, w.providers[name], parsed, n);
    } else {
      result, close := RetrieveExpanded(w, name, parsed, n);
    }
  }

  lemma HandleCloses(n: nat)
    ensures Closes(Handle(n), n, n + 1)
  {
  }

  lemma ProviderHandle(w: World, live: bool, parsed: Invocation, n: nat)
    requires parsed.Invocation?
    ensures var r := RetrieveFromProvider(w, live, parsed, n); r.Done? ==> Closes(Handle(n), n, r.count)
  {
  }

  method RetrieveExpanded(w: World, name: string, parsed: Invocation, n: nat)
    returns (result: Outcome<Value>, close: Close)
    requires parsed.Invocation?
    ensures result == RetrieveFromSource(w, name, parsed, n)
    ensures result.Done? ==> Closes(close, n, result.count)
    ensures result.Failed? ==> close == NoClose
    decreases MaxText(parsed), 3
  {
    hide Expand, ResolveParams, Closes, AllClose, Collect, MergeCloseFuncs, MaxText;
    NothingCloses(n);
    var expanded, closeFunc := ResolveStringValue(w, parsed.selector, n);
    if expanded.Failed? { return Failed(expanded.error), NoClose; }
    if !expanded.value.Str? { return Failed(SelectorNotString(parsed.selector)), NoClose; }
    CollectCloses([], closeFunc, n, n, expanded.count);
    var closeFuncs := Collect([], closeFunc);
    var params, paramsClose := ResolveParameters(w, parsed.params, expanded.count);
    if params.Failed? { return Failed(params.error), NoClose; }
    CollectCloses(closeFuncs, paramsClose, n, expanded.count, params.count);
    closeFuncs := Collect(closeFuncs, paramsClose);
    var got := w.retrieve(params.count, name, expanded.value.text, params.value);
    if got.None? { return Failed(RetrieveFailed(parsed.name)), NoClose; }
    HandleCloses(params.count);
    CollectCloses(closeFuncs, Handle(params.count), n, params.count, params.count + 1);
    closeFuncs := Collect(closeFuncs, Handle(params.count));
    MergeCloses(closeFuncs, n, params.count + 1);
    return Done(got.value, params.count + 1), MergeCloseFuncs(closeFuncs);
  }

  method ResolveParameters(w: World, params: Option<Value>, n: nat)
    returns (result: Outcome<Option<Value>>, close: Close)
    ensures result == ResolveParams(w, params, n)
    ensures result.Done? ==> Closes(close, n, result.count)
    ensures result.Failed? ==> close == NoClose
    decreases if params.None? then 0 else MaxLeaf(params.value), 2
  {
    if params.None? { return Done(None, n), NoClose; }
    var r;
    r, close := ResolveConfigValue(w, params.value, n);
    result := if r.Failed? then Failed(r.error) else Done(Some(r.value), r.count);
  }

  method ResolveConfigValue(w: World, v: Value, n: nat) returns (result: Outcome<Value>, close: Close)
    ensures result == Resolve(w, v, n)
    ensures result.Done? ==> Closes(close, n, result.count)
    ensures result.Failed? ==> close == NoClose
    decreases MaxLeaf(v), 1, v, 1
  {
    match v
    case Str(t) => result, close := ResolveStringValue(w, t, n);
    case List(es) =>
      var r, c := ResolveElements(w, es, n);
      close := c;
      result := if r.Failed? then Failed(r.error) else Done(List(r.value), r.count);
    case Dict(keys, es) =>
      var r, c := ResolveElements(w, es, n);
      close := c;
      result := if r.Failed? then Failed(r.error) else Done(Dict(keys, r.value), r.count);
    case _ => result, close := Done(v, n), NoClose;
  }

  function Prepend(front: seq<Value>, r: Outcome<seq<Value>>): Outcome<seq<Value>> {
    match r
    case Failed(_) => r
    case Done(rest, count) => Done(front + rest, count)
  }

  lemma PrependStep(w: World, front: seq<Value>, vs: seq<Value>, n: nat)
    requires vs != [] && Resolve(w, vs[0], n).Done?
    ensures Prepend(front, ResolveAll(w, vs, n)) ==
      Prepend(front + [Resolve(w, vs[0], n).value], ResolveAll(w, vs[1..], Resolve(w, vs[0], n).count))
  {
    var rest := ResolveAll(w, vs[1..], Resolve(w, vs[0], n).count);
    if rest.Done? {
      var v := Resolve(w, vs[0], n).value;
      assert front + ([v] + rest.value) == front + [v] + rest.value;
    }
  }

  /** The loop over the elements of a list, the entries of a map, or the keys of a whole configuration. */
  method ResolveElements(w: World, vs: seq<Value>, n: nat) returns (result: Outcome<seq<Value>>, close: Close)
    ensures result == ResolveAll(w, vs, n)
    ensures result.Done? ==> Closes(close, n, result.count)
    ensures result.Failed? ==> close == NoClose
    decreases MaxLeaves(vs), 1, vs, 0
  {
    var closeFuncs: seq<Close> := [];
    var done: seq<Value>, count: nat := [], n;
    assert vs[0..] == vs;
    ghost var goal := ResolveAll(w, vs, n);
    assert goal.Done? ==> [] + goal.value == goal.value;
    for i := 0 to |vs|
      invariant ResolveAll(w, vs, n) == Prepend(done, ResolveAll(w, vs[i..], count))
      invariant AllClose(closeFuncs, n, count)
    {
      MaxLeafOfElement(vs, i);
      var r, closeFunc := ResolveConfigValue(w, vs[i], count);
      if r.Failed? { return Failed(r.error), NoClose; }
      CollectCloses(closeFuncs, closeFunc, n, count, r.count);
      closeFuncs := Collect(closeFuncs, closeFunc);
      assert vs[i..][1..] == vs[i + 1..];
      PrependStep(w, done, vs[i..], count);
      done, count := done + [r.value], r.count;
    }
    assert vs[|vs|..] == [];
    assert ResolveAll(w, vs[|vs|..], count) == Done([], count);
    assert done + [] == done;
    MergeCloses(closeFuncs, n, count);
    return Done(done, count), MergeCloseFuncs(closeFuncs);
  }

  lemma {:induction false} MaxLeafOfElement(vs: seq<Value>, i: nat)
    requires i < |vs|
    ensures MaxLeaf(vs[i]) <= MaxLeaves(vs)
  {
    if i > 0 { MaxLeafOfElement(vs[1..], i - 1); }
  }

  /** Resolves a whole configuration and closes what it retrieved: every handle retrieved anywhere in the nested
      values, selectors and parameters is closed exactly once, whichever closes fail, and every failure is reported. */
  method ResolveThenClose(w: World, conf: Value, failing: set<nat>)
    returns (result: Outcome<Value>, closed: seq<nat>, errors: seq<nat>)
    ensures result == Resolve(w, conf, 0)
    ensures result.Failed? ==> closed == []
    ensures result.Done? ==>
      forall id: nat :: multiset(closed)[id] == if id < result.count then 1 else 0
    ensures forall id: nat :: multiset(errors)[id] == if id in failing then multiset(closed)[id] else 0
  {
    var close;
    result, close := ResolveConfigValue(w, conf, 0);
    closed, errors := Run(close, failing);
    if result.Failed? {
      assert forall id: nat :: id in closed ==> multiset(closed)[id] > 0;
      assert closed == [] by { assert |closed| == |multiset(closed)|; }
    }
  }
}
