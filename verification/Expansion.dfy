/** What a configuration string means: a token-by-token expansion, written on the remaining text only, with no
    indices and no buffer. `Expander` holds the scanning code and proves that it computes this. */
module Expansion {
  import opened Strings

  /** A configuration node. `Dict` keeps its entries in iteration order; every order is a different value, so a
      statement about all values is a statement about all iteration orders. */
  datatype Value =
    | Nil
    | Str(text: string)
    | Bytes(text: string)
    | Scalar(repr: string)
    | List(elems: seq<Value>)
    | Dict(keys: seq<string>, elems: seq<Value>)

  /** Length of the longest string leaf. */
  function MaxLeaf(v: Value): nat
    decreases v, 1
  {
    match v
    case Str(t) => |t|
    case List(es) => MaxLeaves(es)
    case Dict(_, es) => MaxLeaves(es)
    case _ => 0
  }

  function MaxLeaves(vs: seq<Value>): nat
    decreases vs, 0
  {
    if vs == [] then 0 else
      var a, b := MaxLeaf(vs[0]), MaxLeaves(vs[1..]);
      if a < b then b else a
  }

  /** Everything outside the expander. A retrieval is given the number of retrievals made before it, so two
      retrievals of the same data may differ or fail independently. */
  datatype RawWorld = RawWorld(
    compat: bool,
    env: string -> string,
    sources: set<string>,
    providers: map<string, bool>,
    retrieve: (nat, string, string, Option<Value>) -> Option<Value>,
    provide: (nat, string) -> Option<Value>,
    queryParams: string -> Option<Value>,
    yamlParams: string -> Option<Value>,
    yaml: string -> Option<Value>,
    stringMap: Value -> Value,
    format: Value -> string)

  /** Decoding parameters never makes a string leaf longer than the text it is decoded from. */
  ghost predicate DecodingShrinks(w: RawWorld) {
    && (forall t :: w.queryParams(t).Some? ==> MaxLeaf(w.queryParams(t).value) <= |t|)
    && (forall t :: w.yamlParams(t).Some? ==> MaxLeaf(w.yamlParams(t).value) <= |t|)
  }

  ghost const EmptyWorld: RawWorld :=
    RawWorld(false, s => "", {}, map[], (n, a, b, p) => None, (n, a) => None, s => None, s => None, s => None,
             v => v, v => "")

  type World = w: RawWorld | DecodingShrinks(w) ghost witness EmptyWorld

  // ---------- references ----------

  function IsShellSpecialVar(c: char): bool {
    c in "*#$@!?-0123456789"
  }

  /** Number of leading characters of `s` that may stand in a name. */
  function AlphaNumSpan(s: string): (k: nat)
    ensures k <= |s|
    ensures forall i :: 0 <= i < k ==> IsAlphaNum(s[i])
    ensures k < |s| ==> !IsAlphaNum(s[k])
  {
    if s != "" && IsAlphaNum(s[0]) then 1 + AlphaNumSpan(s[1..]) else 0
  }

  /** Width of the name at the front of `s`. A `/` belongs to the name only when what follows it is a name part
      ended by `:`, that is, only in `$type/name:selector`. */
  function TokenWidth(s: string): (k: nat)
    ensures k <= |s|
  {
    if s != "" && IsShellSpecialVar(s[0]) then 1 else
      var k := AlphaNumSpan(s);
      if k < |s| && s[k] == '/' then
        var m := k + 1 + AlphaNumSpan(s[k + 1..]);
        if m < |s| && s[m] == ':' then m else k
      else k
  }

  /** What follows a `$`: the text to expand, how much of the input it takes, and the config source it names. */
  datatype Ref = Ref(content: string, width: nat, source: string)

  /** The text between `{` and the first `}`, and the characters it takes; unclosed and empty brackets are eaten. */
  function ToClosingBracket(s: string): (r: (string, nat))
    requires s != ""
    ensures 0 < r.1 <= |s| && |r.0| < |s|
    ensures forall c :: c in r.0 ==> c in s
  {
    var k := IndexOf(s[1..], '}') + 1;
    if k == |s| then ("", 1) else (s[1..k], k + 1)
  }

  function BracketedRef(s: string): (r: Ref)
    requires s != ""
    ensures r.width <= |s| && |r.content| < |s|
    ensures r.source != "" ==> ':' in r.content
  {
    var (inner, width) := ToClosingBracket(s);
    var content := Trim(inner);
    var delim := IndexOf(content, ':');
    Ref(content, width, if |content| > 1 && delim < |content| then content[..delim] else "")
  }

  function BareRef(s: string): (r: Ref)
    requires s != ""
    ensures r.width <= |s| && |r.content| <= |s|
    ensures r.source != "" ==> ':' in r.content && |r.source| < |r.content|
  {
    var k := TokenWidth(s);
    if k < |s| && s[k] == ':' then Ref(s, |s|, s[..k]) else Ref(s[..k], k, "")
  }

  function RefAt(s: string): (r: Ref)
    requires s != ""
    ensures r.width <= |s| && |r.content| <= |s|
  {
    if s[0] == '{' then BracketedRef(s) else BareRef(s)
  }

  /** The back-compatibility rule: `$$` followed by `t` is still read as `$t` when `t` is a bracketed config source,
      or a bare one whose selector is non-empty and free of `$`. */
  predicate CompatApplies(t: string) {
    |t| > 1 &&
    var r := RefAt(t);
    r.source != "" && (t[0] == '{' || (|r.content| > |r.source| + 1 && '$' !in r.content[|r.source| + 1..]))
  }

  datatype Token =
    | Literal(c: char)
    | EnvVar(name: string, width: nat)
    | Source(name: string, invocation: string)

  function TokenOf(r: Ref): Token {
    if r.source == "" then EnvVar(r.content, r.width) else Source(r.source, r.content)
  }

  /** The first token of `s` and the number of characters it takes. */
  function Head(s: string, compat: bool): (r: (Token, nat))
    requires s != ""
    ensures 0 < r.1 <= |s|
    ensures r.0.Source? ==> |r.0.invocation| < |s|
  {
    if s[0] != '$' || |s| == 1 then (Literal(s[0]), 1)
    else if s[1] != '$' then (TokenOf(RefAt(s[1..])), 1 + RefAt(s[1..]).width)
    else if compat && CompatApplies(s[2..]) then (TokenOf(RefAt(s[2..])), 2 + RefAt(s[2..]).width)
    else (EnvVar("$", 1), 2)
  }

  // ---------- config source invocations ----------

  datatype Invocation =
    | Malformed
    | BadParams
    | Invocation(name: string, selector: string, params: Option<Value>)

  /** Splits `name:selector?params` (one line, URL query) or `name:selector\nparams` (YAML). */
  function ParseInvocation(w: World, s: string): (r: Invocation)
    ensures r.Invocation? ==> |r.selector| < |s|
    ensures r.Invocation? && r.params.Some? ==> MaxLeaf(r.params.value) < |s|
    ensures ':' in s ==> !r.Malformed?
  {
    var delim := IndexOf(s, ':');
    if delim == |s| then Malformed else
      var name, after := Trim(s[..delim]), s[delim + 1..];
      if '\n' in after then
        var nl := IndexOf(after, '\n');
        var selector, text := Trim(after[..nl]), after[nl + 1..];
        if text == "" then Invocation(name, selector, None)
        else if w.yamlParams(text).None? then BadParams
        else Invocation(name, selector, w.yamlParams(text))
      else
        var q := IndexOf(after, '?');
        var selector := Trim(after[..q]);
        if q == |after| then Invocation(name, selector, None)
        else if w.queryParams(after[q + 1..]).None? then BadParams
        else Invocation(name, selector, w.queryParams(after[q + 1..]))
  }

  // ---------- meaning ----------

  datatype Error =
    | UnknownSource(name: string)
    | InvalidSyntax(invocation: string)
    | InvalidParams(invocation: string)
    | NilProvider(name: string)
    | RetrieveFailed(name: string)
    | SelectorNotString(selector: string)

  /** A result together with the number of retrievals made so far. */
  datatype Outcome<+T> = Done(value: T, count: nat) | Failed(error: Error)

  /** A name that is empty after eating input is dropped, `$` alone stays a `$`, any other name is looked up. */
  function ExpandEnv(w: World, name: string, width: nat): string {
    if name == "" && width > 0 then ""
    else if name == "" || name == "$" then "$"
    else w.env(name)
  }

  /** A retrieved value that is the whole result: strings and bytes are read as YAML when they parse. */
  function Normalize(w: World, v: Value): Value {
    w.stringMap(if (v.Str? || v.Bytes?) && w.yaml(v.text).Some? then w.yaml(v.text).value else v)
  }

  function Display(w: World, v: Value): string {
    if v.Nil? then "" else w.format(v)
  }

  /** Expands `s`, given what has been produced so far. */
  function Expand(w: World, s: string, out: string, n: nat): (r: Outcome<Value>)
    ensures r.Done? ==> r.count >= n
    decreases |s|, 0
  {
    if s == "" then Done(Str(out), n) else
      var (token, width) := Head(s, w.compat);
      var rest := s[width..];
      match token
      case Literal(c) => Expand(w, rest, out + [c], n)
      case EnvVar(name, k) => Expand(w, rest, out + ExpandEnv(w, name, k), n)
      case Source(name, invocation) =>
        match Retrieve(w, name, invocation, n)
        case Failed(e) => Failed(e)
        case Done(v, n') =>
          if rest == "" && out == "" then Done(Normalize(w, v), n')
          else Expand(w, rest, out + Display(w, v), n')
  }

  /** Retrieves an invocation from the config source or confmap provider called `name`. */
  function Retrieve(w: World, name: string, invocation: string, n: nat): (r: Outcome<Value>)
    ensures r.Done? ==> r.count > n
    decreases |invocation|, 0
  {
    if name !in w.sources && name !in w.providers then Failed(UnknownSource(name)) else
      var parsed := ParseInvocation(w, invocation);
      match parsed
      case Malformed => Failed(InvalidSyntax(invocation))
      case BadParams => Failed(InvalidParams(invocation))
      case Invocation(_, _, _) =>
        if name in w.sources then RetrieveFromSource(w, name, parsed, n)
        else RetrieveFromProvider(w, w.providers[name], parsed, n)
  }

  function RetrieveFromProvider(w: World, live: bool, parsed: Invocation, n: nat): (r: Outcome<Value>)
    requires parsed.Invocation?
    ensures r.Done? ==> r.count > n
  {
    if !live then Failed(NilProvider(parsed.name)) else
      var got := w.provide(n, parsed.name + ":" + parsed.selector);
      if got.None? then Failed(RetrieveFailed(parsed.name)) else Done(got.value, n + 1)
  }

  /** The selector is expanded first, then the parameters; the config source is asked last. */
  function RetrieveFromSource(w: World, name: string, parsed: Invocation, n: nat): (r: Outcome<Value>)
    requires parsed.Invocation?
    ensures r.Done? ==> r.count > n
    decreases MaxText(parsed), 3
  {
    match Expand(w, parsed.selector, "", n)
    case Failed(e) => Failed(e)
    case Done(expanded, n1) =>
      if !expanded.Str? then Failed(SelectorNotString(parsed.selector)) else
        match ResolveParams(w, parsed.params, n1)
        case Failed(e) => Failed(e)
        case Done(resolved, n2) =>
          var got := w.retrieve(n2, name, expanded.text, resolved);
          if got.None? then Failed(RetrieveFailed(parsed.name)) else Done(got.value, n2 + 1)
  }

  function MaxText(parsed: Invocation): (k: nat)
    requires parsed.Invocation?
    ensures |parsed.selector| <= k
    ensures parsed.params.Some? ==> MaxLeaf(parsed.params.value) <= k
  {
    var a, b := |parsed.selector|, if parsed.params.None? then 0 else MaxLeaf(parsed.params.value);
    if a < b then b else a
  }

  function ResolveParams(w: World, params: Option<Value>, n: nat): (r: Outcome<Option<Value>>)
    ensures r.Done? ==> r.count >= n
    decreases if params.None? then 0 else MaxLeaf(params.value), 2
  {
    if params.None? then Done(None, n) else
      match Resolve(w, params.value, n)
      case Failed(e) => Failed(e)
      case Done(v, n') => Done(Some(v), n')
  }

  /** Resolves every string leaf of a configuration node, in order. */
  function Resolve(w: World, v: Value, n: nat): (r: Outcome<Value>)
    ensures r.Done? ==> r.count >= n
    decreases MaxLeaf(v), 1, v, 1
  {
    match v
    case Str(t) => Expand(w, t, "", n)
    case List(es) =>
      (match ResolveAll(w, es, n)
       case Failed(e) => Failed(e)
       case Done(vs, n') => Done(List(vs), n'))
    case Dict(keys, es) =>
      (match ResolveAll(w, es, n)
       case Failed(e) => Failed(e)
       case Done(vs, n') => Done(Dict(keys, vs), n'))
    case _ => Done(v, n)
  }

  function ResolveAll(w: World, vs: seq<Value>, n: nat): (r: Outcome<seq<Value>>)
    ensures r.Done? ==> r.count >= n && |r.value| == |vs|
    decreases MaxLeaves(vs), 1, vs, 0
  {
    if vs == [] then Done([], n) else
      match Resolve(w, vs[0], n)
      case Failed(e) => Failed(e)
      case Done(v, n1) =>
        match ResolveAll(w, vs[1..], n1)
        case Failed(e) => Failed(e)
        case Done(rest, n2) => Done([v] + rest, n2)
  }

  // ---------- one token at a time ----------

  lemma EndStep(w: World, out: string, n: nat)
    ensures Expand(w, "", out, n) == Done(Str(out), n)
  {
  }

  lemma LiteralStep(w: World, s: string, out: string, n: nat)
    requires s != "" && (s[0] != '$' || |s| == 1)
    ensures Expand(w, s, out, n) == Expand(w, s[1..], out + [s[0]], n)
  {
  }

  lemma EnvVarStep(w: World, s: string, name: string, k: nat, width: nat, out: string, n: nat)
    requires s != "" && Head(s, w.compat) == (EnvVar(name, k), width)
    ensures Expand(w, s, out, n) == Expand(w, s[width..], out + ExpandEnv(w, name, k), n)
  {
    hide Head;
  }

  lemma SourceStep(w: World, s: string, name: string, invocation: string, width: nat, out: string, n: nat)
    requires s != "" && Head(s, w.compat) == (Source(name, invocation), width)
    ensures var got := Retrieve(w, name, invocation, n);
      Expand(w, s, out, n) ==
        if got.Failed? then Failed(got.error)
        else if width == |s| && out == "" then Done(Normalize(w, got.value), got.count)
        else Expand(w, s[width..], out + Display(w, got.value), got.count)
  {
    hide Head, Retrieve;
  }

  /** What `Head` reads after a single `$`. */
  lemma HeadReference(s: string, compat: bool)
    requires |s| > 1 && s[0] == '$' && s[1] != '$'
    ensures Head(s, compat) == (TokenOf(RefAt(s[1..])), 1 + RefAt(s[1..]).width)
  {
    hide RefAt, TokenOf;
  }

  /** What `Head` reads after `$$`. */
  lemma HeadDouble(s: string, compat: bool)
    requires |s| > 1 && s[..2] == "$$"
    ensures Head(s, compat) ==
      if compat && CompatApplies(s[2..]) then (TokenOf(RefAt(s[2..])), 2 + RefAt(s[2..]).width)
      else (EnvVar("$", 1), 2)
  {
    hide RefAt, TokenOf, CompatApplies;
    assert s[0] == s[..2][0] && s[1] == s[..2][1];
  }
}
