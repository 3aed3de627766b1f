/** How the logger names of dynamically created receivers are spelled, and what the regular expressions that take them
    apart match. */
module ReceiverSpelling {
  import opened Strings
  import opened ReceiverNames

  // ---------- names ----------

  /** The documented form `<type>[/<name>]/receiver_creator/<creator>{endpoint="<target>"}/<endpoint id>`. */
  lemma FullNameIs(id: Id, creator: string, target: string, e: string)
    ensures FullName(id, creator, target, e) ==
      id.typ + (if id.name == "" then "" else "/" + id.name) + "/receiver_creator/" + creator +
      "{endpoint=\"" + target + "\"}/" + e
  {
    var head := if id.name == "" then "" else "/" + id.name;
    assert IdText(id) == id.typ + head;
    SectionIs(creator, target, e);
    assert IdText(id) + "/" + Section(creator, target, e) ==
           id.typ + head + "/receiver_creator/" + creator + "{endpoint=\"" + target + "\"}/" + e by {
      Prepend(id.typ + head, creator, target, e);
    }
  }

  lemma SectionIs(creator: string, target: string, e: string)
    ensures Section(creator, target, e) == "receiver_creator/" + creator + "{endpoint=\"" + target + "\"}/" + e
  {
    assert "{endpoint=" + "\"" == "{endpoint=\"" && "\"" + "}/" == "\"}/";
    Joins("receiver_creator/", creator, "{endpoint=", "\"", target, "\"", "}/", e);
  }

  lemma Joins(a: string, b: string, c: string, d: string, f: string, g: string, h: string, i: string)
    ensures a + (b + c + d + f + g) + h + i == a + b + (c + d) + f + (g + h) + i
  {
  }

  lemma Prepend(head: string, creator: string, target: string, e: string)
    ensures head + "/" + ("receiver_creator/" + creator + "{endpoint=\"" + target + "\"}/" + e) ==
      head + "/receiver_creator/" + creator + "{endpoint=\"" + target + "\"}/" + e
  {
    assert "/" + "receiver_creator/" == "/receiver_creator/";
    Associates(head, "/", "receiver_creator/", creator, "{endpoint=\"", target, "\"}/", e);
  }

  lemma Associates(a: string, b: string, c: string, d: string, f: string, g: string, h: string, i: string)
    ensures a + b + (c + d + f + g + h + i) == a + (b + c) + d + f + g + h + i
  {
  }

  lemma PlaceholderSpelled(name: string, e: string)
    ensures Placeholder(name, e) ==
      name + "/receiver_creator/" + "<PLACEHOLDER>/" + "{endpoint=\"" + "PLACEHOLDER" + "\"}/" + e
  {
    hide Placeholder, Section;
    PlaceholderIs(name, e);
    SectionIs("<PLACEHOLDER>/", "PLACEHOLDER", e);
    Prepend(name, "<PLACEHOLDER>/", "PLACEHOLDER", e);
  }

  // ---------- separators ----------

  lemma CreatorMatches(s: string)
    ensures MatchLength(Creator, s) == if "receiver_creator/" <= s then 17 else 0
  {
  }

  /** `{endpoint=`, anything without `}`, and `}/`. */
  lemma TargetMatches(inner: string, rest: string)
    requires '}' !in inner
    ensures MatchLength(Target, "{endpoint=" + inner + "}/" + rest) == |inner| + 12
  {
    var s := "{endpoint=" + inner + "}/" + rest;
    var q := |inner| + 10;
    assert s[..q] == "{endpoint=" + inner && s[q] == '}' && s[q + 1] == '/';
    IndexOfIs(s, '}', q);
    assert "{endpoint=" <= s;
  }

  /** Nothing else matches. */
  lemma TargetMatched(s: string) returns (inner: string, rest: string)
    requires MatchLength(Target, s) > 0
    ensures '}' !in inner && s == "{endpoint=" + inner + "}/" + rest
  {
    TargetHasNoClose(s);
    var q := IndexOf(s, '}');
    inner, rest := s[10..q], s[q + 2..];
    assert s[..10] == "{endpoint=" && s[q..q + 2] == "}/";
    assert s == s[..10] + s[10..q] + s[q..q + 2] + s[q + 2..];
  }

  /** Matches are counted from the left and do not overlap. */
  lemma {:induction false} CountsFrom(sep: Separator, s: string, k: nat)
    requires k <= |s| && forall j :: 0 <= j < k ==> MatchLength(sep, s[j..]) == 0
    ensures Count(sep, s) == Count(sep, s[k..])
    ensures MatchLength(sep, s[k..]) > 0 ==> Count(sep, s) == 1 + Count(sep, s[k + MatchLength(sep, s[k..])..])
  {
    hide MatchLength;
    var n := MatchLength(sep, s[k..]);
    if k == 0 {
      assert s[0..] == s;
    } else {
      assert s[0..] == s;
      forall j | 0 <= j < k - 1 ensures MatchLength(sep, s[1..][j..]) == 0 {
        assert s[1..][j..] == s[j + 1..];
      }
      CountsFrom(sep, s[1..], k - 1);
      assert s[1..][k - 1..] == s[k..] && s[1..][k - 1 + n..] == s[k + n..];
    }
  }

  // ---------- the endpoint ID ----------

  predicate Occurs(pat: string, s: string) {
    exists k: nat :: k <= |s| && pat <= s[k..]
  }

  lemma {:induction false} FoundAt(pat: string, s: string)
    requires Find(pat, s) < |s|
    ensures pat <= s[Find(pat, s)..]
  {
    assert s[0..] == s;
    if !(pat <= s) {
      FoundAt(pat, s[1..]);
      assert s[1..][Find(pat, s[1..])..] == s[Find(pat, s)..];
    }
  }

  lemma {:induction false} NotBefore(pat: string, s: string, k: nat)
    requires pat != "" && k <= |s| && (k < Find(pat, s) || Find(pat, s) == |s|)
    ensures !(pat <= s[k..])
  {
    if k == 0 {
      assert s[0..] == s;
    } else {
      NotBefore(pat, s[1..], k - 1);
      assert s[1..][k - 1..] == s[k..];
    }
  }

  lemma FoundIff(pat: string, s: string)
    requires pat != ""
    ensures Find(pat, s) < |s| <==> Occurs(pat, s)
  {
    hide Find;
    if Find(pat, s) < |s| { FoundAt(pat, s); }
    if Occurs(pat, s) {
      var k: nat :| k <= |s| && pat <= s[k..];
      if Find(pat, s) == |s| { NotBefore(pat, s, k); }
    }
  }

  /** The endpoint ID is what follows the last `}/`, if `{endpoint=` occurs before that and there is no newline. */
  lemma EndpointIdIs(x: string, e: string)
    requires NoClose(e)
    ensures EndpointId(x + "}/" + e) == if '\n' !in x && '\n' !in e && Occurs("{endpoint=", x) then e else ""
  {
    hide Find, NoClose, Occurs, LastClose;
    var s := x + "}/" + e;
    LastCloseIs(x, e);
    FoundIff(TargetText(), x);
    assert s[..|x|] == x && s[|x| + 2..] == e;
  }

  lemma {:induction false} NoEndpointId(s: string)
    requires NoClose(s)
    ensures LastClose(s) == None && EndpointId(s) == ""
  {
    if |s| >= 2 {
      assert s[|s| - 2..] != "}/" by { assert s[|s| - 2..][0] == s[|s| - 2] && s[|s| - 2..][1] == s[|s| - 1]; }
      NoEndpointId(s[..|s| - 1]);
    }
  }
}
