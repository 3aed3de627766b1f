/** Close functions: what a resolution hands back so that everything it retrieved can be closed later. */
module CloseFuncs {
  /** A close function is nil, the close of one retrieved handle, or several close functions merged. */
  datatype Close = NoClose | Handle(id: nat) | Merged(parts: seq<Close>)

  /** How many times a close function closes handle `id`. */
  function Count(c: Close, id: nat): nat
    decreases c, 1
  {
    match c
    case NoClose => 0
    case Handle(h) => if h == id then 1 else 0
    case Merged(parts) => CountAll(parts, id)
  }

  function CountAll(cs: seq<Close>, id: nat): nat
    decreases cs, 0
  {
    if cs == [] then 0 else Count(cs[0], id) + CountAll(cs[1..], id)
  }

  function MergeCloseFuncs(cs: seq<Close>): Close {
    if |cs| == 0 then NoClose
    else if |cs| == 1 then cs[0]
    else Merged(cs)
  }

  /** Appends a close function unless it is nil. */
  function Collect(cs: seq<Close>, c: Close): seq<Close> {
    if c.NoClose? then cs else cs + [c]
  }

  /** `c` closes each of the handles from `lo` up to `hi` exactly once and nothing else. */
  ghost predicate Closes(c: Close, lo: nat, hi: nat) {
    lo <= hi && forall id: nat :: Count(c, id) == if lo <= id < hi then 1 else 0
  }

  ghost predicate AllClose(cs: seq<Close>, lo: nat, hi: nat) {
    lo <= hi && forall id: nat :: CountAll(cs, id) == if lo <= id < hi then 1 else 0
  }

  lemma {:induction false} CountAllAppend(cs: seq<Close>, c: Close, id: nat)
    ensures CountAll(cs + [c], id) == CountAll(cs, id) + Count(c, id)
  {
    if cs == [] {
      assert (cs + [c])[1..] == [];
    } else {
      assert (cs + [c])[1..] == cs[1..] + [c];
      CountAllAppend(cs[1..], c, id);
    }
  }

  lemma NothingCloses(n: nat)
    ensures AllClose([], n, n)
  {
  }

  lemma CollectCloses(cs: seq<Close>, c: Close, lo: nat, mid: nat, hi: nat)
    requires AllClose(cs, lo, mid) && Closes(c, mid, hi)
    ensures AllClose(Collect(cs, c), lo, hi)
  {
    forall id: nat ensures CountAll(Collect(cs, c), id) == if lo <= id < hi then 1 else 0 {
      CountAllAppend(cs, c, id);
      assert Count(c, id) == if mid <= id < hi then 1 else 0;
    }
  }

  /** Merging loses no handle and repeats none. */
  lemma MergeCloses(cs: seq<Close>, lo: nat, hi: nat)
    requires AllClose(cs, lo, hi)
    ensures Closes(MergeCloseFuncs(cs), lo, hi)
  {
    forall id: nat ensures Count(MergeCloseFuncs(cs), id) == CountAll(cs, id) {
      if |cs| == 1 { assert cs[1..] == []; }
    }
  }

  /** Runs a close function. A close that fails is reported and does not stop the ones after it. */
  method Run(c: Close, failing: set<nat>) returns (closed: seq<nat>, errors: seq<nat>)
    ensures forall id: nat :: multiset(closed)[id] == Count(c, id)
    ensures forall id: nat :: multiset(errors)[id] == if id in failing then Count(c, id) else 0
    decreases c
  {
    closed, errors := [], [];
    match c
    case NoClose =>
    case Handle(id) =>
      closed := [id];
      if id in failing { errors := [id]; }
    case Merged(parts) =>
      for i := 0 to |parts|
        invariant forall id: nat :: multiset(closed)[id] == CountAll(parts[..i], id)
        invariant forall id: nat :: multiset(errors)[id] == if id in failing then CountAll(parts[..i], id) else 0
      {
        forall id: nat ensures CountAll(parts[..i + 1], id) == CountAll(parts[..i], id) + Count(parts[i], id) {
          assert parts[..i + 1] == parts[..i] + [parts[i]];
          CountAllAppend(parts[..i], parts[i], id);
        }
        if !parts[i].NoClose? {
          var more, errs := Run(parts[i], failing);
          closed, errors := closed + more, errors + errs;
        }
      }
      assert parts[..|parts|] == parts;
  }
}
