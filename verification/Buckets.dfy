/** Prometheus histogram buckets, which are cumulative, as OpenTelemetry bucket counts, which are not
    (lightprometheusreceiver/scraper.go). Counts are 64-bit and subtraction wraps around. */
module Buckets {
  const WORD := 0x1_0000_0000_0000_0000

  newtype Count = x: int | 0 <= x < 0x1_0000_0000_0000_0000

  /** The upper bound is a float; only its identity matters here. */
  datatype Bucket = Bucket(upperBound: real, cumulative: Count)

  function Minus(a: Count, b: Count): Count {
    ((a as int - b as int) % WORD) as Count
  }

  /** Sum of the first `n` counts, as a whole number. */
  function Sum(counts: seq<Count>, n: nat): nat
    requires n <= |counts|
  {
    if n == 0 then 0 else Sum(counts, n - 1) + counts[n - 1] as nat
  }

  lemma {:induction false} SumOfMore(counts: seq<Count>, more: seq<Count>, n: nat)
    requires n <= |counts|
    ensures Sum(counts + more, n) == Sum(counts, n)
  {
    if n > 0 { SumOfMore(counts, more, n - 1); }
  }

  /** Counts never go down from a bucket to the next. */
  predicate Ascending(buckets: seq<Bucket>) {
    forall i, j :: 0 <= i < j < |buckets| ==> buckets[i].cumulative <= buckets[j].cumulative
  }

  /** The first counts add up to each cumulative count in turn, up to multiples of 2^64. */
  ghost predicate AddsUp(buckets: seq<Bucket>, counts: seq<Count>, n: nat)
    requires n <= |buckets| && n <= |counts|
  {
    forall i :: 1 <= i <= n ==> Sum(counts, i) % WORD == buckets[i - 1].cumulative as int
  }

  ghost predicate AddsUpExactly(buckets: seq<Bucket>, counts: seq<Count>, n: nat)
    requires n <= |buckets| && n <= |counts|
  {
    forall i :: 1 <= i <= n ==> Sum(counts, i) == buckets[i - 1].cumulative as int
  }

  lemma ModStep(s: int, c: int, d: int)
    requires 0 <= c < WORD && 0 <= d < WORD && s % WORD == c
    ensures (s + (d - c) % WORD) % WORD == d
  {
    var k := s / WORD;
    assert s == k * WORD + c;
    if d >= c {
      assert (d - c) % WORD == d - c;
      assert s + (d - c) == k * WORD + d;
    } else {
      assert (d - c) % WORD == d - c + WORD;
      assert s + (d - c + WORD) == (k + 1) * WORD + d;
    }
  }

  /** One more difference adds up to one more cumulative count. */
  lemma NextAddsUp(buckets: seq<Bucket>, counts: seq<Count>, n: nat)
    requires 0 < n < |buckets| && |counts| == n
    requires AddsUp(buckets, counts, n)
    ensures var more := counts + [Minus(buckets[n].cumulative, buckets[n - 1].cumulative)];
      AddsUp(buckets, more, n + 1) &&
      (Ascending(buckets) && AddsUpExactly(buckets, counts, n) ==> AddsUpExactly(buckets, more, n + 1))
  {
    var c, d := buckets[n - 1].cumulative, buckets[n].cumulative;
    var more := counts + [Minus(d, c)];
    forall i | 1 <= i <= n ensures Sum(more, i) == Sum(counts, i) {
      SumOfMore(counts, [Minus(d, c)], i);
    }
    ModStep(Sum(more, n), c as int, d as int);
  }

  lemma {:induction false} SumAscends(counts: seq<Count>, m: nat, n: nat)
    requires m <= n <= |counts|
    ensures Sum(counts, m) <= Sum(counts, n)
  {
    if m < n { SumAscends(counts, m, n - 1); }
  }

  lemma ExactlyMeansAscending(buckets: seq<Bucket>, counts: seq<Count>)
    requires |counts| == |buckets|
    ensures AddsUpExactly(buckets, counts, |buckets|) ==> Ascending(buckets)
  {
    if AddsUpExactly(buckets, counts, |buckets|) {
      forall i, j | 0 <= i < j < |buckets| ensures buckets[i].cumulative <= buckets[j].cumulative {
        SumAscends(counts, i + 1, j + 1);
        assert Sum(counts, i + 1) == buckets[i].cumulative as int && Sum(counts, j + 1) == buckets[j].cumulative as int;
      }
    }
  }

  method Translate(buckets: seq<Bucket>) returns (counts: seq<Count>, bounds: seq<real>)
    ensures |counts| == |buckets| && AddsUp(buckets, counts, |buckets|)
    ensures Ascending(buckets) <==> AddsUpExactly(buckets, counts, |buckets|)
    ensures buckets != [] ==> |counts| == |bounds| + 1
    ensures buckets == [] ==> bounds == []
    ensures forall i :: 0 <= i < |bounds| ==> bounds[i] == buckets[i].upperBound
  {
    hide Minus, Sum;
    counts, bounds := [], [];
    if |buckets| > 0 {
      counts := [buckets[0].cumulative];
      FirstAddsUp(buckets);
    }
    if |buckets| > 1 {
      bounds := bounds + [buckets[0].upperBound];
      var last := buckets[0].cumulative;
      for i := 1 to |buckets| - 1
        invariant |counts| == |bounds| == i && last == buckets[i - 1].cumulative
        invariant AddsUp(buckets, counts, i)
        invariant Ascending(buckets) ==> AddsUpExactly(buckets, counts, i)
        invariant forall k :: 0 <= k < i ==> bounds[k] == buckets[k].upperBound
      {
        NextAddsUp(buckets, counts, i);
        var current := buckets[i].cumulative;
        counts := counts + [Minus(current, last)];
        last := current;
        bounds := bounds + [buckets[i].upperBound];
      }
      NextAddsUp(buckets, counts, |buckets| - 1);
      counts := counts + [Minus(buckets[|buckets| - 1].cumulative, last)];
    }
    ExactlyMeansAscending(buckets, counts);
  }

  lemma FirstAddsUp(buckets: seq<Bucket>)
    requires buckets != []
    ensures AddsUp(buckets, [buckets[0].cumulative], 1) && AddsUpExactly(buckets, [buckets[0].cumulative], 1)
  {
    assert Sum([buckets[0].cumulative], 1) == buckets[0].cumulative as int;
  }
}
