/** What a remote write metric holds: names, attributes and points, read off labels and samples. */
module RemotePoints {
  import opened Strings
  import opened RemoteWrite

  // ---------- labels ----------

  /** The name of a series is the value of its first `__name__` label, and empty without one. */
  lemma NameIs(labels: seq<Label>, i: nat)
    requires i < |labels| && labels[i].name == "__name__"
    requires forall k :: 0 <= k < i ==> labels[k].name != "__name__"
    ensures NameOf(labels) == labels[i].value
  {
    FirstLabel(labels, "__name__", i);
  }

  lemma {:induction false} FirstLabel(labels: seq<Label>, name: string, i: nat)
    requires i < |labels| && labels[i].name == name && forall k :: 0 <= k < i ==> labels[k].name != name
    ensures LabelValue(labels, name) == Some(labels[i].value)
  {
    if i > 0 { FirstLabel(labels[1..], name, i - 1); }
  }

  lemma NoName(labels: seq<Label>)
    requires forall k :: 0 <= k < |labels| ==> labels[k].name != "__name__"
    ensures NameOf(labels) == ""
  {
  }

  /** The attributes are named by the labels other than `__name__`. */
  lemma {:induction false} AttributeNames(labels: seq<Label>, k: string)
    ensures k in Attributes(labels) <==> k != "__name__" && exists i :: 0 <= i < |labels| && labels[i].name == k
  {
    if labels != [] {
      var n := |labels| - 1;
      AttributeNames(labels[..n], k);
      assert forall i :: 0 <= i < n ==> labels[..n][i] == labels[i];
    }
  }

  /** Each has the value of the last label of its name. */
  lemma {:induction false} AttributeValue(labels: seq<Label>, i: nat)
    requires i < |labels| && labels[i].name != "__name__"
    requires forall k :: i < k < |labels| ==> labels[k].name != labels[i].name
    ensures labels[i].name in Attributes(labels) && Attributes(labels)[labels[i].name] == labels[i].value
    decreases |labels|
  {
    var n := |labels| - 1;
    if i < n { AttributeValue(labels[..n], i); }
  }

  // ---------- points ----------

  /** The samples that are numbers, in order. */
  function Numbers(samples: seq<Sample>): (r: seq<Sample>)
    ensures forall i :: 0 <= i < |r| ==> r[i].value.Some?
  {
    if samples == [] then [] else (if samples[0].value.Some? then [samples[0]] else []) + Numbers(samples[1..])
  }

  lemma {:induction false} NumbersAppend(a: seq<Sample>, b: seq<Sample>)
    ensures Numbers(a + b) == Numbers(a) + Numbers(b)
  {
    if a == [] {
      assert a + b == b;
    } else {
      assert (a + b)[1..] == a[1..] + b;
      NumbersAppend(a[1..], b);
    }
  }

  /** There is one point for each sample that is a number, with its time and value and the attributes of the labels; the
      other samples are the NaNs. */
  lemma {:induction false} PointsAreNumbers(samples: seq<Sample>, labels: seq<Label>)
    ensures var points, numbers := PointsOf(samples, labels), Numbers(samples);
      && |points| == |numbers| && Nans(samples) == |samples| - |numbers|
      && forall i :: 0 <= i < |points| ==>
           points[i] == Point(numbers[i].timestamp, numbers[i].value.value, Attributes(labels))
  {
    hide Attributes;
    if samples != [] {
      var init, last := samples[..|samples| - 1], samples[|samples| - 1];
      PointsAreNumbers(init, labels);
      NumbersAppend(init, [last]);
      assert init + [last] == samples && [last][1..] == [];
    }
  }

  // ---------- metrics ----------

  lemma SuffixIs(front: string, suffix: string)
    ensures HasSuffix(front + suffix, suffix)
  {
    assert (front + suffix)[|front|..] == suffix;
  }

  /** A series becomes a cumulative sum exactly if it has a label `le`, or neither `quantile` nor a label of its own
      name, and is named like a counter or a bucket. */
  lemma SumExactly(name: string, labels: seq<Label>)
    ensures Monotonic(TypeByConvention(name, labels)) <==>
      || HasLabel(labels, "le")
      || (!HasLabel(labels, "quantile") && !HasLabel(labels, name) &&
          (HasSuffix(name, "_total") || HasSuffix(name, "_count") || HasSuffix(name, "_counter") ||
           HasSuffix(name, "_created") || HasSuffix(name, "_bucket")))
  {
    hide HasSuffix;
    SumIff(name, labels);
  }

  /** The metric of a named series. */
  predicate IsMetricOf(m: Metric, s: Series) {
    && NameOf(s.labels) != "" && m.name == NameOf(s.labels) && m.monotonic == Monotonic(TypeOf(s))
    && m.points == PointsOf(s.samples, s.labels)
  }

  function Named(series: seq<Series>): nat {
    if series == [] then 0
    else Named(series[..|series| - 1]) + if NameOf(series[|series| - 1].labels) == "" then 0 else 1
  }

  /** The metrics emitted are those of the named series, one each. */
  lemma {:induction false} MetricsAre(series: seq<Series>, m: Metric)
    ensures m in Total(series).metrics <==> SomeMetric(m, series)
    ensures |Total(series).metrics| == Named(series)
  {
    hide NameOf, IsMetricOf, SomeMetric, One;
    if series != [] {
      var n := |series| - 1;
      MetricsAre(series[..n], m);
      OneMetric(series[n], m);
      OneMore(m, series, n);
    } else {
      assert !SomeMetric(m, series) by { NoMetric(m); }
    }
  }

  ghost predicate SomeMetric(m: Metric, series: seq<Series>) {
    exists i :: 0 <= i < |series| && IsMetricOf(m, series[i])
  }

  lemma NoMetric(m: Metric)
    ensures !SomeMetric(m, [])
  {
  }

  lemma OneMore(m: Metric, series: seq<Series>, n: nat)
    requires |series| == n + 1
    ensures SomeMetric(m, series) <==> SomeMetric(m, series[..n]) || IsMetricOf(m, series[n])
  {
    hide IsMetricOf;
    assert forall i :: 0 <= i < n ==> series[..n][i] == series[i];
  }

  lemma OneMetric(s: Series, m: Metric)
    ensures m in One(s).metrics <==> IsMetricOf(m, s)
    ensures |One(s).metrics| == if NameOf(s.labels) == "" then 0 else 1
  {
    hide TypeOf, NameOf, PointsOf, Monotonic, Nans;
  }
}
