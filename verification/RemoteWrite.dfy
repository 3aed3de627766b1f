/** Prometheus remote write requests as OpenTelemetry metrics (prometheus_to_otel.go, prometheus_spec_utils.go of the
    SignalFx gateway receiver): what becomes of every sample. */
module RemoteWrite {
  import opened Strings

  /** No value stands for NaN. */
  datatype Sample = Sample(timestamp: int, value: Option<real>)
  datatype Label = Label(name: string, value: string)
  datatype Series = Series(labels: seq<Label>, samples: seq<Sample>)

  datatype MetricType = Counter | Gauge | Histogram | GaugeHistogram | Summary | Info | StateSet

  /** A metric as emitted; a monotonic one is a cumulative sum, any other a gauge. */
  datatype Point = Point(timestamp: int, value: real, attributes: map<string, string>)
  datatype Metric = Metric(name: string, monotonic: bool, points: seq<Point>)

  // ---------- names and types ----------

  /** The value of the first label of that name. */
  function LabelValue(labels: seq<Label>, name: string): (r: Option<string>)
    ensures r.Some? <==> exists i :: 0 <= i < |labels| && labels[i].name == name
    ensures r.Some? ==> exists i ::
      0 <= i < |labels| && labels[i] == Label(name, r.value) && forall k :: 0 <= k < i ==> labels[k].name != name
  {
    if labels == [] then None
    else if labels[0].name == name then Some(labels[0].value)
    else
      var r := LabelValue(labels[1..], name);
      assert forall i :: 1 <= i < |labels| ==> labels[i] == labels[1..][i - 1];
      r
  }

  function NameOf(labels: seq<Label>): string {
    var name := LabelValue(labels, "__name__");
    if name.Some? then name.value else ""
  }

  predicate HasSuffix(s: string, suffix: string) {
    |suffix| <= |s| && s[|s| - |suffix|..] == suffix
  }

  predicate CounterName(name: string) {
    HasSuffix(name, "_total") || HasSuffix(name, "_count") || HasSuffix(name, "_counter") || HasSuffix(name, "_created")
  }

  function TypeByConvention(name: string, labels: seq<Label>): MetricType {
    if LabelValue(labels, "le").Some? then
      if HasSuffix(name, "_gsum") || HasSuffix(name, "_gcount") then GaugeHistogram else Histogram
    else if LabelValue(labels, "quantile").Some? then Summary
    else if LabelValue(labels, name).Some? then StateSet
    else if CounterName(name) then Counter
    else if HasSuffix(name, "_bucket") then Histogram
    else if HasSuffix(name, "_info") then Info
    else Gauge
  }

  function TypeOf(s: Series): MetricType {
    TypeByConvention(NameOf(s.labels), s.labels)
  }

  predicate Monotonic(t: MetricType) {
    t == Counter || t == Histogram || t == GaugeHistogram
  }

  predicate HasLabel(labels: seq<Label>, name: string) {
    exists i :: 0 <= i < |labels| && labels[i].name == name
  }

  /** A series becomes a cumulative sum exactly if it has a bucket bound, or has neither a quantile nor a label of its
      own name and is named like a counter or a bucket. */
  lemma SumIff(name: string, labels: seq<Label>)
    ensures Monotonic(TypeByConvention(name, labels)) <==>
      || HasLabel(labels, "le")
      || (!HasLabel(labels, "quantile") && !HasLabel(labels, name) &&
          (CounterName(name) || HasSuffix(name, "_bucket")))
  {
    hide HasSuffix, CounterName;
  }

  // ---------- what becomes of a series ----------

  /** Every label but the name, the last of its name. */
  function Attributes(labels: seq<Label>): map<string, string> {
    if labels == [] then map[] else
      var last := labels[|labels| - 1];
      var before := Attributes(labels[..|labels| - 1]);
      if last.name == "__name__" then before else before[last.name := last.value]
  }

  function PointsOf(samples: seq<Sample>, labels: seq<Label>): seq<Point> {
    if samples == [] then [] else
      PointsOf(samples[..|samples| - 1], labels) +
      (var s := samples[|samples| - 1];
       if s.value.None? then [] else [Point(s.timestamp, s.value.value, Attributes(labels))])
  }

  function Nans(samples: seq<Sample>): nat {
    if samples == [] then 0 else
      Nans(samples[..|samples| - 1]) + if samples[|samples| - 1].value.None? then 1 else 0
  }

  /** What a list of series adds up to: the metrics in whatever order, their data points, the NaN samples of named
      series and the unnamed series. */
  datatype Tally = Tally(metrics: multiset<Metric>, points: nat, nans: int, unnamed: int)

  const NOTHING := Tally(multiset{}, 0, 0, 0)

  function Plus(a: Tally, b: Tally): Tally {
    Tally(a.metrics + b.metrics, a.points + b.points, a.nans + b.nans, a.unnamed + b.unnamed)
  }

  function MetricOf(s: Series): Metric {
    Metric(NameOf(s.labels), Monotonic(TypeOf(s)), PointsOf(s.samples, s.labels))
  }

  function One(s: Series): Tally {
    if NameOf(s.labels) == "" then Tally(multiset{}, 0, 0, 1)
    else Tally(multiset{MetricOf(s)}, |PointsOf(s.samples, s.labels)|, Nans(s.samples), 0)
  }

  function Total(series: seq<Series>): Tally {
    if series == [] then NOTHING else Plus(Total(series[..|series| - 1]), One(series[|series| - 1]))
  }

  function PointCount(metrics: seq<Metric>): nat {
    if metrics == [] then 0 else PointCount(metrics[..|metrics| - 1]) + |metrics[|metrics| - 1].points|
  }

  /** The series of the given types, in order. */
  function Where(series: seq<Series>, types: set<MetricType>): (r: seq<Series>)
    ensures forall i :: 0 <= i < |r| ==> TypeOf(r[i]) in types
  {
    if series == [] then [] else
      Where(series[..|series| - 1], types) +
      (if TypeOf(series[|series| - 1]) in types then [series[|series| - 1]] else [])
  }

  function Types(series: seq<Series>): set<MetricType> {
    set i | 0 <= i < |series| :: TypeOf(series[i])
  }

  function EmptyCount(series: seq<Series>): nat {
    if series == [] then 0 else
      EmptyCount(series[..|series| - 1]) + if series[|series| - 1].samples == [] then 1 else 0
  }

  /** Translation fails, though nothing is dropped for it, on a series without a name label or without samples. */
  predicate Faulty(s: Series) {
    LabelValue(s.labels, "__name__").None? || s.samples == []
  }

  // ---------- the code ----------

  class Parser {
    var totalNans: int
    var totalInvalidRequests: int
    var totalBadMetrics: int

    constructor ()
      ensures totalNans == totalInvalidRequests == totalBadMetrics == 0
    {
      totalNans, totalInvalidRequests, totalBadMetrics := 0, 0, 0;
    }

    /** Every series goes to the partition of its type, in order. */
    method PartitionWriteRequest(series: seq<Series>) returns (partitions: map<MetricType, seq<Series>>, ok: bool)
      modifies this`totalInvalidRequests
      ensures IsPartition(partitions, series)
      ensures totalInvalidRequests == old(totalInvalidRequests) + EmptyCount(series)
      ensures ok <==> forall i :: 0 <= i < |series| ==> !Faulty(series[i])
    {
      hide IsPartition, TypeOf, LabelValue;
      partitions, ok := map[], true;
      NothingYet();
      for n := 0 to |series|
        invariant IsPartition(partitions, series[..n])
        invariant totalInvalidRequests == old(totalInvalidRequests) + EmptyCount(series[..n])
        invariant ok <==> forall i :: 0 <= i < n ==> !Faulty(series[i])
      {
        var ts := series[n];
        assert series[..n + 1] == series[..n] + [ts];
        PartitionStep(partitions, series[..n], ts);
        if LabelValue(ts.labels, "__name__").None? { ok := false; }
        var metricType := TypeOf(ts);
        if |ts.samples| < 1 {
          ok := false;
          totalInvalidRequests := totalInvalidRequests + 1;
        }
        partitions := Appended(partitions, metricType, ts);
      }
      assert series[..|series|] == series;
    }

    method SetAttributes(labels: seq<Label>) returns (attributes: map<string, string>)
      ensures attributes == Attributes(labels)
    {
      attributes := map[];
      for n := 0 to |labels|
        invariant attributes == Attributes(labels[..n])
      {
        assert labels[..n + 1][..n] == labels[..n];
        if labels[n].name != "__name__" { attributes := attributes[labels[n].name := labels[n].value]; }
      }
      assert labels[..|labels|] == labels;
    }

    method AddSamples(samples: seq<Sample>, labels: seq<Label>) returns (points: seq<Point>)
      modifies this`totalNans
      ensures points == PointsOf(samples, labels)
      ensures totalNans == old(totalNans) + Nans(samples)
    {
      points := [];
      for n := 0 to |samples|
        invariant points == PointsOf(samples[..n], labels)
        invariant totalNans == old(totalNans) + Nans(samples[..n])
      {
        var sample := samples[n];
        assert samples[..n + 1][..n] == samples[..n];
        if sample.value.None? {
          totalNans := totalNans + 1;
          continue;
        }
        var attributes := SetAttributes(labels);
        points := points + [Point(sample.timestamp, sample.value.value, attributes)];
      }
      assert samples[..|samples|] == samples;
    }

    /** The metrics so far with the counters. */
    ghost function Sofar(metrics: seq<Metric>): Tally
      reads this
    {
      Tally(multiset(metrics), PointCount(metrics), totalNans, totalBadMetrics)
    }

    /** One series of a gauge or counter family, which differ in the kind of metric made. */
    method AddSeries(metricType: MetricType, data: Series, before: seq<Metric>) returns (out: seq<Metric>)
      requires TypeOf(data) == metricType
      modifies this`totalNans, this`totalBadMetrics
      ensures Sofar(out) == Plus(old(Sofar(before)), One(data))
    {
      hide TypeOf, NameOf, PointsOf, Nans, Monotonic;
      var name := NameOf(data.labels);
      if name == "" {
        totalBadMetrics := totalBadMetrics + 1;
        return before;
      }
      var points := AddSamples(data.samples, data.labels);
      out := before + [Metric(name, Monotonic(metricType), points)];
      assert out[..|before|] == before;
    }

    method AddMetrics(metricType: MetricType, metrics: seq<Series>, before: seq<Metric>) returns (out: seq<Metric>)
      requires forall i :: 0 <= i < |metrics| ==> TypeOf(metrics[i]) == metricType
      modifies this`totalNans, this`totalBadMetrics
      ensures Sofar(out) == Plus(old(Sofar(before)), Total(metrics))
    {
      hide TypeOf, One, Plus, Sofar;
      out := before;
      PlusNothing(Sofar(before));
      for n := 0 to |metrics|
        invariant Sofar(out) == Plus(old(Sofar(before)), Total(metrics[..n]))
      {
        assert metrics[..n + 1][..n] == metrics[..n];
        PlusAssociates(old(Sofar(before)), Total(metrics[..n]), One(metrics[n]));
        out := AddSeries(metricType, metrics[n], out);
      }
      assert metrics[..|metrics|] == metrics;
    }

    /** The partitions are taken in any order. */
    method Transform(partitions: map<MetricType, seq<Series>>, ghost series: seq<Series>) returns (out: seq<Metric>)
      requires IsPartition(partitions, series)
      modifies this`totalNans, this`totalBadMetrics
      ensures Sofar(out) == Plus(old(Sofar([])), Total(series))
    {
      hide TypeOf, One, Plus, Sofar, Total, Where, Types;
      out := [];
      var todo := partitions.Keys;
      PlusNothing(Sofar([]));
      TotalOfNone(series);
      assert partitions.Keys - todo == {};
      while todo != {}
        invariant todo <= partitions.Keys
        invariant Sofar(out) == Plus(old(Sofar([])), Total(Where(series, partitions.Keys - todo)))
      {
        var t :| t in todo;
        ghost var done := partitions.Keys - todo;
        assert partitions.Keys - (todo - {t}) == done + {t};
        TotalSplits(series, done, t);
        PlusAssociates(old(Sofar([])), Total(Where(series, done)), Total(Where(series, {t})));
        out := AddMetrics(t, partitions[t], out);
        todo := todo - {t};
      }
      assert partitions.Keys - {} == Types(series);
      WhereAll(series);
    }

    /** The metrics of the request, the values then reported of the three counters, and whether all was well. */
    method FromWriteRequest(series: seq<Series>) returns (out: seq<Metric>, report: Report, ok: bool)
      modifies this
      ensures Sofar(out) == Plus(Tally(multiset{}, 0, old(totalNans), old(totalBadMetrics)), Total(series))
      ensures totalInvalidRequests == old(totalInvalidRequests) + EmptyCount(series)
      ensures report == Report(totalInvalidRequests, totalNans, totalBadMetrics)
      ensures ok <==> forall i :: 0 <= i < |series| ==> !Faulty(series[i])
    {
      hide IsPartition, Total, Plus, EmptyCount, Faulty;
      var partitions, fine := PartitionWriteRequest(series);
      out := Transform(partitions, series);
      report := Report(totalInvalidRequests, totalNans, totalBadMetrics);
      ok := fine;
    }

    /** Any sequence of requests: every sample received is a data point emitted, a NaN counted, or belongs to a series
        without a name, each of which is counted. */
    method Receive(requests: seq<seq<Series>>) returns (out: seq<Metric>)
      modifies this
      ensures SampleCount(Flat(requests)) ==
        PointCount(out) + (totalNans - old(totalNans)) + UnnamedSamples(Flat(requests))
      ensures totalBadMetrics - old(totalBadMetrics) == UnnamedCount(Flat(requests))
      ensures totalInvalidRequests - old(totalInvalidRequests) == EmptyCount(Flat(requests))
      ensures multiset(out) == Total(Flat(requests)).metrics
    {
      hide Total, EmptyCount, SampleCount, UnnamedSamples, UnnamedCount, Faulty, Sofar, Plus, PointCount;
      out := [];
      NothingAtAll();
      for n := 0 to |requests|
        invariant multiset(out) == Total(Flat(requests[..n])).metrics
        invariant PointCount(out) == Total(Flat(requests[..n])).points
        invariant totalNans == old(totalNans) + Total(Flat(requests[..n])).nans
        invariant totalBadMetrics == old(totalBadMetrics) + Total(Flat(requests[..n])).unnamed
        invariant totalInvalidRequests == old(totalInvalidRequests) + EmptyCount(Flat(requests[..n]))
      {
        assert requests[..n + 1][..n] == requests[..n];
        TotalParts(Flat(requests[..n]), requests[n]);
        EmptyAppend(Flat(requests[..n]), requests[n]);
        ghost var nans, bad := totalNans, totalBadMetrics;
        var metrics, _, _ := FromWriteRequest(requests[n]);
        SofarParts(metrics, nans, bad, Total(requests[n]));
        PointCountAppend(out, metrics);
        out := out + metrics;
      }
      assert requests[..|requests|] == requests;
      Conservation(Flat(requests));
    }

    /** What one request adds, read off the tallies. */
    lemma SofarParts(metrics: seq<Metric>, nans: int, bad: int, added: Tally)
      requires Sofar(metrics) == Plus(Tally(multiset{}, 0, nans, bad), added)
      ensures multiset(metrics) == added.metrics && PointCount(metrics) == added.points
      ensures totalNans == nans + added.nans && totalBadMetrics == bad + added.unnamed
    {
    }
  }

  datatype Report = Report(invalidRequests: int, nanSamples: int, badDatapoints: int)

  function Appended(p: map<MetricType, seq<Series>>, t: MetricType, s: Series): map<MetricType, seq<Series>> {
    p[t := (if t in p then p[t] else []) + [s]]
  }

  ghost predicate IsPartition(p: map<MetricType, seq<Series>>, series: seq<Series>) {
    p.Keys == Types(series) && forall t :: t in p ==> p[t] == Where(series, {t})
  }

  lemma NothingYet()
    ensures IsPartition(map[], [])
  {
  }

  lemma {:induction false} WhereNone(series: seq<Series>, t: MetricType)
    requires t !in Types(series)
    ensures Where(series, {t}) == []
  {
    hide TypeOf;
    if series != [] {
      var init := series[..|series| - 1];
      assert forall i :: 0 <= i < |init| ==> TypeOf(init[i]) == TypeOf(series[i]);
      WhereNone(init, t);
    }
  }

  lemma PartitionStep(p: map<MetricType, seq<Series>>, series: seq<Series>, s: Series)
    requires IsPartition(p, series)
    ensures IsPartition(Appended(p, TypeOf(s), s), series + [s])
  {
    hide TypeOf, Types, Where;
    var t := TypeOf(s);
    TypesSnoc(series, s);
    if t !in p { WhereNone(series, t); }
    forall u | u in Types(series) + {t} ensures Appended(p, t, s)[u] == Where(series + [s], {u}) {
      WhereSnoc(series, s, {u});
    }
  }

  lemma TypesSnoc(series: seq<Series>, s: Series)
    ensures Types(series + [s]) == Types(series) + {TypeOf(s)}
  {
    hide TypeOf;
    var more := series + [s];
    assert forall i :: 0 <= i < |series| ==> more[i] == series[i];
    assert more[|series|] == s;
  }

  lemma WhereSnoc(series: seq<Series>, s: Series, types: set<MetricType>)
    ensures Where(series + [s], types) == Where(series, types) + if TypeOf(s) in types then [s] else []
  {
    hide TypeOf;
    assert (series + [s])[..|series|] == series;
  }

  // ---------- adding up ----------

  lemma PlusNothing(a: Tally)
    ensures Plus(a, NOTHING) == a
  {
  }

  lemma PlusAssociates(a: Tally, b: Tally, c: Tally)
    ensures Plus(a, Plus(b, c)) == Plus(Plus(a, b), c)
  {
  }

  lemma PlusCommutes(a: Tally, b: Tally, c: Tally)
    ensures Plus(Plus(a, b), c) == Plus(Plus(a, c), b)
  {
  }

  lemma NothingAtAll()
    ensures Total([]) == NOTHING && EmptyCount([]) == 0 && PointCount([]) == 0
  {
  }

  lemma {:induction false} TotalOfNone(series: seq<Series>)
    ensures Where(series, {}) == [] && Total(Where(series, {})) == NOTHING
  {
    if series != [] { TotalOfNone(series[..|series| - 1]); }
  }

  lemma {:induction false} WhereAll(series: seq<Series>)
    ensures Where(series, Types(series)) == series
  {
    WhereEnough(series, Types(series));
  }

  lemma {:induction false} WhereEnough(series: seq<Series>, types: set<MetricType>)
    requires forall i :: 0 <= i < |series| ==> TypeOf(series[i]) in types
    ensures Where(series, types) == series
  {
    hide TypeOf;
    if series != [] { WhereEnough(series[..|series| - 1], types); }
  }

  lemma TotalSnoc(series: seq<Series>, s: Series)
    ensures Total(series + [s]) == Plus(Total(series), One(s))
  {
    assert (series + [s])[..|series|] == series;
  }

  /** Taking one more type adds its series, however they are interleaved with the others. */
  lemma {:induction false} TotalSplits(series: seq<Series>, types: set<MetricType>, t: MetricType)
    requires t !in types
    ensures Total(Where(series, types + {t})) == Plus(Total(Where(series, types)), Total(Where(series, {t})))
  {
    hide TypeOf, One, Total, Plus;
    NothingAtAll();
    PlusNothing(NOTHING);
    if series != [] {
      var init, last := series[..|series| - 1], series[|series| - 1];
      var a, b, c := Where(init, types), Where(init, {t}), Where(init, types + {t});
      assert a + [] == a && b + [] == b && c + [] == c;
      TotalSplits(init, types, t);
      TotalSnoc(a, last);
      TotalSnoc(b, last);
      TotalSnoc(c, last);
      PlusCommutes(Total(a), One(last), Total(b));
      PlusAssociates(Total(a), Total(b), One(last));
    }
  }

  function Flat(requests: seq<seq<Series>>): seq<Series> {
    if requests == [] then [] else Flat(requests[..|requests| - 1]) + requests[|requests| - 1]
  }

  lemma {:induction false} TotalAppend(a: seq<Series>, b: seq<Series>)
    ensures Total(a + b) == Plus(Total(a), Total(b))
  {
    hide One, Plus, Total;
    if b == [] {
      assert a + b == a;
      NothingAtAll();
      PlusNothing(Total(a));
    } else {
      var init, last := b[..|b| - 1], b[|b| - 1];
      TotalAppend(a, init);
      TotalSnoc(init, last);
      TotalSnoc(a + init, last);
      assert a + init + [last] == a + b && init + [last] == b;
      PlusAssociates(Total(a), Total(init), One(last));
    }
  }

  lemma TotalParts(a: seq<Series>, b: seq<Series>)
    ensures var t := Total(a + b);
      && t.metrics == Total(a).metrics + Total(b).metrics && t.points == Total(a).points + Total(b).points
      && t.nans == Total(a).nans + Total(b).nans && t.unnamed == Total(a).unnamed + Total(b).unnamed
  {
    hide Total;
    TotalAppend(a, b);
  }

  lemma {:induction false} EmptyAppend(a: seq<Series>, b: seq<Series>)
    ensures EmptyCount(a + b) == EmptyCount(a) + EmptyCount(b)
  {
    if b == [] {
      assert a + b == a;
    } else {
      assert (a + b)[..|a + b| - 1] == a + b[..|b| - 1];
      EmptyAppend(a, b[..|b| - 1]);
    }
  }

  lemma {:induction false} PointCountAppend(a: seq<Metric>, b: seq<Metric>)
    ensures PointCount(a + b) == PointCount(a) + PointCount(b)
  {
    if b == [] {
      assert a + b == a;
    } else {
      assert (a + b)[..|a + b| - 1] == a + b[..|b| - 1];
      PointCountAppend(a, b[..|b| - 1]);
    }
  }

  // ---------- conservation ----------

  function SampleCount(series: seq<Series>): nat {
    if series == [] then 0 else SampleCount(series[..|series| - 1]) + |series[|series| - 1].samples|
  }

  function UnnamedSamples(series: seq<Series>): nat {
    if series == [] then 0 else
      UnnamedSamples(series[..|series| - 1]) +
      if NameOf(series[|series| - 1].labels) == "" then |series[|series| - 1].samples| else 0
  }

  function UnnamedCount(series: seq<Series>): nat {
    if series == [] then 0 else
      UnnamedCount(series[..|series| - 1]) + if NameOf(series[|series| - 1].labels) == "" then 1 else 0
  }

  lemma {:induction false} PointOrNan(samples: seq<Sample>, labels: seq<Label>)
    ensures |PointsOf(samples, labels)| + Nans(samples) == |samples|
  {
    if samples != [] { PointOrNan(samples[..|samples| - 1], labels); }
  }

  /** Every sample is a data point, a NaN, or one of an unnamed series. */
  lemma {:induction false} Conservation(series: seq<Series>)
    ensures SampleCount(series) == Total(series).points + Total(series).nans + UnnamedSamples(series)
    ensures Total(series).unnamed == UnnamedCount(series)
  {
    hide NameOf, TypeOf, PointsOf, Nans;
    if series != [] {
      var last := series[|series| - 1];
      Conservation(series[..|series| - 1]);
      PointOrNan(last.samples, last.labels);
    }
  }
}
