/**
 * The server side of the PromQL multi-query engine: the result assembler that
 * merges the per-label Prometheus results into one data frame (a long table for
 * visualisation, a wide "instant" table with one `Value #<label>` column per
 * successful label, and the list of failed labels), the single-query frame
 * builder, and the label formatter both use. The server copy of the splitter is
 * `MultiQuery.SplitMultiQueries`, whose text it repeats.
 */
module PromqlSearchStrategy {
  import opened Wrappers
  import opened Strings
  import opened JsValues
  import opened Sequences
  import MultiQuery

  /** Only the first `MaxSeries` series of a result are used. */
  const MaxSeries: nat := 2000

  /** The label carrying the metric name. */
  const NameLabel := "__name__"

  // ---------------------------------------------------------------------------
  // Prometheus results.

  datatype LabelPair = LabelPair(key: string, value: string)

  /** A series' label set, `Record<string, string>`, as its entries in key order. */
  type Metric = seq<LabelPair>

  /** One `[timestamp, value]` sample, timestamp in seconds, value already converted by `Number`. */
  datatype Sample = Sample(timestamp: int, value: int)

  datatype MetricResult = MetricResult(metric: Metric, values: seq<Sample>)

  /** `results[datasetId].result` for every dataset id present in the response. */
  datatype Response = Response(results: map<string, seq<MetricResult>>)

  /** What one labelled query produced: a response, an error message, or both absent. */
  datatype QueryResult = QueryResult(queryLabel: string, response: Option<Response>, error: Option<string>)

  /** A JavaScript object cannot hold the same key twice. */
  predicate DistinctLabelKeys(m: Metric) {
    forall i, j :: 0 <= i < j < |m| ==> m[i].key != m[j].key
  }

  /** `r.error` is truthy. */
  predicate Failed(r: QueryResult) {
    r.error.Some? && r.error.value != ""
  }

  /** The results whose series are used: a response and no error. */
  predicate Succeeded(r: QueryResult) {
    r.response.Some? && !Failed(r)
  }

  /** `response.results[datasetId]?.result || []`. */
  function SeriesIn(response: Response, datasetId: string): seq<MetricResult> {
    if datasetId in response.results then response.results[datasetId] else []
  }

  /** The series a loop over all series visits before its index reaches `MaxSeries`. */
  function Capped(series: seq<MetricResult>): (c: seq<MetricResult>)
    ensures |c| == Min(|series|, MaxSeries)
    ensures c == series[..|c|]
  {
    if |series| <= MaxSeries then series else series[..MaxSeries]
  }

  /** `metric[key]`, `None` standing for `undefined`. */
  function Lookup(m: Metric, key: string): Option<string>
  {
    if m == [] then None
    else if m[0].key == key then Some(m[0].value)
    else Lookup(m[1..], key)
  }

  lemma {:induction false} LookupPresent(m: Metric, i: nat)
    requires i < |m| && DistinctLabelKeys(m)
    ensures Lookup(m, m[i].key) == Some(m[i].value)
  {
    if i > 0 {
      assert m[0].key != m[i].key;
      assert m[1..][i - 1] == m[i];
      LookupPresent(m[1..], i - 1);
    }
  }

  lemma {:induction false} LookupFound(m: Metric, key: string)
    requires Lookup(m, key).Some?
    ensures LabelPair(key, Lookup(m, key).value) in m
  {
    if m[0].key != key {
      LookupFound(m[1..], key);
    }
  }

  // ---------------------------------------------------------------------------
  // `formatMetricLabels`.

  function LabelKey(p: LabelPair): string { p.key }

  /** `key="value"`. */
  function LabelText(p: LabelPair): string {
    p.key + "=\"" + p.value + "\""
  }

  function LabelTexts(m: Metric): (ts: seq<string>)
    ensures |ts| == |m|
  {
    seq(|m|, i requires 0 <= i < |m| => LabelText(m[i]))
  }

  /** The entries whose value is neither undefined nor empty, in their order. */
  function NonEmptyLabels(m: Metric): (r: Metric)
    ensures forall p :: p in r <==> p in m && p.value != ""
  {
    if m == [] then []
    else (if m[0].value != "" then [m[0]] else []) + NonEmptyLabels(m[1..])
  }

  /** `{k="v", ...}` over the non-empty labels sorted by key, or `""` when there are none. */
  function FormatMetricLabels(m: Metric): string
  {
    var parts := LabelTexts(SortBy(NonEmptyLabels(m), LabelKey));
    if |parts| > 0 then "{" + Join(parts, ", ") + "}" else ""
  }

  predicate StrictlySorted(m: Metric) {
    forall i, j :: 0 <= i < j < |m| ==> StrLess(m[i].key, m[j].key)
  }

  /** Two strictly key-sorted label lists with the same entries are the same list. */
  lemma {:induction false} StrictlySortedUnique(a: Metric, b: Metric)
    requires StrictlySorted(a) && StrictlySorted(b)
    requires forall p :: p in a <==> p in b
    ensures a == b
  {
    assert a != [] ==> a[0] in b;
    assert b != [] ==> b[0] in a;
    if a != [] && b != [] {
      SortedHeadsEqual(a, b);
      SortedTailsSameEntries(a, b);
      StrictlySortedUnique(a[1..], b[1..]);
      assert a == [a[0]] + a[1..];
      assert b == [b[0]] + b[1..];
    }
  }

  lemma SortedHeadsEqual(a: Metric, b: Metric)
    requires StrictlySorted(a) && StrictlySorted(b) && a != [] && b != []
    requires forall p :: p in a <==> p in b
    ensures a[0] == b[0]
  {
    assert a[0] in b && b[0] in a;
    var i :| 0 <= i < |a| && a[i] == b[0];
    var j :| 0 <= j < |b| && b[j] == a[0];
    if i > 0 {
      StrLessAsymmetric(a[0].key, a[i].key);
    }
    assert i == 0 || j == 0;
  }

  lemma SortedTailsSameEntries(a: Metric, b: Metric)
    requires StrictlySorted(a) && StrictlySorted(b) && a != [] && b != [] && a[0] == b[0]
    requires forall p :: p in a <==> p in b
    ensures forall p :: p in a[1..] <==> p in b[1..]
  {
    forall p
      ensures p in a[1..] <==> p in b[1..]
    {
      if p in a[1..] {
        var k :| 0 <= k < |a[1..]| && a[1..][k] == p;
        assert StrLess(a[0].key, a[k + 1].key);
        StrLessIrreflexive(p.key);
        assert p in b;
      }
      if p in b[1..] {
        var k :| 0 <= k < |b[1..]| && b[1..][k] == p;
        assert StrLess(b[0].key, b[k + 1].key);
        StrLessIrreflexive(p.key);
        assert p in a;
      }
    }
  }

  lemma {:induction false} NonEmptyLabelsDistinct(m: Metric)
    requires DistinctLabelKeys(m)
    ensures DistinctLabelKeys(NonEmptyLabels(m))
  {
    if m != [] {
      NonEmptyLabelsDistinct(m[1..]);
      var rest := NonEmptyLabels(m[1..]);
      forall k | 0 <= k < |rest| ensures rest[k].key != m[0].key {
        assert rest[k] in m[1..];
      }
    }
  }

  /** Sorting the non-empty labels of a metric yields a strictly key-sorted list of them. */
  lemma SortedNonEmptyLabels(m: Metric)
    requires DistinctLabelKeys(m)
    ensures var s := SortBy(NonEmptyLabels(m), LabelKey);
      StrictlySorted(s) && forall p :: p in s <==> p in m && p.value != ""
  {
    var ne := NonEmptyLabels(m);
    var s := SortBy(ne, LabelKey);
    NonEmptyLabelsDistinct(m);
    forall p ensures p in s <==> p in ne {
      assert p in s <==> p in multiset(s);
    }
    forall i, j | 0 <= i < j < |s| ensures StrLess(s[i].key, s[j].key) {
      SortedStrictAt(ne, s, i, j);
    }
  }

  lemma SortedStrictAt(ne: Metric, s: Metric, i: nat, j: nat)
    requires DistinctLabelKeys(ne)
    requires s == SortBy(ne, LabelKey) && i < j < |s|
    ensures StrLess(s[i].key, s[j].key)
  {
    assert !StrLess(LabelKey(s[j]), LabelKey(s[i]));
    if s[i].key == s[j].key {
      assert s[i] in multiset(ne) && s[j] in multiset(ne);
      var a :| 0 <= a < |ne| && ne[a] == s[i];
      var b :| 0 <= b < |ne| && ne[b] == s[j];
      assert a == b;
      DuplicateCount(s, i, j);
      assert Distinct(ne);
      DistinctCount(ne, s[i]);
      assert false;
    }
    StrLessTotal(s[i].key, s[j].key);
  }

  /**
   * `formatMetricLabels` renders any key-sorted listing of exactly the
   * non-empty labels, in braces and separated by ", "; it is "" when no label
   * has a value.
   */
  lemma FormatMetricLabelsListing(m: Metric, listing: Metric)
    requires DistinctLabelKeys(m)
    requires StrictlySorted(listing)
    requires forall p :: p in listing <==> p in m && p.value != ""
    ensures FormatMetricLabels(m) ==
      if listing == [] then "" else "{" + Join(LabelTexts(listing), ", ") + "}"
  {
    SortedNonEmptyLabels(m);
    StrictlySortedUnique(SortBy(NonEmptyLabels(m), LabelKey), listing);
  }

  /** `formatMetricLabels` is "" exactly when no label has a non-empty value. */
  lemma FormatMetricLabelsEmpty(m: Metric)
    ensures FormatMetricLabels(m) == "" <==> forall i :: 0 <= i < |m| ==> m[i].value == ""
  {
    var ne := NonEmptyLabels(m);
    var parts := LabelTexts(SortBy(ne, LabelKey));
    assert |parts| == |ne|;
    if |parts| > 0 {
      assert FormatMetricLabels(m)[0] == '{';
    }
    NoNonEmptyLabels(m);
  }

  lemma NoNonEmptyLabels(m: Metric)
    ensures NonEmptyLabels(m) == [] <==> forall i :: 0 <= i < |m| ==> m[i].value == ""
  {
    var ne := NonEmptyLabels(m);
    if ne != [] {
      assert ne[0] in ne;
    } else {
      forall i | 0 <= i < |m| ensures m[i].value == "" {
        assert m[i] !in ne;
      }
    }
  }

  // ---------------------------------------------------------------------------
  // The samples the second pass of the assembler visits, in visiting order.

  /** One sample of one series of one labelled result. */
  datatype Observation = Observation(queryLabel: string, metric: Metric, sample: Sample)

  function SampleObservations(l: string, m: Metric, samples: seq<Sample>): (os: seq<Observation>)
    ensures |os| == |samples|
  {
    seq(|samples|, j requires 0 <= j < |samples| => Observation(l, m, samples[j]))
  }

  /** Every sample of every series, series by series. */
  function SeriesObservations(l: string, series: seq<MetricResult>): seq<Observation>
  {
    if series == [] then []
    else
      var last := series[|series| - 1];
      SeriesObservations(l, series[..|series| - 1]) + SampleObservations(l, last.metric, last.values)
  }

  /** A result contributes its first `MaxSeries` series, and only when it succeeded. */
  function ResultObservations(r: QueryResult, datasetId: string): seq<Observation>
  {
    if Succeeded(r) then SeriesObservations(r.queryLabel, Capped(SeriesIn(r.response.value, datasetId))) else []
  }

  function Observations(results: seq<QueryResult>, datasetId: string): seq<Observation>
  {
    if results == [] then []
    else Observations(results[..|results| - 1], datasetId) + ResultObservations(results[|results| - 1], datasetId)
  }

  /** The observations of a list of results are those of its parts, in order. */
  lemma {:induction false} ObservationsAppend(a: seq<QueryResult>, b: seq<QueryResult>, datasetId: string)
    ensures Observations(a + b, datasetId) == Observations(a, datasetId) + Observations(b, datasetId)
  {
    if b != [] {
      var ab := a + b;
      var init, last := b[..|b| - 1], b[|b| - 1];
      AppendInitLast(a, b);
      var next := ResultObservations(last, datasetId);
      assert Observations(ab, datasetId) == Observations(a + init, datasetId) + next;
      assert Observations(b, datasetId) == Observations(init, datasetId) + next;
      ObservationsAppend(a, init, datasetId);
      AppendAssociative(Observations(a, datasetId), Observations(init, datasetId), next);
    } else {
      assert a + b == a;
    }
  }

  /** Failed and response-less results contribute nothing: dropping them changes no observation. */
  lemma {:induction false} ObservationsIgnoreFailures(results: seq<QueryResult>, datasetId: string)
    ensures Observations(results, datasetId) == Observations(Successful(results), datasetId)
  {
    if results != [] {
      var init, last := results[..|results| - 1], results[|results| - 1];
      var tail := if Succeeded(last) then [last] else [];
      ObservationsIgnoreFailures(init, datasetId);
      assert Successful(results) == Successful(init) + tail;
      ObservationsAppend(Successful(init), tail, datasetId);
      assert Observations(tail, datasetId) == ResultObservations(last, datasetId) by {
        if Succeeded(last) {
          assert [last][..0] == [];
        }
      }
      assert Observations(results, datasetId) == Observations(init, datasetId) + ResultObservations(last, datasetId);
    }
  }

  /** The results with a response and no error, in order. */
  function Successful(results: seq<QueryResult>): (rs: seq<QueryResult>)
    ensures |rs| <= |results|
  {
    if results == [] then []
    else Successful(results[..|results| - 1]) + (if Succeeded(results[|results| - 1]) then [results[|results| - 1]] else [])
  }

  /** The samples a series list contributes: sample `j` of series `s`. */
  ghost predicate VisitedIn(l: string, series: seq<MetricResult>, o: Observation) {
    exists s, j :: 0 <= s < |series| && 0 <= j < |series[s].values| &&
      o == Observation(l, series[s].metric, series[s].values[j])
  }

  lemma {:induction false} SeriesObservationsExactly(l: string, series: seq<MetricResult>, o: Observation)
    ensures o in SeriesObservations(l, series) <==> VisitedIn(l, series, o)
  {
    if series != [] {
      var init := series[..|series| - 1];
      var last := series[|series| - 1];
      SeriesObservationsExactly(l, init, o);
      if o in SampleObservations(l, last.metric, last.values) {
        var j :| 0 <= j < |last.values| && SampleObservations(l, last.metric, last.values)[j] == o;
        assert o == Observation(l, series[|series| - 1].metric, series[|series| - 1].values[j]);
      }
      if VisitedIn(l, series, o) {
        var s, j :| 0 <= s < |series| && 0 <= j < |series[s].values| &&
          o == Observation(l, series[s].metric, series[s].values[j]);
        if s < |init| {
          assert init[s] == series[s];
        } else {
          assert SampleObservations(l, last.metric, last.values)[j] == o;
        }
      }
      if VisitedIn(l, init, o) {
        var s, j :| 0 <= s < |init| && 0 <= j < |init[s].values| &&
          o == Observation(l, init[s].metric, init[s].values[j]);
        assert series[s] == init[s];
      }
    }
  }

  /**
   * Whether an observation is visited: exactly when it comes from a sample of
   * one of the first `MaxSeries` series of a successful result. How many are
   * visited and where each one lands is stated by `ObservationsCount` and
   * `ObservationAt`.
   */
  lemma {:induction false} ObservationsExactly(results: seq<QueryResult>, datasetId: string, o: Observation)
    ensures o in Observations(results, datasetId) <==>
      exists i :: 0 <= i < |results| && Succeeded(results[i]) &&
        VisitedIn(results[i].queryLabel, Capped(SeriesIn(results[i].response.value, datasetId)), o)
  {
    if results != [] {
      var init := results[..|results| - 1];
      var last := results[|results| - 1];
      ObservationsExactly(init, datasetId, o);
      if Succeeded(last) {
        SeriesObservationsExactly(last.queryLabel, Capped(SeriesIn(last.response.value, datasetId)), o);
      }
      forall i | 0 <= i < |init| ensures init[i] == results[i] { }
    }
  }

  /** The number of samples of a list of series. */
  function SampleCount(series: seq<MetricResult>): nat {
    if series == [] then 0 else SampleCount(series[..|series| - 1]) + |series[|series| - 1].values|
  }

  /** The series of a result the assembler uses: its first `MaxSeries`. */
  function UsedSeries(r: QueryResult, datasetId: string): seq<MetricResult>
    requires r.response.Some?
  {
    Capped(SeriesIn(r.response.value, datasetId))
  }

  /** The samples of the used series of the successful results. */
  function TotalSamples(results: seq<QueryResult>, datasetId: string): nat {
    if results == [] then 0
    else
      var r := results[|results| - 1];
      TotalSamples(results[..|results| - 1], datasetId) + (if Succeeded(r) then SampleCount(UsedSeries(r, datasetId)) else 0)
  }

  lemma {:induction false} SeriesObservationsCount(l: string, series: seq<MetricResult>)
    ensures |SeriesObservations(l, series)| == SampleCount(series)
  {
    if series != [] {
      SeriesObservationsCount(l, series[..|series| - 1]);
    }
  }

  /**
   * Sample `j` of series `s` is visited right after the samples of the series
   * before `s` and the first `j` samples of `s`.
   */
  lemma {:induction false} SeriesObservationAt(l: string, series: seq<MetricResult>, s: nat, j: nat)
    requires s < |series| && j < |series[s].values|
    ensures SampleCount(series[..s]) + j < |SeriesObservations(l, series)|
    ensures SeriesObservations(l, series)[SampleCount(series[..s]) + j] == Observation(l, series[s].metric, series[s].values[j])
  {
    SeriesObservationsCount(l, series);
    var n := |series| - 1;
    var init, last := series[..n], series[n];
    var before := SeriesObservations(l, init);
    SeriesObservationsCount(l, init);
    assert SeriesObservations(l, series) == before + SampleObservations(l, last.metric, last.values);
    if s == n {
      assert series[..s] == init;
    } else {
      SeriesObservationAt(l, init, s, j);
      assert init[..s] == series[..s] && init[s] == series[s];
    }
  }

  /** One observation per sample of the used series of each successful result. */
  lemma {:induction false} ObservationsCount(results: seq<QueryResult>, datasetId: string)
    ensures |Observations(results, datasetId)| == TotalSamples(results, datasetId)
  {
    if results != [] {
      var r := results[|results| - 1];
      ObservationsCount(results[..|results| - 1], datasetId);
      if Succeeded(r) {
        SeriesObservationsCount(r.queryLabel, UsedSeries(r, datasetId));
      }
    }
  }

  /**
   * The observations come in input order: result by result, then series by
   * series, then sample by sample, so sample `j` of used series `s` of result
   * `i` is at the position after all the samples before it.
   */
  lemma {:induction false} ObservationAt(results: seq<QueryResult>, datasetId: string, i: nat, s: nat, j: nat)
    requires i < |results| && Succeeded(results[i])
    requires s < |UsedSeries(results[i], datasetId)| && j < |UsedSeries(results[i], datasetId)[s].values|
    ensures var series := UsedSeries(results[i], datasetId);
      var p := TotalSamples(results[..i], datasetId) + SampleCount(series[..s]) + j;
      p < |Observations(results, datasetId)| &&
      Observations(results, datasetId)[p] == Observation(results[i].queryLabel, series[s].metric, series[s].values[j])
  {
    var n := |results| - 1;
    var init, r := results[..n], results[n];
    var before := Observations(init, datasetId);
    assert Observations(results, datasetId) == before + ResultObservations(r, datasetId);
    if i == n {
      LastResultObservationAt(results, datasetId, s, j);
    } else {
      assert init[..i] == results[..i] && init[i] == results[i];
      ObservationAt(init, datasetId, i, s, j);
      var series := UsedSeries(results[i], datasetId);
      var p := TotalSamples(results[..i], datasetId) + SampleCount(series[..s]) + j;
      assert p < |before| && before[p] == Observation(results[i].queryLabel, series[s].metric, series[s].values[j]);
    }
  }

  lemma LastResultObservationAt(results: seq<QueryResult>, datasetId: string, s: nat, j: nat)
    requires results != [] && Succeeded(results[|results| - 1])
    requires s < |UsedSeries(results[|results| - 1], datasetId)|
    requires j < |UsedSeries(results[|results| - 1], datasetId)[s].values|
    ensures var r := results[|results| - 1];
      var series := UsedSeries(r, datasetId);
      var p := TotalSamples(results[..|results| - 1], datasetId) + SampleCount(series[..s]) + j;
      p < |Observations(results, datasetId)| &&
      Observations(results, datasetId)[p] == Observation(r.queryLabel, series[s].metric, series[s].values[j])
  {
    var init, r := results[..|results| - 1], results[|results| - 1];
    var before := Observations(init, datasetId);
    var mine := SeriesObservations(r.queryLabel, UsedSeries(r, datasetId));
    ObservationsCount(init, datasetId);
    assert Observations(results, datasetId) == before + mine;
    SeriesObservationAt(r.queryLabel, UsedSeries(r, datasetId), s, j);
  }

  // ---------------------------------------------------------------------------
  // The instant map: one entry per metric signature, in first-seen order.

  /** `metric.__name__ || ''`. */
  function MetricName(m: Metric): string {
    match Lookup(m, NameLabel)
    case Some(v) => v
    case None => ""
  }

  /** A copy of the label set with `__name__` deleted. */
  function WithoutName(m: Metric): Metric
  {
    if m == [] then []
    else (if m[0].key != NameLabel then [m[0]] else []) + WithoutName(m[1..])
  }

  lemma {:induction false} WithoutNameExactly(m: Metric)
    ensures forall p :: p in WithoutName(m) <==> p in m && p.key != NameLabel
  {
    if m != [] {
      WithoutNameExactly(m[1..]);
    }
  }

  /**
   * A map entry. Its key, the JSON text of `{name, labels}`, is determined by
   * and determines the pair (`metricName`, `metric`), so the model keys entries
   * by that pair.
   */
  datatype InstantEntry = InstantEntry(metric: Metric, metricName: string, time: int, valuesByQuery: map<string, int>)

  /** The entry belongs to the signature of the observation's series. */
  predicate Matches(e: InstantEntry, o: Observation) {
    e.metricName == MetricName(o.metric) && e.metric == WithoutName(o.metric)
  }

  function TimeMs(o: Observation): int {
    o.sample.timestamp * 1000
  }

  /** `instantDataMap.get(signature)`, as the entry's position. */
  function FindEntry(entries: seq<InstantEntry>, o: Observation): (r: Option<nat>)
    ensures r.Some? ==> r.value < |entries|
  {
    if entries == [] then None
    else if Matches(entries[0], o) then Some(0)
    else match FindEntry(entries[1..], o)
      case None => None
      case Some(k) => Some(k + 1)
  }

  /**
   * One step of the second pass: a new signature or a strictly newer sample
   * (re)sets the entry, keeping the values of the other labels; a sample at the
   * entry's time records its label's value; an older sample changes nothing.
   * `Map.set` on a present key keeps its position.
   */
  function Observe(entries: seq<InstantEntry>, o: Observation): seq<InstantEntry>
  {
    var t := TimeMs(o);
    match FindEntry(entries, o)
    case None =>
      entries + [InstantEntry(WithoutName(o.metric), MetricName(o.metric), t, map[o.queryLabel := o.sample.value])]
    case Some(k) =>
      var e := entries[k];
      if t > e.time then
        entries[k := InstantEntry(WithoutName(o.metric), MetricName(o.metric), t, e.valuesByQuery[o.queryLabel := o.sample.value])]
      else if t == e.time then
        entries[k := e.(valuesByQuery := e.valuesByQuery[o.queryLabel := o.sample.value])]
      else entries
  }

  lemma {:induction false} FindEntryCorrect(entries: seq<InstantEntry>, o: Observation)
    ensures var r := FindEntry(entries, o);
      (r.Some? ==> Matches(entries[r.value], o)) &&
      (r.None? ==> forall k :: 0 <= k < |entries| ==> !Matches(entries[k], o))
  {
    if entries != [] && !Matches(entries[0], o) {
      FindEntryCorrect(entries[1..], o);
      var r := FindEntry(entries, o);
      if r.None? {
        forall k | 0 <= k < |entries| ensures !Matches(entries[k], o) {
          if k > 0 { assert entries[1..][k - 1] == entries[k]; }
        }
      }
    }
  }

  /** The map after observing `os`, starting from `acc`. */
  function Replay(acc: seq<InstantEntry>, os: seq<Observation>): seq<InstantEntry>
  {
    if os == [] then acc else Observe(Replay(acc, os[..|os| - 1]), os[|os| - 1])
  }

  lemma {:induction false} ReplayAppend(acc: seq<InstantEntry>, a: seq<Observation>, b: seq<Observation>)
    ensures Replay(acc, a + b) == Replay(Replay(acc, a), b)
  {
    if b == [] {
      assert a + b == a;
    } else {
      var ab := a + b;
      var init := b[..|b| - 1];
      var last := b[|b| - 1];
      AppendInitLast(a, b);
      ReplayAppend(acc, a, init);
      assert Replay(acc, ab) == Observe(Replay(acc, a + init), last);
      assert Replay(Replay(acc, a), b) == Observe(Replay(Replay(acc, a), init), last);
    }
  }

  /** No two entries share a signature. */
  ghost predicate DistinctSignatures(entries: seq<InstantEntry>) {
    forall i, j :: 0 <= i < j < |entries| ==>
      !(entries[i].metricName == entries[j].metricName && entries[i].metric == entries[j].metric)
  }

  /**
   * What the instant map records about the observations so far: one entry per
   * signature seen; each entry's time is the latest sample time of its
   * signature; every label with a sample at that time has a value; and every
   * label with a value was observed for the signature.
   */
  ghost predicate Summarises(entries: seq<InstantEntry>, os: seq<Observation>) {
    DistinctSignatures(entries) && EveryObservationEntered(entries, os) &&
    EveryEntryObserved(entries, os) && EntriesLatest(entries, os) && ValuesObserved(entries, os)
  }

  ghost predicate EveryObservationEntered(entries: seq<InstantEntry>, os: seq<Observation>) {
    forall o :: o in os ==> exists k :: 0 <= k < |entries| && Matches(entries[k], o)
  }

  ghost predicate EveryEntryObserved(entries: seq<InstantEntry>, os: seq<Observation>) {
    forall k :: 0 <= k < |entries| ==> ObservedAtItsTime(entries[k], os)
  }

  /** Some observation of the entry's signature has the entry's time. */
  ghost predicate ObservedAtItsTime(e: InstantEntry, os: seq<Observation>) {
    exists o :: o in os && Matches(e, o) && TimeMs(o) == e.time
  }

  ghost predicate EntriesLatest(entries: seq<InstantEntry>, os: seq<Observation>) {
    forall k, o :: 0 <= k < |entries| && o in os && Matches(entries[k], o) ==>
      TimeMs(o) <= entries[k].time &&
      (TimeMs(o) == entries[k].time ==> o.queryLabel in entries[k].valuesByQuery)
  }

  ghost predicate ValuesObserved(entries: seq<InstantEntry>, os: seq<Observation>) {
    forall k, l :: 0 <= k < |entries| && l in entries[k].valuesByQuery ==>
      exists o :: o in os && Matches(entries[k], o) && o.queryLabel == l
  }

  lemma MatchesSameSignature(e: InstantEntry, f: InstantEntry, o: Observation)
    requires Matches(e, o)
    ensures Matches(f, o) <==> f.metricName == e.metricName && f.metric == e.metric
  {
  }

  /** The entry a new signature or a strictly newer sample puts in the map. */
  predicate Fresh(e: InstantEntry, o: Observation, kept: map<string, int>) {
    Matches(e, o) && e.time == TimeMs(o) && e.valuesByQuery == kept[o.queryLabel := o.sample.value]
  }

  lemma AppendEntered(entries: seq<InstantEntry>, os: seq<Observation>, o: Observation, e: InstantEntry)
    requires EveryObservationEntered(entries, os) && Matches(e, o)
    ensures EveryObservationEntered(entries + [e], os + [o])
  {
    var r := entries + [e];
    forall o' | o' in os + [o] ensures exists k :: 0 <= k < |r| && Matches(r[k], o') {
      if o' in os {
        var k :| 0 <= k < |entries| && Matches(entries[k], o');
        assert r[k] == entries[k];
      } else {
        assert r[|entries|] == e;
      }
    }
  }

  lemma AppendObserved(entries: seq<InstantEntry>, os: seq<Observation>, o: Observation, e: InstantEntry)
    requires EveryEntryObserved(entries, os) && Matches(e, o) && e.time == TimeMs(o)
    ensures EveryEntryObserved(entries + [e], os + [o])
  {
    var r := entries + [e];
    forall k | 0 <= k < |r| ensures exists o' :: o' in os + [o] && Matches(r[k], o') && TimeMs(o') == r[k].time {
      if k < |entries| {
        var o' :| o' in os && Matches(entries[k], o') && TimeMs(o') == entries[k].time;
        assert o' in os + [o];
      } else {
        assert o in os + [o];
      }
    }
  }

  lemma AppendLatest(entries: seq<InstantEntry>, os: seq<Observation>, o: Observation, e: InstantEntry)
    requires EveryObservationEntered(entries, os) && DistinctSignatures(entries)
    requires EntriesLatest(entries, os) && Fresh(e, o, map[])
    requires forall k :: 0 <= k < |entries| ==> !Matches(entries[k], o)
    ensures EntriesLatest(entries + [e], os + [o])
  {
    var r := entries + [e];
    forall o' | o' in os ensures !Matches(e, o') {
      var k' :| 0 <= k' < |entries| && Matches(entries[k'], o');
      assert !Matches(entries[k'], o);
    }
    forall k, o' | 0 <= k < |r| && o' in os + [o] && Matches(r[k], o')
      ensures TimeMs(o') <= r[k].time && (TimeMs(o') == r[k].time ==> o'.queryLabel in r[k].valuesByQuery)
    {
      if k < |entries| {
        assert r[k] == entries[k];
        if o' == o {
          assert false;
        }
      }
    }
  }

  lemma AppendValues(entries: seq<InstantEntry>, os: seq<Observation>, o: Observation, e: InstantEntry)
    requires ValuesObserved(entries, os) && Fresh(e, o, map[])
    ensures ValuesObserved(entries + [e], os + [o])
  {
    var r := entries + [e];
    forall k, l | 0 <= k < |r| && l in r[k].valuesByQuery
      ensures exists o' :: o' in os + [o] && Matches(r[k], o') && o'.queryLabel == l
    {
      if k < |entries| {
        assert r[k] == entries[k];
        var o' :| o' in os && Matches(entries[k], o') && o'.queryLabel == l;
        assert o' in os + [o];
      } else {
        assert o in os + [o];
      }
    }
  }

  lemma AppendDistinct(entries: seq<InstantEntry>, o: Observation, e: InstantEntry)
    requires DistinctSignatures(entries) && Matches(e, o)
    requires forall k :: 0 <= k < |entries| ==> !Matches(entries[k], o)
    ensures DistinctSignatures(entries + [e])
  {
  }

  /** In a map with distinct signatures, at most one entry matches an observation. */
  lemma OnlyMatch(entries: seq<InstantEntry>, o: Observation, k: nat, j: nat)
    requires DistinctSignatures(entries) && k < |entries| && j < |entries|
    requires Matches(entries[k], o) && j != k
    ensures !Matches(entries[j], o)
  {
    if j < k {
      assert !(entries[j].metricName == entries[k].metricName && entries[j].metric == entries[k].metric);
    } else {
      assert !(entries[k].metricName == entries[j].metricName && entries[k].metric == entries[j].metric);
    }
  }

  lemma ReplaceEntered(entries: seq<InstantEntry>, os: seq<Observation>, o: Observation, k: nat, e: InstantEntry)
    requires k < |entries| && Matches(entries[k], o) && Matches(e, o)
    requires EveryObservationEntered(entries, os) && DistinctSignatures(entries)
    ensures EveryObservationEntered(entries[k := e], os + [o]) && DistinctSignatures(entries[k := e])
  {
    var r := entries[k := e];
    forall o' | o' in os + [o] ensures exists j :: 0 <= j < |r| && Matches(r[j], o') {
      if o' in os {
        var j :| 0 <= j < |entries| && Matches(entries[j], o');
        assert Matches(r[j], o');
      } else {
        assert Matches(r[k], o');
      }
    }
  }

  lemma ReplaceObserved(entries: seq<InstantEntry>, os: seq<Observation>, o: Observation, k: nat, e: InstantEntry)
    requires k < |entries| && Matches(e, o)
    requires e.time == TimeMs(o) || e.time == entries[k].time
    requires e.metric == entries[k].metric && e.metricName == entries[k].metricName
    requires EveryEntryObserved(entries, os)
    ensures EveryEntryObserved(entries[k := e], os + [o])
  {
    var r := entries[k := e];
    forall j | 0 <= j < |r| ensures exists o' :: o' in os + [o] && Matches(r[j], o') && TimeMs(o') == r[j].time {
      if j == k && e.time == TimeMs(o) {
        assert o in os + [o];
      } else {
        var o' :| o' in os && Matches(entries[j], o') && TimeMs(o') == entries[j].time;
        assert o' in os + [o];
      }
    }
  }

  lemma ReplaceLatest(entries: seq<InstantEntry>, os: seq<Observation>, o: Observation, k: nat, e: InstantEntry)
    requires k < |entries| && Matches(entries[k], o) && DistinctSignatures(entries)
    requires e.metric == entries[k].metric && e.metricName == entries[k].metricName
    requires TimeMs(o) >= entries[k].time && e.time == TimeMs(o)
    requires o.queryLabel in e.valuesByQuery
    requires entries[k].valuesByQuery.Keys <= e.valuesByQuery.Keys
    requires EntriesLatest(entries, os)
    ensures EntriesLatest(entries[k := e], os + [o])
  {
    var r := entries[k := e];
    forall j, o' | 0 <= j < |r| && o' in os + [o] && Matches(r[j], o')
      ensures TimeMs(o') <= r[j].time && (TimeMs(o') == r[j].time ==> o'.queryLabel in r[j].valuesByQuery)
    {
      if j != k {
        OnlyMatch(entries, o, k, j);
        assert r[j] == entries[j];
      } else if o' != o {
        assert Matches(entries[k], o');
      }
    }
  }

  lemma ReplaceValues(entries: seq<InstantEntry>, os: seq<Observation>, o: Observation, k: nat, e: InstantEntry)
    requires k < |entries| && Matches(entries[k], o)
    requires e.metric == entries[k].metric && e.metricName == entries[k].metricName
    requires e.valuesByQuery == entries[k].valuesByQuery[o.queryLabel := o.sample.value]
    requires ValuesObserved(entries, os)
    ensures ValuesObserved(entries[k := e], os + [o])
  {
    var r := entries[k := e];
    forall j, l | 0 <= j < |r| && l in r[j].valuesByQuery
      ensures exists o' :: o' in os + [o] && Matches(r[j], o') && o'.queryLabel == l
    {
      if j == k && l == o.queryLabel {
        assert o in os + [o];
      } else {
        var o' :| o' in os && Matches(entries[j], o') && o'.queryLabel == l;
        assert o' in os + [o];
      }
    }
  }

  lemma KeepEntered(entries: seq<InstantEntry>, os: seq<Observation>, o: Observation, k: nat)
    requires k < |entries| && Matches(entries[k], o)
    requires EveryObservationEntered(entries, os)
    ensures EveryObservationEntered(entries, os + [o])
  {
    forall o' | o' in os + [o] ensures exists j :: 0 <= j < |entries| && Matches(entries[j], o') {
      if o' == o {
        assert Matches(entries[k], o');
      }
    }
  }

  lemma {:induction false} KeepObserved(entries: seq<InstantEntry>, os: seq<Observation>, o: Observation)
    requires EveryEntryObserved(entries, os)
    ensures EveryEntryObserved(entries, os + [o])
  {
    forall j | 0 <= j < |entries| ensures ObservedAtItsTime(entries[j], os + [o]) {
      assert ObservedAtItsTime(entries[j], os);
      var w :| w in os && Matches(entries[j], w) && TimeMs(w) == entries[j].time;
      assert w in os + [o];
    }
  }

  lemma KeepValues(entries: seq<InstantEntry>, os: seq<Observation>, o: Observation)
    requires ValuesObserved(entries, os)
    ensures ValuesObserved(entries, os + [o])
  {
    forall j, l | 0 <= j < |entries| && l in entries[j].valuesByQuery
      ensures exists o' :: o' in os + [o] && Matches(entries[j], o') && o'.queryLabel == l
    {
      var o' :| o' in os && Matches(entries[j], o') && o'.queryLabel == l;
      assert o' in os + [o];
    }
  }

  lemma KeepLatest(entries: seq<InstantEntry>, os: seq<Observation>, o: Observation, k: nat)
    requires k < |entries| && Matches(entries[k], o) && DistinctSignatures(entries)
    requires TimeMs(o) < entries[k].time
    requires EntriesLatest(entries, os)
    ensures EntriesLatest(entries, os + [o])
  {
    forall j, o' | 0 <= j < |entries| && o' in os + [o] && Matches(entries[j], o')
      ensures TimeMs(o') <= entries[j].time && (TimeMs(o') == entries[j].time ==> o'.queryLabel in entries[j].valuesByQuery)
    {
      if j != k {
        OnlyMatch(entries, o, k, j);
      }
    }
  }

  lemma ObserveNew(entries: seq<InstantEntry>, os: seq<Observation>, o: Observation, e: InstantEntry)
    requires Summarises(entries, os) && Fresh(e, o, map[])
    requires forall k :: 0 <= k < |entries| ==> !Matches(entries[k], o)
    ensures Summarises(entries + [e], os + [o])
  {
    AppendEntered(entries, os, o, e);
    AppendObserved(entries, os, o, e);
    AppendLatest(entries, os, o, e);
    AppendValues(entries, os, o, e);
    AppendDistinct(entries, o, e);
  }

  lemma ObserveReplace(entries: seq<InstantEntry>, os: seq<Observation>, o: Observation, k: nat, e: InstantEntry)
    requires Summarises(entries, os)
    requires k < |entries| && Matches(entries[k], o) && Matches(e, o)
    requires TimeMs(o) >= entries[k].time && e.time == TimeMs(o)
    requires e.valuesByQuery == entries[k].valuesByQuery[o.queryLabel := o.sample.value]
    ensures Summarises(entries[k := e], os + [o])
  {
    ReplaceEntered(entries, os, o, k, e);
    ReplaceObserved(entries, os, o, k, e);
    ReplaceLatest(entries, os, o, k, e);
    ReplaceValues(entries, os, o, k, e);
  }

  lemma ObserveOlder(entries: seq<InstantEntry>, os: seq<Observation>, o: Observation, k: nat)
    requires Summarises(entries, os)
    requires k < |entries| && Matches(entries[k], o) && TimeMs(o) < entries[k].time
    ensures Summarises(entries, os + [o])
  {
    KeepEntered(entries, os, o, k);
    KeepObserved(entries, os, o);
    KeepValues(entries, os, o);
    KeepLatest(entries, os, o, k);
  }

  /** The three outcomes of a step, as the new map. */
  lemma ObserveCases(entries: seq<InstantEntry>, o: Observation)
    ensures var t := TimeMs(o);
      match FindEntry(entries, o)
      case None => Observe(entries, o) ==
        entries + [InstantEntry(WithoutName(o.metric), MetricName(o.metric), t, map[o.queryLabel := o.sample.value])]
      case Some(k) =>
        var prev := entries[k];
        Observe(entries, o) ==
          if t > prev.time then
            entries[k := InstantEntry(WithoutName(o.metric), MetricName(o.metric), t, prev.valuesByQuery[o.queryLabel := o.sample.value])]
          else if t == prev.time then entries[k := prev.(valuesByQuery := prev.valuesByQuery[o.queryLabel := o.sample.value])]
          else entries
  {
  }

  /** Each step of the second pass keeps the instant map a summary of what it has seen. */
  lemma ObservePreserves(entries: seq<InstantEntry>, os: seq<Observation>, o: Observation,
                         after: seq<InstantEntry>, seen: seq<Observation>)
    requires Summarises(entries, os)
    requires after == Observe(entries, o) && seen == os + [o]
    ensures Summarises(after, seen)
  {
    FindEntryCorrect(entries, o);
    ObserveCases(entries, o);
    var t := TimeMs(o);
    match FindEntry(entries, o)
    case None =>
      var e := InstantEntry(WithoutName(o.metric), MetricName(o.metric), t, map[o.queryLabel := o.sample.value]);
      ObserveNew(entries, os, o, e);
    case Some(k) =>
      var prev := entries[k];
      if t > prev.time {
        var e := InstantEntry(WithoutName(o.metric), MetricName(o.metric), t, prev.valuesByQuery[o.queryLabel := o.sample.value]);
        ObserveReplace(entries, os, o, k, e);
      } else if t == prev.time {
        var e := prev.(valuesByQuery := prev.valuesByQuery[o.queryLabel := o.sample.value]);
        ObserveReplace(entries, os, o, k, e);
      } else {
        ObserveOlder(entries, os, o, k);
      }
  }

  /**
   * The instant map after the whole second pass: one entry per signature
   * observed, each at the latest sample time of its signature, with a value
   * for every label sampled at that time and for no label never observed.
   */
  lemma {:induction false} EntriesSummarise(os: seq<Observation>)
    ensures Summarises(Replay([], os), os)
  {
    if os != [] {
      var init := os[..|os| - 1];
      var last := os[|os| - 1];
      EntriesSummarise(init);
      SummariseStep(os);
    }
  }

  lemma SummariseStep(os: seq<Observation>)
    requires os != []
    requires Summarises(Replay([], os[..|os| - 1]), os[..|os| - 1])
    ensures Summarises(Replay([], os), os)
  {
    InitLast(os);
    ObservePreserves(Replay([], os[..|os| - 1]), os[..|os| - 1], os[|os| - 1], Replay([], os), os);
  }

  /**
   * The update rule seen from one entry: the entry of the observation's
   * signature ends with the later of its time and the sample's; a sample that
   * is not older records its label's value and keeps every other label's
   * value; an older sample changes nothing; other entries are untouched.
   */
  lemma ObserveRule(entries: seq<InstantEntry>, o: Observation, k: nat)
    requires DistinctSignatures(entries) && k < |entries| && Matches(entries[k], o)
    ensures var r := Observe(entries, o);
      |r| == |entries| && Matches(r[k], o) &&
      r[k].time == Max(entries[k].time, TimeMs(o)) &&
      (TimeMs(o) >= entries[k].time ==>
        r[k].valuesByQuery == entries[k].valuesByQuery[o.queryLabel := o.sample.value]) &&
      (TimeMs(o) < entries[k].time ==> r[k] == entries[k]) &&
      forall j :: 0 <= j < |entries| && j != k ==> r[j] == entries[j]
  {
    FindEntryCorrect(entries, o);
    var f := FindEntry(entries, o);
    if f.value != k {
      OnlyMatch(entries, o, k, f.value);
    }
    ObserveCases(entries, o);
  }

  /** A signature not yet in the map gets a new entry at the end, holding only the sample's label. */
  lemma ObserveRuleNew(entries: seq<InstantEntry>, o: Observation)
    requires forall k :: 0 <= k < |entries| ==> !Matches(entries[k], o)
    ensures var r := Observe(entries, o);
      |r| == |entries| + 1 && r[..|entries|] == entries && Matches(r[|entries|], o) &&
      r[|entries|].time == TimeMs(o) && r[|entries|].valuesByQuery == map[o.queryLabel := o.sample.value]
  {
    FindEntryCorrect(entries, o);
    ObserveCases(entries, o);
  }

  // ---------------------------------------------------------------------------
  // Label keys: the first pass collects them into a `Set`, then sorts them.

  /** `Set.add`: a key already present keeps its place. */
  function AddKey(keys: seq<string>, k: string): seq<string> {
    if k in keys then keys else keys + [k]
  }

  predicate HasKey(m: Metric, k: string) {
    exists i :: 0 <= i < |m| && m[i].key == k
  }

  /** Adds the keys of a label set in order; `__name__` only when `withName`. */
  function AddMetricKeys(keys: seq<string>, m: Metric, withName: bool): seq<string>
  {
    if m == [] then keys
    else
      var ks := AddMetricKeys(keys, m[..|m| - 1], withName);
      var k := m[|m| - 1].key;
      if withName || k != NameLabel then AddKey(ks, k) else ks
  }

  function AddSeriesKeys(keys: seq<string>, series: seq<MetricResult>, withName: bool): seq<string>
  {
    if series == [] then keys
    else AddMetricKeys(AddSeriesKeys(keys, series[..|series| - 1], withName), series[|series| - 1].metric, withName)
  }

  /** The first pass of the assembler: the keys of the used series of the successful results. */
  function AddResultKeys(keys: seq<string>, results: seq<QueryResult>, datasetId: string): seq<string>
  {
    if results == [] then keys
    else
      var ks := AddResultKeys(keys, results[..|results| - 1], datasetId);
      var r := results[|results| - 1];
      if Succeeded(r) then AddSeriesKeys(ks, Capped(SeriesIn(r.response.value, datasetId)), false) else ks
  }

  /** Some series of the list has the key. */
  ghost predicate SeriesHaveKey(series: seq<MetricResult>, k: string) {
    exists s :: 0 <= s < |series| && HasKey(series[s].metric, k)
  }

  lemma {:induction false} AddMetricKeysExactly(keys: seq<string>, m: Metric, withName: bool, k: string)
    ensures k in AddMetricKeys(keys, m, withName) <==> k in keys || ((withName || k != NameLabel) && HasKey(m, k))
    ensures Distinct(keys) ==> Distinct(AddMetricKeys(keys, m, withName))
  {
    if m != [] {
      var init := m[..|m| - 1];
      AddMetricKeysExactly(keys, init, withName, k);
      assert forall i :: 0 <= i < |init| ==> init[i] == m[i];
    }
  }

  lemma {:induction false} AddSeriesKeysExactly(keys: seq<string>, series: seq<MetricResult>, withName: bool, k: string)
    ensures k in AddSeriesKeys(keys, series, withName) <==>
      k in keys || ((withName || k != NameLabel) && SeriesHaveKey(series, k))
    ensures Distinct(keys) ==> Distinct(AddSeriesKeys(keys, series, withName))
  {
    if series != [] {
      var init := series[..|series| - 1];
      var last := series[|series| - 1];
      AddSeriesKeysExactly(keys, init, withName, k);
      AddMetricKeysExactly(AddSeriesKeys(keys, init, withName), last.metric, withName, k);
      assert forall s :: 0 <= s < |init| ==> init[s] == series[s];
    }
  }

  /** Some successful result has the key in one of its first `MaxSeries` series. */
  ghost predicate ResultsHaveKey(results: seq<QueryResult>, datasetId: string, k: string) {
    exists i :: 0 <= i < |results| && Succeeded(results[i]) &&
      SeriesHaveKey(Capped(SeriesIn(results[i].response.value, datasetId)), k)
  }

  lemma {:induction false} AddResultKeysExactly(results: seq<QueryResult>, datasetId: string, k: string)
    ensures k in AddResultKeys([], results, datasetId) <==> k != NameLabel && ResultsHaveKey(results, datasetId, k)
    ensures Distinct(AddResultKeys([], results, datasetId))
  {
    if results != [] {
      var init := results[..|results| - 1];
      var last := results[|results| - 1];
      AddResultKeysExactly(init, datasetId, k);
      if Succeeded(last) {
        AddSeriesKeysExactly(AddResultKeys([], init, datasetId), Capped(SeriesIn(last.response.value, datasetId)), false, k);
      }
      assert forall i :: 0 <= i < |init| ==> init[i] == results[i];
    }
  }

  /** `Array.from(allLabelKeys).sort()` in the multi-query assembler. */
  function LabelKeys(results: seq<QueryResult>, datasetId: string): seq<string> {
    SortStrings(AddResultKeys([], results, datasetId))
  }

  /**
   * The multi-query label keys: sorted, without repeats, and exactly the keys
   * other than `__name__` of the used series of the successful results.
   */
  lemma LabelKeysExactly(results: seq<QueryResult>, datasetId: string)
    ensures var keys := LabelKeys(results, datasetId);
      Distinct(keys) &&
      (forall i, j :: 0 <= i < j < |keys| ==> StrLess(keys[i], keys[j])) &&
      forall k :: k in keys <==> k != NameLabel && ResultsHaveKey(results, datasetId, k)
  {
    var collected := AddResultKeys([], results, datasetId);
    AddResultKeysExactly(results, datasetId, "");
    SortStringsDistinct(collected);
    forall k ensures k in collected <==> k != NameLabel && ResultsHaveKey(results, datasetId, k) {
      AddResultKeysExactly(results, datasetId, k);
    }
  }

  /** Sorting distinct strings gives a strictly ascending list of the same strings. */
  lemma SortStringsDistinct(xs: seq<string>)
    requires Distinct(xs)
    ensures var r := SortStrings(xs);
      Distinct(r) &&
      (forall i, j :: 0 <= i < j < |r| ==> StrLess(r[i], r[j])) &&
      forall k :: k in r <==> k in xs
  {
    var r := SortStrings(xs);
    PermutationDistinct(r, xs);
    forall k ensures k in r <==> k in xs {
      assert k in r <==> k in multiset(r);
      assert k in xs <==> k in multiset(xs);
    }
    forall i, j | 0 <= i < j < |r| ensures StrLess(r[i], r[j]) {
      StrLessTotal(r[i], r[j]);
    }
  }

  // ---------------------------------------------------------------------------
  // Rows, schemas and the data frame.

  datatype ColumnType = TimeColumn | StringColumn | NumberColumn

  /** A schema entry (its `values` list is always empty). */
  datatype Column = Column(name: string, kind: ColumnType)

  /** A column of values, one per visualization row. */
  datatype Field = Field(name: string, kind: ColumnType, values: seq<JsValue>)

  datatype QueryError = QueryError(query: string, error: string)

  datatype MultiQueryMeta = MultiQueryMeta(queryCount: nat, successCount: nat, errors: seq<QueryError>, queryLabels: seq<string>)

  /** The frame returned to the client; `instantSchema` and `instantRows` are `meta.instantData`. */
  datatype DataFrame = DataFrame(
    name: string, schema: seq<Column>, fields: seq<Field>, size: nat,
    instantSchema: seq<Column>, instantRows: seq<Record>, multiQuery: Option<MultiQueryMeta>)

  /** A visualization row `{Time, Series, Value}`. */
  datatype VizRow = VizRow(time: int, series: string, value: int)

  const VizSchema: seq<Column> := [Column("Time", TimeColumn), Column("Series", StringColumn), Column("Value", NumberColumn)]

  /** Each schema column with the rows' values under its name. */
  function VizFields(rows: seq<VizRow>): seq<Field> {
    [ Field("Time", TimeColumn, seq(|rows|, i requires 0 <= i < |rows| => Num(rows[i].time))),
      Field("Series", StringColumn, seq(|rows|, i requires 0 <= i < |rows| => Str(rows[i].series))),
      Field("Value", NumberColumn, seq(|rows|, i requires 0 <= i < |rows| => Num(rows[i].value))) ]
  }

  /** Reads row `i` back from the three columns. */
  function VizRowAt(fields: seq<Field>, i: nat): Option<VizRow> {
    if |fields| == 3 && i < |fields[0].values| && i < |fields[1].values| && i < |fields[2].values| &&
       fields[0].values[i].Num? && fields[1].values[i].Str? && fields[2].values[i].Num?
    then Some(VizRow(fields[0].values[i].n, fields[1].values[i].s, fields[2].values[i].n))
    else None
  }

  /**
   * The columns follow the schema, hold one value per row, and the rows can be
   * read back from them unchanged.
   */
  lemma VizFieldsRoundTrip(rows: seq<VizRow>)
    ensures var fields := VizFields(rows);
      |fields| == |VizSchema| &&
      (forall c :: 0 <= c < |fields| ==>
        fields[c].name == VizSchema[c].name && fields[c].kind == VizSchema[c].kind && |fields[c].values| == |rows|) &&
      forall i :: 0 <= i < |rows| ==> VizRowAt(fields, i) == Some(rows[i])
  {
  }

  /** The visualization row of one multi-query sample: the series is named `label: {labels}`. */
  function MultiVizRow(o: Observation): VizRow {
    VizRow(TimeMs(o), o.queryLabel + ": " + FormatMetricLabels(o.metric), o.sample.value)
  }

  function MultiVizRows(os: seq<Observation>): (rows: seq<VizRow>)
    ensures |rows| == |os|
  {
    seq(|os|, i requires 0 <= i < |os| => MultiVizRow(os[i]))
  }

  /** The label cell of an instant row: the value when present and non-empty, else `undefined`. */
  function LabelCell(m: Metric, k: string): JsValue {
    match Lookup(m, k)
    case Some(v) => if v != "" then Str(v) else Undefined
    case None => Undefined
  }

  /** A label cell holds a string exactly when the label has that non-empty value. */
  lemma LabelCellMeaning(m: Metric, k: string, v: string)
    requires DistinctLabelKeys(m)
    ensures LabelCell(m, k).Str? || LabelCell(m, k) == Undefined
    ensures LabelCell(m, k) == Str(v) <==> LabelPair(k, v) in m && v != ""
  {
    if Lookup(m, k).Some? {
      LookupFound(m, k);
    }
    if LabelPair(k, v) in m {
      var i :| 0 <= i < |m| && m[i] == LabelPair(k, v);
      LookupPresent(m, i);
    }
  }

  function LabelCells(m: Metric, keys: seq<string>): (cells: seq<JsValue>)
    ensures |cells| == |keys|
  {
    seq(|keys|, i requires 0 <= i < |keys| => LabelCell(m, keys[i]))
  }

  /** `Value #<label>`. */
  function ValueColumn(ql: string): string {
    "Value #" + ql
  }

  function ValueColumns(labels: seq<string>): (cs: seq<string>)
    ensures |cs| == |labels|
  {
    seq(|labels|, i requires 0 <= i < |labels| => ValueColumn(labels[i]))
  }

  /** `data.valuesByQuery[label] ?? null`. */
  function ValueCell(e: InstantEntry, ql: string): JsValue {
    if ql in e.valuesByQuery then Num(e.valuesByQuery[ql]) else Null
  }

  function ValueCells(e: InstantEntry, labels: seq<string>): (cells: seq<JsValue>)
    ensures |cells| == |labels|
  {
    seq(|labels|, i requires 0 <= i < |labels| => ValueCell(e, labels[i]))
  }

  /** The first two cells of an instant row: the entry's time and its formatted metric. */
  function InstantRowStart(e: InstantEntry): Record {
    [Property("Time", Num(e.time)), Property("Metric", Str(e.metricName + FormatMetricLabels(e.metric)))]
  }

  /** The instant row of one map entry: time, metric, one cell per label key, one per query label. */
  function InstantRow(e: InstantEntry, keys: seq<string>, labels: seq<string>): Record {
    SetAll(SetAll(InstantRowStart(e), keys, LabelCells(e.metric, keys)), ValueColumns(labels), ValueCells(e, labels))
  }

  function InstantRows(entries: seq<InstantEntry>, keys: seq<string>, labels: seq<string>): (rows: seq<Record>)
    ensures |rows| == |entries|
  {
    if entries == [] then []
    else InstantRows(entries[..|entries| - 1], keys, labels) + [InstantRow(entries[|entries| - 1], keys, labels)]
  }

  lemma {:induction false} InstantRowsAt(entries: seq<InstantEntry>, keys: seq<string>, labels: seq<string>, i: nat)
    requires i < |entries|
    ensures InstantRows(entries, keys, labels)[i] == InstantRow(entries[i], keys, labels)
  {
    var init := entries[..|entries| - 1];
    var rows := InstantRows(entries, keys, labels);
    assert rows == InstantRows(init, keys, labels) + [InstantRow(entries[|entries| - 1], keys, labels)];
    if i < |entries| - 1 {
      InstantRowsAt(init, keys, labels, i);
      assert init[i] == entries[i];
      assert rows[i] == InstantRows(init, keys, labels)[i];
    }
  }

  function StringColumns(keys: seq<string>): seq<Column> {
    seq(|keys|, i requires 0 <= i < |keys| => Column(keys[i], StringColumn))
  }

  function NumberColumns(names: seq<string>): seq<Column> {
    seq(|names|, i requires 0 <= i < |names| => Column(names[i], NumberColumn))
  }

  function InstantSchema(keys: seq<string>, labels: seq<string>): seq<Column> {
    [Column("Time", TimeColumn), Column("Metric", StringColumn)] + StringColumns(keys) + NumberColumns(ValueColumns(labels))
  }

  function ColumnNames(cols: seq<Column>): (names: seq<string>)
    ensures |names| == |cols|
  {
    seq(|cols|, i requires 0 <= i < |cols| => cols[i].name)
  }

  lemma InstantSchemaNames(keys: seq<string>, labels: seq<string>)
    ensures ColumnNames(InstantSchema(keys, labels)) == ["Time", "Metric"] + keys + ValueColumns(labels)
  {
    var head := [Column("Time", TimeColumn), Column("Metric", StringColumn)];
    var a, b := StringColumns(keys), NumberColumns(ValueColumns(labels));
    assert ColumnNames(head) == ["Time", "Metric"];
    assert ColumnNames(a) == keys;
    assert ColumnNames(b) == ValueColumns(labels);
    ColumnNamesAppend(head, a);
    ColumnNamesAppend(head + a, b);
  }

  lemma ColumnNamesAppend(a: seq<Column>, b: seq<Column>)
    ensures ColumnNames(a + b) == ColumnNames(a) + ColumnNames(b)
  {
  }

  /** A label key that would overwrite or be overwritten by another cell of an instant row. */
  predicate ClashesWithColumns(k: string) {
    k == "Time" || k == "Metric" || StartsWith(k, "Value #")
  }

  lemma ValueColumnsDistinct(labels: seq<string>)
    requires Distinct(labels)
    ensures Distinct(ValueColumns(labels))
    ensures forall i :: 0 <= i < |labels| ==> ClashesWithColumns(ValueColumns(labels)[i])
  {
    var cs := ValueColumns(labels);
    forall i, j | 0 <= i < j < |cs| ensures cs[i] != cs[j] {
      assert cs[i][7..] == labels[i] && cs[j][7..] == labels[j];
    }
    forall i | 0 <= i < |labels| ensures ClashesWithColumns(cs[i]) {
      assert cs[i][..7] == "Value #";
    }
  }

  /**
   * An instant row has exactly the instant schema's columns, in order, when
   * label keys and query labels do not repeat and no label key clashes with the
   * other columns.
   */
  lemma InstantRowKeys(e: InstantEntry, keys: seq<string>, labels: seq<string>)
    requires Distinct(keys) && Distinct(labels)
    requires forall i :: 0 <= i < |keys| ==> !ClashesWithColumns(keys[i])
    ensures Keys(InstantRow(e, keys, labels)) == ColumnNames(InstantSchema(keys, labels))
  {
    var start := InstantRowStart(e);
    var cells := LabelCells(e.metric, keys);
    var mid := SetAll(start, keys, cells);
    var names := ValueColumns(labels);
    assert Keys(start) == ["Time", "Metric"];
    SetAllKeys(start, keys, cells);
    ValueColumnsDistinct(labels);
    assert forall i :: 0 <= i < |names| ==> names[i] !in Keys(mid);
    SetAllKeys(mid, names, ValueCells(e, labels));
    InstantSchemaNames(keys, labels);
  }

  /** Each cell of an instant row reads as its entry says, under the same conditions. */
  lemma InstantRowCells(e: InstantEntry, keys: seq<string>, labels: seq<string>)
    requires Distinct(keys) && Distinct(labels)
    requires forall i :: 0 <= i < |keys| ==> !ClashesWithColumns(keys[i])
    ensures var row := InstantRow(e, keys, labels);
      Get(row, "Time") == Num(e.time) &&
      Get(row, "Metric") == Str(e.metricName + FormatMetricLabels(e.metric)) &&
      (forall i :: 0 <= i < |keys| ==> Get(row, keys[i]) == LabelCell(e.metric, keys[i])) &&
      forall i :: 0 <= i < |labels| ==> Get(row, ValueColumn(labels[i])) == ValueCell(e, labels[i])
  {
    var start := InstantRowStart(e);
    var cells := LabelCells(e.metric, keys);
    var mid := SetAll(start, keys, cells);
    var names := ValueColumns(labels);
    var values := ValueCells(e, labels);
    var row := SetAll(mid, names, values);
    SetAllGet(start, keys, cells);
    ValueColumnsDistinct(labels);
    SetAllGet(mid, names, values);
    assert "Time" !in names && "Metric" !in names;
    assert "Time" !in keys && "Metric" !in keys;
    assert Get(start, "Metric") == Str(e.metricName + FormatMetricLabels(e.metric)) by {
      assert start[1..] == [Property("Metric", Str(e.metricName + FormatMetricLabels(e.metric)))];
    }
    forall i | 0 <= i < |keys| ensures Get(row, keys[i]) == LabelCell(e.metric, keys[i]) {
      assert keys[i] !in names;
    }
    forall i | 0 <= i < |labels| ensures Get(row, ValueColumn(labels[i])) == ValueCell(e, labels[i]) {
      assert names[i] == ValueColumn(labels[i]) && values[i] == ValueCell(e, labels[i]);
    }
  }

  // ---------------------------------------------------------------------------
  // The multi-query bookkeeping in `meta.multiQuery`.

  /** The labels of the results with a response and no error, in order. */
  function QueryLabels(results: seq<QueryResult>): (labels: seq<string>)
    ensures |labels| <= |results|
  {
    if results == [] then []
    else
      var r := results[|results| - 1];
      QueryLabels(results[..|results| - 1]) + (if Succeeded(r) then [r.queryLabel] else [])
  }

  /** One error per failed result, in order. */
  function QueryErrors(results: seq<QueryResult>): (errors: seq<QueryError>)
    ensures |errors| <= |results|
  {
    if results == [] then []
    else
      var r := results[|results| - 1];
      QueryErrors(results[..|results| - 1]) + (if Failed(r) then [QueryError(r.queryLabel, r.error.value)] else [])
  }

  /** The number of results without an error (a response is not required). */
  function SuccessCount(results: seq<QueryResult>): nat {
    if results == [] then 0
    else SuccessCount(results[..|results| - 1]) + (if Failed(results[|results| - 1]) then 0 else 1)
  }

  /**
   * Every query is counted once, as an error or as a success; the query labels
   * are those of the successful results that also have a response.
   */
  lemma {:induction false} MetaCounts(results: seq<QueryResult>)
    ensures |QueryErrors(results)| + SuccessCount(results) == |results|
    ensures |QueryLabels(results)| <= SuccessCount(results)
  {
    if results != [] {
      MetaCounts(results[..|results| - 1]);
    }
  }

  lemma {:induction false} QueryErrorsExactly(results: seq<QueryResult>, q: QueryError)
    ensures q in QueryErrors(results) <==>
      exists i :: 0 <= i < |results| && Failed(results[i]) && q == QueryError(results[i].queryLabel, results[i].error.value)
  {
    if results != [] {
      var init := results[..|results| - 1];
      QueryErrorsExactly(init, q);
      assert forall i :: 0 <= i < |init| ==> init[i] == results[i];
    }
  }

  lemma {:induction false} QueryLabelsExactly(results: seq<QueryResult>, l: string)
    ensures l in QueryLabels(results) <==>
      exists i :: 0 <= i < |results| && Succeeded(results[i]) && results[i].queryLabel == l
  {
    if results != [] {
      var init := results[..|results| - 1];
      QueryLabelsExactly(init, l);
      assert forall i :: 0 <= i < |init| ==> init[i] == results[i];
    }
  }

  /**
   * `queryLabels` lists the labels of the successful results in input order:
   * its k-th label is that of the k-th successful result.
   */
  lemma {:induction false} QueryLabelsInOrder(results: seq<QueryResult>)
    ensures var idx := Where(results, Succeeded);
      |QueryLabels(results)| == |idx| &&
      forall k :: 0 <= k < |idx| ==> QueryLabels(results)[k] == results[idx[k]].queryLabel
  {
    if results != [] {
      var n := |results| - 1;
      var init := results[..n];
      QueryLabelsInOrder(init);
      var wi := Where(init, Succeeded);
      var r := results[n];
      var tail := if Succeeded(r) then [r.queryLabel] else [];
      var idx := wi + (if Succeeded(r) then [n] else []);
      assert Where(results, Succeeded) == idx;
      assert QueryLabels(results) == QueryLabels(init) + tail;
      forall k | 0 <= k < |idx| ensures QueryLabels(results)[k] == results[idx[k]].queryLabel {
        if k < |wi| {
          assert init[wi[k]] == results[wi[k]];
        }
      }
    }
  }

  /**
   * `errors` lists the failed results in input order: its k-th entry is the
   * label and message of the k-th failed result.
   */
  lemma {:induction false} QueryErrorsInOrder(results: seq<QueryResult>)
    ensures var idx := Where(results, Failed);
      |QueryErrors(results)| == |idx| &&
      forall k :: 0 <= k < |idx| ==>
        QueryErrors(results)[k] == QueryError(results[idx[k]].queryLabel, results[idx[k]].error.value)
  {
    if results != [] {
      var n := |results| - 1;
      var init := results[..n];
      QueryErrorsInOrder(init);
      var wi := Where(init, Failed);
      var r := results[n];
      var tail := if Failed(r) then [QueryError(r.queryLabel, r.error.value)] else [];
      var idx := wi + (if Failed(r) then [n] else []);
      assert Where(results, Failed) == idx;
      assert QueryErrors(results) == QueryErrors(init) + tail;
      forall k | 0 <= k < |idx|
        ensures QueryErrors(results)[k] == QueryError(results[idx[k]].queryLabel, results[idx[k]].error.value)
      {
        if k < |wi| {
          assert init[wi[k]] == results[wi[k]];
        }
      }
    }
  }

  /** Results with pairwise different labels give pairwise different query labels. */
  lemma QueryLabelsDistinct(results: seq<QueryResult>)
    requires forall i, j :: 0 <= i < j < |results| ==> results[i].queryLabel != results[j].queryLabel
    ensures Distinct(QueryLabels(results))
  {
    QueryLabelsInOrder(results);
    var idx := Where(results, Succeeded);
    forall k, l | 0 <= k < l < |idx| ensures QueryLabels(results)[k] != QueryLabels(results)[l] {
      assert idx[k] < idx[l];
    }
  }

  /** The results of running the split queries: the i-th carries the i-th query's label. */
  ghost predicate ResultsOfSplit(text: string, results: seq<QueryResult>) {
    |results| == |MultiQuery.Split(text)| &&
    forall i :: 0 <= i < |results| ==> results[i].queryLabel == MultiQuery.Split(text)[i].queryLabel
  }

  /**
   * The labels the splitter hands out are pairwise different, so the query
   * labels of the results they produce are distinct, as the instant rows need.
   */
  lemma SplitResultsLabelsDistinct(text: string, results: seq<QueryResult>)
    requires ResultsOfSplit(text, results)
    requires |results| <= MultiQuery.DistinctLabelCount
    ensures Distinct(QueryLabels(results))
  {
    MultiQuery.SplitLabelsDistinct(text);
    QueryLabelsDistinct(results);
  }

  /** `createMultiQueryDataFrame`. */
  function MultiQueryFrame(results: seq<QueryResult>, datasetId: string): DataFrame {
    var os := Observations(results, datasetId);
    var keys := LabelKeys(results, datasetId);
    var labels := QueryLabels(results);
    var rows := MultiVizRows(os);
    DataFrame(
      datasetId, VizSchema, VizFields(rows), |rows|,
      InstantSchema(keys, labels), InstantRows(Replay([], os), keys, labels),
      Some(MultiQueryMeta(|results|, SuccessCount(results), QueryErrors(results), labels)))
  }

  /** The multi-query frame has one visualization row per visited sample, in visiting order. */
  lemma MultiQueryVizRows(results: seq<QueryResult>, datasetId: string)
    ensures var f := MultiQueryFrame(results, datasetId);
      var os := Observations(results, datasetId);
      f.size == |os| && f.schema == VizSchema &&
      forall i :: 0 <= i < |os| ==> VizRowAt(f.fields, i) == Some(MultiVizRow(os[i]))
  {
    VizFieldsRoundTrip(MultiVizRows(Observations(results, datasetId)));
  }

  /**
   * The multi-query frame has one instant row per metric signature, each with
   * exactly the instant schema's columns: the entry's time, one label cell per
   * label key and, for every query label, the value recorded for it or `null`.
   */
  lemma MultiQueryInstantRows(results: seq<QueryResult>, datasetId: string)
    requires Distinct(QueryLabels(results))
    requires forall k :: k in LabelKeys(results, datasetId) ==> !ClashesWithColumns(k)
    ensures var f := MultiQueryFrame(results, datasetId);
      var entries := Replay([], Observations(results, datasetId));
      var keys := LabelKeys(results, datasetId);
      var labels := QueryLabels(results);
      |f.instantRows| == |entries| &&
      forall i :: 0 <= i < |entries| ==>
        Keys(f.instantRows[i]) == ColumnNames(f.instantSchema) &&
        Get(f.instantRows[i], "Time") == Num(entries[i].time) &&
        (forall j :: 0 <= j < |keys| ==> Get(f.instantRows[i], keys[j]) == LabelCell(entries[i].metric, keys[j])) &&
        forall j :: 0 <= j < |labels| ==> Get(f.instantRows[i], ValueColumn(labels[j])) == ValueCell(entries[i], labels[j])
  {
    var entries := Replay([], Observations(results, datasetId));
    var keys := LabelKeys(results, datasetId);
    LabelKeysExactly(results, datasetId);
    forall i | 0 <= i < |keys| ensures !ClashesWithColumns(keys[i]) {
      assert keys[i] in keys;
    }
    InstantRowsShape(entries, keys, QueryLabels(results));
  }

  /** Every instant row has the instant schema's columns and its entry's cells. */
  lemma InstantRowsShape(entries: seq<InstantEntry>, keys: seq<string>, labels: seq<string>)
    requires Distinct(keys) && Distinct(labels)
    requires forall i :: 0 <= i < |keys| ==> !ClashesWithColumns(keys[i])
    ensures var rows := InstantRows(entries, keys, labels);
      forall i :: 0 <= i < |entries| ==>
        Keys(rows[i]) == ColumnNames(InstantSchema(keys, labels)) &&
        Get(rows[i], "Time") == Num(entries[i].time) &&
        (forall j :: 0 <= j < |keys| ==> Get(rows[i], keys[j]) == LabelCell(entries[i].metric, keys[j])) &&
        forall j :: 0 <= j < |labels| ==> Get(rows[i], ValueColumn(labels[j])) == ValueCell(entries[i], labels[j])
  {
    forall i | 0 <= i < |entries|
      ensures InstantRows(entries, keys, labels)[i] == InstantRow(entries[i], keys, labels)
    {
      InstantRowsAt(entries, keys, labels, i);
    }
    forall e | e in entries
      ensures Keys(InstantRow(e, keys, labels)) == ColumnNames(InstantSchema(keys, labels))
      ensures Get(InstantRow(e, keys, labels), "Time") == Num(e.time)
      ensures forall j :: 0 <= j < |keys| ==> Get(InstantRow(e, keys, labels), keys[j]) == LabelCell(e.metric, keys[j])
      ensures forall j :: 0 <= j < |labels| ==> Get(InstantRow(e, keys, labels), ValueColumn(labels[j])) == ValueCell(e, labels[j])
    {
      InstantRowKeys(e, keys, labels);
      InstantRowCells(e, keys, labels);
    }
  }


  // ---------------------------------------------------------------------------
  // `createDataFrame`: the frame of a single query.

  /** The samples the loops of `createDataFrame` visit; the query label plays no part. */
  function SingleObservations(response: Response, datasetId: string): seq<Observation> {
    SeriesObservations("", Capped(SeriesIn(response, datasetId)))
  }

  /** All label keys of the used series, `__name__` included, sorted. */
  function SingleLabelKeys(response: Response, datasetId: string): seq<string> {
    SortStrings(AddSeriesKeys([], Capped(SeriesIn(response, datasetId)), true))
  }

  lemma SingleLabelKeysExactly(response: Response, datasetId: string)
    ensures var keys := SingleLabelKeys(response, datasetId);
      Distinct(keys) &&
      (forall i, j :: 0 <= i < j < |keys| ==> StrLess(keys[i], keys[j])) &&
      forall k :: k in keys <==> SeriesHaveKey(Capped(SeriesIn(response, datasetId)), k)
  {
    var series := Capped(SeriesIn(response, datasetId));
    AddSeriesKeysExactly([], series, true, "");
    SortStringsDistinct(AddSeriesKeys([], series, true));
    forall k ensures k in AddSeriesKeys([], series, true) <==> SeriesHaveKey(series, k) {
      AddSeriesKeysExactly([], series, true, k);
    }
  }

  /** `metric[labelKey] || ''`: a missing label becomes the empty string. */
  function FilledCell(m: Metric, k: string): JsValue {
    match Lookup(m, k)
    case Some(v) => Str(v)
    case None => Str("")
  }

  function FilledCells(m: Metric, keys: seq<string>): (cells: seq<JsValue>)
    ensures |cells| == |keys|
  {
    seq(|keys|, i requires 0 <= i < |keys| => FilledCell(m, keys[i]))
  }

  /** The instant row of one sample: its time, one cell per label key, then its value. */
  function SingleRow(o: Observation, keys: seq<string>): Record {
    Set(SetAll([Property("Time", Num(TimeMs(o)))], keys, FilledCells(o.metric, keys)), "Value", Num(o.sample.value))
  }

  function SingleRows(os: seq<Observation>, keys: seq<string>): (rows: seq<Record>)
    ensures |rows| == |os|
  {
    if os == [] then [] else SingleRows(os[..|os| - 1], keys) + [SingleRow(os[|os| - 1], keys)]
  }

  lemma {:induction false} SingleRowsAt(os: seq<Observation>, keys: seq<string>, i: nat)
    requires i < |os|
    ensures SingleRows(os, keys)[i] == SingleRow(os[i], keys)
  {
    if i < |os| - 1 {
      SingleRowsAt(os[..|os| - 1], keys, i);
    }
  }

  lemma {:induction false} SingleRowsAppend(a: seq<Observation>, b: seq<Observation>, keys: seq<string>)
    ensures SingleRows(a + b, keys) == SingleRows(a, keys) + SingleRows(b, keys)
  {
    if b != [] {
      var ab := a + b;
      var init, last := b[..|b| - 1], b[|b| - 1];
      AppendInitLast(a, b);
      var r := SingleRow(last, keys);
      assert SingleRows(ab, keys) == SingleRows(a + init, keys) + [r];
      assert SingleRows(b, keys) == SingleRows(init, keys) + [r];
      SingleRowsAppend(a, init, keys);
      AppendAssociative(SingleRows(a, keys), SingleRows(init, keys), [r]);
    } else {
      assert a + b == a;
    }
  }

  function SingleSchema(keys: seq<string>): seq<Column> {
    [Column("Time", TimeColumn)] + StringColumns(keys) + [Column("Value", NumberColumn)]
  }

  /**
   * A single-query row has exactly the instant schema's columns when no label
   * key is called `Time` or `Value`; its cells are the sample's time, each
   * label's value or `""`, and the sample's value.
   */
  lemma SingleRowShape(o: Observation, keys: seq<string>)
    requires Distinct(keys) && "Time" !in keys && "Value" !in keys
    ensures var row := SingleRow(o, keys);
      Keys(row) == ColumnNames(SingleSchema(keys)) &&
      Get(row, "Time") == Num(TimeMs(o)) &&
      Get(row, "Value") == Num(o.sample.value) &&
      forall i :: 0 <= i < |keys| ==> Get(row, keys[i]) == FilledCell(o.metric, keys[i])
  {
    SingleRowKeys(o, keys);
    SingleRowCells(o, keys);
  }

  lemma SingleRowKeys(o: Observation, keys: seq<string>)
    requires Distinct(keys) && "Time" !in keys && "Value" !in keys
    ensures Keys(SingleRow(o, keys)) == ColumnNames(SingleSchema(keys))
  {
    var start: Record := [Property("Time", Num(TimeMs(o)))];
    var cells := FilledCells(o.metric, keys);
    var mid := SetAll(start, keys, cells);
    assert Keys(start) == ["Time"];
    SetAllKeys(start, keys, cells);
    assert "Value" !in Keys(mid);
    KeysSet(mid, "Value", Num(o.sample.value));
    assert Keys(SingleRow(o, keys)) == ["Time"] + keys + ["Value"];
    SingleSchemaNames(keys);
  }

  lemma SingleSchemaNames(keys: seq<string>)
    ensures ColumnNames(SingleSchema(keys)) == ["Time"] + keys + ["Value"]
  {
    var head, a, tail := [Column("Time", TimeColumn)], StringColumns(keys), [Column("Value", NumberColumn)];
    assert ColumnNames(a) == keys;
    ColumnNamesAppend(head, a);
    ColumnNamesAppend(head + a, tail);
  }

  lemma SingleRowCells(o: Observation, keys: seq<string>)
    requires Distinct(keys) && "Time" !in keys && "Value" !in keys
    ensures var row := SingleRow(o, keys);
      Get(row, "Time") == Num(TimeMs(o)) &&
      Get(row, "Value") == Num(o.sample.value) &&
      forall i :: 0 <= i < |keys| ==> Get(row, keys[i]) == FilledCell(o.metric, keys[i])
  {
    var start: Record := [Property("Time", Num(TimeMs(o)))];
    var cells := FilledCells(o.metric, keys);
    var mid := SetAll(start, keys, cells);
    assert Keys(start) == ["Time"];
    SetAllGet(start, keys, cells);
    forall i | 0 <= i < |keys| ensures Get(SingleRow(o, keys), keys[i]) == FilledCell(o.metric, keys[i]) {
      GetSet(mid, "Value", Num(o.sample.value), keys[i]);
    }
    GetSet(mid, "Value", Num(o.sample.value), "Time");
  }

  /** `(row.Time as number) || 0`. */
  function RowTime(row: Record): int {
    match Get(row, "Time")
    case Num(n) => n
    case _ => 0
  }

  /** `Math.max(...rows.map(RowTime))`. */
  function LatestTime(rows: seq<Record>): int
    requires rows != []
  {
    if |rows| == 1 then RowTime(rows[0]) else Max(LatestTime(rows[..|rows| - 1]), RowTime(rows[|rows| - 1]))
  }

  /** The latest time is the time of some row and no row is later. */
  lemma {:induction false} LatestTimeIsMax(rows: seq<Record>)
    requires rows != []
    ensures exists i :: 0 <= i < |rows| && RowTime(rows[i]) == LatestTime(rows)
    ensures forall i :: 0 <= i < |rows| ==> RowTime(rows[i]) <= LatestTime(rows)
  {
    if |rows| > 1 {
      var init := rows[..|rows| - 1];
      LatestTimeIsMax(init);
      var i :| 0 <= i < |init| && RowTime(init[i]) == LatestTime(init);
      assert rows[i] == init[i];
      assert forall j :: 0 <= j < |init| ==> rows[j] == init[j];
      var w := if RowTime(rows[|rows| - 1]) >= LatestTime(init) then |rows| - 1 else i;
      assert RowTime(rows[w]) == LatestTime(rows);
    } else {
      assert RowTime(rows[0]) == LatestTime(rows);
    }
  }

  /**
   * When every row has a numeric time, the latest rows are exactly the rows no
   * other row is later than, and there is one whenever there are rows.
   */
  lemma LatestRowsExactly(rows: seq<Record>)
    requires forall i :: 0 <= i < |rows| ==> Get(rows[i], "Time").Num?
    ensures rows == [] <==> LatestRows(rows) == []
    ensures forall r :: r in LatestRows(rows) <==>
      r in rows && forall j :: 0 <= j < |rows| ==> RowTime(rows[j]) <= RowTime(r)
  {
    if rows != [] {
      var t := LatestTime(rows);
      LatestTimeIsMax(rows);
      var w :| 0 <= w < |rows| && RowTime(rows[w]) == t;
      RowsAtExactly(rows, t, rows[w]);
      forall r ensures r in RowsAt(rows, t) <==> r in rows && forall j :: 0 <= j < |rows| ==> RowTime(rows[j]) <= RowTime(r) {
        RowsAtExactly(rows, t, r);
      }
    }
  }

  /** `rows.filter(row => row.Time === t)`. */
  function RowsAt(rows: seq<Record>, t: int): seq<Record>
  {
    if rows == [] then []
    else RowsAt(rows[..|rows| - 1], t) + (if Get(rows[|rows| - 1], "Time") == Num(t) then [rows[|rows| - 1]] else [])
  }

  lemma {:induction false} RowsAtExactly(rows: seq<Record>, t: int, r: Record)
    ensures r in RowsAt(rows, t) <==> r in rows && Get(r, "Time") == Num(t)
  {
    if rows != [] {
      var init := rows[..|rows| - 1];
      RowsAtExactly(init, t, r);
      assert rows == init + [rows[|rows| - 1]];
    }
  }

  /** The rows at the latest time; none when there are no rows. */
  function LatestRows(rows: seq<Record>): seq<Record> {
    if rows == [] then [] else RowsAt(rows, LatestTime(rows))
  }

  /** The series name of one sample: `{k="v", ...}` over the label keys with a non-empty value. */
  function PickedLabels(m: Metric, keys: seq<string>): Metric
  {
    if keys == [] then []
    else
      var k := keys[|keys| - 1];
      PickedLabels(m, keys[..|keys| - 1]) +
        match Lookup(m, k) case Some(v) => (if v != "" then [LabelPair(k, v)] else []) case None => []
  }

  function SingleSeriesName(m: Metric, keys: seq<string>): string {
    var parts := LabelTexts(PickedLabels(m, keys));
    if |parts| > 0 then "{" + Join(parts, ", ") + "}" else ""
  }

  lemma {:induction false} PickedLabelsExactly(m: Metric, keys: seq<string>, p: LabelPair)
    requires DistinctLabelKeys(m)
    ensures p in PickedLabels(m, keys) <==> p.key in keys && p in m && p.value != ""
  {
    if keys != [] {
      var init := keys[..|keys| - 1];
      var k := keys[|keys| - 1];
      PickedLabelsExactly(m, init, p);
      InitLast(keys);
      if Lookup(m, k).Some? {
        LookupFound(m, k);
      }
      if p.key == k && p in m {
        var i :| 0 <= i < |m| && m[i] == p;
        LookupPresent(m, i);
      }
    }
  }

  lemma {:induction false} PickedLabelsSorted(m: Metric, keys: seq<string>)
    requires DistinctLabelKeys(m)
    requires forall i, j :: 0 <= i < j < |keys| ==> StrLess(keys[i], keys[j])
    ensures StrictlySorted(PickedLabels(m, keys))
  {
    if keys != [] {
      var init := keys[..|keys| - 1];
      var k := keys[|keys| - 1];
      PickedLabelsSorted(m, init);
      var before := PickedLabels(m, init);
      forall p | p in before ensures StrLess(p.key, k) {
        PickedLabelsExactly(m, init, p);
        var i :| 0 <= i < |init| && init[i] == p.key;
        assert keys[i] == p.key;
      }
    }
  }

  /**
   * When the sorted label keys include every key of the metric, the series
   * name of `createDataFrame` is the formatting of `formatMetricLabels`.
   */
  lemma SingleSeriesNameFormats(m: Metric, keys: seq<string>)
    requires DistinctLabelKeys(m)
    requires forall i, j :: 0 <= i < j < |keys| ==> StrLess(keys[i], keys[j])
    requires forall i :: 0 <= i < |m| ==> m[i].key in keys
    ensures SingleSeriesName(m, keys) == FormatMetricLabels(m)
  {
    var listing := PickedLabels(m, keys);
    PickedLabelsSorted(m, keys);
    forall p ensures p in listing <==> p in m && p.value != "" {
      PickedLabelsExactly(m, keys, p);
    }
    FormatMetricLabelsListing(m, listing);
  }

  function SingleVizRow(o: Observation, keys: seq<string>): VizRow {
    VizRow(TimeMs(o), SingleSeriesName(o.metric, keys), o.sample.value)
  }

  function SingleVizRows(os: seq<Observation>, keys: seq<string>): (rows: seq<VizRow>)
    ensures |rows| == |os|
  {
    seq(|os|, i requires 0 <= i < |os| => SingleVizRow(os[i], keys))
  }

  /** `createDataFrame`. */
  function SingleFrame(response: Response, datasetId: string): DataFrame {
    var os := SingleObservations(response, datasetId);
    var keys := SingleLabelKeys(response, datasetId);
    var viz := SingleVizRows(os, keys);
    DataFrame(datasetId, VizSchema, VizFields(viz), |viz|, SingleSchema(keys), LatestRows(SingleRows(os, keys)), None)
  }

  /**
   * The single-query instant rows: when no label is called `Time` or `Value`,
   * they are the rows of exactly the samples at the latest sample time, each
   * with the instant schema's columns; there is at least one when any sample
   * was visited.
   */
  lemma SingleFrameInstantRows(response: Response, datasetId: string)
    requires var keys := SingleLabelKeys(response, datasetId); "Time" !in keys && "Value" !in keys
    ensures var f := SingleFrame(response, datasetId);
      var os := SingleObservations(response, datasetId);
      var keys := SingleLabelKeys(response, datasetId);
      (os == [] <==> f.instantRows == []) &&
      (forall r :: r in f.instantRows ==> Keys(r) == ColumnNames(f.instantSchema)) &&
      forall i :: 0 <= i < |os| ==>
        (SingleRow(os[i], keys) in f.instantRows <==> forall j :: 0 <= j < |os| ==> TimeMs(os[j]) <= TimeMs(os[i]))
  {
    SingleLabelKeysExactly(response, datasetId);
    LatestSingleRows(SingleObservations(response, datasetId), SingleLabelKeys(response, datasetId));
  }

  /**
   * A label called `Time` overwrites every row's time with a string (the
   * label's value or `""`), so no row's time equals the numeric maximum and
   * the single-query frame has no instant rows at all.
   */
  lemma TimeLabelLeavesNoInstantRows(response: Response, datasetId: string)
    requires "Time" in SingleLabelKeys(response, datasetId)
    ensures SingleFrame(response, datasetId).instantRows == []
  {
    var os := SingleObservations(response, datasetId);
    var keys := SingleLabelKeys(response, datasetId);
    var rows := SingleRows(os, keys);
    SingleLabelKeysExactly(response, datasetId);
    forall i | 0 <= i < |rows| ensures Get(rows[i], "Time").Str? {
      SingleRowsAt(os, keys, i);
      TimeLabelOverwritesTime(os[i], keys);
    }
    if rows != [] {
      var latest := RowsAt(rows, LatestTime(rows));
      if latest != [] {
        RowsAtExactly(rows, LatestTime(rows), latest[0]);
        assert false;
      }
    }
  }

  /** With a label key `Time`, a row's `Time` cell is that label's cell, a string. */
  lemma TimeLabelOverwritesTime(o: Observation, keys: seq<string>)
    requires Distinct(keys) && "Time" in keys
    ensures Get(SingleRow(o, keys), "Time").Str?
  {
    var start: Record := [Property("Time", Num(TimeMs(o)))];
    var cells := FilledCells(o.metric, keys);
    SetAllGet(start, keys, cells);
    var i :| 0 <= i < |keys| && keys[i] == "Time";
    GetSet(SetAll(start, keys, cells), "Value", Num(o.sample.value), "Time");
    assert Get(SetAll(start, keys, cells), keys[i]) == FilledCell(o.metric, keys[i]);
  }

  /** The latest of the single-query rows: one per sample at the latest time, each with the schema's columns. */
  lemma LatestSingleRows(os: seq<Observation>, keys: seq<string>)
    requires Distinct(keys) && "Time" !in keys && "Value" !in keys
    ensures var latest := LatestRows(SingleRows(os, keys));
      (os == [] <==> latest == []) &&
      (forall r :: r in latest ==> Keys(r) == ColumnNames(SingleSchema(keys))) &&
      forall i :: 0 <= i < |os| ==>
        (SingleRow(os[i], keys) in latest <==> forall j :: 0 <= j < |os| ==> TimeMs(os[j]) <= TimeMs(os[i]))
  {
    var rows := SingleRows(os, keys);
    forall i | 0 <= i < |os|
      ensures rows[i] == SingleRow(os[i], keys)
      ensures Keys(rows[i]) == ColumnNames(SingleSchema(keys))
      ensures Get(rows[i], "Time") == Num(TimeMs(os[i])) && RowTime(rows[i]) == TimeMs(os[i])
    {
      SingleRowsAt(os, keys, i);
      SingleRowShape(os[i], keys);
    }
    LatestRowsExactly(rows);
    forall i | 0 <= i < |os|
      ensures SingleRow(os[i], keys) in LatestRows(rows) <==> forall j :: 0 <= j < |os| ==> TimeMs(os[j]) <= TimeMs(os[i])
    {
      assert rows[i] in rows;
    }
  }


  // ---------------------------------------------------------------------------
  // The assembler as written: loops that fill a key set, the instant map and
  // the row lists, each proved to compute the functions above.

  /** Adds the keys of the first `MaxSeries` series, `__name__` only when `withName`. */
  method CollectSeriesKeys(keys0: seq<string>, series: seq<MetricResult>, withName: bool) returns (keys: seq<string>)
    ensures keys == AddSeriesKeys(keys0, Capped(series), withName)
  {
    keys := keys0;
    for s := 0 to |series|
      invariant keys == AddSeriesKeys(keys0, series[..Min(s, MaxSeries)], withName)
    {
      if s >= MaxSeries {
        continue;
      }
      var m := series[s].metric;
      ghost var before := keys;
      for j := 0 to |m|
        invariant keys == AddMetricKeys(before, m[..j], withName)
      {
        var k := m[j].key;
        if withName || k != NameLabel {
          if k !in keys {
            keys := keys + [k];
          }
        }
        assert m[..j + 1][..j] == m[..j];
      }
      assert m[..|m|] == m;
      assert series[..s + 1][..s] == series[..s];
    }
  }

  /** The first pass: the sorted label keys of the used series of the successful results. */
  method CollectLabelKeys(results: seq<QueryResult>, datasetId: string) returns (keys: seq<string>)
    ensures keys == LabelKeys(results, datasetId)
  {
    var collected: seq<string> := [];
    for i := 0 to |results|
      invariant collected == AddResultKeys([], results[..i], datasetId)
    {
      assert results[..i + 1][..i] == results[..i];
      var r := results[i];
      if r.response.None? || Failed(r) {
        continue;
      }
      collected := CollectSeriesKeys(collected, SeriesIn(r.response.value, datasetId), false);
    }
    assert results[..|results|] == results;
    keys := SortStrings(collected);
  }

  lemma SampleObservationsStep(ql: string, m: Metric, samples: seq<Sample>, j: nat)
    requires j < |samples|
    ensures SampleObservations(ql, m, samples[..j + 1]) == SampleObservations(ql, m, samples[..j]) + [Observation(ql, m, samples[j])]
  {
  }

  lemma ReplayStep(acc: seq<InstantEntry>, os: seq<Observation>, o: Observation)
    ensures Replay(acc, os + [o]) == Observe(Replay(acc, os), o)
  {
    assert (os + [o])[..|os|] == os;
  }

  lemma MultiVizRowsAppend(a: seq<Observation>, b: seq<Observation>)
    ensures MultiVizRows(a + b) == MultiVizRows(a) + MultiVizRows(b)
  {
  }

  /** The update of one map entry for one sample, as the second pass writes it. */
  method ObserveSample(entries0: seq<InstantEntry>, o: Observation, metricName: string, withoutName: Metric)
    returns (entries: seq<InstantEntry>)
    requires metricName == MetricName(o.metric) && withoutName == WithoutName(o.metric)
    ensures entries == Observe(entries0, o)
  {
    entries := entries0;
    var existing := FindEntry(entries, o);
    var timeMs := o.sample.timestamp * 1000;
    if existing.None? {
      entries := entries + [InstantEntry(withoutName, metricName, timeMs, map[o.queryLabel := o.sample.value])];
    } else {
      var e := entries[existing.value];
      if timeMs > e.time {
        entries := entries[existing.value := InstantEntry(withoutName, metricName, timeMs, e.valuesByQuery[o.queryLabel := o.sample.value])];
      } else if timeMs == e.time {
        entries := entries[existing.value := e.(valuesByQuery := e.valuesByQuery[o.queryLabel := o.sample.value])];
      }
    }
  }

  /** The samples of one series: each updates the instant map and adds a visualization row. */
  method ObserveSeries(entries0: seq<InstantEntry>, rows0: seq<VizRow>, ql: string, series: MetricResult)
    returns (entries: seq<InstantEntry>, rows: seq<VizRow>)
    ensures entries == Replay(entries0, SampleObservations(ql, series.metric, series.values))
    ensures rows == rows0 + MultiVizRows(SampleObservations(ql, series.metric, series.values))
  {
    entries, rows := entries0, rows0;
    var metricName := MetricName(series.metric);
    var withoutName := WithoutName(series.metric);
    var samples := series.values;
    for j := 0 to |samples|
      invariant entries == Replay(entries0, SampleObservations(ql, series.metric, samples[..j]))
      invariant rows == rows0 + MultiVizRows(SampleObservations(ql, series.metric, samples[..j]))
    {
      var o := Observation(ql, series.metric, samples[j]);
      SampleObservationsStep(ql, series.metric, samples, j);
      ReplayStep(entries0, SampleObservations(ql, series.metric, samples[..j]), o);
      MultiVizRowsAppend(SampleObservations(ql, series.metric, samples[..j]), [o]);
      entries := ObserveSample(entries, o, metricName, withoutName);
      rows := rows + [MultiVizRow(o)];
    }
    assert samples[..|samples|] == samples;
  }

  lemma SeriesObservationsStep(l: string, series: seq<MetricResult>, s: nat)
    requires s < |series|
    ensures SeriesObservations(l, series[..s + 1]) ==
      SeriesObservations(l, series[..s]) + SampleObservations(l, series[s].metric, series[s].values)
  {
    assert series[..s + 1][..s] == series[..s];
  }

  /** Observing series `s` after the first `s` series continues the replay and the rows. */
  lemma SeriesStep(entries0: seq<InstantEntry>, rows0: seq<VizRow>, l: string, series: seq<MetricResult>, s: nat)
    requires s < |series|
    ensures var done := SeriesObservations(l, series[..s]);
      var next := SampleObservations(l, series[s].metric, series[s].values);
      Replay(entries0, SeriesObservations(l, series[..s + 1])) == Replay(Replay(entries0, done), next) &&
      rows0 + MultiVizRows(SeriesObservations(l, series[..s + 1])) == rows0 + MultiVizRows(done) + MultiVizRows(next)
  {
    var done := SeriesObservations(l, series[..s]);
    var next := SampleObservations(l, series[s].metric, series[s].values);
    SeriesObservationsStep(l, series, s);
    ReplayAppend(entries0, done, next);
    MultiVizRowsAppend(done, next);
  }

  /** Observing result `i` after the first `i` results continues the replay and the rows. */
  lemma ResultStep(results: seq<QueryResult>, datasetId: string, i: nat)
    requires i < |results|
    ensures var done := Observations(results[..i], datasetId);
      var next := ResultObservations(results[i], datasetId);
      Replay([], Observations(results[..i + 1], datasetId)) == Replay(Replay([], done), next) &&
      MultiVizRows(Observations(results[..i + 1], datasetId)) == MultiVizRows(done) + MultiVizRows(next)
  {
    var done := Observations(results[..i], datasetId);
    var next := ResultObservations(results[i], datasetId);
    assert results[..i + 1][..i] == results[..i];
    assert Observations(results[..i + 1], datasetId) == done + next;
    ReplayAppend([], done, next);
    MultiVizRowsAppend(done, next);
  }

  /** The second pass over one result: its first `MaxSeries` series, when it succeeded. */
  method ObserveResult(entries0: seq<InstantEntry>, rows0: seq<VizRow>, r: QueryResult, datasetId: string)
    returns (entries: seq<InstantEntry>, rows: seq<VizRow>)
    ensures entries == Replay(entries0, ResultObservations(r, datasetId))
    ensures rows == rows0 + MultiVizRows(ResultObservations(r, datasetId))
  {
    entries, rows := entries0, rows0;
    if r.response.None? || Failed(r) {
      return;
    }
    var series := SeriesIn(r.response.value, datasetId);
    for s := 0 to |series|
      invariant entries == Replay(entries0, SeriesObservations(r.queryLabel, series[..Min(s, MaxSeries)]))
      invariant rows == rows0 + MultiVizRows(SeriesObservations(r.queryLabel, series[..Min(s, MaxSeries)]))
    {
      if s >= MaxSeries {
        continue;
      }
      SeriesStep(entries0, rows0, r.queryLabel, series, s);
      entries, rows := ObserveSeries(entries, rows, r.queryLabel, series[s]);
    }
  }

  /** One instant row, cell by cell. */
  method BuildInstantRow(e: InstantEntry, keys: seq<string>, labels: seq<string>) returns (row: Record)
    ensures row == InstantRow(e, keys, labels)
  {
    row := SetLabelCells(InstantRowStart(e), e, keys);
    row := SetValueCells(row, e, labels);
  }

  /** The label columns of an instant row: the entry's value for each key, `undefined` when empty or absent. */
  method SetLabelCells(start: Record, e: InstantEntry, keys: seq<string>) returns (row: Record)
    ensures row == SetAll(start, keys, LabelCells(e.metric, keys))
  {
    var cells := LabelCells(e.metric, keys);
    row := start;
    for i := 0 to |keys|
      invariant row == SetAll(start, keys[..i], cells[..i])
    {
      var labelValue := Lookup(e.metric, keys[i]);
      var cell := if labelValue.Some? && labelValue.value != "" then Str(labelValue.value) else Undefined;
      SetAllStep(start, keys, cells, i);
      row := Set(row, keys[i], cell);
    }
    assert keys[..|keys|] == keys && cells[..|cells|] == cells;
  }

  /** The `Value #<label>` columns of an instant row: the entry's value for each query, `null` when missing. */
  method SetValueCells(mid: Record, e: InstantEntry, labels: seq<string>) returns (row: Record)
    ensures row == SetAll(mid, ValueColumns(labels), ValueCells(e, labels))
  {
    var names := ValueColumns(labels);
    var values := ValueCells(e, labels);
    row := mid;
    for i := 0 to |labels|
      invariant row == SetAll(mid, names[..i], values[..i])
    {
      var columnName := "Value #" + labels[i];
      var cell := if labels[i] in e.valuesByQuery then Num(e.valuesByQuery[labels[i]]) else Null;
      SetAllStep(mid, names, values, i);
      row := Set(row, columnName, cell);
    }
    assert names[..|names|] == names && values[..|values|] == values;
  }

  /** The second pass over all results. */
  method ObserveResults(results: seq<QueryResult>, datasetId: string) returns (entries: seq<InstantEntry>, rows: seq<VizRow>)
    ensures entries == Replay([], Observations(results, datasetId))
    ensures rows == MultiVizRows(Observations(results, datasetId))
  {
    entries, rows := [], [];
    for i := 0 to |results|
      invariant entries == Replay([], Observations(results[..i], datasetId))
      invariant rows == MultiVizRows(Observations(results[..i], datasetId))
    {
      ResultStep(results, datasetId, i);
      entries, rows := ObserveResult(entries, rows, results[i], datasetId);
    }
    assert results[..|results|] == results;
  }

  /** `instantDataMap.forEach`: one row per entry, in the map's order. */
  method BuildInstantRows(entries: seq<InstantEntry>, keys: seq<string>, labels: seq<string>) returns (rows: seq<Record>)
    ensures rows == InstantRows(entries, keys, labels)
  {
    rows := [];
    for i := 0 to |entries|
      invariant rows == InstantRows(entries[..i], keys, labels)
    {
      var row := BuildInstantRow(entries[i], keys, labels);
      assert entries[..i + 1][..i] == entries[..i];
      rows := rows + [row];
    }
    assert entries[..|entries|] == entries;
  }

  /** `createMultiQueryDataFrame`: both passes, then the instant rows and the bookkeeping. */
  method CreateMultiQueryDataFrame(results: seq<QueryResult>, datasetId: string) returns (frame: DataFrame)
    ensures frame == MultiQueryFrame(results, datasetId)
  {
    var labels := QueryLabels(results);
    var keys := CollectLabelKeys(results, datasetId);
    var entries, vizRows := ObserveResults(results, datasetId);
    var instantRows := BuildInstantRows(entries, keys, labels);
    var meta := MultiQueryMeta(|results|, SuccessCount(results), QueryErrors(results), labels);
    frame := DataFrame(datasetId, VizSchema, VizFields(vizRows), |vizRows|, InstantSchema(keys, labels), instantRows, Some(meta));
  }

  /** One single-query instant row, cell by cell. */
  method BuildSingleRow(o: Observation, keys: seq<string>) returns (row: Record)
    ensures row == SingleRow(o, keys)
  {
    var start: Record := [Property("Time", Num(o.sample.timestamp * 1000))];
    var cells := FilledCells(o.metric, keys);
    row := start;
    for i := 0 to |keys|
      invariant row == SetAll(start, keys[..i], cells[..i])
    {
      var labelValue := Lookup(o.metric, keys[i]);
      var cell := if labelValue.Some? then Str(labelValue.value) else Str("");
      SetAllStep(start, keys, cells, i);
      row := Set(row, keys[i], cell);
    }
    assert keys[..|keys|] == keys && cells[..|cells|] == cells;
    row := Set(row, "Value", Num(o.sample.value));
  }

  /** The instant rows of every sample of the first `MaxSeries` series. */
  method BuildSingleRows(series: seq<MetricResult>, keys: seq<string>) returns (rows: seq<Record>)
    ensures rows == SingleRows(SeriesObservations("", Capped(series)), keys)
  {
    rows := [];
    for s := 0 to |series|
      invariant rows == SingleRows(SeriesObservations("", series[..Min(s, MaxSeries)]), keys)
    {
      if s >= MaxSeries {
        continue;
      }
      ghost var done := SeriesObservations("", series[..s]);
      rows := PushSeriesRows(rows, series[s].metric, series[s].values, keys);
      SeriesObservationsStep("", series, s);
      SingleRowsAppend(done, SampleObservations("", series[s].metric, series[s].values), keys);
    }
  }

  /** The rows of one series' samples, pushed in sample order. */
  method PushSeriesRows(rows0: seq<Record>, m: Metric, samples: seq<Sample>, keys: seq<string>) returns (rows: seq<Record>)
    ensures rows == rows0 + SingleRows(SampleObservations("", m, samples), keys)
  {
    rows := rows0;
    for j := 0 to |samples|
      invariant rows == rows0 + SingleRows(SampleObservations("", m, samples[..j]), keys)
    {
      var o := Observation("", m, samples[j]);
      var row := BuildSingleRow(o, keys);
      SampleObservationsStep("", m, samples, j);
      SingleRowsAppend(SampleObservations("", m, samples[..j]), [o], keys);
      rows := rows + [row];
    }
    assert samples[..|samples|] == samples;
  }

  lemma SingleVizRowsAppend(a: seq<Observation>, b: seq<Observation>, keys: seq<string>)
    ensures SingleVizRows(a + b, keys) == SingleVizRows(a, keys) + SingleVizRows(b, keys)
  {
  }

  /** The visualization rows of every sample of the first `MaxSeries` series. */
  method BuildSingleVizRows(series: seq<MetricResult>, keys: seq<string>) returns (rows: seq<VizRow>)
    ensures rows == SingleVizRows(SeriesObservations("", Capped(series)), keys)
  {
    rows := [];
    for s := 0 to |series|
      invariant rows == SingleVizRows(SeriesObservations("", series[..Min(s, MaxSeries)]), keys)
    {
      if s >= MaxSeries {
        continue;
      }
      var m := series[s].metric;
      var samples := series[s].values;
      ghost var before := rows;
      ghost var done := SeriesObservations("", series[..s]);
      var seriesName := SingleSeriesName(m, keys);
      for j := 0 to |samples|
        invariant rows == before + SingleVizRows(SampleObservations("", m, samples[..j]), keys)
      {
        SampleObservationsStep("", m, samples, j);
        SingleVizRowsAppend(SampleObservations("", m, samples[..j]), [Observation("", m, samples[j])], keys);
        rows := rows + [VizRow(samples[j].timestamp * 1000, seriesName, samples[j].value)];
      }
      assert samples[..|samples|] == samples;
      SeriesObservationsStep("", series, s);
      SingleVizRowsAppend(done, SampleObservations("", m, samples), keys);
    }
  }

  /** `createDataFrame`: label keys, instant rows filtered to the latest time, visualization rows. */
  method CreateDataFrame(response: Response, datasetId: string) returns (frame: DataFrame)
    ensures frame == SingleFrame(response, datasetId)
  {
    var series := SeriesIn(response, datasetId);
    var collected := CollectSeriesKeys([], series, true);
    var keys := SortStrings(collected);
    var rows := BuildSingleRows(series, keys);
    var instantRows := LatestRows(rows);
    var vizRows := BuildSingleVizRows(series, keys);
    frame := DataFrame(datasetId, VizSchema, VizFields(vizRows), |vizRows|, SingleSchema(keys), instantRows, None);
  }
}
