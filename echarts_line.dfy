/**
 * The ECharts line chart option: the rows become (x, metric) points, grouped
 * into one series per colour string or kept as a single series, each ordered
 * by x; the line mode, thresholds and area style decorate the series.
 */
module EchartsLine {
  import opened Wrappers
  import opened Strings
  import opened JsValues
  import opened Sequences
  import opened EchartsCommon

  datatype Threshold = Threshold(value: int, color: string)

  /** The line style options the builder reads. */
  datatype LineStyle = LineStyle(
    lineMode: string, lineWidth: int, showSymbol: bool, symbolSize: int,
    areaStyle: bool, areaOpacity: real, thresholds: Option<seq<Threshold>>,
    addLegend: bool, legendPosition: Option<Position>,
    titleOptions: Option<TitleOptions>, tooltipOptions: Option<TooltipOptions>,
    xAxisTitle: Option<string>, yAxisTitle: Option<string>, showXAxisLabel: bool, showYAxisLabel: bool)

  /** An `[x, metric]` pair. */
  datatype Point = Point(x: JsValue, y: JsValue)

  /** A row's point: its x value, or the time of it on a temporal axis, and its metric. */
  function PointOf(row: Record, xKey: string, metricKey: string, temporal: bool, dates: DateFns): Point {
    var x := Get(row, xKey);
    Point(if temporal then Num(dates.time(x)) else x, Get(row, metricKey))
  }

  function PointsOf(rows: seq<Record>, xKey: string, metricKey: string, temporal: bool, dates: DateFns): (ps: seq<Point>)
    ensures |ps| == |rows|
  {
    seq(|rows|, i requires 0 <= i < |rows| => PointOf(rows[i], xKey, metricKey, temporal, dates))
  }

  // ---------------------------------------------------------------------------
  // Ordering the points by x.

  /** `a < b` on two numbers or two strings; values of other kinds are never less. */
  predicate JsLess(a: JsValue, b: JsValue) {
    (a.Num? && b.Num? && a.n < b.n) || (a.Str? && b.Str? && StrLess(a.s, b.s))
  }

  lemma JsLessTransitive(a: JsValue, b: JsValue, c: JsValue)
    requires JsLess(a, b) && JsLess(b, c)
    ensures JsLess(a, c)
  {
    if a.Str? {
      StrLessTransitive(a.s, b.s, c.s);
    }
  }

  lemma JsLessIrreflexive(a: JsValue)
    ensures !JsLess(a, a)
  {
    if a.Str? {
      StrLessIrreflexive(a.s);
    }
  }

  /** No point is followed by one with a smaller x. */
  ghost predicate SortedByX(ps: seq<Point>) {
    forall i, j :: 0 <= i < j < |ps| ==> !JsLess(ps[j].x, ps[i].x)
  }

  /**
   * Inserts `p` before the first point it is less than. The comparator
   * `a[0] < b[0] ? -1 : 1` calls no two points equal, so how a sort orders
   * points with equal x is left to it; this is one such order.
   */
  function InsertByX(p: Point, ps: seq<Point>): (r: seq<Point>)
    ensures multiset(r) == multiset(ps) + multiset{p}
  {
    if ps == [] then [p]
    else if JsLess(p.x, ps[0].x) then [p] + ps
    else
      assert ps == [ps[0]] + ps[1..];
      [ps[0]] + InsertByX(p, ps[1..])
  }

  /** `data.sort((a, b) => (a[0] < b[0] ? -1 : 1))`. */
  function SortByX(ps: seq<Point>): (r: seq<Point>)
    ensures multiset(r) == multiset(ps)
  {
    if ps == [] then []
    else
      InitLast(ps);
      InsertByX(ps[|ps| - 1], SortByX(ps[..|ps| - 1]))
  }

  lemma {:induction false} InsertByXSorted(p: Point, ps: seq<Point>)
    requires SortedByX(ps)
    ensures SortedByX(InsertByX(p, ps))
  {
    if ps != [] {
      if JsLess(p.x, ps[0].x) {
        forall j | 0 <= j < |ps| ensures !JsLess(ps[j].x, p.x) {
          if JsLess(ps[j].x, p.x) {
            JsLessTransitive(ps[j].x, p.x, ps[0].x);
            JsLessIrreflexive(ps[0].x);
          }
        }
      } else {
        var tail := ps[1..];
        InsertByXSorted(p, tail);
        var rest := InsertByX(p, tail);
        forall j | 0 <= j < |rest| ensures !JsLess(rest[j].x, ps[0].x) {
          assert rest[j] in multiset(rest);
          if rest[j] != p {
            assert rest[j] in tail;
          }
        }
      }
    }
  }

  /**
   * The points come out in order: no point is followed by one with a smaller
   * x. (Two numbers or two strings are always ordered one way or the other;
   * values of different kinds never are.)
   */
  lemma {:induction false} SortByXSorted(ps: seq<Point>)
    ensures SortedByX(SortByX(ps))
  {
    if ps != [] {
      SortByXSorted(ps[..|ps| - 1]);
      InsertByXSorted(ps[|ps| - 1], SortByX(ps[..|ps| - 1]));
    }
  }

  // ---------------------------------------------------------------------------
  // Grouping by colour.

  /** The series built so far: their names in the order they were first seen, and their points. */
  datatype Groups = Groups(names: seq<string>, data: map<string, seq<Point>>)

  /** `String(row[colorField])`. */
  function ColourOf(row: Record, colorKey: string): string {
    ToJsString(Get(row, colorKey))
  }

  function Colours(rows: seq<Record>, colorKey: string): (cs: seq<string>)
    ensures |cs| == |rows|
    ensures forall i :: 0 <= i < |rows| ==> cs[i] == ColourOf(rows[i], colorKey)
  {
    seq(|rows|, i requires 0 <= i < |rows| => ColourOf(rows[i], colorKey))
  }

  /** The grouping the `forEach` builds: each row's point appended to its colour's list. */
  function Grouped(rows: seq<Record>, colorKey: string, xKey: string, metricKey: string, temporal: bool, dates: DateFns): Groups {
    if rows == [] then Groups([], map[])
    else
      var g := Grouped(rows[..|rows| - 1], colorKey, xKey, metricKey, temporal, dates);
      var row := rows[|rows| - 1];
      var k := ColourOf(row, colorKey);
      var p := PointOf(row, xKey, metricKey, temporal, dates);
      if k in g.data then Groups(g.names, g.data[k := g.data[k] + [p]])
      else Groups(g.names + [k], g.data[k := [p]])
  }

  /** The points of the rows of one colour, in row order. */
  function ColourPoints(rows: seq<Record>, colorKey: string, k: string, xKey: string, metricKey: string, temporal: bool, dates: DateFns): seq<Point> {
    if rows == [] then []
    else
      var row := rows[|rows| - 1];
      ColourPoints(rows[..|rows| - 1], colorKey, k, xKey, metricKey, temporal, dates) +
      (if ColourOf(row, colorKey) == k then [PointOf(row, xKey, metricKey, temporal, dates)] else [])
  }

  /**
   * The groups are named by the distinct colour strings in the order they
   * first occur, and the names are exactly the keys of the map.
   */
  lemma {:induction false} GroupedNames(rows: seq<Record>, colorKey: string, xKey: string, metricKey: string, temporal: bool, dates: DateFns)
    ensures var g := Grouped(rows, colorKey, xKey, metricKey, temporal, dates);
      g.names == Dedup(Colours(rows, colorKey)) && forall k :: k in g.data <==> k in g.names
  {
    if rows != [] {
      var init := rows[..|rows| - 1];
      GroupedNames(init, colorKey, xKey, metricKey, temporal, dates);
      assert Colours(rows, colorKey)[..|rows| - 1] == Colours(init, colorKey);
    }
  }

  lemma {:induction false} ColourPointsNone(rows: seq<Record>, colorKey: string, k: string, xKey: string, metricKey: string, temporal: bool, dates: DateFns)
    requires k !in Colours(rows, colorKey)
    ensures ColourPoints(rows, colorKey, k, xKey, metricKey, temporal, dates) == []
  {
    if rows != [] {
      var init := rows[..|rows| - 1];
      assert Colours(rows, colorKey) == Colours(init, colorKey) + [ColourOf(rows[|rows| - 1], colorKey)];
      ColourPointsNone(init, colorKey, k, xKey, metricKey, temporal, dates);
    }
  }

  /** Each colour's list holds exactly the points of that colour's rows, in row order. */
  lemma {:induction false} GroupedData(rows: seq<Record>, colorKey: string, xKey: string, metricKey: string, temporal: bool, dates: DateFns)
    ensures var g := Grouped(rows, colorKey, xKey, metricKey, temporal, dates);
      forall k :: k in g.data ==> g.data[k] == ColourPoints(rows, colorKey, k, xKey, metricKey, temporal, dates)
  {
    if rows != [] {
      var init := rows[..|rows| - 1];
      GroupedData(init, colorKey, xKey, metricKey, temporal, dates);
      var g := Grouped(init, colorKey, xKey, metricKey, temporal, dates);
      var k := ColourOf(rows[|rows| - 1], colorKey);
      if k !in g.data {
        GroupedNames(init, colorKey, xKey, metricKey, temporal, dates);
        ColourPointsNone(init, colorKey, k, xKey, metricKey, temporal, dates);
      }
    }
  }

  /** The grouping loop: points are pushed onto their colour's list, which is created on first sight. */
  method GroupByColour(rows: seq<Record>, colorKey: string, xKey: string, metricKey: string, temporal: bool, dates: DateFns)
    returns (names: seq<string>, groupedData: map<string, seq<Point>>)
    ensures Groups(names, groupedData) == Grouped(rows, colorKey, xKey, metricKey, temporal, dates)
  {
    names, groupedData := [], map[];
    for i := 0 to |rows|
      invariant Groups(names, groupedData) == Grouped(rows[..i], colorKey, xKey, metricKey, temporal, dates)
    {
      ghost var before := groupedData;
      var groupKey := ToJsString(Get(rows[i], colorKey));
      if groupKey !in groupedData {
        groupedData := groupedData[groupKey := []];
        names := names + [groupKey];
      }
      var x := Get(rows[i], xKey);
      var xValue := if temporal then Num(dates.time(x)) else x;
      var point := Point(xValue, Get(rows[i], metricKey));
      assert groupedData[groupKey] == if groupKey in before then before[groupKey] else [];
      groupedData := groupedData[groupKey := groupedData[groupKey] + [point]];
      assert point == PointOf(rows[i], xKey, metricKey, temporal, dates);
      if groupKey in before {
        assert groupedData == before[groupKey := before[groupKey] + [point]];
      } else {
        assert [] + [point] == [point];
        assert groupedData == before[groupKey := [point]];
      }
      assert rows[..i + 1][..i] == rows[..i];
    }
    assert rows[..|rows|] == rows;
  }

  // ---------------------------------------------------------------------------
  // The order of `Object.entries`: property names that are array indices come
  // first, in increasing numeric order, then the others in insertion order.

  predicate AllDigits(s: string) {
    forall i :: 0 <= i < |s| ==> '0' <= s[i] <= '9'
  }

  /** A canonical array index: the decimal digits, without leading zeros, of a number below 2^32 - 1. */
  predicate IsArrayIndex(s: string) {
    0 < |s| <= 10 && AllDigits(s) && (s[0] != '0' || |s| == 1) && DigitsValue(s) < 0xFFFF_FFFF
  }

  /** The names that are (or are not) array indices, in their order. */
  function IndexNames(names: seq<string>, index: bool): (r: seq<string>)
    ensures forall s :: s in r <==> s in names && IsArrayIndex(s) == index
  {
    if names == [] then []
    else
      var last := names[|names| - 1];
      IndexNames(names[..|names| - 1], index) + (if IsArrayIndex(last) == index then [last] else [])
  }

  lemma {:induction false} IndexNamesSplit(names: seq<string>)
    ensures multiset(IndexNames(names, true)) + multiset(IndexNames(names, false)) == multiset(names)
  {
    if names != [] {
      var init, last := names[..|names| - 1], names[|names| - 1];
      IndexNamesSplit(init);
      var yes, no := IndexNames(init, true), IndexNames(init, false);
      assert multiset(names) == multiset(init) + multiset{last} by {
        InitLast(names);
      }
      if IsArrayIndex(last) {
        assert IndexNames(names, true) == yes + [last];
        assert IndexNames(names, false) == no;
        assert multiset(yes + [last]) == multiset(yes) + multiset{last};
      } else {
        assert IndexNames(names, true) == yes;
        assert IndexNames(names, false) == no + [last];
        assert multiset(no + [last]) == multiset(no) + multiset{last};
      }
    }
  }

  lemma {:induction false} IndexNamesAppend(a: seq<string>, b: seq<string>, index: bool)
    ensures IndexNames(a + b, index) == IndexNames(a, index) + IndexNames(b, index)
  {
    if b != [] {
      var init, last := b[..|b| - 1], b[|b| - 1];
      var t := if IsArrayIndex(last) == index then [last] else [];
      IndexNamesAppend(a, init, index);
      AppendInitLast(a, b);
      assert IndexNames(a + b, index) == IndexNames(a + init, index) + t;
      assert IndexNames(b, index) == IndexNames(init, index) + t;
      AppendAssociative(IndexNames(a, index), IndexNames(init, index), t);
    } else {
      assert a + b == a;
    }
  }

  lemma {:induction false} IndexNamesNone(names: seq<string>, index: bool)
    requires forall i :: 0 <= i < |names| ==> IsArrayIndex(names[i]) != index
    ensures IndexNames(names, index) == []
  {
    if names != [] {
      IndexNamesNone(names[..|names| - 1], index);
    }
  }

  function Zeros(n: nat): (z: string)
    ensures |z| == n && AllDigits(z)
  {
    if n == 0 then [] else Zeros(n - 1) + ['0']
  }

  /** The digits left-padded with zeros to ten places, so that code-unit order is numeric order. */
  function Padded(s: string): string {
    if |s| < 10 then Zeros(10 - |s|) + s else s
  }

  function Pow10(n: nat): (p: nat)
    ensures p >= 1
  {
    if n == 0 then 1 else 10 * Pow10(n - 1)
  }

  lemma {:induction false} DigitsValueBound(s: string)
    requires AllDigits(s)
    ensures DigitsValue(s) < Pow10(|s|)
  {
    if s != [] {
      DigitsValueBound(s[..|s| - 1]);
    }
  }

  /** Reading the digits from the front: the first digit counts `10^(|s| - 1)` times. */
  lemma {:induction false} DigitsValueHead(s: string)
    requires AllDigits(s) && s != []
    ensures DigitsValue(s) == (s[0] - '0') as nat * Pow10(|s| - 1) + DigitsValue(s[1..])
  {
    if |s| == 1 {
      assert s[..0] == [] && s[1..] == [];
    } else {
      var init := s[..|s| - 1];
      DigitsValueHead(init);
      assert init[1..] == s[1..][..|s| - 2];
      var h := (s[0] - '0') as nat;
      Regroup(h, Pow10(|s| - 2));
    }
  }

  lemma Regroup(h: nat, p: nat)
    ensures 10 * (h * p) == h * (10 * p)
  {
  }

  lemma {:induction false} LeadingZeros(n: nat, s: string)
    requires AllDigits(s)
    ensures DigitsValue(Zeros(n) + s) == DigitsValue(s)
  {
    if s == [] {
      assert Zeros(n) + s == Zeros(n);
      ZerosValue(n);
    } else {
      var init := s[..|s| - 1];
      LeadingZeros(n, init);
      assert (Zeros(n) + s)[..|Zeros(n) + s| - 1] == Zeros(n) + init;
    }
  }

  lemma {:induction false} ZerosValue(n: nat)
    ensures DigitsValue(Zeros(n)) == 0
  {
    if n > 0 {
      ZerosValue(n - 1);
      assert Zeros(n)[..n - 1] == Zeros(n - 1);
    }
  }

  /** On digit strings of one length, code-unit order is numeric order. */
  lemma {:induction false} DigitsOrder(a: string, b: string)
    requires AllDigits(a) && AllDigits(b) && |a| == |b|
    ensures StrLess(a, b) <==> DigitsValue(a) < DigitsValue(b)
  {
    if a != [] {
      DigitsOrder(a[1..], b[1..]);
      DigitsValueHead(a);
      DigitsValueHead(b);
      if a[0] != b[0] {
        DigitsValueBound(a[1..]);
        DigitsValueBound(b[1..]);
        var p := Pow10(|a| - 1);
        var x, y := (a[0] - '0') as nat, (b[0] - '0') as nat;
        if x < y {
          LeadingDigitDecides(x, y, p, DigitsValue(a[1..]), DigitsValue(b[1..]));
        } else {
          LeadingDigitDecides(y, x, p, DigitsValue(b[1..]), DigitsValue(a[1..]));
        }
      }
    }
  }

  /** A smaller leading digit outweighs whatever follows it. */
  lemma LeadingDigitDecides(x: nat, y: nat, p: nat, u: nat, v: nat)
    requires x < y && u < p
    ensures x * p + u < y * p + v
  {
    assert (x + 1) * p <= y * p;
  }

  /** Padding an index to ten digits keeps its value. */
  lemma PaddedValue(s: string)
    requires IsArrayIndex(s)
    ensures |Padded(s)| == 10 && AllDigits(Padded(s)) && DigitsValue(Padded(s)) == DigitsValue(s)
  {
    if |s| < 10 {
      LeadingZeros(10 - |s|, s);
    }
  }

  /** Padded indices compare by value. */
  lemma PaddedOrder(a: string, b: string)
    requires IsArrayIndex(a) && IsArrayIndex(b)
    ensures StrLess(Padded(a), Padded(b)) <==> DigitsValue(a) < DigitsValue(b)
  {
    PaddedValue(a);
    PaddedValue(b);
    DigitsOrder(Padded(a), Padded(b));
  }

  /** The order `Object.entries` lists the names of an object whose properties were added in order `names`. */
  function EntriesOrder(names: seq<string>): (r: seq<string>)
    ensures multiset(r) == multiset(names)
  {
    IndexNamesSplit(names);
    SortBy(IndexNames(names, true), Padded) + IndexNames(names, false)
  }

  /** A rearrangement of the index names holds only index names. */
  lemma AllIndexNames(sorted: seq<string>, names: seq<string>)
    requires multiset(sorted) == multiset(IndexNames(names, true))
    ensures forall i :: 0 <= i < |sorted| ==> IsArrayIndex(sorted[i])
  {
    forall i | 0 <= i < |sorted| ensures IsArrayIndex(sorted[i]) {
      assert sorted[i] in multiset(IndexNames(names, true));
    }
  }

  /** Index names come before all others, in increasing numeric order. */
  lemma EntriesIndexFirst(names: seq<string>)
    ensures var r := EntriesOrder(names);
      forall i, j :: 0 <= i < j < |r| && IsArrayIndex(r[j]) ==>
        IsArrayIndex(r[i]) && DigitsValue(r[i]) <= DigitsValue(r[j])
  {
    var sorted := SortBy(IndexNames(names, true), Padded);
    var rest := IndexNames(names, false);
    var r := EntriesOrder(names);
    AllIndexNames(sorted, names);
    assert forall j :: |sorted| <= j < |r| ==> r[j] in rest;
    forall i, j | 0 <= i < j < |r| && IsArrayIndex(r[j])
      ensures IsArrayIndex(r[i]) && DigitsValue(r[i]) <= DigitsValue(r[j])
    {
      assert j < |sorted|;
      assert r[i] == sorted[i] && r[j] == sorted[j];
      PaddedOrder(r[j], r[i]);
    }
  }

  /** The names that are not indices keep the order they were added in. */
  lemma EntriesOthersInOrder(names: seq<string>)
    ensures IndexNames(EntriesOrder(names), false) == IndexNames(names, false)
  {
    var sorted := SortBy(IndexNames(names, true), Padded);
    var rest := IndexNames(names, false);
    AllIndexNames(sorted, names);
    IndexNamesAppend(sorted, rest, false);
    IndexNamesNone(sorted, false);
    assert forall i :: 0 <= i < |rest| ==> rest[i] in rest;
    IndexNamesOfNone(rest);
  }

  /** Filtering names none of which is an index keeps them all. */
  lemma {:induction false} IndexNamesOfNone(names: seq<string>)
    requires forall i :: 0 <= i < |names| ==> !IsArrayIndex(names[i])
    ensures IndexNames(names, false) == names
  {
    if names != [] {
      var init, last := names[..|names| - 1], names[|names| - 1];
      assert forall i :: 0 <= i < |init| ==> init[i] == names[i];
      IndexNamesOfNone(init);
      assert !IsArrayIndex(last);
      assert IndexNames(names, false) == init + [last];
      assert init + [last] == names;
    }
  }

  // ---------------------------------------------------------------------------
  // The series and the option.

  datatype SeriesData = SeriesData(name: string, data: seq<Point>)

  /** `getStep`: `middle` or `false`. */
  datatype Step = NoStep | Middle

  datatype MarkLineEntry = MarkLineEntry(yAxis: int, color: string, text: string)

  datatype MarkLine = MarkLine(entries: seq<MarkLineEntry>)

  datatype LineSeries = LineSeries(
    name: string, data: seq<Point>, smooth: bool, step: Step, lineWidth: int, showSymbol: bool,
    symbolSize: int, areaOpacity: Option<real>, markLine: Option<MarkLine>)

  datatype LineAxis = LineAxis(kind: string, name: Option<string>, nameGap: int, showLabel: bool, rotate: int)

  datatype LineOption = LineOption(
    isEcharts: bool, title: Option<Title>, tooltip: Tooltip, legend: Record, grid: Record,
    xAxis: LineAxis, yAxis: LineAxis, series: seq<LineSeries>, dataset: seq<Record>)

  /** `getSmooth`. */
  function Smooth(lineMode: string): (b: bool)
    ensures b <==> lineMode == "smooth"
  {
    match lineMode
    case "smooth" => true
    case "stepped" => false
    case _ => false
  }

  /** `getStep`. */
  function StepOf(lineMode: string): (s: Step)
    ensures s == Middle <==> lineMode == "stepped"
  {
    if lineMode == "stepped" then Middle else NoStep
  }

  /** `buildMarkLine`: a dashed line and an end label per threshold, or nothing without thresholds. */
  function MarkLineOf(thresholds: Option<seq<Threshold>>): (ml: Option<MarkLine>)
    ensures ml.None? <==> thresholds.None? || thresholds.value == []
    ensures ml.Some? ==> (|ml.value.entries| == |thresholds.value| &&
      forall i :: 0 <= i < |thresholds.value| ==>
        ml.value.entries[i].yAxis == thresholds.value[i].value && ml.value.entries[i].color == thresholds.value[i].color)
  {
    var ts := thresholds.GetOr([]);
    if |ts| == 0 then None
    else Some(MarkLine(seq(|ts|, i requires 0 <= i < |ts| => MarkLineEntry(ts[i].value, ts[i].color, IntToString(ts[i].value)))))
  }

  /** The `index`-th series: the style's line options, and the threshold lines on the first one only. */
  function Series(s: SeriesData, index: nat, styles: LineStyle): LineSeries {
    var markLine := MarkLineOf(styles.thresholds);
    LineSeries(s.name, s.data, Smooth(styles.lineMode), StepOf(styles.lineMode), styles.lineWidth, styles.showSymbol,
      styles.symbolSize, if styles.areaStyle then Some(styles.areaOpacity) else None,
      if index == 0 then markLine else None)
  }

  /** `Object.entries(groupedData).map(...)`: a series per group, each with its points ordered by x. */
  function GroupSeries(g: Groups): seq<SeriesData> {
    var order := EntriesOrder(g.names);
    seq(|order|, i requires 0 <= i < |order| =>
      SeriesData(order[i], if order[i] in g.data then SortByX(g.data[order[i]]) else []))
  }

  /** The series data: one series per colour with its points ordered by x, or a single ordered series. */
  function LineSeriesData(rows: seq<Record>, dateColumns: seq<string>, m: AxisMappings, dates: DateFns): seq<SeriesData> {
    var temporal := IsTemporal(dateColumns, m.x);
    var xKey, metricKey := FieldKey(m.x), FieldKey(m.y);
    if m.color.Some? && m.color.value.column != "" then
      GroupSeries(Grouped(rows, m.color.value.column, xKey, metricKey, temporal, dates))
    else
      var metricName := DisplayName(m.y);
      [SeriesData(if metricName.Some? && metricName.value != "" then metricName.value else "Value",
        SortByX(PointsOf(rows, xKey, metricKey, temporal, dates)))]
  }

  function LineOptionOf(rows: seq<Record>, dateColumns: seq<string>, styles: LineStyle, m: AxisMappings, seriesData: seq<SeriesData>): LineOption {
    var temporal := IsTemporal(dateColumns, m.x);
    var metricName := DisplayName(m.y);
    var position := styles.legendPosition.GetOr(Bottom);
    var showTitle := styles.titleOptions.Some? && styles.titleOptions.value.show;
    LineOption(
      true,
      // `titleName || '<metric> Chart'`: the default is never empty, so the shared title rule gives the same text.
      TitleConfig(styles.titleOptions, TemplateText(metricName) + " Chart"),
      TooltipConfig(styles.tooltipOptions, Some("axis"), Some("cross")),
      LegendConfig(styles.addLegend, Some(position)),
      GridConfig(styles.addLegend, Some(position), showTitle),
      LineAxis(if temporal then "time" else "category", JsOr(styles.xAxisTitle, DisplayName(m.x)), 30, styles.showXAxisLabel, if temporal then 0 else 45),
      LineAxis("value", JsOr(styles.yAxisTitle, metricName), 50, styles.showYAxisLabel, 0),
      seq(|seriesData|, i requires 0 <= i < |seriesData| => Series(seriesData[i], i, styles)),
      rows)
  }

  function LineSpec(rows: seq<Record>, dateColumns: seq<string>, styles: LineStyle, m: AxisMappings, dates: DateFns): LineOption {
    LineOptionOf(rows, dateColumns, styles, m, LineSeriesData(rows, dateColumns, m, dates))
  }

  /** `createEchartsLineSpec`: the rows are grouped by a loop, then each group is sorted. */
  method CreateEchartsLineSpec(rows: seq<Record>, dateColumns: seq<string>, styles: LineStyle, m: AxisMappings, dates: DateFns)
    returns (option: LineOption)
    ensures option == LineSpec(rows, dateColumns, styles, m, dates)
  {
    var isXTemporal := m.x.Some? && m.x.value.column in dateColumns;
    var seriesData: seq<SeriesData> := [];
    if m.color.Some? && m.color.value.column != "" {
      var names, groupedData := GroupByColour(rows, m.color.value.column, FieldKey(m.x), FieldKey(m.y), isXTemporal, dates);
      seriesData := GroupSeries(Groups(names, groupedData));
    } else {
      var metricName := DisplayName(m.y);
      var data := PointsOf(rows, FieldKey(m.x), FieldKey(m.y), isXTemporal, dates);
      seriesData := [SeriesData(if metricName.Some? && metricName.value != "" then metricName.value else "Value", SortByX(data))];
    }
    option := LineOptionOf(rows, dateColumns, styles, m, seriesData);
  }

  /** `createEchartsMultiLineSpec` hands its arguments to the line builder unchanged. */
  method CreateEchartsMultiLineSpec(rows: seq<Record>, dateColumns: seq<string>, styles: LineStyle, m: AxisMappings, dates: DateFns)
    returns (option: LineOption)
    ensures option == LineSpec(rows, dateColumns, styles, m, dates)
  {
    option := CreateEchartsLineSpec(rows, dateColumns, styles, m, dates);
  }

  // ---------------------------------------------------------------------------
  // What the option promises.

  function SeriesNames(sd: seq<SeriesData>): (names: seq<string>)
    ensures |names| == |sd|
    ensures forall i :: 0 <= i < |sd| ==> names[i] == sd[i].name
  {
    seq(|sd|, i requires 0 <= i < |sd| => sd[i].name)
  }

  /** The series of distinct groups are named by the group names in `Object.entries` order, each once. */
  lemma GroupSeriesNames(g: Groups)
    requires Distinct(g.names)
    ensures var names := SeriesNames(GroupSeries(g));
      names == EntriesOrder(g.names) && (forall c :: c in names <==> c in g.names) && Distinct(names)
  {
    var order := EntriesOrder(g.names);
    PermutationDistinct(order, g.names);
    forall c ensures c in order <==> c in g.names {
      assert c in order <==> c in multiset(order);
    }
    assert SeriesNames(GroupSeries(g)) == order;
  }

  /** Each series of a keyed group holds that group's points ordered by x. */
  lemma GroupSeriesData(g: Groups)
    requires forall k :: k in g.data <==> k in g.names
    ensures var sd := GroupSeries(g);
      forall i :: 0 <= i < |sd| ==>
        sd[i].name in g.data && sd[i].data == SortByX(g.data[sd[i].name]) && SortedByX(sd[i].data)
  {
    var sd := GroupSeries(g);
    var order := EntriesOrder(g.names);
    forall i | 0 <= i < |sd| ensures sd[i].name in g.data && SortedByX(sd[i].data) {
      assert order[i] in multiset(order);
      SortByXSorted(g.data[sd[i].name]);
    }
  }

  /**
   * With a colour field there is one series per distinct colour string, in
   * the `Object.entries` order of the colours as first seen, each holding
   * exactly the points of that colour's rows, ordered by x.
   */
  lemma ColourSeries(rows: seq<Record>, dateColumns: seq<string>, m: AxisMappings, dates: DateFns)
    requires m.color.Some? && m.color.value.column != ""
    ensures var sd := LineSeriesData(rows, dateColumns, m, dates);
      var colorKey, temporal := m.color.value.column, IsTemporal(dateColumns, m.x);
      SeriesNames(sd) == EntriesOrder(Dedup(Colours(rows, colorKey))) &&
      (forall c :: c in SeriesNames(sd) <==> c in Colours(rows, colorKey)) &&
      Distinct(SeriesNames(sd)) &&
      forall i :: 0 <= i < |sd| ==>
        multiset(sd[i].data) == multiset(ColourPoints(rows, colorKey, sd[i].name, FieldKey(m.x), FieldKey(m.y), temporal, dates)) &&
        SortedByX(sd[i].data)
  {
    var colorKey, temporal := m.color.value.column, IsTemporal(dateColumns, m.x);
    var g := Grouped(rows, colorKey, FieldKey(m.x), FieldKey(m.y), temporal, dates);
    GroupedNames(rows, colorKey, FieldKey(m.x), FieldKey(m.y), temporal, dates);
    GroupedData(rows, colorKey, FieldKey(m.x), FieldKey(m.y), temporal, dates);
    GroupSeriesNames(g);
    GroupSeriesData(g);
  }

  /** Without a colour field there is one series, of every row's point, ordered by x. */
  lemma SingleSeries(rows: seq<Record>, dateColumns: seq<string>, m: AxisMappings, dates: DateFns)
    requires !(m.color.Some? && m.color.value.column != "")
    ensures var sd := LineSeriesData(rows, dateColumns, m, dates);
      var metricName := DisplayName(m.y);
      |sd| == 1 &&
      sd[0].name == (if metricName.Some? && metricName.value != "" then metricName.value else "Value") &&
      multiset(sd[0].data) == multiset(PointsOf(rows, FieldKey(m.x), FieldKey(m.y), IsTemporal(dateColumns, m.x), dates)) &&
      SortedByX(sd[0].data)
  {
    SortByXSorted(PointsOf(rows, FieldKey(m.x), FieldKey(m.y), IsTemporal(dateColumns, m.x), dates));
  }

  /** On a temporal axis every x is a time, so each series runs forward in time. */
  lemma TimesAscending(ps: seq<Point>)
    requires forall i :: 0 <= i < |ps| ==> ps[i].x.Num?
    ensures var s := SortByX(ps);
      forall i, j :: 0 <= i < j < |s| ==> s[i].x.Num? && s[j].x.Num? && s[i].x.n <= s[j].x.n
  {
    var s := SortByX(ps);
    SortByXSorted(ps);
    forall i | 0 <= i < |s| ensures s[i].x.Num? {
      assert s[i] in multiset(ps);
    }
  }

  /**
   * The option's series are the series data in order, each smooth exactly in
   * smooth mode and stepped at the middle exactly in stepped mode; only the
   * first carries the threshold lines, and only when there are thresholds;
   * the area is filled exactly when the style asks for it.
   */
  lemma SeriesDecorations(rows: seq<Record>, dateColumns: seq<string>, styles: LineStyle, m: AxisMappings, dates: DateFns)
    ensures var o := LineSpec(rows, dateColumns, styles, m, dates);
      var sd := LineSeriesData(rows, dateColumns, m, dates);
      |o.series| == |sd| &&
      forall i :: 0 <= i < |o.series| ==>
        o.series[i].name == sd[i].name && o.series[i].data == sd[i].data &&
        (o.series[i].smooth <==> styles.lineMode == "smooth") &&
        (o.series[i].step == Middle <==> styles.lineMode == "stepped") &&
        (o.series[i].markLine.Some? <==> i == 0 && styles.thresholds.Some? && styles.thresholds.value != []) &&
        (o.series[i].markLine.Some? ==> o.series[i].markLine == MarkLineOf(styles.thresholds)) &&
        (o.series[i].areaOpacity.Some? <==> styles.areaStyle) &&
        (styles.areaStyle ==> o.series[i].areaOpacity == Some(styles.areaOpacity)) &&
        o.series[i].lineWidth == styles.lineWidth && o.series[i].symbolSize == styles.symbolSize
  {
  }

  /**
   * The x axis is a time axis with straight labels exactly when x is a date
   * column, else a category axis with labels at 45 degrees; the title exists
   * exactly when the options show it and defaults to the metric's chart name;
   * the tooltip follows a crosshair; the legend defaults to the bottom, where
   * the grid leaves room for it.
   */
  lemma OptionShape(rows: seq<Record>, dateColumns: seq<string>, styles: LineStyle, m: AxisMappings, dates: DateFns)
    ensures var o := LineSpec(rows, dateColumns, styles, m, dates);
      var temporal := IsTemporal(dateColumns, m.x);
      (o.xAxis.kind == "time" <==> temporal) && (!temporal ==> o.xAxis.kind == "category") &&
      (o.xAxis.rotate == 0 <==> temporal) && (!temporal ==> o.xAxis.rotate == 45) &&
      o.xAxis.name == JsOr(styles.xAxisTitle, DisplayName(m.x)) &&
      o.yAxis.kind == "value" && o.yAxis.name == JsOr(styles.yAxisTitle, DisplayName(m.y)) &&
      (o.title.Some? <==> styles.titleOptions.Some? && styles.titleOptions.value.show) &&
      (o.title.Some? && styles.titleOptions.value.titleName == "" ==> o.title.value.text == TemplateText(DisplayName(m.y)) + " Chart") &&
      (!o.tooltip.show <==> styles.tooltipOptions.Some? && styles.tooltipOptions.value.mode == "hidden") &&
      o.tooltip.trigger == "axis" && o.tooltip.axisPointerType == "cross" &&
      o.legend == LegendConfig(styles.addLegend, styles.legendPosition) &&
      (Get(o.grid, "bottom") == Str("15%") <==> styles.addLegend && styles.legendPosition.GetOr(Bottom) == Bottom) &&
      (Get(o.grid, "top") == Str("15%") <==> styles.titleOptions.Some? && styles.titleOptions.value.show) &&
      o.isEcharts && o.dataset == rows
  {
    var showTitle := styles.titleOptions.Some? && styles.titleOptions.value.show;
    GridMargins(styles.addLegend, Some(styles.legendPosition.GetOr(Bottom)), showTitle);
  }
}
