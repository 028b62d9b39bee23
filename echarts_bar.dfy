/**
 * The ECharts bar chart option: the category axis holds the distinct x values
 * (sorted unless they are times), and the rows are pivoted into one series
 * per colour value, or a single series, with one bar per category.
 */
module EchartsBar {
  import opened Wrappers
  import opened Strings
  import opened JsValues
  import opened Sequences
  import opened EchartsCommon

  /**
   * The bar style options the builder reads. The axis titles are the title
   * texts found among the standard axes for the x and y roles.
   */
  datatype BarStyle = BarStyle(
    barWidth: Option<real>, addLegend: bool, legendPosition: Option<Position>,
    titleOptions: Option<TitleOptions>, tooltipOptions: Option<TooltipOptions>,
    xAxisTitle: Option<string>, yAxisTitle: Option<string>)

  // ---------------------------------------------------------------------------
  // The default `Array.prototype.sort`.

  /** The values that are not `undefined`, in order. */
  function DefinedValues(xs: seq<JsValue>): (r: seq<JsValue>)
    ensures forall i :: 0 <= i < |r| ==> r[i] != Undefined
  {
    if xs == [] then []
    else (if xs[0] == Undefined then [] else [xs[0]]) + DefinedValues(xs[1..])
  }

  /** The `undefined` values. */
  function UndefinedValues(xs: seq<JsValue>): (r: seq<JsValue>)
    ensures forall i :: 0 <= i < |r| ==> r[i] == Undefined
  {
    if xs == [] then []
    else (if xs[0] == Undefined then [Undefined] else []) + UndefinedValues(xs[1..])
  }

  lemma {:induction false} DefinedSplit(xs: seq<JsValue>)
    ensures multiset(DefinedValues(xs)) + multiset(UndefinedValues(xs)) == multiset(xs)
  {
    if xs != [] {
      DefinedSplit(xs[1..]);
      assert xs == [xs[0]] + xs[1..];
    }
  }

  /**
   * The default sort: the values in the character order of `String(v)`, stable
   * among equal strings, with every `undefined` at the end.
   */
  function DefaultSort(xs: seq<JsValue>): (r: seq<JsValue>)
    ensures multiset(r) == multiset(xs)
    ensures forall i, j :: 0 <= i < j < |r| && r[i] == Undefined ==> r[j] == Undefined
    ensures forall i, j :: 0 <= i < j < |r| && r[j] != Undefined ==> !StrLess(ToJsString(r[j]), ToJsString(r[i]))
  {
    var defined := SortBy(DefinedValues(xs), ToJsString);
    var undefs := UndefinedValues(xs);
    DefinedSplit(xs);
    forall k | 0 <= k < |defined| ensures defined[k] != Undefined {
      assert defined[k] in multiset(DefinedValues(xs));
    }
    SortedThenUndefined(defined, undefs);
    defined + undefs
  }

  /** Sorted defined values followed by `undefined`s are in default-sort order. */
  lemma SortedThenUndefined(defined: seq<JsValue>, undefs: seq<JsValue>)
    requires SortedBy(defined, ToJsString)
    requires forall k :: 0 <= k < |defined| ==> defined[k] != Undefined
    requires forall k :: 0 <= k < |undefs| ==> undefs[k] == Undefined
    ensures var r := defined + undefs;
      (forall i, j :: 0 <= i < j < |r| && r[i] == Undefined ==> r[j] == Undefined) &&
      (forall i, j :: 0 <= i < j < |r| && r[j] != Undefined ==> !StrLess(ToJsString(r[j]), ToJsString(r[i])))
  {
  }

  /** The category values: distinct, and sorted unless they are times. */
  function XValues(rows: seq<Record>, xKey: string, temporal: bool): seq<JsValue> {
    var d := Dedup(Column(rows, xKey));
    if temporal then d else DefaultSort(d)
  }

  /** The category values are each x value once. */
  lemma XValuesExactly(rows: seq<Record>, xKey: string, temporal: bool)
    ensures var xs := XValues(rows, xKey, temporal);
      Distinct(xs) &&
      forall v :: v in xs <==> exists i :: 0 <= i < |rows| && Get(rows[i], xKey) == v
  {
    var col := Column(rows, xKey);
    var d := Dedup(col);
    var xs := XValues(rows, xKey, temporal);
    forall v ensures v in xs <==> v in d {
      assert v in xs <==> v in multiset(xs);
    }
    forall v | v in col ensures exists i :: 0 <= i < |rows| && Get(rows[i], xKey) == v {
      var i :| 0 <= i < |col| && col[i] == v;
    }
    if !temporal {
      PermutationDistinct(xs, d);
    }
  }

  /**
   * For a temporal axis the category values come in the order they first
   * occur; otherwise they are sorted by their strings, with `undefined` last.
   */
  lemma XValuesOrder(rows: seq<Record>, xKey: string, temporal: bool)
    ensures var xs := XValues(rows, xKey, temporal);
      (temporal ==> InFirstOccurrenceOrder(xs, Column(rows, xKey))) &&
      (!temporal ==> forall i, j :: 0 <= i < j < |xs| ==>
        (xs[i] == Undefined ==> xs[j] == Undefined) &&
        (xs[j] != Undefined ==> !StrLess(ToJsString(xs[j]), ToJsString(xs[i]))))
  {
    DedupFirstOccurrence(Column(rows, xKey));
  }

  // ---------------------------------------------------------------------------
  // The pivot.

  /** Whether a row is at category `x` and, with a colour field, has colour `c`. */
  predicate RowMatches(row: Record, xKey: string, x: JsValue, colorKey: Option<string>, c: JsValue) {
    Get(row, xKey) == x && (colorKey.Some? ==> Get(row, colorKey.value) == c)
  }

  /** `transformedData.find(...)`: the first matching row. */
  function FirstMatch(rows: seq<Record>, xKey: string, x: JsValue, colorKey: Option<string>, c: JsValue): (r: Option<nat>)
    ensures r.None? <==> forall i :: 0 <= i < |rows| ==> !RowMatches(rows[i], xKey, x, colorKey, c)
    ensures r.Some? ==> (r.value < |rows| && RowMatches(rows[r.value], xKey, x, colorKey, c) &&
      forall i :: 0 <= i < r.value ==> !RowMatches(rows[i], xKey, x, colorKey, c))
  {
    if rows == [] then None
    else if RowMatches(rows[0], xKey, x, colorKey, c) then Some(0)
    else match FirstMatch(rows[1..], xKey, x, colorKey, c)
      case None => None
      case Some(i) => Some(i + 1)
  }

  /** `row ? row[metricField!] : 0`. */
  function Cell(rows: seq<Record>, xKey: string, metricKey: string, x: JsValue, colorKey: Option<string>, c: JsValue): JsValue {
    match FirstMatch(rows, xKey, x, colorKey, c)
    case Some(i) => Get(rows[i], metricKey)
    case None => Num(0)
  }

  /** One value per category. */
  function SeriesValues(rows: seq<Record>, xKey: string, metricKey: string, xs: seq<JsValue>, colorKey: Option<string>, c: JsValue): (data: seq<JsValue>)
    ensures |data| == |xs|
  {
    seq(|xs|, j requires 0 <= j < |xs| => Cell(rows, xKey, metricKey, xs[j], colorKey, c))
  }

  datatype SeriesData = SeriesData(name: string, data: seq<JsValue>)

  /** `if (colorField)`: a colour column with a non-empty field name. */
  predicate HasColorField(m: AxisMappings) {
    m.color.Some? && m.color.value.column != ""
  }

  /** One series per colour value, in first-appearance order, named by its string. */
  function ColourSeriesData(rows: seq<Record>, m: AxisMappings, xs: seq<JsValue>): seq<SeriesData>
    requires HasColorField(m)
  {
    var colorKey := m.color.value.column;
    var colors := Dedup(Column(rows, colorKey));
    seq(|colors|, i requires 0 <= i < |colors| =>
      SeriesData(ToJsString(colors[i]), SeriesValues(rows, FieldKey(m.x), FieldKey(m.y), xs, Some(colorKey), colors[i])))
  }

  /** The one series of a chart without colours, named by the metric or `Value`. */
  function SingleSeriesData(rows: seq<Record>, m: AxisMappings, xs: seq<JsValue>): SeriesData {
    var metricName := DisplayName(m.y);
    SeriesData(if metricName.Some? && metricName.value != "" then metricName.value else "Value",
      SeriesValues(rows, FieldKey(m.x), FieldKey(m.y), xs, None, Undefined))
  }

  function PivotSeries(rows: seq<Record>, m: AxisMappings, xs: seq<JsValue>): seq<SeriesData> {
    if HasColorField(m) then ColourSeriesData(rows, m, xs) else [SingleSeriesData(rows, m, xs)]
  }

  // ---------------------------------------------------------------------------
  // The series and the option.

  /** The bar width ECharts gets: a fraction as a percentage, anything else as given. */
  datatype BarWidth = Percent(percent: real) | Given(width: Option<real>)

  /** A truthy `barWidth` of at most 1 is a fraction of the band. */
  function EchartsBarWidth(barWidth: Option<real>): (w: BarWidth)
    ensures w.Percent? <==> barWidth.Some? && barWidth.value != 0.0 && barWidth.value <= 1.0
    ensures w.Percent? ==> w.percent == barWidth.value * 100.0
    ensures w.Given? ==> w.width == barWidth
  {
    if barWidth.Some? && barWidth.value != 0.0 && barWidth.value <= 1.0 then Percent(barWidth.value * 100.0) else Given(barWidth)
  }

  datatype BarSeries = BarSeries(
    name: string, data: seq<JsValue>, stack: Option<string>, barWidth: BarWidth, barGap: string,
    showLabel: bool, labelPosition: string, formatter: string)

  /** The fixed defaults: vertical, not stacked, no bar labels. */
  const BarGap := "30%"

  function Series(s: SeriesData, width: BarWidth): BarSeries {
    BarSeries(s.name, s.data, None, width, BarGap, false, "top", "{c}")
  }

  datatype Axis =
    | CategoryAxis(labels: seq<string>, name: Option<string>, nameGap: int, showLabel: bool, rotate: int)
    | ValueAxis(name: Option<string>, nameGap: int, showLabel: bool, formatter: string)

  datatype BarOption = BarOption(
    metadata: Metadata, title: Option<Title>, tooltip: Tooltip, legend: Record, grid: Record,
    brushable: bool, xAxis: Axis, yAxis: Axis, series: seq<BarSeries>, dataset: seq<Record>)

  function CategoryLabel(v: JsValue, temporal: bool, dates: DateFns): string {
    if temporal then dates.localeString(v) else ToJsString(v)
  }

  function CategoryLabels(xs: seq<JsValue>, temporal: bool, dates: DateFns): (ls: seq<string>)
    ensures |ls| == |xs|
  {
    seq(|xs|, i requires 0 <= i < |xs| => CategoryLabel(xs[i], temporal, dates))
  }

  function Times(xs: seq<JsValue>, dates: DateFns): (ts: seq<int>)
    ensures |ts| == |xs|
  {
    seq(|xs|, i requires 0 <= i < |xs| => dates.time(xs[i]))
  }

  /** `createEchartsBarSpec`, from the category values and the series data. */
  function BarOptionOf(rows: seq<Record>, dateColumns: seq<string>, styles: BarStyle, m: AxisMappings, dates: DateFns,
                       xs: seq<JsValue>, seriesData: seq<SeriesData>): BarOption
  {
    var temporal := IsTemporal(dateColumns, m.x);
    var metricName := DisplayName(m.y);
    var width := EchartsBarWidth(styles.barWidth);
    var position := styles.legendPosition.GetOr(Bottom);
    BarOption(
      Metadata(temporal, Field(m.x), if temporal then Some(Times(xs, dates)) else None),
      TitleConfig(styles.titleOptions, TemplateText(metricName) + " Chart"),
      TooltipConfig(styles.tooltipOptions, None, None),
      LegendConfig(styles.addLegend, Some(position)),
      GridConfig(styles.addLegend, Some(position), styles.titleOptions.Some? && styles.titleOptions.value.show),
      temporal,
      CategoryAxis(CategoryLabels(xs, temporal, dates), JsOr(styles.xAxisTitle, DisplayName(m.x)), 30, true, 45),
      ValueAxis(JsOr(styles.yAxisTitle, metricName), 50, true, "{value}"),
      seq(|seriesData|, i requires 0 <= i < |seriesData| => Series(seriesData[i], width)),
      rows)
  }

  function BarSpec(rows: seq<Record>, dateColumns: seq<string>, styles: BarStyle, m: AxisMappings, dates: DateFns): BarOption {
    var xs := XValues(rows, FieldKey(m.x), IsTemporal(dateColumns, m.x));
    BarOptionOf(rows, dateColumns, styles, m, dates, xs, PivotSeries(rows, m, xs))
  }

  /** `createEchartsBarSpec`: the category values are sorted in place and the series data assigned by case. */
  method CreateEchartsBarSpec(rows: seq<Record>, dateColumns: seq<string>, styles: BarStyle, m: AxisMappings, dates: DateFns)
    returns (option: BarOption)
    ensures option == BarSpec(rows, dateColumns, styles, m, dates)
  {
    var isXTemporal := m.x.Some? && m.x.value.column in dateColumns;
    var xValues := Dedup(Column(rows, FieldKey(m.x)));
    if !isXTemporal {
      xValues := DefaultSort(xValues);
    }
    var seriesData: seq<SeriesData> := [];
    if HasColorField(m) {
      seriesData := ColourSeriesData(rows, m, xValues);
    } else {
      seriesData := [SingleSeriesData(rows, m, xValues)];
    }
    option := BarOptionOf(rows, dateColumns, styles, m, dates, xValues, seriesData);
  }

  // ---------------------------------------------------------------------------
  // What the option promises.

  /**
   * With a colour field there is one series per distinct colour value, in
   * first-appearance order, named by its string; each has one value per
   * category: the metric of the first row at that category and colour, or 0.
   */
  lemma ColourSeries(rows: seq<Record>, dateColumns: seq<string>, styles: BarStyle, m: AxisMappings, dates: DateFns)
    requires HasColorField(m)
    ensures var o := BarSpec(rows, dateColumns, styles, m, dates);
      var xs := XValues(rows, FieldKey(m.x), IsTemporal(dateColumns, m.x));
      var colors := Dedup(Column(rows, m.color.value.column));
      |o.series| == |colors| &&
      forall i :: 0 <= i < |colors| ==>
        o.series[i].name == ToJsString(colors[i]) && |o.series[i].data| == |xs| &&
        forall j :: 0 <= j < |xs| ==>
          var f := FirstMatch(rows, FieldKey(m.x), xs[j], Some(m.color.value.column), colors[i]);
          o.series[i].data[j] == if f.Some? then Get(rows[f.value], FieldKey(m.y)) else Num(0)
  {
  }

  /** Without a colour field there is one series, named by the metric or `Value`, with one value per category. */
  lemma SingleSeries(rows: seq<Record>, dateColumns: seq<string>, styles: BarStyle, m: AxisMappings, dates: DateFns)
    requires !HasColorField(m)
    ensures var o := BarSpec(rows, dateColumns, styles, m, dates);
      var xs := XValues(rows, FieldKey(m.x), IsTemporal(dateColumns, m.x));
      var metricName := DisplayName(m.y);
      |o.series| == 1 &&
      o.series[0].name == (if metricName.Some? && metricName.value != "" then metricName.value else "Value") &&
      |o.series[0].data| == |xs| &&
      forall j :: 0 <= j < |xs| ==>
        var f := FirstMatch(rows, FieldKey(m.x), xs[j], None, Undefined);
        o.series[0].data[j] == if f.Some? then Get(rows[f.value], FieldKey(m.y)) else Num(0)
  {
  }

  /**
   * The rest of the option: the brush and the stored x times exist exactly
   * for a temporal x axis; the x axis shows one label per category and the
   * y axis is the value axis; no series is stacked and every label shows the
   * value; the bar width is converted once for all series; the tooltip, the
   * legend, the grid and the title follow the style.
   */
  lemma OptionShape(rows: seq<Record>, dateColumns: seq<string>, styles: BarStyle, m: AxisMappings, dates: DateFns)
    ensures var o := BarSpec(rows, dateColumns, styles, m, dates);
      var temporal := IsTemporal(dateColumns, m.x);
      var xs := XValues(rows, FieldKey(m.x), temporal);
      (o.brushable <==> temporal) &&
      (o.metadata.xValues.Some? <==> temporal) &&
      (temporal ==> o.metadata.xValues == Some(Times(xs, dates))) &&
      o.xAxis.CategoryAxis? && |o.xAxis.labels| == |xs| &&
      (!temporal ==> forall i :: 0 <= i < |xs| ==> o.xAxis.labels[i] == ToJsString(xs[i])) &&
      o.yAxis.ValueAxis? && o.yAxis.formatter == "{value}" &&
      (forall s :: s in o.series ==> s.stack.None? && s.formatter == "{c}" && s.barWidth == EchartsBarWidth(styles.barWidth)) &&
      (!o.tooltip.show <==> styles.tooltipOptions.Some? && styles.tooltipOptions.value.mode == "hidden") &&
      o.tooltip.trigger == "axis" && o.tooltip.axisPointerType == "shadow" &&
      o.legend == LegendConfig(styles.addLegend, Some(styles.legendPosition.GetOr(Bottom))) &&
      (o.title.Some? <==> styles.titleOptions.Some? && styles.titleOptions.value.show) &&
      o.dataset == rows
  {
  }
}
