/**
 * The option fragments shared by the ECharts chart builders: legend, title,
 * tooltip, grid and the metadata the time-range brush reads. Each is a plain
 * object built from the chart's style options.
 */
module EchartsCommon {
  import opened Wrappers
  import opened JsValues
  import opened Sequences

  /** Where the legend sits. */
  datatype Position = Top | Bottom | Left | Right

  /** The placement key a legend at `p` sets to 0. */
  function PlacementKey(p: Position): string {
    match p
    case Top => "top"
    case Bottom => "bottom"
    case Left => "left"
    case Right => "right"
  }

  /**
   * `buildLegendConfig`: `{show: false}` when there is no legend; otherwise a
   * scrolling legend with its placement key set to 0 (bottom when no position
   * is given), vertical on the left and right.
   */
  function LegendConfig(addLegend: bool, legendPosition: Option<Position>): Record {
    if !addLegend then [Property("show", Bool(false))]
    else
      var p := legendPosition.GetOr(Bottom);
      [Property("show", Bool(true)), Property("type", Str("scroll"))] +
      (if p == Bottom then [Property("bottom", Num(0))] else []) +
      (if p == Top then [Property("top", Num(0))] else []) +
      (if p == Left then [Property("left", Num(0)), Property("orient", Str("vertical"))] else []) +
      (if p == Right then [Property("right", Num(0)), Property("orient", Str("vertical"))] else [])
  }

  /** A hidden legend is exactly `{show: false}`. */
  lemma LegendHidden(legendPosition: Option<Position>)
    ensures var r := LegendConfig(false, legendPosition);
      Keys(r) == ["show"] && Get(r, "show") == Bool(false)
  {
  }

  /** A shown legend is the scrolling header, the placement for its position and, on the sides, `orient`. */
  lemma LegendShownLayout(legendPosition: Option<Position>)
    ensures var p := legendPosition.GetOr(Bottom);
      var head := [Property("show", Bool(true)), Property("type", Str("scroll")), Property(PlacementKey(p), Num(0))];
      LegendConfig(true, legendPosition) == if p == Left || p == Right then head + [Property("orient", Str("vertical"))] else head
  {
  }

  /**
   * A shown legend scrolls and sets exactly one of the four placement keys,
   * the one for its position (bottom by default), to 0; it is vertical exactly
   * when it sits on the left or the right.
   */
  lemma LegendShown(legendPosition: Option<Position>)
    ensures var r := LegendConfig(true, legendPosition);
      var p := legendPosition.GetOr(Bottom);
      Get(r, "show") == Bool(true) && Get(r, "type") == Str("scroll") &&
      Get(r, PlacementKey(p)) == Num(0) &&
      (forall q :: q != p ==> PlacementKey(q) !in Keys(r)) &&
      ("orient" in Keys(r) <==> p == Left || p == Right) &&
      ("orient" in Keys(r) ==> Get(r, "orient") == Str("vertical")) &&
      |Keys(r)| == (if p == Left || p == Right then 4 else 3)
  {
    var r := LegendConfig(true, legendPosition);
    var p := legendPosition.GetOr(Bottom);
    LegendShownKeys(legendPosition);
    LegendShownValues(legendPosition);
  }

  lemma LegendShownKeys(legendPosition: Option<Position>)
    ensures var r := LegendConfig(true, legendPosition);
      var p := legendPosition.GetOr(Bottom);
      (forall q :: q != p ==> PlacementKey(q) !in Keys(r)) &&
      ("orient" in Keys(r) <==> p == Left || p == Right) &&
      |Keys(r)| == (if p == Left || p == Right then 4 else 3)
  {
    var r := LegendConfig(true, legendPosition);
    var p := legendPosition.GetOr(Bottom);
    LegendShownLayout(legendPosition);
    if p == Left || p == Right {
      assert Keys(r) == ["show", "type", PlacementKey(p), "orient"];
    } else {
      assert Keys(r) == ["show", "type", PlacementKey(p)];
    }
  }

  lemma LegendShownValues(legendPosition: Option<Position>)
    ensures var r := LegendConfig(true, legendPosition);
      var p := legendPosition.GetOr(Bottom);
      Get(r, "show") == Bool(true) && Get(r, "type") == Str("scroll") &&
      Get(r, PlacementKey(p)) == Num(0) &&
      ("orient" in Keys(r) ==> Get(r, "orient") == Str("vertical"))
  {
    var r := LegendConfig(true, legendPosition);
    var p := legendPosition.GetOr(Bottom);
    LegendShownLayout(legendPosition);
    if p == Left || p == Right {
      GetPresent(r, 3);
    }
    GetPresent(r, 0);
    GetPresent(r, 1);
    GetPresent(r, 2);
  }

  /** The style's title options: whether to show a title and its configured text. */
  datatype TitleOptions = TitleOptions(show: bool, titleName: string)

  datatype Title = Title(text: string, left: string)

  /**
   * `buildTitleConfig`: no title unless the options say to show one; its text
   * is the configured name, else the default title, else empty, centred.
   */
  function TitleConfig(titleOptions: Option<TitleOptions>, defaultTitle: string): (t: Option<Title>)
    ensures t.Some? <==> titleOptions.Some? && titleOptions.value.show
    ensures t.Some? ==> t.value.left == "center"
    ensures t.Some? && titleOptions.value.titleName != "" ==> t.value.text == titleOptions.value.titleName
    ensures t.Some? && titleOptions.value.titleName == "" ==> t.value.text == defaultTitle
  {
    if titleOptions.None? || !titleOptions.value.show then None
    else Some(Title(if titleOptions.value.titleName != "" then titleOptions.value.titleName else defaultTitle, "center"))
  }

  /** The style's tooltip options. */
  datatype TooltipOptions = TooltipOptions(mode: string)

  datatype Tooltip = Tooltip(show: bool, trigger: string, axisPointerType: string)

  /**
   * `buildTooltipConfig`: shown unless the mode is `hidden`; the trigger and
   * the pointer type default to `axis` and `shadow`.
   */
  function TooltipConfig(tooltipOptions: Option<TooltipOptions>, trigger: Option<string>, axisPointerType: Option<string>): (t: Tooltip)
    ensures !t.show <==> tooltipOptions.Some? && tooltipOptions.value.mode == "hidden"
    ensures t.trigger == (if trigger.Some? then trigger.value else "axis")
    ensures t.axisPointerType == (if axisPointerType.Some? then axisPointerType.value else "shadow")
  {
    Tooltip(!(tooltipOptions.Some? && tooltipOptions.value.mode == "hidden"), trigger.GetOr("axis"), axisPointerType.GetOr("shadow"))
  }

  /**
   * `buildGridConfig`: room at the bottom for a bottom legend and at the top
   * for a title. A missing position is not defaulted here, so it leaves no
   * room for a legend.
   */
  function GridConfig(addLegend: bool, legendPosition: Option<Position>, showTitle: bool): Record {
    [Property("left", Str("3%")), Property("right", Str("4%")),
     Property("bottom", Str(if addLegend && legendPosition == Some(Bottom) then "15%" else "3%")),
     Property("top", Str(if showTitle then "15%" else "10%")),
     Property("containLabel", Bool(true))]
  }

  /** The grid's margins depend on the legend and the title as follows, and nothing else varies. */
  lemma GridMargins(addLegend: bool, legendPosition: Option<Position>, showTitle: bool)
    ensures var g := GridConfig(addLegend, legendPosition, showTitle);
      Keys(g) == ["left", "right", "bottom", "top", "containLabel"] &&
      (Get(g, "bottom") == Str("15%") <==> addLegend && legendPosition == Some(Bottom)) &&
      (Get(g, "bottom") != Str("15%") ==> Get(g, "bottom") == Str("3%")) &&
      (Get(g, "top") == Str("15%") <==> showTitle) &&
      (!showTitle ==> Get(g, "top") == Str("10%")) &&
      Get(g, "left") == Str("3%") && Get(g, "right") == Str("4%") && Get(g, "containLabel") == Bool(true)
  {
    var g := GridConfig(addLegend, legendPosition, showTitle);
    GetPresent(g, 2);
    GetPresent(g, 3);
    GetPresent(g, 4);
  }

  /** The `__metadata__` object the brush handler reads. */
  datatype Metadata = Metadata(isXTemporal: bool, xField: Option<string>, xValues: Option<seq<int>>)

  /** `createEchartsMetadata`: the x values are kept only for a temporal x axis. */
  function EchartsMetadata(isXTemporal: bool, xField: Option<string>, xValues: Option<seq<int>>): (m: Metadata)
    ensures m.isXTemporal == isXTemporal && m.xField == xField
    ensures m.xValues.Some? <==> isXTemporal && xValues.Some?
    ensures m.xValues.Some? ==> m.xValues == xValues
  {
    Metadata(isXTemporal, xField, if isXTemporal && xValues.Some? then xValues else None)
  }

  // ---------------------------------------------------------------------------
  // The column mappings and rows both chart builders read.

  /** A column mapped to an axis role: the field it reads and its display name. */
  datatype AxisColumn = AxisColumn(column: string, name: string)

  /** The columns mapped to the y, x and colour roles; a role may be unmapped. */
  datatype AxisMappings = AxisMappings(y: Option<AxisColumn>, x: Option<AxisColumn>, color: Option<AxisColumn>)

  /** The date conversions of the temporal axis: `new Date(v).toLocaleString()` and `new Date(v).getTime()`. */
  datatype DateFns = DateFns(localeString: JsValue -> string, time: JsValue -> int)

  /** `a || b` on optional strings: the empty string is falsy. */
  function JsOr(a: Option<string>, b: Option<string>): (r: Option<string>)
    ensures r == a || r == b
    ensures r == a <==> (a.Some? && a.value != "") || a == b
  {
    if a.Some? && a.value != "" then a else b
  }

  /** `row[field!]`: an unmapped field reads the property named `undefined`. */
  function FieldKey(c: Option<AxisColumn>): string {
    if c.Some? then c.value.column else "undefined"
  }

  function Field(c: Option<AxisColumn>): Option<string> {
    if c.Some? then Some(c.value.column) else None
  }

  /** `column?.name || column?.column`. */
  function DisplayName(c: Option<AxisColumn>): Option<string> {
    if c.Some? then JsOr(Some(c.value.name), Some(c.value.column)) else None
  }

  /** What a template literal inserts for an optional string. */
  function TemplateText(s: Option<string>): string {
    if s.Some? then s.value else "undefined"
  }

  /** `dateColumns.some((col) => col.column === xField)`. */
  predicate IsTemporal(dateColumns: seq<string>, x: Option<AxisColumn>) {
    x.Some? && x.value.column in dateColumns
  }

  function Column(rows: seq<Record>, key: string): (vs: seq<JsValue>)
    ensures |vs| == |rows|
    ensures forall i :: 0 <= i < |rows| ==> vs[i] == Get(rows[i], key)
  {
    seq(|rows|, i requires 0 <= i < |rows| => Get(rows[i], key))
  }

  /** `[...new Set(values)]`: the distinct values, each where it first occurs. */
  function Dedup<T(==,!new)>(xs: seq<T>): (r: seq<T>)
    ensures forall v :: v in r <==> v in xs
    ensures Distinct(r)
  {
    if xs == [] then []
    else
      var d := Dedup(xs[..|xs| - 1]);
      var v := xs[|xs| - 1];
      assert forall w :: w in xs <==> w in xs[..|xs| - 1] || w == v by {
        InitLast(xs);
      }
      if v in d then d else d + [v]
  }

  /** The position of the first occurrence of `v`. */
  function FirstIndex<T(==)>(xs: seq<T>, v: T): (i: nat)
    requires v in xs
    ensures i < |xs| && xs[i] == v
    ensures forall j :: 0 <= j < i ==> xs[j] != v
  {
    if xs[0] == v then 0 else 1 + FirstIndex(xs[1..], v)
  }

  lemma FirstIndexExtend<T>(xs: seq<T>, x: T, v: T)
    requires v in xs
    ensures FirstIndex(xs + [x], v) == FirstIndex(xs, v)
  {
    var i, k := FirstIndex(xs + [x], v), FirstIndex(xs, v);
    assert (xs + [x])[k] == v;
    assert i <= k;
    assert xs[i] == v;
  }

  /** The values of `r` occur in `xs`, and first occur there in the order of `r`. */
  ghost predicate InFirstOccurrenceOrder<T>(r: seq<T>, xs: seq<T>) {
    (forall v :: v in r ==> v in xs) &&
    forall i, j :: 0 <= i < j < |r| ==> FirstIndex(xs, r[i]) < FirstIndex(xs, r[j])
  }

  /** The distinct values keep the order of their first occurrences. */
  lemma {:induction false} DedupFirstOccurrence<T(!new)>(xs: seq<T>)
    ensures InFirstOccurrenceOrder(Dedup(xs), xs)
  {
    if xs != [] {
      var init, v := xs[..|xs| - 1], xs[|xs| - 1];
      DedupFirstOccurrence(init);
      InitLast(xs);
      DedupStep(init, v);
    }
  }

  lemma DedupStep<T(!new)>(init: seq<T>, v: T)
    requires InFirstOccurrenceOrder(Dedup(init), init)
    ensures InFirstOccurrenceOrder(Dedup(init + [v]), init + [v])
  {
    var xs := init + [v];
    var d := Dedup(init);
    var r := Dedup(xs);
    assert xs[..|xs| - 1] == init;
    forall i | 0 <= i < |d| ensures FirstIndex(xs, d[i]) == FirstIndex(init, d[i]) {
      FirstIndexExtend(init, v, d[i]);
    }
    if v !in d {
      assert r == d + [v];
      assert v !in init;
      assert FirstIndex(xs, v) == |init|;
      forall i, j | 0 <= i < j < |r| ensures FirstIndex(xs, r[i]) < FirstIndex(xs, r[j]) {
        assert r[i] == d[i];
        if j < |d| {
          assert r[j] == d[j];
        } else {
          assert r[j] == v;
          assert FirstIndex(init, d[i]) < |init|;
        }
      }
    } else {
      assert r == d;
    }
  }
}
