/**
 * The helpers of the raw metrics table: the value cells of an instant row and
 * the text of its metric, in a compact and an expanded (one label per line)
 * form. The rows are those of a PromQL data frame (`Metric` and `Value #<label>`
 * cells) or of the older schema (`__name__` and one cell per label).
 */
module MetricsRawTable {
  import opened Wrappers
  import opened Strings
  import opened JsValues
  import opened Sequences
  import PromqlSearchStrategy

  const ValuePrefix := "Value #"

  // ---------------------------------------------------------------------------
  // `extractValueColumns`.

  /** One value cell shown by the table: its label (`#A`, or "" for a single query) and its value. */
  datatype ValueEntry = ValueEntry(columnLabel: string, value: JsValue)

  /** The keys that start with `Value #`, in their order. */
  function ValueKeys(keys: seq<string>): (vk: seq<string>)
    ensures forall k :: k in vk <==> k in keys && StartsWith(k, ValuePrefix)
  {
    if keys == [] then []
    else (if StartsWith(keys[0], ValuePrefix) then [keys[0]] else []) + ValueKeys(keys[1..])
  }

  /** `key.replace('Value ', '')` for a key starting with `Value `: the first occurrence is the prefix. */
  function ColumnLabel(key: string): string {
    if StartsWith(key, "Value ") then key[6..] else key
  }

  /** `val !== undefined && val !== null ? val : null`. */
  function CellValue(v: JsValue): JsValue {
    if Nullish(v) then Null else v
  }

  function ValueEntryOf(source: Record, key: string): ValueEntry {
    ValueEntry(ColumnLabel(key), CellValue(Get(source, key)))
  }

  function EntriesOf(source: Record, keys: seq<string>): (entries: seq<ValueEntry>)
    ensures |entries| == |keys|
  {
    seq(|keys|, i requires 0 <= i < |keys| => ValueEntryOf(source, keys[i]))
  }

  /**
   * The value cells: one per `Value #` key in sorted key order, or else the
   * single `Value` cell when it is defined, or else none.
   */
  function ExtractedValueColumns(source: Record): seq<ValueEntry> {
    var sorted := SortStrings(ValueKeys(Keys(source)));
    if |sorted| > 0 then EntriesOf(source, sorted)
    else if Get(source, "Value") != Undefined then [ValueEntry("", Get(source, "Value"))]
    else []
  }

  /** The `forEach` over the sorted value keys. */
  method PushEntries(source: Record, sorted: seq<string>) returns (valueColumns: seq<ValueEntry>)
    ensures valueColumns == EntriesOf(source, sorted)
  {
    valueColumns := [];
    for i := 0 to |sorted|
      invariant |valueColumns| == i
      invariant forall j :: 0 <= j < i ==> valueColumns[j] == ValueEntryOf(source, sorted[j])
    {
      var key := sorted[i];
      var columnLabel := if StartsWith(key, "Value ") then key[6..] else key;
      var val := Get(source, key);
      valueColumns := valueColumns + [ValueEntry(columnLabel, if val != Undefined && val != Null then val else Null)];
    }
  }

  /** `extractValueColumns`, pushing one entry per sorted key. */
  method ExtractValueColumns(source: Record) returns (valueColumns: seq<ValueEntry>)
    ensures valueColumns == ExtractedValueColumns(source)
  {
    valueColumns := [];
    var valueKeys := ValueKeys(Keys(source));
    if |valueKeys| > 0 {
      valueColumns := PushEntries(source, SortStrings(valueKeys));
    } else if Get(source, "Value") != Undefined {
      valueColumns := [ValueEntry("", Get(source, "Value"))];
    }
  }

  /** The entry a value key contributes. */
  function EntryOfKey(source: Record, k: string): ValueEntry
    requires StartsWith(k, ValuePrefix)
  {
    ValueEntry("#" + k[7..], CellValue(Get(source, k)))
  }

  /** A value key `Value #X` is labelled `#X`; the `Value ` prefix is all the replacement removes. */
  lemma ColumnLabelOfValueKey(source: Record, k: string)
    requires StartsWith(k, ValuePrefix)
    ensures ValueEntryOf(source, k) == EntryOfKey(source, k)
    ensures k == "Value " + ValueEntryOf(source, k).columnLabel
  {
    assert k[..7] == ValuePrefix;
    assert k[6..][1..] == k[7..];
    assert k == k[..6] + k[6..];
  }

  /** The sorted value keys are the value keys. */
  lemma SortedValueKeys(source: Record, i: nat)
    requires i < |SortStrings(ValueKeys(Keys(source)))|
    ensures var k := SortStrings(ValueKeys(Keys(source)))[i]; k in Keys(source) && StartsWith(k, ValuePrefix)
  {
    var vk := ValueKeys(Keys(source));
    assert SortStrings(vk)[i] in multiset(SortStrings(vk));
  }

  /**
   * With `Value #` keys, the entries are exactly one per such key, labelled by
   * the key without `Value ` (so `#` and the query label) and holding the key's
   * value or `null`.
   */
  lemma ValueColumnsExactly(source: Record)
    requires exists k :: k in Keys(source) && StartsWith(k, ValuePrefix)
    ensures var r := ExtractedValueColumns(source);
      |r| == |ValueKeys(Keys(source))| &&
      forall e :: e in r <==> (exists k :: k in Keys(source) && StartsWith(k, ValuePrefix) && e == EntryOfKey(source, k))
  {
    var vk := ValueKeys(Keys(source));
    var k0 :| k0 in Keys(source) && StartsWith(k0, ValuePrefix);
    assert k0 in multiset(vk);
    assert |SortStrings(vk)| > 0;
    EntriesFromValueKeys(source);
    ValueKeysGiveEntries(source);
  }

  lemma EntriesFromValueKeys(source: Record)
    requires |SortStrings(ValueKeys(Keys(source)))| > 0
    ensures forall e :: e in ExtractedValueColumns(source) ==>
      exists k :: k in Keys(source) && StartsWith(k, ValuePrefix) && e == EntryOfKey(source, k)
  {
    var sorted := SortStrings(ValueKeys(Keys(source)));
    var r := ExtractedValueColumns(source);
    forall e | e in r ensures exists k :: k in Keys(source) && StartsWith(k, ValuePrefix) && e == EntryOfKey(source, k) {
      var i :| 0 <= i < |r| && r[i] == e;
      SortedValueKeys(source, i);
      ColumnLabelOfValueKey(source, sorted[i]);
    }
  }

  lemma ValueKeysGiveEntries(source: Record)
    requires |SortStrings(ValueKeys(Keys(source)))| > 0
    ensures forall k :: k in Keys(source) && StartsWith(k, ValuePrefix) ==> EntryOfKey(source, k) in ExtractedValueColumns(source)
  {
    var sorted := SortStrings(ValueKeys(Keys(source)));
    var r := ExtractedValueColumns(source);
    forall k | k in Keys(source) && StartsWith(k, ValuePrefix) ensures EntryOfKey(source, k) in r {
      assert k in multiset(sorted);
      var i :| 0 <= i < |sorted| && sorted[i] == k;
      ColumnLabelOfValueKey(source, k);
      assert r[i] == EntryOfKey(source, k);
    }
  }

  /** The entries are in the character order of their labels. */
  lemma ValueColumnsSorted(source: Record)
    ensures var r := ExtractedValueColumns(source);
      forall i, j :: 0 <= i < j < |r| ==> !StrLess(r[j].columnLabel, r[i].columnLabel)
  {
    var sorted := SortStrings(ValueKeys(Keys(source)));
    var r := ExtractedValueColumns(source);
    if |sorted| > 0 {
      forall i, j | 0 <= i < j < |r| ensures !StrLess(r[j].columnLabel, r[i].columnLabel) {
        SortedValueKeys(source, i);
        SortedValueKeys(source, j);
        ColumnLabelOfValueKey(source, sorted[i]);
        ColumnLabelOfValueKey(source, sorted[j]);
        StrLessCommonPrefix("Value ", r[j].columnLabel, r[i].columnLabel);
      }
    }
  }

  // ---------------------------------------------------------------------------
  // `formatMetricString`.

  const Indent := "    "

  /** `name{` and one label per line, each indented by four spaces, then `}`. */
  function Expanded(name: string, labels: seq<string>): string {
    name + "{\n" + Indent + Join(labels, ",\n" + Indent) + "\n}"
  }

  /**
   * The match of `^([^{]*)\{(.*)\}$`: the text before the first `{`, and the
   * text from there to a final `}`, which `.` must match throughout.
   */
  function MatchBraced(metric: string): Option<(string, string)> {
    var p := IndexOf(metric, '{');
    if p + 2 <= |metric| && metric[|metric| - 1] == '}' && NoLineTerminator(metric[p + 1..|metric| - 1])
    then Some((metric[..p], metric[p + 1..|metric| - 1]))
    else None
  }

  /** The match splits the metric exactly into a brace-free name and a one-line body. */
  lemma MatchBracedExactly(metric: string, name: string, body: string)
    ensures MatchBraced(metric) == Some((name, body)) <==>
      metric == name + "{" + body + "}" && '{' !in name && NoLineTerminator(body)
  {
    var p := IndexOf(metric, '{');
    if metric == name + "{" + body + "}" && '{' !in name && NoLineTerminator(body) {
      assert metric[|name|] == '{';
      assert forall k :: 0 <= k < |name| ==> metric[k] == name[k];
      assert p == |name|;
      assert metric[p + 1..|metric| - 1] == body;
      assert metric[..p] == name;
    }
    if MatchBraced(metric) == Some((name, body)) {
      assert metric == metric[..p] + "{" + metric[p + 1..|metric| - 1] + "}";
      assert forall k :: 0 <= k < p ==> metric[..p][k] != '{';
    }
  }

  /** Keys the older schema never shows as labels. */
  predicate Reserved(key: string) {
    key == "Time" || key == "Value" || key == "__name__" || StartsWith(key, ValuePrefix)
  }

  /** A property the older schema shows: not reserved, and neither undefined, null nor empty. */
  predicate Shown(p: Property) {
    !Reserved(p.key) && !Nullish(p.value) && p.value != Str("")
  }

  /** `key="String(val)"`. */
  function LabelText(p: Property): string {
    p.key + "=\"" + ToJsString(p.value) + "\""
  }

  /** The label texts of the shown properties, in property order. */
  function LegacyLabels(source: Record): seq<string> {
    if source == [] then []
    else
      var p := source[|source| - 1];
      LegacyLabels(source[..|source| - 1]) + (if Shown(p) then [LabelText(p)] else [])
  }

  lemma {:induction false} LegacyLabelsExactly(source: Record, t: string)
    ensures t in LegacyLabels(source) <==> exists i :: 0 <= i < |source| && Shown(source[i]) && t == LabelText(source[i])
  {
    if source != [] {
      var init := source[..|source| - 1];
      LegacyLabelsExactly(init, t);
      assert forall i :: 0 <= i < |init| ==> init[i] == source[i];
    }
  }

  /** `(source.__name__ as string) || ''`. */
  function MetricNameOf(source: Record): string {
    var v := Get(source, "__name__");
    if Truthy(v) then ToJsString(v) else ""
  }

  /** The metric text of a row, compact or expanded. */
  function FormattedMetric(source: Record, expanded: bool): string
    requires Get(source, "Metric").Undefined? || Get(source, "Metric").Str?
  {
    match Get(source, "Metric")
    case Str(metric) =>
      if !expanded then metric
      else (match MatchBraced(metric)
        case Some((name, body)) => Expanded(name, SplitOn(body, ", "))
        case None => metric)
    case _ =>
      var labels := LegacyLabels(source);
      var name := MetricNameOf(source);
      if labels == [] then name
      else if expanded then Expanded(name, labels)
      else name + "{" + Join(labels, ", ") + "}"
  }

  /** `formatMetricString`: the `Metric` cell when there is one, else the older schema's labels. */
  method FormatMetricString(source: Record, expanded: bool) returns (s: string)
    requires Get(source, "Metric").Undefined? || Get(source, "Metric").Str?
    ensures s == FormattedMetric(source, expanded)
  {
    var metricCell := Get(source, "Metric");
    if metricCell.Str? {
      var metric := metricCell.s;
      if !expanded {
        return metric;
      }
      var matched := MatchBraced(metric);
      if matched.Some? {
        var (name, body) := matched.value;
        var labels := SplitOn(body, ", ");
        return name + "{\n" + Indent + Join(labels, ",\n" + Indent) + "\n}";
      }
      return metric;
    }
    var metricName := MetricNameOf(source);
    var labels: seq<string> := [];
    for i := 0 to |source|
      invariant labels == LegacyLabels(source[..i])
    {
      var key, val := source[i].key, source[i].value;
      if key != "Time" && key != "Value" && key != "__name__" && !StartsWith(key, ValuePrefix)
        && val != Undefined && val != Null && val != Str("")
      {
        labels := labels + [key + "=\"" + ToJsString(val) + "\""];
      }
      assert source[..i + 1][..i] == source[..i];
    }
    assert source[..|source|] == source;
    if labels == [] {
      return metricName;
    }
    if expanded {
      return metricName + "{\n" + Indent + Join(labels, ",\n" + Indent) + "\n}";
    }
    return metricName + "{" + Join(labels, ", ") + "}";
  }

  /** Both forms carry the same labels: the expanded form only puts one label on each line. */
  lemma {:induction false} CompactAndExpandedAgree(source: Record)
    requires Get(source, "Metric").Undefined? || Get(source, "Metric").Str?
    ensures FormattedMetric(source, true) == FormattedMetric(source, false) ||
      exists name, labels :: FormattedMetric(source, false) == name + "{" + Join(labels, ", ") + "}" &&
        FormattedMetric(source, true) == Expanded(name, labels)
  {
    var cell := Get(source, "Metric");
    if cell.Str? && MatchBraced(cell.s).Some? {
      var (name, body) := MatchBraced(cell.s).value;
      MatchBracedExactly(cell.s, name, body);
      JoinSplitOn(body, ", ");
      assert FormattedMetric(source, false) == name + "{" + Join(SplitOn(body, ", "), ", ") + "}";
    }
  }

  // ---------------------------------------------------------------------------
  // The table over the instant rows of a multi-query frame.

  /**
   * Reading an instant row of a multi-query frame, the table shows one value
   * cell per query label, labelled `#` and the query label, with the value the
   * entry recorded for that query or `null`.
   */
  lemma InstantRowValueEntries(e: PromqlSearchStrategy.InstantEntry, keys: seq<string>, labels: seq<string>)
    requires Distinct(keys) && Distinct(labels)
    requires forall i :: 0 <= i < |keys| ==> !PromqlSearchStrategy.ClashesWithColumns(keys[i])
    requires labels != []
    ensures var r := ExtractedValueColumns(PromqlSearchStrategy.InstantRow(e, keys, labels));
      forall v :: v in r <==> exists j :: 0 <= j < |labels| && v == ValueEntry("#" + labels[j], PromqlSearchStrategy.ValueCell(e, labels[j]))
  {
    var row := PromqlSearchStrategy.InstantRow(e, keys, labels);
    var names := PromqlSearchStrategy.ValueColumns(labels);
    InstantRowValueColumns(e, keys, labels);
    InstantRowValueKeys(e, keys, labels);
    ValueColumnsExactly(row);
  }

  /** Each query label's value column is a value key of the row and yields the label's entry. */
  lemma InstantRowValueColumns(e: PromqlSearchStrategy.InstantEntry, keys: seq<string>, labels: seq<string>)
    requires Distinct(keys) && Distinct(labels)
    requires forall i :: 0 <= i < |keys| ==> !PromqlSearchStrategy.ClashesWithColumns(keys[i])
    ensures var row := PromqlSearchStrategy.InstantRow(e, keys, labels);
      var names := PromqlSearchStrategy.ValueColumns(labels);
      forall j :: 0 <= j < |labels| ==>
        names[j] in Keys(row) && StartsWith(names[j], ValuePrefix) &&
        EntryOfKey(row, names[j]) == ValueEntry("#" + labels[j], PromqlSearchStrategy.ValueCell(e, labels[j]))
  {
    var row := PromqlSearchStrategy.InstantRow(e, keys, labels);
    var names := PromqlSearchStrategy.ValueColumns(labels);
    PromqlSearchStrategy.InstantRowKeys(e, keys, labels);
    PromqlSearchStrategy.InstantSchemaNames(keys, labels);
    PromqlSearchStrategy.InstantRowCells(e, keys, labels);
    forall j | 0 <= j < |labels|
      ensures names[j] in Keys(row) && StartsWith(names[j], ValuePrefix)
      ensures EntryOfKey(row, names[j]) == ValueEntry("#" + labels[j], PromqlSearchStrategy.ValueCell(e, labels[j]))
    {
      ValueColumnEntry(row, keys, labels, j, PromqlSearchStrategy.ValueCell(e, labels[j]));
    }
  }

  /** The entry of a query label's value column holding a number or `null`. */
  lemma ValueColumnEntry(row: Record, keys: seq<string>, labels: seq<string>, j: nat, v: JsValue)
    requires j < |labels| && Keys(row) == ["Time", "Metric"] + keys + PromqlSearchStrategy.ValueColumns(labels)
    requires v.Num? || v.Null?
    requires Get(row, PromqlSearchStrategy.ValueColumn(labels[j])) == v
    ensures var c := PromqlSearchStrategy.ValueColumns(labels)[j];
      c in Keys(row) && StartsWith(c, ValuePrefix) && EntryOfKey(row, c) == ValueEntry("#" + labels[j], v)
  {
    var c := PromqlSearchStrategy.ValueColumn(labels[j]);
    assert Keys(row)[2 + |keys| + j] == c;
    assert c[..7] == ValuePrefix && c[7..] == labels[j];
  }

  /** The only value keys of an instant row are the query labels' value columns. */
  lemma InstantRowValueKeys(e: PromqlSearchStrategy.InstantEntry, keys: seq<string>, labels: seq<string>)
    requires Distinct(keys) && Distinct(labels)
    requires forall i :: 0 <= i < |keys| ==> !PromqlSearchStrategy.ClashesWithColumns(keys[i])
    ensures var names := PromqlSearchStrategy.ValueColumns(labels);
      forall k :: k in Keys(PromqlSearchStrategy.InstantRow(e, keys, labels)) && StartsWith(k, ValuePrefix) ==> k in names
  {
    var row := PromqlSearchStrategy.InstantRow(e, keys, labels);
    var names := PromqlSearchStrategy.ValueColumns(labels);
    var ks := Keys(row);
    PromqlSearchStrategy.InstantRowKeys(e, keys, labels);
    PromqlSearchStrategy.InstantSchemaNames(keys, labels);
    assert ks == ["Time", "Metric"] + keys + names;
    assert forall i :: 2 <= i < 2 + |keys| ==> ks[i] == keys[i - 2];
    assert forall i :: 0 <= i < 2 + |keys| ==> !StartsWith(ks[i], ValuePrefix);
    forall i | 2 + |keys| <= i < |ks| ensures ks[i] in names {
      assert ks[i] == names[i - 2 - |keys|];
    }
  }

  /** The compact metric text of an instant row is its `Metric` cell. */
  lemma InstantRowCompactMetric(e: PromqlSearchStrategy.InstantEntry, keys: seq<string>, labels: seq<string>)
    requires Distinct(keys) && Distinct(labels)
    requires forall i :: 0 <= i < |keys| ==> !PromqlSearchStrategy.ClashesWithColumns(keys[i])
    ensures var row := PromqlSearchStrategy.InstantRow(e, keys, labels);
      (Get(row, "Metric").Undefined? || Get(row, "Metric").Str?) &&
      FormattedMetric(row, false) == e.metricName + PromqlSearchStrategy.FormatMetricLabels(e.metric)
  {
    PromqlSearchStrategy.InstantRowCells(e, keys, labels);
  }
}
