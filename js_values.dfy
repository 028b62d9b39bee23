/**
 * The JavaScript values and plain objects the data frames, tables and chart
 * options are made of. Numbers are integers in this model. A plain object is the
 * list of its own properties in insertion order; assigning a property that
 * exists replaces its value in place, assigning a new one appends it. That is
 * JavaScript's enumeration order for every key this model assigns (Prometheus
 * label names, which start with a letter or `_`, and `Time`, `Metric`, `Value`,
 * `Value #L`); array-index keys, which JavaScript lists first, never occur here.
 */
module JsValues {

  datatype JsValue = Undefined | Null | Bool(b: bool) | Num(n: int) | Str(s: string)

  /** The decimal digits of a natural number. */
  function NatToString(n: nat): (s: string)
    ensures |s| >= 1
    ensures forall i :: 0 <= i < |s| ==> '0' <= s[i] <= '9'
  {
    var d := ['0' + (n % 10) as char];
    if n < 10 then d else NatToString(n / 10) + d
  }

  /** The value of a string of decimal digits. */
  function DigitsValue(s: string): nat
    requires forall i :: 0 <= i < |s| ==> '0' <= s[i] <= '9'
  {
    if s == [] then 0 else 10 * DigitsValue(s[..|s| - 1]) + (s[|s| - 1] - '0') as nat
  }

  /** Reading the digits back gives the number: the rendering loses nothing. */
  lemma {:induction false} DigitsValueOfNatToString(n: nat)
    ensures DigitsValue(NatToString(n)) == n
  {
    var s := NatToString(n);
    if n >= 10 {
      DigitsValueOfNatToString(n / 10);
      assert s[..|s| - 1] == NatToString(n / 10);
    }
  }

  /** `String(n)` for an integer. */
  function IntToString(n: int): string
  {
    if n < 0 then "-" + NatToString(-n) else NatToString(n)
  }

  /** `String(v)`, also what a template literal inserts for `v`. */
  function ToJsString(v: JsValue): string
  {
    match v
    case Undefined => "undefined"
    case Null => "null"
    case Bool(b) => if b then "true" else "false"
    case Num(n) => IntToString(n)
    case Str(s) => s
  }

  /** JavaScript truthiness. */
  predicate Truthy(v: JsValue)
  {
    match v
    case Undefined => false
    case Null => false
    case Bool(b) => b
    case Num(n) => n != 0
    case Str(s) => s != ""
  }

  /** `undefined` or `null`: what `??` and `!= null` test for. */
  predicate Nullish(v: JsValue) {
    v.Undefined? || v.Null?
  }

  datatype Property = Property(key: string, value: JsValue)

  /** A plain object: its own properties in enumeration order. */
  type Record = seq<Property>

  function Keys(r: Record): (ks: seq<string>)
    ensures |ks| == |r|
    ensures forall i :: 0 <= i < |r| ==> ks[i] == r[i].key
  {
    seq(|r|, i requires 0 <= i < |r| => r[i].key)
  }

  predicate DistinctKeys(r: Record) {
    forall i, j :: 0 <= i < j < |r| ==> r[i].key != r[j].key
  }

  /** `r[key]`: the value of the property named `key`, `undefined` when there is none. */
  function Get(r: Record, key: string): JsValue
  {
    if r == [] then Undefined
    else if r[0].key == key then r[0].value
    else Get(r[1..], key)
  }

  /** `r[key] = v`. */
  function Set(r: Record, key: string, v: JsValue): (r': Record)
    ensures |r'| == |r| || |r'| == |r| + 1
  {
    if r == [] then [Property(key, v)]
    else if r[0].key == key then [Property(key, v)] + r[1..]
    else [r[0]] + Set(r[1..], key, v)
  }

  /** After `r[key] = v`, reading `key` gives `v` and every other property is unchanged. */
  lemma {:induction false} GetSet(r: Record, key: string, v: JsValue, other: string)
    ensures Get(Set(r, key, v), key) == v
    ensures other != key ==> Get(Set(r, key, v), other) == Get(r, other)
  {
    if r != [] && r[0].key != key {
      GetSet(r[1..], key, v, other);
      assert Set(r, key, v)[1..] == Set(r[1..], key, v);
    }
  }

  lemma KeysCons(p: Property, r: Record)
    ensures Keys([p] + r) == [p.key] + Keys(r)
  {
  }

  /** An assignment keeps the position of an existing key and appends a new one at the end. */
  lemma {:induction false} KeysSet(r: Record, key: string, v: JsValue)
    ensures Keys(Set(r, key, v)) == if key in Keys(r) then Keys(r) else Keys(r) + [key]
  {
    if r != [] {
      KeysCons(r[0], r[1..]);
      assert r == [r[0]] + r[1..];
      if r[0].key != key {
        KeysSet(r[1..], key, v);
        KeysCons(r[0], Set(r[1..], key, v));
      } else {
        KeysCons(Property(key, v), r[1..]);
      }
    }
  }

  /** A key that is present can be read back as the value stored with it. */
  lemma {:induction false} GetPresent(r: Record, i: nat)
    requires i < |r| && DistinctKeys(r)
    ensures Get(r, r[i].key) == r[i].value
  {
    if i > 0 {
      assert r[0].key != r[i].key;
      assert r[1..][i - 1] == r[i];
      GetPresent(r[1..], i - 1);
    }
  }

  /** A key that is absent reads as `undefined`. */
  lemma {:induction false} GetAbsent(r: Record, key: string)
    requires key !in Keys(r)
    ensures Get(r, key) == Undefined
  {
    if r != [] {
      assert Keys(r) == [r[0].key] + Keys(r[1..]);
      GetAbsent(r[1..], key);
    }
  }

  /** `r[names[0]] = values[0]; r[names[1]] = values[1]; ...` in order. */
  function SetAll(r: Record, names: seq<string>, values: seq<JsValue>): Record
    requires |names| == |values|
  {
    if names == [] then r
    else Set(SetAll(r, names[..|names| - 1], values[..|values| - 1]), names[|names| - 1], values[|values| - 1])
  }

  /** One more assignment at the end of a run of assignments. */
  lemma SetAllStep(r: Record, names: seq<string>, values: seq<JsValue>, i: nat)
    requires |names| == |values| && i < |names|
    ensures SetAll(r, names[..i + 1], values[..i + 1]) == Set(SetAll(r, names[..i], values[..i]), names[i], values[i])
  {
    assert names[..i + 1][..i] == names[..i];
    assert values[..i + 1][..i] == values[..i];
  }

  /** Assigning distinct names that are not yet properties appends them in order. */
  lemma {:induction false} SetAllKeys(r: Record, names: seq<string>, values: seq<JsValue>)
    requires |names| == |values|
    requires forall i, j :: 0 <= i < j < |names| ==> names[i] != names[j]
    requires forall i :: 0 <= i < |names| ==> names[i] !in Keys(r)
    ensures Keys(SetAll(r, names, values)) == Keys(r) + names
  {
    if names != [] {
      var n := |names| - 1;
      var init, vinit := names[..n], values[..n];
      SetAllKeys(r, init, vinit);
      var before := SetAll(r, init, vinit);
      KeysSet(before, names[n], values[n]);
      assert names[n] !in Keys(before) by {
        assert forall i :: 0 <= i < n ==> init[i] != names[n];
      }
      assert names == init + [names[n]];
    }
  }

  /** After distinct assignments each name reads back as its value and every other property is unchanged. */
  lemma {:induction false} SetAllGet(r: Record, names: seq<string>, values: seq<JsValue>)
    requires |names| == |values|
    requires forall i, j :: 0 <= i < j < |names| ==> names[i] != names[j]
    ensures forall i :: 0 <= i < |names| ==> Get(SetAll(r, names, values), names[i]) == values[i]
    ensures forall k :: k !in names ==> Get(SetAll(r, names, values), k) == Get(r, k)
  {
    if names != [] {
      var n := |names| - 1;
      var init, vinit := names[..n], values[..n];
      SetAllGet(r, init, vinit);
      var before := SetAll(r, init, vinit);
      forall i | 0 <= i < |names| ensures Get(SetAll(r, names, values), names[i]) == values[i] {
        GetSet(before, names[n], values[n], names[i]);
        if i < n {
          assert init[i] == names[i] && vinit[i] == values[i];
        }
      }
      forall k | k !in names ensures Get(SetAll(r, names, values), k) == Get(r, k) {
        GetSet(before, names[n], values[n], k);
        assert k !in init by {
          assert forall i :: 0 <= i < n ==> init[i] == names[i];
        }
      }
    }
  }

  /**
   * The properties every plain object inherits from `Object.prototype`. A
   * lookup `o[k]` of one of them finds a truthy value and `k in o` holds,
   * though `o` has no such property of its own.
   */
  const ObjectPrototypeNames: set<string> := {
    "constructor", "hasOwnProperty", "isPrototypeOf", "propertyIsEnumerable", "toLocaleString",
    "toString", "valueOf", "__proto__", "__defineGetter__", "__defineSetter__",
    "__lookupGetter__", "__lookupSetter__"}
}
