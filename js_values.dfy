/**
 * The dynamic JavaScript values the dashboard inspects without a static type: the value a
 * statistics path walk reaches inside a profile, a column filter's value, a property shown in
 * a detail view. Numbers are integers here.
 */
module JsValues {
  import opened Wrappers
  import opened Strings

  datatype JsValue =
    | Undefined
    | Null
    | Bool(b: bool)
    | Num(n: int)
    | Str(s: string)
    | Arr(items: seq<JsValue>)
    | Obj(fields: map<string, JsValue>)

  /** `v == null`: true of `null` and of `undefined` alike. */
  predicate IsNullish(v: JsValue)
  {
    v.Undefined? || v.Null?
  }

  /** JavaScript truthiness: `false`, `0`, `""`, `null` and `undefined` are falsy. */
  predicate Truthy(v: JsValue)
  {
    match v
    case Undefined => false
    case Null => false
    case Bool(b) => b
    case Num(n) => n != 0
    case Str(s) => s != ""
    case Arr(_) => true
    case Obj(_) => true
  }

  /** `String(n)` for an integer. */
  function IntToString(n: int): (r: string)
    ensures |r| >= 1
  {
    if n < 0 then "-" + NatToString(-n) else NatToString(n)
  }

  /** `String(v)`. An array is its elements joined with `,`, where `null` and `undefined` give "". */
  function ToString(v: JsValue): (r: string)
    ensures v.Str? ==> r == v.s
    ensures v.Num? ==> r != ""
  {
    match v
    case Undefined => "undefined"
    case Null => "null"
    case Bool(b) => if b then "true" else "false"
    case Num(n) => IntToString(n)
    case Str(s) => s
    case Arr(items) => Join(ElementStrings(items), ",")
    case Obj(_) => "[object Object]"
  }

  /** How `Array.prototype.join` writes each element. */
  function ElementStrings(items: seq<JsValue>): (r: seq<string>)
    ensures |r| == |items|
    decreases items
  {
    if items == [] then []
    else
      [if IsNullish(items[0]) then "" else ToString(items[0])] + ElementStrings(items[1..])
  }

  /** A truthy value names a non-empty bucket: `String(v)` of it is never "". */
  lemma TruthyToStringNonEmpty(v: JsValue)
    requires Truthy(v) && !v.Arr?
    ensures ToString(v) != ""
  {
  }

  /**
   * The array index a property name denotes: its canonical decimal form
   * (no sign, no leading zero other than "0" itself).
   */
  function ArrayIndex(key: string): (r: Option<nat>)
    ensures r.Some? ==> NatToString(r.value) == key
  {
    if key != "" && (forall i :: 0 <= i < |key| ==> IsDigit(key[i])) && (key[0] != '0' || key == "0") then
      CanonicalDigits(key);
      Some(DigitsValue(key))
    else None
  }

  /** A canonical digit string is what `NatToString` prints for its value. */
  lemma {:induction false} CanonicalDigits(key: string)
    requires key != "" && forall i :: 0 <= i < |key| ==> IsDigit(key[i])
    requires key[0] != '0' || key == "0"
    ensures NatToString(DigitsValue(key)) == key
  {
    var n := DigitsValue(key);
    if |key| == 1 {
      assert key[..|key| - 1] == [];
      assert n == DigitsValue([]) * 10 + DigitValue(key[0]);
      assert NatToString(n) == [DigitChar(n)];
    } else {
      var init := key[..|key| - 1];
      CanonicalDigits(init);
      assert DigitsValue(init) >= 1 by {
        CanonicalNonZero(init);
      }
      assert n / 10 == DigitsValue(init) && n % 10 == DigitValue(key[|key| - 1]);
      assert key == init + [key[|key| - 1]];
    }
  }

  lemma CanonicalNonZero(key: string)
    requires key != "" && forall i :: 0 <= i < |key| ==> IsDigit(key[i])
    requires key[0] != '0'
    ensures DigitsValue(key) >= 1
    decreases |key|
  {
    if |key| > 1 {
      CanonicalNonZero(key[..|key| - 1]);
    }
  }

  /**
   * `key in v` followed by `v[key]` for a value `typeof` calls "object": the own fields of an
   * object, the elements and `length` of an array; `None` when the key is not there.
   */
  function Member(v: JsValue, key: string): (r: Option<JsValue>)
    requires v.Obj? || v.Arr?
    ensures v.Obj? ==> (r.Some? <==> key in v.fields)
  {
    if v.Obj? then
      if key in v.fields then Some(v.fields[key]) else None
    else if key == "length" then Some(Num(|v.items|))
    else
      match ArrayIndex(key)
      case Some(i) => if i < |v.items| then Some(v.items[i]) else None
      case None => None
  }

  /** The element `Member` finds under the decimal name of an index. */
  lemma MemberIndex(items: seq<JsValue>, i: nat)
    requires i < |items|
    ensures Member(Arr(items), NatToString(i)) == Some(items[i])
  {
    var key := NatToString(i);
    NatToStringRoundTrip(i);
    if i == 0 {
      assert key == [DigitChar(0)] == "0";
    }
  }
}
