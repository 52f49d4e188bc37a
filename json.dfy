/**
 * The parsed configuration document: a JSON value, with the three JavaScript
 * operations the loader applies to it — truthiness, `String(v)` and
 * own-property lookup (`Object.prototype.hasOwnProperty` followed by `v[key]`).
 */
module Json {
  import opened Wrappers
  import opened Text

  /** A JSON value. Numbers are integers here (see README, "Left out"). */
  datatype Value =
    | Null
    | Bool(b: bool)
    | Num(n: int)
    | Str(s: string)
    | Arr(items: seq<Value>)
    | Obj(fields: map<string, Value>)

  /** JavaScript truthiness: `null`, `false`, `0` and `""` are falsy, every array and object is truthy. */
  predicate Truthy(v: Value)
    ensures Truthy(v) <==> v !in {Null, Bool(false), Num(0), Str("")}
  {
    match v
    case Null => false
    case Bool(b) => b
    case Num(n) => n != 0
    case Str(s) => s != ""
    case _ => true
  }

  /** Truthiness of a property read that may give `undefined`. */
  predicate Present(o: Option<Value>)
  {
    o.Some? && Truthy(o.value)
  }

  /** `String(n)` for an integer. */
  function NumberString(n: int): string
  {
    if n < 0 then "-" + Decimal(-n) else Decimal(n)
  }

  /**
   * `String(v)`: arrays join their elements with "," (a `null` element giving
   * the empty string), objects give "[object Object]".
   */
  function ToJsString(v: Value): (r: string)
    ensures v.Str? ==> r == v.s
    ensures (v.Null? || v.Bool? || v.Num? || v.Obj?) ==> r != ""
    decreases v, 1
  {
    match v
    case Null => "null"
    case Bool(b) => if b then "true" else "false"
    case Num(n) => NumberString(n)
    case Str(s) => s
    case Arr(items) => JoinItems(items)
    case Obj(_) => "[object Object]"
  }

  /** `Array.prototype.join(",")` over array elements. */
  function JoinItems(items: seq<Value>): string
    decreases items, 0
  {
    if items == [] then ""
    else
      var first := if items[0] == Null then "" else ToJsString(items[0]);
      if |items| == 1 then first else first + "," + JoinItems(items[1..])
  }

  /** What assigning `v` to `textContent` (or to a form field's `value`) stores: `null` clears it. */
  function TextOf(v: Value): string
  {
    if v == Null then "" else ToJsString(v)
  }

  /** Assigning a value as text stores its `String(v)`, except that `null` clears rather than writing "null". */
  lemma TextOfDiffersOnlyOnNull(v: Value)
    ensures TextOf(v) == ToJsString(v) <==> v != Null
    ensures v == Null ==> TextOf(v) == ""
  {
  }

  /** `String` of an array is `join(",")` of its elements' texts, `null` elements giving "". */
  lemma {:induction false} JoinItemsIsJoin(items: seq<Value>)
    ensures JoinItems(items) == Join(seq(|items|, i requires 0 <= i < |items| => TextOf(items[i])), ',')
    decreases |items|
  {
    var texts := seq(|items|, i requires 0 <= i < |items| => TextOf(items[i]));
    if |items| > 1 {
      JoinItemsIsJoin(items[1..]);
      assert texts[1..] == seq(|items[1..]|, i requires 0 <= i < |items[1..]| => TextOf(items[1..][i]));
    }
  }

  /**
   * `hasOwnProperty.call(v, key) ? v[key] : undefined` for a truthy `v`.
   * Objects own their keys; arrays and strings own their indices (spelled as
   * canonical numerals) and "length"; numbers and booleans own nothing.
   */
  function OwnProperty(v: Value, key: string): (r: Option<Value>)
    ensures v.Obj? ==> (r.Some? <==> key in v.fields)
    ensures v.Obj? && key in v.fields ==> r == Some(v.fields[key])
    ensures (v.Arr? || v.Str?) && key == "length" ==> r == Some(Num(if v.Arr? then |v.items| else |v.s|))
    ensures (v.Null? || v.Bool? || v.Num?) ==> r == None
  {
    match v
    case Obj(m) => if key in m then Some(m[key]) else None
    case Arr(items) =>
      if key == "length" then Some(Num(|items|))
      else (match ParseIndex(key)
            case Some(i) => if i < |items| then Some(items[i]) else None
            case None => None)
    case Str(s) =>
      if key == "length" then Some(Num(|s|))
      else (match ParseIndex(key)
            case Some(i) => if i < |s| then Some(Str([s[i]])) else None
            case None => None)
    case _ => None
  }

  /** Array elements are reached by exactly the numerals of their indices. */
  lemma ArrayIndexProperty(items: seq<Value>, key: string)
    requires key != "length"
    ensures OwnProperty(Arr(items), key).Some? <==> exists i :: 0 <= i < |items| && key == Decimal(i)
    ensures forall i :: 0 <= i < |items| && key == Decimal(i) ==> OwnProperty(Arr(items), key) == Some(items[i])
  {
    match ParseIndex(key)
    case Some(n) =>
      DecimalOfParseIndex(key, n);
      forall i | 0 <= i < |items| && key == Decimal(i) ensures i == n {
        ParseIndexOfDecimal(i);
      }
    case None =>
      forall i | 0 <= i < |items| ensures key != Decimal(i) {
        ParseIndexOfDecimal(i);
      }
  }

  /** String characters are reached by exactly the numerals of their indices, each as a one-character string. */
  lemma StringIndexProperty(s: string, key: string)
    requires key != "length"
    ensures OwnProperty(Str(s), key).Some? <==> exists i :: 0 <= i < |s| && key == Decimal(i)
    ensures forall i :: 0 <= i < |s| && key == Decimal(i) ==> OwnProperty(Str(s), key) == Some(Str([s[i]]))
  {
    match ParseIndex(key)
    case Some(n) =>
      DecimalOfParseIndex(key, n);
      forall i | 0 <= i < |s| && key == Decimal(i) ensures i == n {
        ParseIndexOfDecimal(i);
      }
    case None =>
      forall i | 0 <= i < |s| ensures key != Decimal(i) {
        ParseIndexOfDecimal(i);
      }
  }

  /** `Object.keys(v).length`. */
  function KeyCount(v: Value): nat
  {
    match v
    case Obj(m) => |m.Keys|
    case Arr(items) => |items|
    case Str(s) => |s|
    case _ => 0
  }

  /** An own property that `Object.keys` lists: every key of an object, every index of an array or string. */
  predicate EnumerableKey(v: Value, key: string)
  {
    OwnProperty(v, key).Some? && (v.Obj? || key != "length")
  }

  /** `Object.keys(v).length` is non-zero exactly when `v` has an enumerable own property. */
  lemma KeyCountEnumerable(v: Value)
    ensures KeyCount(v) > 0 <==> exists key :: EnumerableKey(v, key)
  {
    match v
    case Obj(m) =>
      if |m.Keys| > 0 {
        var k :| k in m.Keys;
        assert EnumerableKey(v, k);
      }
    case Arr(items) =>
      if |items| > 0 {
        ParseIndexOfDecimal(0);
        assert EnumerableKey(v, Decimal(0));
      }
    case Str(s) =>
      if |s| > 0 {
        ParseIndexOfDecimal(0);
        assert EnumerableKey(v, Decimal(0));
      }
    case _ =>
  }
}
