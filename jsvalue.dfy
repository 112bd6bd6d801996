/**
 * The JavaScript values the order pipeline reads: parsed JSON, property reads
 * with their `undefined` and `TypeError` outcomes, truthiness, and the
 * number-to-string conversion JavaScript applies when a value becomes an
 * object key.
 */
module JsValue {
  import opened Wrappers

  /** A value produced by JSON.parse. Object key order is not represented. */
  datatype Json =
    | JNull
    | JBool(b: bool)
    | JNum(n: real)
    | JStr(s: string)
    | JArr(items: seq<Json>)
    | JObj(fields: map<string, Json>)

  /** The outcome of evaluating `v.key`. */
  datatype Read = Value(v: Json) | Undefined | ReadOfNull

  /**
   * `v.key` for a key that names no array index, no `length` and no member of a
   * built-in prototype (every key the order pipeline reads is of that kind):
   * only an object's own field has a value, and reading from `null` throws.
   */
  function Get(v: Json, key: string): (r: Read)
    ensures r.ReadOfNull? <==> v.JNull?
    ensures r.Value? <==> v.JObj? && key in v.fields
    ensures r.Value? ==> r.v == v.fields[key]
  {
    match v
    case JNull => ReadOfNull
    case JObj(m) => if key in m then Value(m[key]) else Undefined
    case _ => Undefined
  }

  /** JavaScript truthiness of a JSON value (`null`, `false`, `0` and `""` are falsy). */
  predicate Truthy(v: Json) {
    match v
    case JNull => false
    case JBool(b) => b
    case JNum(n) => n != 0.0
    case JStr(s) => s != ""
    case _ => true
  }

  /**
   * Names every plain object inherits from Object.prototype, so that the `in`
   * operator reports them present in any object.
   */
  const InheritedNames: set<string> := {
    "constructor", "hasOwnProperty", "isPrototypeOf", "propertyIsEnumerable",
    "toString", "toLocaleString", "valueOf", "__proto__", "__defineGetter__",
    "__defineSetter__", "__lookupGetter__", "__lookupSetter__"
  }

  predicate IsDigit(c: char) {
    '0' <= c <= '9'
  }

  function DigitChar(d: int): (c: char)
    requires 0 <= d <= 9
    ensures IsDigit(c)
  {
    (48 + d) as char
  }

  function DigitValue(c: char): (d: nat)
    requires IsDigit(c)
    ensures d <= 9
  {
    (c as int) - 48
  }

  /** Decimal text of a natural number, as JavaScript prints it. */
  function NatToString(n: nat): (s: string)
    decreases n
  {
    if n < 10 then [DigitChar(n)] else NatToString(n / 10) + [DigitChar(n % 10)]
  }

  /** The value of a string of decimal digits. */
  function DigitsValue(s: string): nat
    requires forall i :: 0 <= i < |s| ==> IsDigit(s[i])
  {
    if s == [] then 0 else 10 * DigitsValue(s[..|s| - 1]) + DigitValue(s[|s| - 1])
  }

  /** A string JavaScript treats as an array index: "0" or digits with no leading zero. */
  predicate IsIndexText(s: string) {
    && s != []
    && (forall i :: 0 <= i < |s| ==> IsDigit(s[i]))
    && (s[0] == '0' ==> s == "0")
  }

  /** The array index a property name denotes, if it denotes one. */
  function ParseIndex(s: string): (r: Option<nat>)
    ensures r.Some? <==> IsIndexText(s)
  {
    if IsIndexText(s) then Some(DigitsValue(s)) else None
  }

  lemma {:induction false} DigitsOfNat(n: nat)
    ensures IsIndexText(NatToString(n))
    ensures DigitsValue(NatToString(n)) == n
    decreases n
  {
    if n >= 10 {
      DigitsOfNat(n / 10);
      var p := NatToString(n / 10);
      var s := NatToString(n);
      assert s == p + [DigitChar(n % 10)];
      assert s[..|s| - 1] == p;
    }
  }

  lemma {:induction false} LeadingDigitPositive(s: string)
    requires IsIndexText(s) && s[0] != '0'
    ensures DigitsValue(s) >= 1
    decreases |s|
  {
    if |s| > 1 {
      var p := s[..|s| - 1];
      assert p[0] == s[0];
      LeadingDigitPositive(p);
    }
  }

  lemma {:induction false} NatOfDigits(s: string)
    requires IsIndexText(s)
    ensures NatToString(DigitsValue(s)) == s
    decreases |s|
  {
    if |s| > 1 {
      var p := s[..|s| - 1];
      assert p[0] == s[0];
      assert s[0] != '0';
      LeadingDigitPositive(p);
      NatOfDigits(p);
      var n := DigitsValue(s);
      var d := DigitValue(s[|s| - 1]);
      assert n == 10 * DigitsValue(p) + d;
      assert n / 10 == DigitsValue(p) && n % 10 == d;
      assert DigitChar(d) == s[|s| - 1];
      assert s == p + [s[|s| - 1]];
    }
  }

  /** Printing an index and reading it back as a property name gives the index. */
  lemma IndexRoundTrip(n: nat)
    ensures ParseIndex(NatToString(n)) == Some(n)
  {
    DigitsOfNat(n);
  }

  /** A property name that denotes an index is exactly that index's printed form. */
  lemma IndexTextCanonical(s: string)
    requires ParseIndex(s).Some?
    ensures NatToString(ParseIndex(s).value) == s
  {
    NatOfDigits(s);
  }

  /**
   * Up to `fuel` decimal digits of a fraction in [0, 1), stopping when the
   * remaining fraction is zero.
   */
  function FractionDigits(f: real, fuel: nat): (s: string)
    requires 0.0 <= f < 1.0
    ensures |s| <= fuel
    ensures forall i :: 0 <= i < |s| ==> IsDigit(s[i])
    decreases fuel
  {
    if fuel == 0 || f == 0.0 then ""
    else
      var t := f * 10.0;
      var d := t.Floor;
      [DigitChar(d)] + FractionDigits(t - d as real, fuel - 1)
  }

  /** `String(x)` for a non-negative number without exponent notation. */
  function NonNegativeToString(x: real): string
    requires x >= 0.0
  {
    var whole := x.Floor;
    var frac := x - whole as real;
    NatToString(whole) + (if frac == 0.0 then "" else "." + FractionDigits(frac, 20))
  }

  /**
   * `String(x)`: the text JavaScript uses when the number `x` becomes a
   * property key. Integers print as their decimal digits.
   */
  function NumberToString(x: real): (s: string)
    ensures x == x.Floor as real && x >= 0.0 ==> s == NatToString(x.Floor)
    ensures x == x.Floor as real && x < 0.0 ==> s == "-" + NatToString(-x.Floor)
  {
    if x < 0.0 then "-" + NonNegativeToString(-x) else NonNegativeToString(x)
  }

  /** The property key a product id (a number or a string) becomes. */
  function KeyOf(v: Json): string
    requires v.JNum? || v.JStr?
  {
    if v.JNum? then NumberToString(v.n) else v.s
  }

  /** The number 2 and the string "2" name the same property. */
  lemma NumberAndDigitsCollide(k: nat)
    ensures KeyOf(JNum(k as real)) == KeyOf(JStr(NatToString(k)))
  {
  }
}
