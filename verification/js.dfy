/**
 * The slice of JavaScript semantics the server routes and client pages rely on:
 * values with their truthiness, `trim`, `toLowerCase`, `parseInt`, string
 * `length` in UTF-16 code units and property lookup on plain objects.
 */
module Js {
  import opened Wrappers
  import opened Text

  /**
   * A JavaScript value as it flows through request bodies, React state and
   * query parameters. Numbers are modelled as integers.
   */
  datatype Value =
    | Undefined
    | Null
    | Bool(b: bool)
    | Num(n: int)
    | NaN
    | Str(s: string)
    | Arr(items: seq<Value>)
    | Obj(fields: map<string, Value>)

  /** JavaScript truthiness: `undefined`, `null`, `false`, `0`, `NaN` and `''` are falsy. */
  predicate Truthy(v: Value) {
    match v
    case Undefined => false
    case Null => false
    case Bool(b) => b
    case Num(n) => n != 0
    case NaN => false
    case Str(s) => s != ""
    case Arr(_) => true
    case Obj(_) => true
  }

  /** `a || b`. */
  function Or(a: Value, b: Value): (r: Value)
    ensures Truthy(a) ==> r == a
    ensures !Truthy(a) ==> r == b
  {
    if Truthy(a) then a else b
  }

  /** An exception thrown by a JavaScript operation on a value of the wrong type. */
  datatype Thrown = TypeError

  /**
   * `String(v)`, as a template literal renders `v`: arrays are joined with
   * commas (with `null` and `undefined` elements empty) and plain objects
   * render as `[object Object]`.
   */
  function Display(v: Value): string
    decreases v
  {
    match v
    case Undefined => "undefined"
    case Null => "null"
    case Bool(b) => if b then "true" else "false"
    case Num(n) => IntToString(n)
    case NaN => "NaN"
    case Str(s) => s
    case Arr(items) =>
      Join(seq(|items|, i requires 0 <= i < |items| =>
        if items[i].Undefined? || items[i].Null? then "" else Display(items[i])), ",")
    case Obj(_) => "[object Object]"
  }

  /**
   * Whether `String(v)` gives a string rather than throwing. A value parsed
   * from JSON holds no functions, so an object with its own `toString`
   * property has nothing to call there. The inherited `valueOf` then returns
   * the object itself, and the conversion throws a TypeError. An array
   * converts each element in turn.
   */
  predicate Renders(v: Value)
    decreases v
  {
    match v
    case Obj(fields) => "toString" !in fields
    case Arr(items) => forall i :: 0 <= i < |items| ==> Renders(items[i])
    case _ => true
  }

  /** A plain object's own properties. */
  type Object = map<string, Value>

  /** `o[k]` for an own property; `undefined` when it is absent. */
  function Get(o: Object, k: string): Value {
    if k in o then o[k] else Undefined
  }

  /** The index-keyed properties of a list of elements: `"0"`, `"1"`, ... */
  function Indexed(items: seq<Value>): (m: Object)
    ensures |m| <= |items|
    decreases |items|
  {
    if items == [] then map[]
    else Indexed(items[..|items| - 1])[IntToString(|items| - 1) := items[|items| - 1]]
  }

  /** `v?.k` (and `v.k` on an object): `undefined` unless `v` is an object with that own property. */
  function Prop(v: Value, k: string): Value {
    if v.Obj? then Get(v.fields, k) else Undefined
  }

  /**
   * `a === b` between values that come from different places: primitives
   * compare by value, `NaN` equals nothing, and two arrays or objects are
   * different references.
   */
  predicate StrictEquals(a: Value, b: Value) {
    a == b && !a.NaN? && !a.Arr? && !a.Obj?
  }

  /**
   * Keys that every plain object inherits from `Object.prototype`; looking one
   * up in an object literal yields a function or an object, never a number.
   */
  predicate InheritedKey(k: string) {
    k in {"constructor", "hasOwnProperty", "isPrototypeOf", "propertyIsEnumerable",
          "toLocaleString", "toString", "valueOf", "__proto__", "__defineGetter__",
          "__defineSetter__", "__lookupGetter__", "__lookupSetter__"}
  }

  /**
   * The one key for which `o[k] = v` on a plain object creates no property:
   * it calls the `Object.prototype.__proto__` setter, which ignores a value
   * that is not an object.
   */
  const ProtoKey: string := "__proto__"

  /** The characters `String.prototype.trim` removes: WhiteSpace and LineTerminator. */
  predicate IsWhite(c: char) {
    var n := c as int;
    || (0x09 <= n <= 0x0D) || n == 0x20 || n == 0xA0 || n == 0x1680 || (0x2000 <= n <= 0x200A)
    || n == 0x2028 || n == 0x2029 || n == 0x202F || n == 0x205F || n == 0x3000 || n == 0xFEFF
  }

  /** `s.trim()`. */
  function TrimJs(s: string): string {
    Trim(s, IsWhite)
  }

  /** `s.toLowerCase()` on the ASCII letters. */
  function ToLower(s: string): string {
    AsciiLower(s)
  }

  /** `s.length`: characters outside the Basic Multilingual Plane count as two UTF-16 code units. */
  function Length(s: string): (n: nat)
    ensures |s| <= n <= 2 * |s|
  {
    if s == [] then 0 else (if s[0] as int > 0xFFFF then 2 else 1) + Length(s[1..])
  }

  /** The value of `c` as a digit in base `radix` (10 or 16), if it is one. */
  function Digit(c: char, radix: nat): Option<nat> {
    if '0' <= c <= '9' then Some(c as int - '0' as int)
    else if radix == 16 && 'a' <= c <= 'f' then Some(c as int - 'a' as int + 10)
    else if radix == 16 && 'A' <= c <= 'F' then Some(c as int - 'A' as int + 10)
    else None
  }

  /** The length of the longest prefix of `s` made of base-`radix` digits. */
  function DigitRun(s: string, radix: nat): (n: nat)
    ensures n <= |s|
    ensures forall i :: 0 <= i < n ==> Digit(s[i], radix).Some?
    ensures n < |s| ==> Digit(s[n], radix).None?
  {
    if s != [] && Digit(s[0], radix).Some? then 1 + DigitRun(s[1..], radix) else 0
  }

  /** The number a run of base-`radix` digits denotes, most significant first. */
  function DigitsValue(ds: string, radix: nat): nat
    requires forall i :: 0 <= i < |ds| ==> Digit(ds[i], radix).Some?
  {
    if ds == [] then 0
    else DigitsValue(ds[..|ds| - 1], radix) * radix + Digit(ds[|ds| - 1], radix).value
  }

  /** The value of the longest run of base-`radix` digits that starts `s`, if that run is not empty. */
  function LeadingDigits(s: string, radix: nat): Option<nat> {
    var n := DigitRun(s, radix);
    if n == 0 then None else Some(DigitsValue(s[..n], radix))
  }

  /** `u` starts with the `0x`/`0X` prefix that selects base 16. */
  predicate HexPrefix(u: string) {
    |u| >= 2 && u[0] == '0' && (u[1] == 'x' || u[1] == 'X')
  }

  /** The magnitude `parseInt` reads from the text after the sign. */
  function ParseMagnitude(u: string): Option<nat> {
    if HexPrefix(u) then LeadingDigits(u[2..], 16) else LeadingDigits(u, 10)
  }

  /**
   * `parseInt(s)` with no radix: leading white space is skipped, one sign is
   * read, a `0x`/`0X` prefix selects base 16, and the longest run of digits that
   * follows is the value; with no digit the result is `NaN`.
   */
  function ParseInt(s: string): (r: Value)
    ensures r.Num? || r.NaN?
  {
    var t := TrimLeft(s, IsWhite);
    var signed := |t| > 0 && (t[0] == '-' || t[0] == '+');
    var negative := |t| > 0 && t[0] == '-';
    match ParseMagnitude(if signed then t[1..] else t)
    case None => NaN
    case Some(v) => var m: int := v; Num(if negative then -m else m)
  }

  /** The decimal digit character for `k` reads back as `k`. */
  lemma DigitOfDecimal(k: nat)
    requires k < 10
    ensures Digit("0123456789"[k], 10) == Some(k)
  {
    var c := "0123456789"[k];
    if k == 0 { assert c == '0'; }
    else if k == 1 { assert c == '1'; }
    else if k == 2 { assert c == '2'; }
    else if k == 3 { assert c == '3'; }
    else if k == 4 { assert c == '4'; }
    else if k == 5 { assert c == '5'; }
    else if k == 6 { assert c == '6'; }
    else if k == 7 { assert c == '7'; }
    else if k == 8 { assert c == '8'; }
    else { assert c == '9'; }
  }

  /** The decimal rendering of `n` is all digits and denotes `n`. */
  lemma {:induction false} DigitsValueOfNat(n: nat)
    ensures forall i :: 0 <= i < |NatToString(n)| ==> Digit(NatToString(n)[i], 10).Some?
    ensures DigitsValue(NatToString(n), 10) == n
  {
    var d := NatToString(n);
    if n < 10 {
      DigitOfDecimal(n);
      assert d == ["0123456789"[n]];
    } else {
      var h := NatToString(n / 10);
      DigitsValueOfNat(n / 10);
      DigitOfDecimal(n % 10);
      assert d == h + ["0123456789"[n % 10]];
      assert d[..|d| - 1] == h;
      assert forall i :: 0 <= i < |d| ==> Digit(d[i], 10).Some? by {
        forall i | 0 <= i < |d| ensures Digit(d[i], 10).Some? {
          if i < |h| { assert d[i] == h[i]; }
        }
      }
      assert DigitsValue(d, 10) == DigitsValue(h, 10) * 10 + n % 10;
    }
  }

  /** `parseInt` reads a run of decimal digits at its full value. */
  lemma ParseMagnitudeDecimal(d: string)
    requires |d| > 0 && forall i :: 0 <= i < |d| ==> '0' <= d[i] <= '9'
    ensures forall i :: 0 <= i < |d| ==> Digit(d[i], 10).Some?
    ensures ParseMagnitude(d) == Some(DigitsValue(d, 10))
  {
    assert !HexPrefix(d) by {
      if |d| >= 2 { assert '0' <= d[1] <= '9'; }
    }
    DigitRunAll(d, 10);
    assert d[..|d|] == d;
  }

  /** `parseInt` of a string of decimal digits reads their value. */
  lemma ParseIntUnsigned(d: string)
    requires |d| > 0 && forall i :: 0 <= i < |d| ==> '0' <= d[i] <= '9'
    ensures forall i :: 0 <= i < |d| ==> Digit(d[i], 10).Some?
    ensures ParseInt(d) == Num(DigitsValue(d, 10))
  {
    ParseMagnitudeDecimal(d);
    assert !IsWhite(d[0]) by { assert '0' <= d[0] <= '9'; }
    TrimLeftStops(d, IsWhite);
  }

  /** `parseInt` of a minus sign followed by decimal digits reads their value negated. */
  lemma ParseIntNegative(d: string)
    requires |d| > 0 && forall i :: 0 <= i < |d| ==> '0' <= d[i] <= '9'
    ensures forall i :: 0 <= i < |d| ==> Digit(d[i], 10).Some?
    ensures ParseInt("-" + d) == Num(0 - DigitsValue(d, 10))
  {
    var s := "-" + d;
    ParseMagnitudeDecimal(d);
    assert s[0] == '-';
    assert !IsWhite(s[0]);
    TrimLeftStops(s, IsWhite);
    assert s[1..] == d;
  }

  /** `parseInt` reads back the decimal rendering of every integer. */
  lemma ParseIntRoundTrip(n: int)
    ensures ParseInt(IntToString(n)) == Num(n)
  {
    var m: nat := if n < 0 then -n else n;
    DigitsValueOfNat(m);
    if n < 0 {
      ParseIntNegative(NatToString(m));
    } else {
      ParseIntUnsigned(NatToString(m));
    }
  }

  lemma {:induction false} DigitRunAll(s: string, radix: nat)
    requires forall i :: 0 <= i < |s| ==> Digit(s[i], radix).Some?
    ensures DigitRun(s, radix) == |s|
  {
    if s != [] {
      DigitRunAll(s[1..], radix);
    }
  }

  /** `parseInt(s) || d` for a numeric default `d`: the parsed integer unless it is `NaN` or 0. */
  function ParseIntOr(s: string, d: int): int {
    var v := ParseInt(s);
    if v.Num? && v.n != 0 then v.n else d
  }
}
