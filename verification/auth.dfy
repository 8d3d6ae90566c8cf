/**
 * The client's session helpers (client/src/contexts/AuthContext.jsx):
 * `hasRole`, which ranks roles by a lookup in an object literal, and
 * `updateUser`, which merges new fields into the stored user. React state
 * and local storage are left out: the current user is a parameter.
 */
module Auth {
  import opened Js

  /**
   * What `roleHierarchy[key] || 0` yields: a number for the three roles and
   * for any other own-property-free key, but an inherited member (a function,
   * or `Object.prototype` itself for `__proto__`) for the keys every object
   * literal inherits.
   */
  datatype Level = Number(n: nat) | NonNumber(text: string)

  /** The source text V8 gives a native function of the given name. */
  function NativeText(name: string): string {
    NativePrefix + name + "() { [native code] }"
  }

  const NativePrefix: string := "function "

  /**
   * The string a non-number level turns into when compared: `[object Object]`
   * for the prototype object under `__proto__`; the native source text of
   * `Object` under `constructor`; and of the method itself under the other keys.
   */
  function InheritedText(key: string): string {
    if key == "__proto__" then "[object Object]"
    else if key == "constructor" then NativeText("Object")
    else NativeText(key)
  }

  /** The level of a role name: customer 1, seller 2, admin 3, an inherited key its member, anything else 0. */
  function LevelOf(key: string): (l: Level)
    ensures l.NonNumber? <==> InheritedKey(key)
    ensures key == "customer" ==> l == Number(1)
    ensures key == "seller" ==> l == Number(2)
    ensures key == "admin" ==> l == Number(3)
    ensures key != "customer" && key != "seller" && key != "admin" && !InheritedKey(key) ==> l == Number(0)
    ensures key == "__proto__" ==> l == NonNumber("[object Object]")
    ensures key == "constructor" ==> l == NonNumber(NativeText("Object"))
    ensures InheritedKey(key) && key != "__proto__" && key != "constructor" ==> l == NonNumber(NativeText(key))
  {
    if key == "customer" then Number(1)
    else if key == "seller" then Number(2)
    else if key == "admin" then Number(3)
    else if InheritedKey(key) then NonNumber(InheritedText(key))
    else Number(0)
  }

  /** Strict lexicographic order on strings, as `<` compares two strings code unit by code unit. */
  predicate StrLess(a: string, b: string)
    decreases |a|
  {
    if b == [] then false
    else if a == [] then true
    else if a[0] != b[0] then a[0] < b[0]
    else StrLess(a[1..], b[1..])
  }

  /**
   * `userLevel >= requiredLevel`: numbers compare as numbers; a number
   * against a non-number compares with `NaN` and is false; two non-numbers
   * compare as strings.
   */
  predicate AtLeast(a: Level, b: Level) {
    match (a, b)
    case (Number(x), Number(y)) => x >= y
    case (NonNumber(s), NonNumber(t)) => !StrLess(s, t)
    case _ => false
  }

  /**
   * `hasRole(requiredRole)`: false without a user; otherwise the user's level
   * is at least the required one. Ranked roles compare by rank, and a ranked
   * role never meets, nor is met by, an inherited key.
   */
  predicate HasRole(user: Value, requiredRole: Value): (b: bool)
    ensures !Truthy(user) ==> !b
    ensures Truthy(user) && !InheritedKey(Display(Prop(user, "role"))) && !InheritedKey(Display(requiredRole)) ==>
      (b <==> Rank(Display(Prop(user, "role"))) >= Rank(Display(requiredRole)))
    ensures InheritedKey(Display(Prop(user, "role"))) != InheritedKey(Display(requiredRole)) ==> !b
  {
    Truthy(user) && AtLeast(LevelOf(Display(Prop(user, "role"))), LevelOf(Display(requiredRole)))
  }

  /** The level a role name gets when it is none of the inherited keys. */
  function Rank(key: string): nat {
    if key == "customer" then 1 else if key == "seller" then 2 else if key == "admin" then 3 else 0
  }

  /**
   * Two inherited keys compare by their texts: a user whose role is
   * `__lookupGetter__` meets the requirement `constructor`, since '_' comes
   * after the 'O' of `Object`, but not the requirement `toString`.
   */
  lemma InheritedKeysCompareAsText(user: Value)
    requires Truthy(user) && Prop(user, "role") == Str("__lookupGetter__")
    ensures HasRole(user, Str("constructor"))
    ensures !HasRole(user, Str("toString"))
  {
    assert LevelOf("__lookupGetter__") == NonNumber(NativeText("__lookupGetter__"));
    assert LevelOf("constructor") == NonNumber(NativeText("Object"));
    assert LevelOf("toString") == NonNumber(NativeText("toString"));
    NativeTextOrder("Object", "__lookupGetter__");
    NativeTextOrder("__lookupGetter__", "toString");
  }

  /** Native source texts compare as the first characters of their names when those differ. */
  lemma NativeTextOrder(x: string, y: string)
    requires x != [] && y != [] && x[0] < y[0]
    ensures StrLess(NativeText(x), NativeText(y)) && !StrLess(NativeText(y), NativeText(x))
  {
    var tail := "() { [native code] }";
    assert NativeText(x) == NativePrefix + (x + tail);
    assert NativeText(y) == NativePrefix + (y + tail);
    CommonPrefixLess(NativePrefix, x + tail, y + tail);
  }

  /** Strings that share a prefix compare as what follows it; different first characters decide. */
  lemma {:induction false} CommonPrefixLess(p: string, a: string, b: string)
    requires a != [] && b != [] && a[0] < b[0]
    ensures StrLess(p + a, p + b) && !StrLess(p + b, p + a)
    decreases |p|
  {
    if p == [] {
      assert p + a == a && p + b == b;
    } else {
      assert (p + a)[1..] == p[1..] + a;
      assert (p + b)[1..] == p[1..] + b;
      CommonPrefixLess(p[1..], a, b);
    }
  }

  /** No user, no role. */
  lemma NoUserNoRole(user: Value, requiredRole: Value)
    requires !Truthy(user)
    ensures !HasRole(user, requiredRole)
  {
  }

  /**
   * For role names that are not inherited keys, `hasRole` is exactly the
   * comparison of ranks.
   */
  lemma HasRoleByRank(user: Value, requiredRole: Value)
    requires Truthy(user)
    requires !InheritedKey(Display(Prop(user, "role"))) && !InheritedKey(Display(requiredRole))
    ensures HasRole(user, requiredRole) <==> Rank(Display(Prop(user, "role"))) >= Rank(Display(requiredRole))
  {
  }

  /**
   * An admin satisfies every requirement but an inherited key; an unknown
   * requirement is satisfied by every user whose role is not an inherited key.
   */
  lemma AdminAndUnknown(user: Value, requiredRole: Value)
    requires Truthy(user) && !InheritedKey(Display(requiredRole))
    ensures Display(Prop(user, "role")) == "admin" ==> HasRole(user, requiredRole)
    ensures Rank(Display(requiredRole)) == 0 && !InheritedKey(Display(Prop(user, "role"))) ==> HasRole(user, requiredRole)
  {
  }

  /**
   * Monotone downward: a user who has a role also has every role ranked no
   * higher; and a user whose role is an inherited key has none of the ranked roles.
   */
  lemma HasRoleMonotone(user: Value, r1: Value, r2: Value)
    requires !InheritedKey(Display(r1)) && !InheritedKey(Display(r2))
    requires Rank(Display(r1)) <= Rank(Display(r2))
    ensures HasRole(user, r2) ==> HasRole(user, r1)
    ensures InheritedKey(Display(Prop(user, "role"))) ==> !HasRole(user, r1)
  {
  }

  /**
   * The own enumerable properties object spread copies: an object's fields,
   * an array's elements and a string's characters by index, and nothing for
   * `null`, `undefined`, booleans and numbers.
   */
  function Spread(v: Value): (m: Object)
    ensures v.Obj? ==> m == v.fields
    ensures v.Undefined? || v.Null? || v.Bool? || v.Num? || v.NaN? ==> m == map[]
  {
    match v
    case Obj(fields) => fields
    case Arr(items) => Indexed(items)
    case Str(s) => Indexed(seq(|s|, i requires 0 <= i < |s| => Str([s[i]])))
    case _ => map[]
  }

  /** `updateUser(data)`: `{ ...user, ...data }`. */
  function UpdateUser(user: Value, data: Value): (r: Object)
    ensures r.Keys == Spread(user).Keys + Spread(data).Keys
    ensures forall k :: k in Spread(data) ==> r[k] == Spread(data)[k]
    ensures forall k :: k in Spread(user) && k !in Spread(data) ==> r[k] == Spread(user)[k]
  {
    Spread(user) + Spread(data)
  }

  /** Applying the same update twice changes nothing more, and an empty update keeps the user's fields. */
  lemma UpdateUserIdempotent(user: Value, data: Value)
    ensures UpdateUser(Obj(UpdateUser(user, data)), data) == UpdateUser(user, data)
    ensures UpdateUser(user, Obj(map[])) == Spread(user)
  {
  }
}
