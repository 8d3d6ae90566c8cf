/**
 * The sidebar filter form of client/src/components/ProductFilters.jsx: the
 * checkbox lists kept as comma-separated filter values, the price inputs and
 * the collapsible sections. Each handler is a function from the current
 * filters to what it passes to `onFilterChange`.
 */
module ProductFilters {
  import opened Wrappers
  import opened Text
  import opened Js
  import opened Selection

  /**
   * The properties of `filters` when it is an object and not `null` (an
   * array's are its indices and `length`), of `{}` otherwise.
   */
  function SafeFilters(filters: Value): (r: Object)
    ensures filters.Obj? ==> r == filters.fields
    ensures filters.Arr? ==> "length" in r && r["length"] == Num(|filters.items|)
    ensures !filters.Obj? && !filters.Arr? ==> r == map[]
  {
    match filters
    case Obj(fields) => fields
    case Arr(items) => Indexed(items)["length" := Num(|items|)]
    case _ => map[]
  }

  /**
   * The values currently checked for a filter: the array itself, a truthy
   * value split on commas, `[]` for a falsy one; a truthy value that is
   * neither an array nor a string has no `split` and throws.
   */
  function CurrentValues(v: Value): (r: Result<seq<Value>, Thrown>)
    ensures v.Arr? ==> r == Ok(v.items)
    ensures !Truthy(v) ==> r == Ok([])
    ensures v.Str? && v.s != "" ==>
      (r.Ok? && |r.value| == |Split(v.s, ',')| && forall i :: 0 <= i < |r.value| ==> r.value[i] == Str(Split(v.s, ',')[i]))
    ensures r.Err? <==> Truthy(v) && !v.Arr? && !v.Str?
  {
    if v.Arr? then Ok(v.items)
    else if !Truthy(v) then Ok([])
    else if v.Str? then Ok(Strs(Split(v.s, ',')))
    else Err(TypeError)
  }

  /** Strings as string values. */
  function Strs(xs: seq<string>): (r: seq<Value>)
    ensures |r| == |xs| && forall i :: 0 <= i < |xs| ==> r[i] == Str(xs[i])
  {
    seq(|xs|, i requires 0 <= i < |xs| => Str(xs[i]))
  }

  /**
   * `newValues.length > 0 ? newValues.join(',') : ''`: `join(',')` is the
   * text an array renders as, and an empty list emits `''`.
   */
  function Emit(values: seq<Value>): (r: string)
    ensures values == [] ==> r == ""
    ensures values != [] ==> r == Display(Arr(values))
  {
    if |values| > 0 then Display(Arr(values)) else ""
  }

  /**
   * `handleCheckboxChange(filterType, value, checked)`: checking appends the
   * value, unchecking removes every copy of it; the result is emitted as
   * one comma-separated string.
   */
  function CheckboxChange(filters: Value, filterType: string, value: string, checked: bool)
    : (r: Result<(string, string), Thrown>)
    ensures r.Ok? ==> r.value.0 == filterType
    ensures r.Err? <==> CurrentValues(Get(SafeFilters(filters), filterType)).Err?
    ensures r.Ok? ==> r.value.1 == Emit(Toggle(CurrentValues(Get(SafeFilters(filters), filterType)).value, Str(value), checked))
  {
    match CurrentValues(Get(SafeFilters(filters), filterType))
    case Ok(current) => Ok((filterType, Emit(Toggle(current, Str(value), checked))))
    case Err(e) => Err(e)
  }

  /** Joining string values with commas is joining the strings. */
  lemma {:induction false} DisplayStrs(xs: seq<string>)
    ensures Display(Arr(Strs(xs))) == CommaJoin(xs)
  {
    var items := Strs(xs);
    var shown := seq(|items|, i requires 0 <= i < |items| =>
      if items[i].Undefined? || items[i].Null? then "" else Display(items[i]));
    assert shown == xs;
  }

  /**
   * On a filter held as a comma-separated string, the handler emits the
   * selection with the value checked or unchecked, joined with commas, or
   * `''` when nothing is left; and when the value has no comma, reading the
   * emitted string back gives that selection.
   */
  lemma CheckboxRoundTrip(filterType: string, s: string, value: string, checked: bool)
    ensures var next := Toggle(CommaList(s), value, checked);
      CheckboxChange(Obj(map[filterType := Str(s)]), filterType, value, checked)
        == Ok((filterType, if next == [] then "" else CommaJoin(next)))
    ensures var next := Toggle(CommaList(s), value, checked);
      ',' !in value && CommaJoin(next) != "" ==> CommaList(CommaJoin(next)) == next
  {
    var pieces := CommaList(s);
    var next := Toggle(pieces, value, checked);
    assert Get(SafeFilters(Obj(map[filterType := Str(s)])), filterType) == Str(s);
    assert CurrentValues(Str(s)) == Ok(Strs(pieces));
    StrsNext(pieces, value, checked);
    if next != [] {
      DisplayStrs(next);
    }
    if ',' !in value && CommaJoin(next) != "" {
      forall i | 0 <= i < |next| ensures ',' !in next[i] {
        assert next[i] in next;
      }
      CommaRoundTrip(next);
    }
  }

  /** Checking or unchecking commutes with turning strings into string values. */
  lemma StrsNext(xs: seq<string>, value: string, checked: bool)
    ensures Toggle(Strs(xs), Str(value), checked) == Strs(Toggle(xs, value, checked))
  {
    if !checked {
      StrsWithout(xs, value);
    }
  }

  /** Removing a string value from string values is removing the string. */
  lemma {:induction false} StrsWithout(xs: seq<string>, value: string)
    ensures Without(Strs(xs), Str(value)) == Strs(Without(xs, value))
    decreases |xs|
  {
    if xs != [] {
      StrsWithout(xs[1..], value);
      assert Strs(xs)[1..] == Strs(xs[1..]);
      assert Strs(Without(xs, value)) ==
        Strs(if xs[0] != value then [xs[0]] else []) + Strs(Without(xs[1..], value));
    }
  }

  /** `handlePriceChange(type, value)`: `min` and `max` emit their bound with a falsy value as `''`; any other type emits nothing. */
  function PriceChange(kind: string, value: Value): (r: Option<(string, Value)>)
    ensures r.Some? <==> kind == "min" || kind == "max"
    ensures kind == "min" ==> r == Some(("minPrice", Or(value, Str(""))))
    ensures kind == "max" ==> r == Some(("maxPrice", Or(value, Str(""))))
    ensures r.Some? ==> (Truthy(r.value.1) <==> Truthy(value))
  {
    if kind == "min" then Some(("minPrice", Or(value, Str(""))))
    else if kind == "max" then Some(("maxPrice", Or(value, Str(""))))
    else None
  }

  /** `toggleSection(section)`: the section's flag becomes the negation of its truthiness; every other flag stays. */
  function ToggleSection(open: Object, section: string): (r: Object)
    ensures r.Keys == open.Keys + {section}
    ensures r[section] == Bool(!Truthy(Get(open, section)))
    ensures forall k :: k in open && k != section ==> r[k] == open[k]
  {
    open[section := Bool(!Truthy(Get(open, section)))]
  }

  /** Toggling a boolean flag twice restores it. */
  lemma ToggleTwice(open: Object, section: string)
    requires section in open && open[section].Bool?
    ensures ToggleSection(ToggleSection(open, section), section) == open
  {
  }

  /** The sections and their initial state: all open. */
  const InitialSections: Object := map[
    "category" := Bool(true), "priceRange" := Bool(true), "manufacturer" := Bool(true),
    "condition" := Bool(true), "location" := Bool(true), "rating" := Bool(true)]
}
