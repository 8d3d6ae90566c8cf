/**
 * The accordion filter form of client/src/components/ProductFilters_new.jsx:
 * its selection state read from the current filters (with the `spec_`
 * entries gathered into a map of specification filters), the multi-select
 * specification checkboxes, the filter object it emits, clearing, and
 * opening the specification section when a category is checked. Filter
 * values are the query's strings.
 */
module SpecFilters {
  import opened Wrappers
  import opened Text
  import opened Selection
  import Js

  /** Filters as the page keeps them: query keys to string values. */
  type Filters = map<string, string>

  const SpecPrefix: string := "spec_"

  /** `filters[key] || ''` for string filters. */
  function Read(filters: Filters, key: string): string {
    if key in filters then filters[key] else ""
  }

  /** The keys the form emits besides the specification entries. */
  const CoreKeys: set<string> := {"category", "manufacturer", "minPrice", "maxPrice", "tags", "minRating"}

  /** No core key looks like a specification entry. */
  lemma CoreKeysNotSpec()
    ensures forall k :: k in CoreKeys ==> !StartsWith(k, SpecPrefix)
  {
    assert !StartsWith("category", SpecPrefix) by { assert "category"[0] != SpecPrefix[0]; }
    assert !StartsWith("manufacturer", SpecPrefix) by { assert "manufacturer"[0] != SpecPrefix[0]; }
    assert !StartsWith("minPrice", SpecPrefix) by { assert "minPrice"[0] != SpecPrefix[0]; }
    assert !StartsWith("maxPrice", SpecPrefix) by { assert "maxPrice"[0] != SpecPrefix[0]; }
    assert !StartsWith("tags", SpecPrefix) by { assert "tags"[0] != SpecPrefix[0]; }
    assert !StartsWith("minRating", SpecPrefix) by { assert "minRating"[0] != SpecPrefix[0]; }
  }

  /** The names of the specification filters: the `spec_` keys with the prefix removed. */
  function SpecNames(current: Filters): set<string> {
    set k | k in current && StartsWith(k, SpecPrefix) :: k[5..]
  }

  /** A name is a specification filter's exactly when its `spec_` key is present. */
  lemma SpecNamesIff(current: Filters, n: string)
    ensures n in SpecNames(current) <==> SpecPrefix + n in current
  {
    if n in SpecNames(current) {
      var k :| k in current && StartsWith(k, SpecPrefix) && k[5..] == n;
      assert k == SpecPrefix + n;
    }
    if SpecPrefix + n in current {
      var k := SpecPrefix + n;
      assert StartsWith(k, SpecPrefix) && k[5..] == n;
    }
  }

  /**
   * The specification filters held in the current filters: every key that
   * starts with `spec_`, with those five characters removed, keeps its value.
   * The name `__proto__` is assigned through the prototype setter, which
   * ignores a string, so `spec___proto__` yields no filter.
   */
  function ExtractSpecs(current: Filters): (r: Filters)
    ensures forall n :: n in r <==> SpecPrefix + n in current && n != Js.ProtoKey
    ensures forall n :: n in r ==> r[n] == current[SpecPrefix + n]
  {
    assert forall n :: n in SpecNames(current) <==> SpecPrefix + n in current by {
      forall n ensures n in SpecNames(current) <==> SpecPrefix + n in current {
        SpecNamesIff(current, n);
      }
    }
    map n | n in SpecNames(current) && n != Js.ProtoKey :: current[SpecPrefix + n]
  }

  /** The form's state. */
  datatype FormState = FormState(
    categories: seq<string>, manufacturers: seq<string>, minPrice: string, maxPrice: string,
    tags: seq<string>, minRating: string, specs: Filters)

  /** The state the form takes from the current filters. */
  function Initial(current: Filters): (s: FormState)
    ensures s.specs == ExtractSpecs(current)
    ensures s.categories == CommaList(Read(current, "category"))
    ensures s.manufacturers == CommaList(Read(current, "manufacturer"))
    ensures s.tags == CommaList(Read(current, "tags"))
    ensures s.minPrice == Read(current, "minPrice")
    ensures s.maxPrice == Read(current, "maxPrice")
    ensures s.minRating == Read(current, "minRating")
  {
    FormState(
      CommaList(Read(current, "category")), CommaList(Read(current, "manufacturer")),
      Read(current, "minPrice"), Read(current, "maxPrice"),
      CommaList(Read(current, "tags")), Read(current, "minRating"),
      ExtractSpecs(current))
  }

  /** `clearFilters`: every selection empty. */
  const Cleared: FormState := FormState([], [], "", "", [], "", map[])

  /** The accordion keys after clearing: only the core section open. */
  const ClearedAccordion: seq<string> := ["0"]

  /** The keys of the specification entries `applyFilters` emits: `spec_` + each name with a non-empty value. */
  function SpecKeys(specs: Filters): set<string> {
    set n | n in specs && specs[n] != "" :: SpecPrefix + n
  }

  /** An emitted specification key is `spec_` + a name with a non-empty value. */
  lemma SpecKeysIff(specs: Filters, k: string)
    ensures k in SpecKeys(specs) <==> StartsWith(k, SpecPrefix) && k[5..] in specs && specs[k[5..]] != ""
  {
    if k in SpecKeys(specs) {
      var n :| n in specs && specs[n] != "" && SpecPrefix + n == k;
      assert k[5..] == n;
    }
    if StartsWith(k, SpecPrefix) && k[5..] in specs && specs[k[5..]] != "" {
      assert k == SpecPrefix + k[5..];
    }
  }

  /** The specification entries `applyFilters` emits: each non-empty one under `spec_` + its name. */
  function EmitSpecs(specs: Filters): (r: Filters)
    ensures forall k :: k in r <==> StartsWith(k, SpecPrefix) && k[5..] in specs && specs[k[5..]] != ""
    ensures forall k :: k in r ==> |k| >= 5 && k[5..] in specs && r[k] == specs[k[5..]]
  {
    assert forall k :: k in SpecKeys(specs) <==> StartsWith(k, SpecPrefix) && k[5..] in specs && specs[k[5..]] != "" by {
      forall k ensures k in SpecKeys(specs) <==> StartsWith(k, SpecPrefix) && k[5..] in specs && specs[k[5..]] != "" {
        SpecKeysIff(specs, k);
      }
    }
    map k | k in SpecKeys(specs) :: specs[k[5..]]
  }

  /** The value `applyFilters` emits for a core key, if any: lists when non-empty, single values when truthy. */
  function CoreValue(s: FormState, key: string): Option<string> {
    if key == "category" then ListValue(s.categories)
    else if key == "manufacturer" then ListValue(s.manufacturers)
    else if key == "minPrice" then SingleValue(s.minPrice)
    else if key == "maxPrice" then SingleValue(s.maxPrice)
    else if key == "tags" then ListValue(s.tags)
    else if key == "minRating" then SingleValue(s.minRating)
    else None
  }

  /** A list filter: emitted, comma-joined, only when something is selected. */
  function ListValue(xs: seq<string>): (r: Option<string>)
    ensures r.Some? <==> |xs| > 0
  {
    if |xs| > 0 then Some(CommaJoin(xs)) else None
  }

  /** A single-value filter: emitted only when truthy. */
  function SingleValue(v: string): (r: Option<string>)
    ensures r.Some? <==> v != ""
  {
    if v != "" then Some(v) else None
  }

  /**
   * `applyFilters`: category, manufacturer and tags when something is
   * selected, joined with commas; minPrice, maxPrice and minRating when
   * non-empty; then every non-empty specification filter under `spec_`.
   */
  function ApplyFilters(s: FormState): (r: Filters)
    ensures forall k :: k in r ==> k in CoreKeys || StartsWith(k, SpecPrefix)
    ensures forall k :: k in CoreKeys ==> (k in r <==> CoreValue(s, k).Some?) && (k in r ==> r[k] == CoreValue(s, k).value)
    ensures forall k :: StartsWith(k, SpecPrefix) ==> (k in r <==> k in EmitSpecs(s.specs)) && (k in r ==> r[k] == EmitSpecs(s.specs)[k])
  {
    CoreKeysNotSpec();
    var core := map k | k in CoreKeys && CoreValue(s, k).Some? :: CoreValue(s, k).value;
    core + EmitSpecs(s.specs)
  }

  /** Clearing emits no filter at all. */
  lemma ClearedEmitsNothing()
    ensures ApplyFilters(Cleared) == map[]
  {
    assert forall k :: CoreValue(Cleared, k).None?;
    assert EmitSpecs(Cleared.specs) == map[];
  }

  /** The specification filters with a non-empty value. */
  function NonEmpty(specs: Filters): (r: Filters)
    ensures forall n :: n in r <==> n in specs && specs[n] != ""
    ensures forall n :: n in r ==> r[n] == specs[n]
  {
    map n | n in specs && specs[n] != "" :: specs[n]
  }

  /**
   * The specification filters round-trip: reading back what `applyFilters`
   * emitted gives the form's specification filters without the empty ones,
   * and without one named `__proto__`, which the read-back cannot create.
   */
  lemma SpecsRoundTrip(s: FormState)
    ensures ExtractSpecs(ApplyFilters(s)) == DropName(NonEmpty(s.specs), Js.ProtoKey)
  {
    var a := ExtractSpecs(ApplyFilters(s));
    var b := DropName(NonEmpty(s.specs), Js.ProtoKey);
    forall n ensures (n in a <==> n in b) && (n in b ==> a[n] == b[n]) {
      SpecRoundTripAt(s, n);
    }
    SameEntries(a, b);
  }

  /** Maps with the same names and the same value under each are equal. */
  lemma SameEntries(a: Filters, b: Filters)
    requires forall n :: (n in a <==> n in b) && (n in b ==> a[n] == b[n])
    ensures a == b
  {
    assert a.Keys == b.Keys;
  }

  /** The filters without the one name. */
  function DropName(m: Filters, name: string): (r: Filters)
    ensures forall n :: n in r <==> n in m && n != name
    ensures forall n :: n in r ==> r[n] == m[n]
  {
    m - {name}
  }

  /** The round trip for one name. */
  lemma SpecRoundTripAt(s: FormState, n: string)
    ensures n in ExtractSpecs(ApplyFilters(s)) <==> n in NonEmpty(s.specs) && n != Js.ProtoKey
    ensures n in NonEmpty(s.specs) && n != Js.ProtoKey ==> ExtractSpecs(ApplyFilters(s))[n] == NonEmpty(s.specs)[n]
  {
    var k := SpecPrefix + n;
    assert StartsWith(k, SpecPrefix) && k[5..] == n;
  }

  /** Each core filter is emitted exactly when it is set, with its value. */
  lemma CoreEmission(s: FormState)
    ensures "category" in ApplyFilters(s) <==> |s.categories| > 0
    ensures |s.categories| > 0 ==> ApplyFilters(s)["category"] == CommaJoin(s.categories)
    ensures "minPrice" in ApplyFilters(s) <==> s.minPrice != ""
    ensures s.minPrice != "" ==> ApplyFilters(s)["minPrice"] == s.minPrice
    ensures "tags" in ApplyFilters(s) <==> |s.tags| > 0
  {
    assert "category" in CoreKeys && "minPrice" in CoreKeys && "tags" in CoreKeys;
  }

  /**
   * `handleMultiSelectSpecChange(specKey, value, checked)`: the name's
   * comma list gets the value appended or every copy of it removed; an empty
   * result deletes the name, any other is stored comma-joined.
   */
  function MultiSelect(specs: Filters, key: string, value: string, checked: bool): (r: Filters)
    ensures forall k :: k != key ==> (k in r <==> k in specs) && (k in specs ==> r[k] == specs[k])
    ensures key !in r <==> (if checked then false else Without(CommaList(Read(specs, key)), value) == [])
  {
    var current := CommaList(Read(specs, key));
    var next := if checked then current + [value] else Without(current, value);
    if next == [] then specs - {key} else specs[key := CommaJoin(next)]
  }

  /**
   * Reading back a multi-select change: checking a non-empty value without
   * commas puts it at the end of the name's list; unchecking leaves the list
   * without it (unless nothing but an empty piece remains).
   */
  lemma MultiSelectRoundTrip(specs: Filters, key: string, value: string, checked: bool)
    requires value != "" && ',' !in value
    ensures var r := MultiSelect(specs, key, value, checked);
      && (checked ==> key in r && CommaList(r[key]) == CommaList(Read(specs, key)) + [value])
      && (!checked && key in r && r[key] != "" ==> CommaList(r[key]) == Without(CommaList(Read(specs, key)), value))
  {
    var current := CommaList(Read(specs, key));
    var next := if checked then current + [value] else Without(current, value);
    if checked {
      assert next[|next| - 1] == value;
      JoinLastNonEmpty(next);
    }
    forall i | 0 <= i < |next| ensures ',' !in next[i] {
      if !checked {
        WithoutKeepsOthers(current, value, next[i]);
      }
    }
    if next != [] && CommaJoin(next) != "" {
      CommaRoundTrip(next);
    }
  }

  /** A join whose last piece is non-empty is non-empty. */
  lemma {:induction false} JoinLastNonEmpty(xs: seq<string>)
    requires |xs| > 0 && xs[|xs| - 1] != ""
    ensures CommaJoin(xs) != ""
    decreases |xs|
  {
    if |xs| > 1 {
      JoinLastNonEmpty(xs[1..]);
    }
  }

  /**
   * `handleCategoryChange(value, checked)`: the category is added or every
   * copy removed; checking one while specification filters exist opens
   * section `'1'` unless it is open already.
   */
  function CategoryChange(s: FormState, accordion: seq<string>, value: string, checked: bool, hasSpecs: bool)
    : (r: (FormState, seq<string>))
    ensures r.0 == s.(categories := if checked then s.categories + [value] else Without(s.categories, value))
    ensures checked && hasSpecs ==> "1" in r.1
    ensures !(checked && hasSpecs) ==> r.1 == accordion
    ensures forall k :: k in r.1 <==> k in accordion || (checked && hasSpecs && k == "1")
  {
    var categories := if checked then s.categories + [value] else Without(s.categories, value);
    var keys := if checked && hasSpecs && "1" !in accordion then accordion + ["1"] else accordion;
    (s.(categories := categories), keys)
  }

  /** No accordion key is ever listed twice. */
  predicate Distinct(keys: seq<string>) {
    forall i, j :: 0 <= i < j < |keys| ==> keys[i] != keys[j]
  }

  /** Checking categories keeps the accordion keys distinct, and clearing resets them to a distinct list. */
  lemma AccordionStaysDistinct(s: FormState, accordion: seq<string>, value: string, checked: bool, hasSpecs: bool)
    requires Distinct(accordion)
    ensures Distinct(CategoryChange(s, accordion, value, checked, hasSpecs).1)
    ensures Distinct(ClearedAccordion)
  {
  }

  /** `handleManufacturerChange`: only the manufacturers change. */
  function ManufacturerChange(s: FormState, value: string, checked: bool): (r: FormState)
    ensures r.(manufacturers := s.manufacturers) == s
    ensures forall v :: v in r.manufacturers <==> (v in s.manufacturers && v != value) || (checked && v == value)
  {
    s.(manufacturers := Toggle(s.manufacturers, value, checked))
  }

  /** `handleTagChange`: only the tags change. */
  function TagChange(s: FormState, value: string, checked: bool): (r: FormState)
    ensures r.(tags := s.tags) == s
    ensures forall v :: v in r.tags <==> (v in s.tags && v != value) || (checked && v == value)
  {
    s.(tags := Toggle(s.tags, value, checked))
  }

  /** Unchecking a value just checked, where it was not checked before, gives the form back. */
  lemma UncheckRestoresForm(s: FormState, value: string)
    requires value !in s.manufacturers && value !in s.tags
    ensures ManufacturerChange(ManufacturerChange(s, value, true), value, false) == s
    ensures TagChange(TagChange(s, value, true), value, false) == s
  {
    UncheckUndoesCheck(s.manufacturers, value);
    UncheckUndoesCheck(s.tags, value);
  }
}
