/**
 * The product listing pages' URL handling (client/src/pages/ProductsPage.jsx
 * and client/src/pages/HomePage.jsx): reading filters, search and sort from
 * the query string, building the request parameters, the filter handler,
 * the query edits that send the user back to page 1, and the two pagination
 * bars. A query string is its list of name-value pairs, in order.
 */
module CatalogQuery {
  import opened Wrappers
  import opened Text
  import opened Js

  /** A parsed query string: `URLSearchParams` as its list of pairs. */
  type Query = seq<(string, string)>

  /** The names the pages read on their own instead of as filters. */
  const Reserved: set<string> := {"page", "searchTerm", "sortBy", "sortOrder"}

  /** `params.get(name)`: the value of the first pair with that name. */
  function GetParam(q: Query, name: string): (r: Option<string>)
    ensures r.None? <==> forall i :: 0 <= i < |q| ==> q[i].0 != name
    ensures r.Some? ==> exists i :: (0 <= i < |q| && q[i] == (name, r.value)
      && forall j :: 0 <= j < i ==> q[j].0 != name)
    decreases |q|
  {
    if q == [] then None
    else if q[0].0 == name then Some(q[0].1)
    else
      var r := GetParam(q[1..], name);
      if r.Some? then
        assert exists i :: 0 <= i < |q| && q[i] == (name, r.value) && forall j :: 0 <= j < i ==> q[j].0 != name by {
          var i :| 0 <= i < |q| - 1 && q[1..][i] == (name, r.value) && forall j :: 0 <= j < i ==> q[1..][j].0 != name;
          assert q[i + 1] == (name, r.value);
          assert forall j :: 0 <= j < i + 1 ==> q[j].0 != name by {
            forall j | 0 <= j < i + 1 ensures q[j].0 != name {
              if j > 0 { assert q[j] == q[1..][j - 1]; }
            }
          }
        }
        r
      else r
  }

  /** The value of the last pair with the given name. */
  function LastParam(q: Query, name: string): (r: Option<string>)
    ensures r.None? <==> forall i :: 0 <= i < |q| ==> q[i].0 != name
    decreases |q|
  {
    if q == [] then None
    else if q[|q| - 1].0 == name then Some(q[|q| - 1].1)
    else
      var r := LastParam(q[..|q| - 1], name);
      assert r.None? <==> forall i :: 0 <= i < |q| ==> q[i].0 != name by {
        assert forall i :: 0 <= i < |q| - 1 ==> q[..|q| - 1][i] == q[i];
      }
      r
  }

  /**
   * The filters read from the query: every pair whose name is not reserved,
   * in order, so a later pair with the same name overrides an earlier one.
   * A pair named `__proto__` is assigned through the prototype setter, which
   * ignores a string, so it creates no filter.
   */
  function ParseFilters(q: Query): (r: map<string, Value>)
    ensures forall k :: k in r <==> k !in Reserved && k != ProtoKey && LastParam(q, k).Some?
    ensures forall k :: k in r ==> r[k] == Str(LastParam(q, k).value)
    decreases |q|
  {
    if q == [] then map[]
    else
      var m := ParseFilters(q[..|q| - 1]);
      var (k, v) := q[|q| - 1];
      if k in Reserved || k == ProtoKey then m else m[k := Str(v)]
  }

  /** `params.get(name) || fallback`. */
  function ParamOr(q: Query, name: string, fallback: string): (r: string)
    ensures GetParam(q, name).None? ==> r == fallback
    ensures GetParam(q, name).Some? && GetParam(q, name).value != "" ==> r == GetParam(q, name).value
  {
    match GetParam(q, name)
    case Some(v) => if v != "" then v else fallback
    case None => fallback
  }

  /** What the pages keep from the URL. */
  datatype Listing = Listing(filters: map<string, Value>, searchTerm: string, sortBy: string, sortOrder: string)

  /** Search and sort default to no term, newest first. */
  const Defaults: Listing := Listing(map[], "", "createdAt", "desc")

  /** `parseQueryParams` and the URL effect: filters, then search and sort with their defaults. */
  function ParseListing(q: Query): (l: Listing)
    ensures l.filters == ParseFilters(q)
    ensures GetParam(q, "sortBy").None? ==> l.sortBy == "createdAt"
    ensures GetParam(q, "sortOrder").None? ==> l.sortOrder == "desc"
    ensures GetParam(q, "searchTerm").None? ==> l.searchTerm == ""
  {
    Listing(ParseFilters(q), ParamOr(q, "searchTerm", ""), ParamOr(q, "sortBy", "createdAt"), ParamOr(q, "sortOrder", "desc"))
  }

  /** `handleClearFilters` resets to exactly what an empty query string reads as. */
  lemma ClearIsEmptyQuery()
    ensures ParseListing([]) == Defaults
  {
  }

  /** `parseInt(params.get('page')) || 1` (a missing page reads as `parseInt(null)`, which is `NaN`). */
  function PageOf(q: Query): (p: int)
    ensures p != 0
    ensures GetParam(q, "page").None? ==> p == 1
  {
    match GetParam(q, "page")
    case Some(s) => ParseIntOr(s, 1)
    case None => 1
  }

  /** The page size both pages ask for. */
  const PageSize: int := 12

  /** A request parameter that is dropped: `''`, `null` or `undefined`. */
  predicate Blank(v: Value) {
    v == Str("") || v.Null? || v.Undefined?
  }

  /** Deleting every blank parameter; the others stay as they are. */
  function DropBlank(params: map<string, Value>): (r: map<string, Value>)
    ensures forall k :: k in r <==> k in params && !Blank(params[k])
    ensures forall k :: k in r ==> r[k] == params[k]
  {
    map k | k in params && !Blank(params[k]) :: params[k]
  }

  /**
   * The request parameters: the filters, overridden by page, limit 12,
   * search term and sort, with blank values removed.
   */
  function RequestParams(filters: map<string, Value>, page: int, searchTerm: string, sortBy: string, sortOrder: string)
    : (r: map<string, Value>)
    ensures "page" in r && r["page"] == Num(page)
    ensures "limit" in r && r["limit"] == Num(PageSize)
    ensures "searchTerm" in r <==> searchTerm != ""
    ensures searchTerm != "" ==> r["searchTerm"] == Str(searchTerm)
    ensures "sortBy" in r <==> sortBy != ""
    ensures sortBy != "" ==> r["sortBy"] == Str(sortBy)
    ensures "sortOrder" in r <==> sortOrder != ""
    ensures sortOrder != "" ==> r["sortOrder"] == Str(sortOrder)
    ensures r.Keys <= filters.Keys + Reserved + {"limit"}
    ensures forall k :: k in filters && k !in Reserved && k != "limit" ==>
      (k in r <==> !Blank(filters[k])) && (k in r ==> r[k] == filters[k])
  {
    var fixed := map["page" := Num(page), "limit" := Num(PageSize), "searchTerm" := Str(searchTerm),
                     "sortBy" := Str(sortBy), "sortOrder" := Str(sortOrder)];
    assert fixed.Keys == Reserved + {"limit"};
    DropBlank(filters + fixed)
  }

  /**
   * `handleFilterChange(filterType, value)` on the products page: a blank
   * value or an empty array deletes the filter, anything else sets it.
   */
  function SetFilter(filters: map<string, Value>, key: string, value: Value): (r: map<string, Value>)
    ensures Blank(value) || (value.Arr? && value.items == []) ==> key !in r
    ensures !(Blank(value) || (value.Arr? && value.items == [])) ==> key in r && r[key] == value
    ensures forall k :: k != key ==> (k in r <==> k in filters) && (k in filters ==> r[k] == filters[k])
  {
    if Blank(value) || (value.Arr? && value.items == []) then filters - {key} else filters[key := value]
  }

  /** Setting a filter twice to the same value is setting it once. */
  lemma SetFilterIdempotent(filters: map<string, Value>, key: string, value: Value)
    ensures SetFilter(SetFilter(filters, key, value), key, value) == SetFilter(filters, key, value)
  {
  }

  /** A filter that is set is sent with the request (unless its name is one the page sets itself). */
  lemma SetFilterIsSent(filters: map<string, Value>, key: string, value: Value, page: int, searchTerm: string, sortBy: string, sortOrder: string)
    requires key !in Reserved && key != "limit"
    ensures var r := RequestParams(SetFilter(filters, key, value), page, searchTerm, sortBy, sortOrder);
      (key in r <==> !Blank(value) && !(value.Arr? && value.items == [])) && (key in r ==> r[key] == value)
  {
  }

  /**
   * `params.set(name, value)`: the first pair with that name gets the value
   * and every later one is removed; without one the pair is appended.
   */
  function SetParam(q: Query, name: string, value: string): (r: Query)
    ensures GetParam(r, name) == Some(value)
    ensures forall n :: n != name ==> GetParam(r, n) == GetParam(q, n)
    decreases |q|
  {
    if q == [] then [(name, value)]
    else if q[0].0 == name then [(name, value)] + Unnamed(q[1..], name)
    else [q[0]] + SetParam(q[1..], name, value)
  }

  /** The pairs without any of the given name. */
  function Unnamed(q: Query, name: string): (r: Query)
    ensures GetParam(r, name).None?
    ensures forall n :: n != name ==> GetParam(r, n) == GetParam(q, n)
    decreases |q|
  {
    if q == [] then []
    else if q[0].0 == name then Unnamed(q[1..], name)
    else [q[0]] + Unnamed(q[1..], name)
  }

  /** `handleSearch`: the term goes into the query and the page goes back to 1. */
  function SearchQuery(q: Query, term: string): Query {
    SetParam(SetParam(q, "searchTerm", term), "page", IntToString(1))
  }

  /** `handleSortChange`: the changed sort field goes into the query and the page goes back to 1. */
  function SortQuery(q: Query, name: string, value: string): Query {
    SetParam(SetParam(q, name, value), "page", IntToString(1))
  }

  /** `handlePageChange(n)`: the page goes into the query. */
  function PageQuery(q: Query, n: int): Query {
    SetParam(q, "page", IntToString(n))
  }

  /** Searching and sorting read back as page 1 with the new term or sort; a page change reads back as that page. */
  lemma QueryEditsReadBack(q: Query, term: string, name: string, value: string, n: int)
    requires n != 0
    ensures PageOf(SearchQuery(q, term)) == 1
    ensures GetParam(SearchQuery(q, term), "searchTerm") == Some(term)
    ensures PageOf(SortQuery(q, name, value)) == 1
    ensures name != "page" ==> GetParam(SortQuery(q, name, value), name) == Some(value)
    ensures PageOf(PageQuery(q, n)) == n
  {
    PageAfterSet(SetParam(q, "searchTerm", term), 1);
    PageAfterSet(SetParam(q, name, value), 1);
    PageAfterSet(q, n);
  }

  /** Setting the page to a nonzero number reads back as that number. */
  lemma PageAfterSet(q: Query, n: int)
    requires n != 0
    ensures PageOf(SetParam(q, "page", IntToString(n))) == n
  {
    ParseIntRoundTrip(n);
  }

  /**
   * The products page's pagination bar: at most five pages (fewer when
   * there are fewer pages), starting two before the current page but not
   * before page 1, and never past the last page.
   */
  function Window(current: int, total: int): (r: seq<int>)
    ensures |r| <= 5 && |r| <= if total < 0 then 0 else total
    ensures forall i :: 0 <= i < |r| ==> 1 <= r[i] <= total
    ensures forall i :: 0 <= i < |r| ==> r[i] == WindowStart(current) + i
    ensures forall p :: p in r <==> WindowStart(current) <= p <= total && p < WindowStart(current) + 5
  {
    var len := if total < 5 then (if total < 0 then 0 else total) else 5;
    var start := WindowStart(current);
    var shown := if total - start + 1 < len then (if total - start + 1 < 0 then 0 else total - start + 1) else len;
    var r := seq(shown, i requires 0 <= i < shown => start + i);
    assert forall p :: p in r <==> start <= p <= total && p < start + 5 by {
      forall p | start <= p <= total && p < start + 5 ensures p in r {
        assert r[p - start] == p;
      }
    }
    r
  }

  /** `Math.max(1, currentPage - 2)`. */
  function WindowStart(current: int): (s: int)
    ensures s >= 1 && s >= current - 2
  {
    if current - 2 > 1 then current - 2 else 1
  }

  /**
   * Five pages are shown whenever five fit after the window's start; on the
   * last page of five or more only three are, since the window is not moved
   * back to fill it.
   */
  lemma WindowSize(current: int, total: int)
    ensures total >= 5 && WindowStart(current) + 4 <= total ==> |Window(current, total)| == 5
    ensures current == total >= 5 ==> Window(current, total) == [total - 2, total - 1, total]
  {
    var r := Window(current, total);
    var start := WindowStart(current);
    if total >= 5 && start + 4 <= total {
      assert start + 4 in r;
      assert r[|r| - 1] < start + |r|;
    }
    if current == total >= 5 {
      assert total in r && total - 2 in r;
      assert r[0] == total - 2;
      assert |r| == 3;
    }
  }

  /** The current page is always in the window when it is a real page. */
  lemma CurrentPageShown(current: int, total: int)
    requires 1 <= current <= total
    ensures current in Window(current, total)
  {
    var r := Window(current, total);
    assert r[current - WindowStart(current)] == current;
  }

  /**
   * The home page's pagination bar: hidden while loading or with a single
   * page; otherwise every page from 1 to the last, the current one active.
   */
  function PageList(total: int, current: int, loading: bool): (r: Option<seq<(int, bool)>>)
    ensures r.Some? <==> !loading && total > 1
    ensures r.Some? ==> (|r.value| == total
      && forall i :: 0 <= i < total ==> r.value[i] == (i + 1, i + 1 == current))
  {
    if loading || total <= 1 then None
    else Some(seq(total, i requires 0 <= i < total => (i + 1, i + 1 == current)))
  }

  /** Exactly one page is active when the current page exists, none otherwise. */
  lemma OneActivePage(total: int, current: int)
    requires total > 1
    ensures var r := PageList(total, current, false).value;
      && (1 <= current <= total ==> r[current - 1].1 && forall i :: 0 <= i < total && i != current - 1 ==> !r[i].1)
      && (!(1 <= current <= total) ==> forall i :: 0 <= i < total ==> !r[i].1)
  {
  }
}
