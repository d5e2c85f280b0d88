/**
 * The catalog page: the page number, category filters, sort and price range it
 * keeps, how it reads them from the address bar and writes them back, the
 * request it sends, the category list it offers and the "showing" line.
 */
module ProductPage {
  import opened JsCore
  import opened ShopModel

  const PageSize: nat := 10
  const DefaultMaxPrice: int := 10000

  /** `getCurrentPage`: `Number(value)` when it is a positive number, otherwise 1. `None` is a missing parameter. */
  function GetCurrentPage(value: Option<string>): (r: real)
    ensures r > 0.0
    ensures r != 1.0 ==> value.Some? && NumberOf(value.value) == Some(r)
    ensures value.Some? && NumberOf(value.value).Some? && NumberOf(value.value).value > 0.0 ==> r == NumberOf(value.value).value
  {
    var pageNum := if value.None? then Some(0.0) else NumberOf(value.value);
    if pageNum.None? || pageNum.value == 0.0 || pageNum.value <= 0.0 then 1.0 else pageNum.value
  }

  /** A parameter value before it is written out: a string, or a number the URL writer formats. */
  datatype ParamValue = Text(s: string) | Number(n: real)

  type Params = seq<(string, ParamValue)>

  function CategoryParam(c: string): (string, ParamValue)
  {
    ("category", Text(c))
  }

  function SortPart(sortValue: string): Params
  {
    if sortValue != "" then [("sort", Text(sortValue))] else []
  }

  /** What `buildQueryString` appends: page, a limit of 10, each category in order, then a non-empty sort. */
  function QueryParams(page: real, filters: seq<string>, sortValue: string): (r: Params)
    ensures |r| == 2 + |filters| + (if sortValue != "" then 1 else 0)
    ensures r[0] == ("page", Number(page)) && r[1] == ("limit", Number(PageSize as real))
    ensures forall i :: 0 <= i < |filters| ==> r[2 + i] == ("category", Text(filters[i]))
    ensures sortValue != "" ==> r[|r| - 1] == ("sort", Text(sortValue))
  {
    [("page", Number(page)), ("limit", Number(PageSize as real))] + Map(CategoryParam, filters) + SortPart(sortValue)
  }

  /** What the address-bar effect writes: the same without the limit. */
  function UrlParams(page: real, filters: seq<string>, sortValue: string): Params
  {
    [("page", Number(page))] + Map(CategoryParam, filters) + SortPart(sortValue)
  }

  /** `buildQueryString`, before serialisation: a forEach appends one entry per category. */
  method BuildQueryString(page: real, filters: seq<string>, sortValue: string) returns (params: Params)
    ensures params == QueryParams(page, filters, sortValue)
  {
    params := [("page", Number(page)), ("limit", Number(PageSize as real))];
    for i := 0 to |filters|
      invariant params == [("page", Number(page)), ("limit", Number(PageSize as real))] + Map(CategoryParam, filters[..i])
    {
      assert filters[..i + 1] == filters[..i] + [filters[i]];
      MapSnoc(CategoryParam, filters[..i], filters[i]);
      params := params + [("category", Text(filters[i]))];
    }
    assert filters[..|filters|] == filters;
    if sortValue != "" {
      params := params + [("sort", Text(sortValue))];
    }
  }

  /** The parameters as strings; `show` stands for the number formatting of the URL writer. */
  function Serialize(params: Params, show: real -> string): (r: seq<(string, string)>)
    ensures |r| == |params|
    ensures forall i :: 0 <= i < |params| ==> r[i].0 == params[i].0
  {
    if params == [] then []
    else [(params[0].0, match params[0].1 case Text(s) => s case Number(n) => show(n))] + Serialize(params[1..], show)
  }

  /** `searchParams.get(key)`: the first value under the key. */
  function First(url: seq<(string, string)>, key: string): (r: Option<string>)
    ensures r.Some? ==> exists i :: 0 <= i < |url| && url[i] == (key, r.value) && forall j :: 0 <= j < i ==> url[j].0 != key
    ensures r.None? ==> forall i :: 0 <= i < |url| ==> url[i].0 != key
  {
    if url == [] then None
    else if url[0].0 == key then Some(url[0].1)
    else
      var r := First(url[1..], key);
      if r.Some? then
        var i :| 0 <= i < |url[1..]| && url[1..][i] == (key, r.value) && forall j :: 0 <= j < i ==> url[1..][j].0 != key;
        assert url[i + 1] == (key, r.value);
        assert forall j :: 1 <= j < i + 1 ==> url[j] == url[1..][j - 1];
        r
      else r
  }

  /** Every value under "category", in order, as the initial-filter loop collects them. */
  function CategoryValues(url: seq<(string, string)>): seq<string>
  {
    if url == [] then []
    else
      var last := url[|url| - 1];
      CategoryValues(url[..|url| - 1]) + (if last.0 == "category" then [last.1] else [])
  }

  /** `parseInt(v) || fallback`: NaN and zero both give the fallback. */
  function IntOr(v: Option<string>, fallback: int): int
  {
    var n := if v.None? then None else ParseInt(v.value);
    if n.None? || n.value == 0 then fallback else n.value
  }

  /** `(a || b)` on an optional string. */
  function OrEmpty(v: Option<string>): string
  {
    if v.Some? then v.value else ""
  }

  class CatalogState {
    var page: real
    var filters: seq<string>
    var sortValue: string
    var priceRange: (int, int)

    /** The initial state read from the address bar. */
    constructor(url: seq<(string, string)>)
      ensures filters == CategoryValues(url)
      ensures page == GetCurrentPage(First(url, "page"))
      ensures sortValue == OrEmpty(First(url, "sort"))
      ensures priceRange == (IntOr(First(url, "minPrice"), 0), IntOr(First(url, "maxPrice"), DefaultMaxPrice))
    {
      var categories: seq<string> := [];
      for i := 0 to |url|
        invariant categories == CategoryValues(url[..i])
      {
        assert url[..i + 1][..i] == url[..i];
        if url[i].0 == "category" {
          categories := categories + [url[i].1];
        }
      }
      assert url[..|url|] == url;
      filters := categories;
      page := GetCurrentPage(First(url, "page"));
      sortValue := OrEmpty(First(url, "sort"));
      priceRange := (IntOr(First(url, "minPrice"), 0), IntOr(First(url, "maxPrice"), DefaultMaxPrice));
    }

    /** `handleFilterChange`: a present category is removed (every copy), an absent one appended; back to page 1. */
    method HandleFilterChange(category: string)
      modifies this`filters, this`page
      ensures filters == Toggle(old(filters), category)
      ensures page == 1.0
    {
      filters := Toggle(filters, category);
      page := 1.0;
    }

    /** `clearFilters`. */
    method ClearFilters()
      modifies this`filters, this`page
      ensures filters == [] && page == 1.0
    {
      filters := [];
      page := 1.0;
    }

    /** `handleSortChange`. */
    method HandleSortChange(value: string)
      modifies this`sortValue, this`page
      ensures sortValue == value && page == 1.0
    {
      sortValue := value;
      page := 1.0;
    }

    /** `clearAll`: no filters, no sort, the full price range, page 1. */
    method ClearAll()
      modifies this
      ensures filters == [] && sortValue == "" && priceRange == (0, DefaultMaxPrice) && page == 1.0
    {
      filters := [];
      sortValue := "";
      priceRange := (0, DefaultMaxPrice);
      page := 1.0;
    }

    /** `handlePrevPage`: one back, only from beyond page 1. */
    method HandlePrevPage()
      modifies this`page
      ensures page == if old(page) > 1.0 then old(page) - 1.0 else old(page)
    {
      if page > 1.0 {
        page := page - 1.0;
      }
    }

    /** `handleNextPage`: one forward, only when the last response said there is a next page. */
    method HandleNextPage(hasNext: bool)
      modifies this`page
      ensures page == if hasNext then old(page) + 1.0 else old(page)
    {
      if hasNext {
        page := page + 1.0;
      }
    }
  }

  function NotEqual(category: string): string -> bool
  {
    (c: string) => c != category
  }

  /** Dropping every occurrence of one category leaves the others with their multiplicities. */
  lemma {:induction false} DropAllCounts(filters: seq<string>, category: string)
    ensures multiset(Filter(NotEqual(category), filters)) == multiset(filters)[category := 0]
  {
    if filters != [] {
      DropAllCounts(filters[1..], category);
      assert filters == [filters[0]] + filters[1..];
      assert multiset(filters) == multiset{filters[0]} + multiset(filters[1..]);
    }
  }

  /**
   * The functional update of `handleFilterChange`: an absent category is
   * appended at the end; a present one loses every occurrence while the
   * others keep their order and multiplicity.
   */
  function Toggle(filters: seq<string>, category: string): (r: seq<string>)
    ensures category !in filters ==> r == filters + [category]
    ensures category in filters ==> r == Filter(NotEqual(category), filters)
    ensures category in filters ==> multiset(r) == multiset(filters)[category := 0]
    ensures category in r <==> category !in filters
    ensures forall c :: c != category ==> (c in r <==> c in filters)
  {
    if category in filters then DropAllCounts(filters, category); Filter(NotEqual(category), filters)
    else filters + [category]
  }

  /** Removing one failing element between two passing runs keeps the runs, in order. */
  lemma DropOne(f: string -> bool, before: seq<string>, x: string, after: seq<string>)
    requires !f(x)
    requires forall y :: y in before ==> f(y)
    requires forall y :: y in after ==> f(y)
    ensures Filter(f, before + [x] + after) == before + after
  {
    var one := Filter(f, [x]);
    assert one == [] by {
      assert [x][1..] == [];
    }
    FilterAppend(f, before, [x]);
    FilterAll(f, before);
    var head := Filter(f, before + [x]);
    assert head == before;
    FilterAppend(f, before + [x], after);
    FilterAll(f, after);
  }

  /** Unticking a category that was ticked once gives back the others around it, in order. */
  lemma ToggleOff(before: seq<string>, after: seq<string>, category: string)
    requires category !in before && category !in after
    ensures Toggle(before + [category] + after, category) == before + after
  {
    var all := before + [category] + after;
    assert all[|before|] == category;
    DropOne(NotEqual(category), before, category, after);
  }


  /** Toggling an absent category twice gives the filters back. */
  lemma ToggleTwice(filters: seq<string>, category: string)
    requires category !in filters
    ensures Toggle(Toggle(filters, category), category) == filters
  {
    FilterAppend(NotEqual(category), filters, [category]);
    FilterAll(NotEqual(category), filters);
    assert Filter(NotEqual(category), [category]) == [];
  }

  lemma {:induction false} CategoryValuesAppend(a: seq<(string, string)>, b: seq<(string, string)>)
    ensures CategoryValues(a + b) == CategoryValues(a) + CategoryValues(b)
    decreases |b|
  {
    if b == [] {
      assert a + b == a;
    } else {
      var b0 := b[..|b| - 1];
      assert (a + b)[..|a + b| - 1] == a + b0;
      CategoryValuesAppend(a, b0);
    }
  }

  lemma {:induction false} SerializeAppend(a: Params, b: Params, show: real -> string)
    ensures Serialize(a + b, show) == Serialize(a, show) + Serialize(b, show)
  {
    if a == [] {
      assert a + b == b;
    } else {
      assert (a + b)[1..] == a[1..] + b;
      SerializeAppend(a[1..], b, show);
    }
  }

  lemma {:induction false} CategoriesOfFilters(filters: seq<string>, show: real -> string)
    ensures CategoryValues(Serialize(Map(CategoryParam, filters), show)) == filters
    decreases |filters|
  {
    if filters != [] {
      var init := filters[..|filters| - 1];
      var last := filters[|filters| - 1];
      assert filters == init + [last];
      assert Map(CategoryParam, filters) == Map(CategoryParam, init) + [CategoryParam(last)];
      SerializeAppend(Map(CategoryParam, init), [CategoryParam(last)], show);
      CategoryValuesAppend(Serialize(Map(CategoryParam, init), show), Serialize([CategoryParam(last)], show));
      CategoriesOfFilters(init, show);
      assert CategoryValues(Serialize([CategoryParam(last)], show)) == [last] by {
        assert Serialize([CategoryParam(last)], show) == [("category", last)];
        assert [("category", last)][..0] == [];
      }
    }
  }

  /** The written address splits into the page entry, the category entries and the sort entry. */
  lemma UrlParts(page: real, filters: seq<string>, sortValue: string, show: real -> string)
    ensures Serialize(UrlParams(page, filters, sortValue), show)
         == [("page", show(page))] + Serialize(Map(CategoryParam, filters), show) + Serialize(SortPart(sortValue), show)
  {
    var head: Params := [("page", Number(page))];
    var cats := Map(CategoryParam, filters);
    SerializeAppend(head + cats, SortPart(sortValue), show);
    SerializeAppend(head, cats, show);
  }

  /**
   * Reading the address bar that the page wrote gives back its filters in
   * order and its sort; the page comes back too whenever its written form
   * reads as the same number.
   */
  lemma UrlRoundTrip(page: real, filters: seq<string>, sortValue: string, show: real -> string)
    requires page > 0.0 && NumberOf(show(page)) == Some(page)
    ensures var url := Serialize(UrlParams(page, filters, sortValue), show);
      && CategoryValues(url) == filters
      && OrEmpty(First(url, "sort")) == sortValue
      && GetCurrentPage(First(url, "page")) == page
  {
    UrlParts(page, filters, sortValue, show);
    UrlCategories(page, filters, sortValue, show);
    UrlSort(page, filters, sortValue, show);
  }

  lemma UrlCategories(page: real, filters: seq<string>, sortValue: string, show: real -> string)
    ensures CategoryValues([("page", show(page))] + Serialize(Map(CategoryParam, filters), show) + Serialize(SortPart(sortValue), show)) == filters
  {
    var head := [("page", show(page))];
    var cats := Serialize(Map(CategoryParam, filters), show);
    var tail := Serialize(SortPart(sortValue), show);
    CategoryValuesAppend(head + cats, tail);
    CategoryValuesAppend(head, cats);
    CategoriesOfFilters(filters, show);
    assert CategoryValues(head) == [] by {
      assert head[..0] == [];
    }
    assert CategoryValues(tail) == [] by {
      if sortValue != "" {
        assert tail == [("sort", sortValue)];
        assert tail[..0] == [];
      }
    }
  }

  lemma UrlSort(page: real, filters: seq<string>, sortValue: string, show: real -> string)
    ensures OrEmpty(First([("page", show(page))] + Serialize(Map(CategoryParam, filters), show) + Serialize(SortPart(sortValue), show), "sort")) == sortValue
  {
    var cats := Serialize(Map(CategoryParam, filters), show);
    var tail := Serialize(SortPart(sortValue), show);
    var url := [("page", show(page))] + cats + tail;
    assert forall i :: 0 <= i < |cats| ==> cats[i].0 == "category";
    assert |cats| == |filters|;
    assert forall i :: 0 <= i < 1 + |cats| ==> url[i].0 != "sort" by {
      forall i | 0 <= i < 1 + |cats| ensures url[i].0 != "sort" {
        if i > 0 { assert url[i] == cats[i - 1]; }
      }
    }
    SortFound(url, 1 + |cats|, sortValue);
  }

  lemma SortFound(url: seq<(string, string)>, k: nat, sortValue: string)
    requires k <= |url|
    requires forall i :: 0 <= i < k ==> url[i].0 != "sort"
    requires sortValue != "" ==> k < |url| && url[k] == ("sort", sortValue)
    requires sortValue == "" ==> k == |url|
    ensures OrEmpty(First(url, "sort")) == sortValue
    decreases k
  {
    if k > 0 {
      SortFound(url[1..], k - 1, sortValue);
    }
  }

  // ------------------------------------------------------------- categories

  /** The default string order of `Array.prototype.sort`, character by character. */
  predicate Before(a: string, b: string)
  {
    b != [] && (a == [] || a[0] < b[0] || (a[0] == b[0] && Before(a[1..], b[1..])))
  }

  lemma {:induction false} BeforeIrreflexive(a: string)
    ensures !Before(a, a)
  {
    if a != [] {
      BeforeIrreflexive(a[1..]);
    }
  }

  lemma {:induction false} BeforeTransitive(a: string, b: string, c: string)
    requires Before(a, b) && Before(b, c)
    ensures Before(a, c)
  {
    if a != [] && a[0] == b[0] && b[0] == c[0] {
      BeforeTransitive(a[1..], b[1..], c[1..]);
    }
  }

  lemma {:induction false} BeforeTotal(a: string, b: string)
    requires a != b
    ensures Before(a, b) || Before(b, a)
  {
    if a != [] && b != [] && a[0] == b[0] {
      assert a == [a[0]] + a[1..] && b == [b[0]] + b[1..];
      BeforeTotal(a[1..], b[1..]);
    }
  }

  /** Strictly increasing, hence also free of duplicates. */
  predicate StrictlySorted(s: seq<string>)
  {
    forall i, j :: 0 <= i < j < |s| ==> Before(s[i], s[j])
  }

  /** Adds `x` to a strictly sorted list, unless it is there already. */
  function Insert(s: seq<string>, x: string): (r: seq<string>)
    requires StrictlySorted(s)
    ensures StrictlySorted(r)
    ensures forall y :: y in r <==> y in s || y == x
  {
    if s == [] then [x]
    else if x == s[0] then s
    else if Before(x, s[0]) then
      forall j | 0 < j < |s| ensures Before(x, s[j]) {
        BeforeTransitive(x, s[0], s[j]);
      }
      [x] + s
    else
      BeforeTotal(x, s[0]);
      var rest := Insert(s[1..], x);
      assert forall y :: y in rest ==> Before(s[0], y) by {
        forall y | y in rest ensures Before(s[0], y) {
          if y != x {
            var j :| 0 <= j < |s[1..]| && s[1..][j] == y;
            assert s[j + 1] == y;
          }
        }
      }
      [s[0]] + rest
  }

  /** `Array.from(new Set(products.map(p => p.category).filter(Boolean))).sort()`. */
  function Categories(products: seq<Product>): (r: seq<string>)
    ensures StrictlySorted(r)
    ensures forall c :: c in r <==> c != "" && exists p :: p in products && p.category == c
  {
    if products == [] then []
    else
      var init := products[..|products| - 1];
      var last := products[|products| - 1];
      var r := if last.category != "" then Insert(Categories(init), last.category) else Categories(init);
      assert forall p :: p in products <==> p in init || p == last by {
        assert products == init + [last];
      }
      r
  }

  /** In a strictly sorted list the head is before everything after it, so it is not repeated. */
  lemma HeadNotInTail(s: seq<string>, x: string)
    requires StrictlySorted(s) && s != []
    ensures x in s[1..] ==> x != s[0] && Before(s[0], x)
    ensures x in s && x != s[0] ==> x in s[1..]
  {
    if x in s[1..] {
      var i :| 0 <= i < |s[1..]| && s[1..][i] == x;
      assert s[i + 1] == x;
      if x == s[0] { BeforeIrreflexive(x); }
    }
    if x in s && x != s[0] {
      var i :| 0 <= i < |s| && s[i] == x;
      assert s[1..][i - 1] == x;
    }
  }

  /** Two strictly sorted lists with the same elements are the same list: the category list is determined by its set. */
  lemma {:induction false} SortedUnique(a: seq<string>, b: seq<string>)
    requires StrictlySorted(a) && StrictlySorted(b)
    requires forall x :: x in a <==> x in b
    ensures a == b
  {
    assert a != [] ==> a[0] in a;
    assert b != [] ==> b[0] in b;
    if a != [] && b != [] {
      HeadNotInTail(a, b[0]);
      HeadNotInTail(b, a[0]);
      if a[0] != b[0] {
        BeforeTransitive(a[0], b[0], a[0]);
        BeforeIrreflexive(a[0]);
      }
      forall x ensures x in a[1..] <==> x in b[1..] {
        HeadNotInTail(a, x);
        HeadNotInTail(b, x);
        if x in a[1..] { assert x in a; }
        if x in b[1..] { assert x in b; }
      }
      assert StrictlySorted(a[1..]) by {
        forall i, j | 0 <= i < j < |a[1..]| ensures Before(a[1..][i], a[1..][j]) {
          assert a[1..][i] == a[i + 1] && a[1..][j] == a[j + 1];
        }
      }
      assert StrictlySorted(b[1..]) by {
        forall i, j | 0 <= i < j < |b[1..]| ensures Before(b[1..][i], b[1..][j]) {
          assert b[1..][i] == b[i + 1] && b[1..][j] == b[j + 1];
        }
      }
      SortedUnique(a[1..], b[1..]);
      assert a == [a[0]] + a[1..] && b == [b[0]] + b[1..];
    }
  }

  // ------------------------------------------------------------- showing line

  /** The "Showing a-b of n" line; `None` is "No products found". */
  function Showing(page: real, totalProducts: nat): Option<(real, real)>
  {
    if totalProducts == 0 then None
    else Some(((page - 1.0) * PageSize as real + 1.0, if page * PageSize as real <= totalProducts as real then page * PageSize as real else totalProducts as real))
  }

  /**
   * On a whole page that has products, the line shows at most ten and ends at
   * the total on the last page; a page beyond the last shows a first number
   * above the last.
   */
  lemma ShowingBounds(k: int, totalProducts: nat)
    requires k >= 1 && totalProducts > 0
    ensures var s := Showing(k as real, totalProducts);
      && s.Some?
      && s.value.1 <= totalProducts as real
      && ((k - 1) * PageSize < totalProducts ==> s.value.0 <= s.value.1 && s.value.1 - s.value.0 < PageSize as real)
      && ((k - 1) * PageSize >= totalProducts ==> s.value.0 > s.value.1)
      && (k * PageSize >= totalProducts ==> s.value.1 == totalProducts as real)
  {
  }
}
