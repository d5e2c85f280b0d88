/**
 * The product-list query builder: a query-string object and a database query
 * that its builder steps extend one after another.
 */
module ApiFeature {
  import opened JsCore

  /** A query-string value as the URL parser delivers it: a string, a repeated key, or one level of `key[sub]=value`. */
  datatype QVal = QStr(s: string) | QList(items: seq<string>) | QObj(props: seq<(string, string)>)

  /** A condition value: as sent, or the `{ $in: [...] }` built for categories. */
  datatype CondVal = Plain(v: QVal) | In(values: seq<QVal>)

  /** One filter object handed to `find`, as an ordered property list. */
  type Cond = seq<(string, CondVal)>

  /**
   * The database query, abstracted as the record of what has been asked of it:
   * the filter objects, the sort and projection strings, and skip and limit.
   */
  datatype Query = Query(conditions: seq<Cond>, sorts: seq<string>, selects: seq<string>, skip: Option<int>, limit: Option<int>)

  const EmptyQuery: Query := Query([], [], [], None, None)

  /** The query-string keys that steer the builder instead of filtering. */
  const Excluded: seq<string> := ["page", "sort", "limit", "fields", "search"]

  predicate QTruthy(v: QVal)
  {
    !(v.QStr? && v.s == "")
  }

  // ------------------------------------------------------------- search

  /** The exception a search term raises, if any. */
  function SearchError(q: seq<(string, QVal)>): (r: Option<string>)
    ensures r.None? <==> Get(q, "search").None? || Get(q, "search") == Some(QStr(""))
    ensures r.Some? && Get(q, "search").value.QStr? ==> r == Some("ReferenceError: Product is not defined")
  {
    match Get(q, "search")
    case None => None
    case Some(v) =>
      if !QTruthy(v) then None
      else if v.QStr? then Some("ReferenceError: Product is not defined")
      else Some("TypeError: search.trim is not a function")
  }

  // ------------------------------------------------------------- filter

  function NotIn(names: seq<string>): ((string, QVal)) -> bool
  {
    (p: (string, QVal)) => p.0 !in names
  }

  /** The copy with every property named in `names` deleted. */
  function Without(obj: seq<(string, QVal)>, names: seq<string>): seq<(string, QVal)>
  {
    Filter(NotIn(names), obj)
  }

  /** `[].concat(value)`. */
  function Concat(v: QVal): seq<QVal>
  {
    if v.QList? then Map((s: string) => QStr(s), v.items) else [v]
  }

  predicate IsWordChar(c: char)
  {
    'a' <= c <= 'z' || 'A' <= c <= 'Z' || '0' <= c <= '9' || c == '_'
  }

  /** The length of the leading run of word characters. */
  function WordRun(s: string): (n: nat)
    ensures n <= |s|
    ensures forall i :: 0 <= i < n ==> IsWordChar(s[i])
    ensures n < |s| ==> !IsWordChar(s[n])
  {
    if s == [] || !IsWordChar(s[0]) then 0 else 1 + WordRun(s[1..])
  }

  predicate IsOperator(w: string)
  {
    w == "gte" || w == "gt" || w == "lte" || w == "lt"
  }

  /** The `\b(gte|gt|lte|lt)\b` rewrite: a `$` before every whole word that is one of the four operators. */
  function RenameWords(s: string): string
    decreases |s|
  {
    if s == [] then []
    else if !IsWordChar(s[0]) then [s[0]] + RenameWords(s[1..])
    else
      var n := WordRun(s);
      (if IsOperator(s[..n]) then "$" + s[..n] else s[..n]) + RenameWords(s[n..])
  }

  function RenamePair(p: (string, string)): (string, string)
  {
    (RenameWords(p.0), RenameWords(p.1))
  }

  function RenameVal(v: QVal): QVal
  {
    match v
    case QStr(s) => QStr(RenameWords(s))
    case QList(items) => QList(Map(RenameWords, items))
    case QObj(props) => QObj(Map(RenamePair, props))
  }

  function RenameCond(v: CondVal): CondVal
  {
    match v
    case Plain(x) => Plain(RenameVal(x))
    case In(xs) => In(Map(RenameVal, xs))
  }

  /** One property of the filter object: categories become `$in`, then keys and values are renamed. */
  function Entry(category: Option<QVal>): ((string, QVal)) -> (string, CondVal)
  {
    (p: (string, QVal)) =>
      (RenameWords(p.0),
       RenameCond(if p.0 == "category" && category.Some? && QTruthy(category.value)
                  then In(Concat(category.value)) else Plain(p.1)))
  }

  /** The filter object built from the query string once the steering keys are gone. */
  function ConditionOf(stripped: seq<(string, QVal)>): Cond
  {
    Map(Entry(Get(stripped, "category")), stripped)
  }

  /** The filter object `filter` hands to `find`. */
  function FilterCondition(q: seq<(string, QVal)>): Cond
  {
    ConditionOf(Without(q, Excluded))
  }

  // ------------------------------------------------------ sort and fields

  /** `value ? value.split(",").join(" ") : fallback`, or the exception a non-string raises. */
  function SpaceList(v: Option<QVal>, fallback: string, name: string): Result<string, string>
  {
    if v.None? || !QTruthy(v.value) then Ok(fallback)
    else if v.value.QStr? then Ok(Join(Split(v.value.s, ','), ' '))
    else Err("TypeError: " + name + ".split is not a function")
  }

  function SortSpec(q: seq<(string, QVal)>): Result<string, string>
  {
    SpaceList(Get(q, "sort"), "-createdAt", "sort")
  }

  function FieldsSpec(q: seq<(string, QVal)>): Result<string, string>
  {
    SpaceList(Get(q, "fields"), "-__v", "fields")
  }

  // ----------------------------------------------------------- paginate

  /** `parseInt(value)`: a repeated key is read as its comma-joined text, an object as `[object Object]`. */
  function QInt(v: Option<QVal>): Option<int>
  {
    match v
    case None => None
    case Some(QStr(s)) => ParseInt(s)
    case Some(QList(items)) => ParseInt(Join(items, ','))
    case Some(QObj(_)) => None
  }

  /** `Math.max(1, parseInt(value) || fallback)`. */
  function AtLeastOne(v: Option<int>, fallback: int): int
  {
    Max(1, if v.Some? && v.value != 0 then v.value else fallback)
  }

  function PageOf(q: seq<(string, QVal)>): int
  {
    AtLeastOne(QInt(Get(q, "page")), 1)
  }

  function LimitOf(q: seq<(string, QVal)>): int
  {
    AtLeastOne(QInt(Get(q, "limit")), 10)
  }

  /** The documents the page window skips: every earlier page. */
  function SkipOf(q: seq<(string, QVal)>): nat
  {
    SkipNonNegative(PageOf(q), LimitOf(q));
    (PageOf(q) - 1) * LimitOf(q)
  }

  // ------------------------------------------------------------ builder

  class Feature {
    var findQuery: Query
    var queryString: seq<(string, QVal)>
    var page: Option<int>
    var limit: Option<int>

    constructor(findQuery: Query, queryString: seq<(string, QVal)>)
      ensures this.findQuery == findQuery && this.queryString == queryString
      ensures page.None? && limit.None?
    {
      this.findQuery := findQuery;
      this.queryString := queryString;
      page := None;
      limit := None;
    }

    /**
     * An absent or empty term leaves the query alone. Any other term throws
     * before a condition is added: a string reaches the model name the file
     * never imports, a repeated or nested term has no `trim`.
     */
    method Search() returns (thrown: Option<string>)
      ensures thrown == SearchError(queryString)
    {
      var term := Get(queryString, "search");
      if term.Some? && QTruthy(term.value) {
        if term.value.QStr? {
          thrown := Some("ReferenceError: Product is not defined");
        } else {
          thrown := Some("TypeError: search.trim is not a function");
        }
      } else {
        thrown := None;
      }
    }

    /** Strips the steering keys from a copy, one `delete` at a time, and adds the resulting filter object. */
    method FilterStep()
      modifies this`findQuery
      ensures findQuery == old(findQuery).(conditions := old(findQuery.conditions) + [FilterCondition(queryString)])
    {
      var queryObj := queryString;
      FilterAll(NotIn(Excluded[..0]), queryString);
      var i := 0;
      while i < |Excluded|
        invariant 0 <= i <= |Excluded|
        invariant findQuery == old(findQuery)
        invariant queryObj == Without(queryString, Excluded[..i])
      {
        var field := Excluded[i];
        assert Excluded[..i + 1] == Excluded[..i] + [field];
        WithoutOneMore(queryString, Excluded[..i], field);
        queryObj := Without(queryObj, [field]);
        i := i + 1;
      }
      assert Excluded[..|Excluded|] == Excluded;
      findQuery := findQuery.(conditions := findQuery.conditions + [ConditionOf(queryObj)]);
    }

    method Sort() returns (thrown: Option<string>)
      modifies this`findQuery
      ensures SortSpec(queryString).Ok? ==> thrown.None? && findQuery == old(findQuery).(sorts := old(findQuery.sorts) + [SortSpec(queryString).value])
      ensures SortSpec(queryString).Err? ==> thrown == Some(SortSpec(queryString).error) && findQuery == old(findQuery)
    {
      var spec := SortSpec(queryString);
      if spec.Ok? {
        findQuery := findQuery.(sorts := findQuery.sorts + [spec.value]);
        thrown := None;
      } else {
        thrown := Some(spec.error);
      }
    }

    method LimitFields() returns (thrown: Option<string>)
      modifies this`findQuery
      ensures FieldsSpec(queryString).Ok? ==> thrown.None? && findQuery == old(findQuery).(selects := old(findQuery.selects) + [FieldsSpec(queryString).value])
      ensures FieldsSpec(queryString).Err? ==> thrown == Some(FieldsSpec(queryString).error) && findQuery == old(findQuery)
    {
      var spec := FieldsSpec(queryString);
      if spec.Ok? {
        findQuery := findQuery.(selects := findQuery.selects + [spec.value]);
        thrown := None;
      } else {
        thrown := Some(spec.error);
      }
    }

    /** Page and limit are at least 1; the query skips the earlier pages and takes one page. */
    method Paginate()
      modifies this`findQuery, this`page, this`limit
      ensures page == Some(PageOf(queryString)) && limit == Some(LimitOf(queryString))
      ensures page.value >= 1 && limit.value >= 1
      ensures findQuery == old(findQuery).(skip := Some(SkipOf(queryString)), limit := Some(LimitOf(queryString)))
      ensures findQuery.skip.value >= 0
    {
      var p := PageOf(queryString);
      var l := LimitOf(queryString);
      var skip := (p - 1) * l;
      SkipNonNegative(p, l);
      findQuery := findQuery.(skip := Some(skip), limit := Some(l));
      page := Some(p);
      limit := Some(l);
    }
  }

  // ------------------------------------------------------------- lemmas

  /** Deleting one more key from the copy is deleting the longer list of keys from the original. */
  lemma WithoutOneMore(q: seq<(string, QVal)>, names: seq<string>, field: string)
    ensures Without(Without(q, names), [field]) == Without(q, names + [field])
  {
    FilterCompose(NotIn(names), NotIn([field]), NotIn(names + [field]), q);
  }

  lemma SkipNonNegative(page: int, limit: int)
    requires page >= 1 && limit >= 1
    ensures (page - 1) * limit >= 0
  {
  }

  /**
   * A parsed page of at least 1 is kept; an absent, non-numeric, zero or
   * negative page becomes 1. A limit of 0 or no number falls back to 10, but a
   * negative limit is truthy and is lifted to 1.
   */
  lemma PageOfSpec(q: seq<(string, QVal)>)
    ensures var n := QInt(Get(q, "page"));
      (n.Some? && n.value >= 1 ==> PageOf(q) == n.value) && (n.None? || n.value <= 0 ==> PageOf(q) == 1)
    ensures var n := QInt(Get(q, "limit"));
      && (n.Some? && n.value >= 1 ==> LimitOf(q) == n.value)
      && (n.None? || n.value == 0 ==> LimitOf(q) == 10)
      && (n.Some? && n.value < 0 ==> LimitOf(q) == 1)
  {
  }

  /** The sort and projection strings are the comma lists with spaces instead of commas, or their defaults. */
  lemma {:induction false} SpaceListSpec(v: Option<QVal>, fallback: string, name: string)
    ensures var r := SpaceList(v, fallback, name);
      && (v.None? || v == Some(QStr("")) ==> r == Ok(fallback))
      && (v.Some? && v.value.QStr? && v.value.s != "" ==>
            r == Ok(ReplaceChar(v.value.s, ',', ' ')) && |r.value| == |v.value.s| && ',' !in r.value)
      && (v.Some? && !v.value.QStr? ==> r.Err?)
  {
    if v.Some? && v.value.QStr? && v.value.s != "" {
      SplitJoinReplaces(v.value.s, ',', ' ');
      ReplaceCharSpec(v.value.s, ',', ' ');
    }
  }

  lemma {:induction false} ReplaceCharSpec(s: string, a: char, b: char)
    requires a != b
    ensures |ReplaceChar(s, a, b)| == |s| && a !in ReplaceChar(s, a, b)
  {
    if s != [] {
      ReplaceCharSpec(s[1..], a, b);
    }
  }

  /** The text with every `$` removed. */
  function DropDollars(s: string): string
  {
    if s == [] then [] else (if s[0] == '$' then [] else [s[0]]) + DropDollars(s[1..])
  }

  lemma {:induction false} DropDollarsAppend(a: string, b: string)
    ensures DropDollars(a + b) == DropDollars(a) + DropDollars(b)
  {
    if a != [] {
      assert (a + b)[1..] == a[1..] + b;
      DropDollarsAppend(a[1..], b);
    } else {
      assert a + b == b;
    }
  }

  /** `RenameWords` only ever inserts `$` characters. */
  lemma {:induction false} RenameOnlyAddsDollars(s: string)
    ensures DropDollars(RenameWords(s)) == DropDollars(s)
    decreases |s|, 1
  {
    if s != [] {
      if !IsWordChar(s[0]) {
        OtherCharDrops(s);
      } else {
        WordDrops(s);
      }
    }
  }

  lemma {:induction false} OtherCharDrops(s: string)
    requires s != [] && !IsWordChar(s[0])
    ensures DropDollars(RenameWords(s)) == DropDollars(s)
    decreases |s|, 0
  {
    RenameOnlyAddsDollars(s[1..]);
    assert RenameWords(s) == [s[0]] + RenameWords(s[1..]);
    assert s == [s[0]] + s[1..];
    PieceDrops([s[0]], [s[0]], s[1..]);
  }

  lemma {:induction false} WordDrops(s: string)
    requires s != [] && IsWordChar(s[0])
    ensures DropDollars(RenameWords(s)) == DropDollars(s)
    decreases |s|, 0
  {
    var n := WordRun(s);
    var w := s[..n];
    var piece := if IsOperator(w) then "$" + w else w;
    RenameOnlyAddsDollars(s[n..]);
    assert RenameWords(s) == piece + RenameWords(s[n..]);
    assert s == w + s[n..];
    PieceDropsToWord(w);
    PieceDrops(piece, w, s[n..]);
  }

  /** One step of `RenameOnlyAddsDollars`: a piece that drops to the original text, followed by the renamed rest. */
  lemma PieceDrops(piece: string, w: string, rest: string)
    requires DropDollars(piece) == DropDollars(w)
    requires DropDollars(RenameWords(rest)) == DropDollars(rest)
    ensures DropDollars(piece + RenameWords(rest)) == DropDollars(w + rest)
  {
    DropDollarsAppend(piece, RenameWords(rest));
    DropDollarsAppend(w, rest);
  }

  lemma PieceDropsToWord(w: string)
    ensures DropDollars(if IsOperator(w) then "$" + w else w) == DropDollars(w)
  {
    if IsOperator(w) {
      DropDollarsAppend("$", w);
      assert DropDollars("$") == [];
    }
  }

  /** A rename whose output holds no `$` changed nothing. */
  lemma {:induction false} DollarFreeRenameIsIdentity(s: string)
    requires '$' !in RenameWords(s)
    ensures RenameWords(s) == s
    decreases |s|
  {
    if s != [] {
      if !IsWordChar(s[0]) {
        assert RenameWords(s) == [s[0]] + RenameWords(s[1..]);
        DollarFreeRenameIsIdentity(s[1..]);
        assert s == [s[0]] + s[1..];
      } else {
        var n := WordRun(s);
        var w := s[..n];
        var piece := if IsOperator(w) then "$" + w else w;
        assert RenameWords(s) == piece + RenameWords(s[n..]);
        assert !IsOperator(w);
        assert RenameWords(s[n..]) == RenameWords(s)[|piece|..];
        DollarFreeRenameIsIdentity(s[n..]);
        assert s == w + s[n..];
      }
    }
  }

  /** A single word is prefixed with `$` exactly when it is one of the four operators. */
  lemma RenameSingleWord(s: string)
    requires |s| > 0 && forall i :: 0 <= i < |s| ==> IsWordChar(s[i])
    ensures RenameWords(s) == if IsOperator(s) then "$" + s else s
  {
    var n := WordRun(s);
    assert n == |s|;
    assert s[..n] == s;
    assert s[n..] == [];
  }

  /** `price[gte]` becomes `price: { $gte }`, and `lt` becomes `$lt`. */
  lemma OperatorWordsRenamed()
    ensures RenameWords("gte") == "$gte" && RenameWords("lt") == "$lt"
  {
    RenameSingleWord("gte");
    RenameSingleWord("lt");
  }

  /** `price_gte` is one word, so it stays as it is. */
  lemma UnderscoreWordKept()
    ensures RenameWords("price_gte") == "price_gte"
  {
    RenameSingleWord("price_gte");
  }

  lemma CategoryKeyKept()
    ensures RenameWords("category") == "category"
  {
    RenameSingleWord("category");
  }

  lemma {:induction false} WithoutSkipsNamed(a: seq<(string, QVal)>, b: seq<(string, QVal)>, names: seq<string>, name: string, v: QVal)
    requires name in names
    ensures Without(a + [(name, v)] + b, names) == Without(a + b, names)
  {
    var keep := NotIn(names);
    var x := (name, v);
    assert Filter(keep, [x]) == [] by {
      assert !keep(x);
      assert [x][1..] == [];
    }
    calc {
      Filter(keep, a + [x] + b);
      { FilterAppend(keep, a + [x], b); }
      Filter(keep, a + [x]) + Filter(keep, b);
      { FilterAppend(keep, a, [x]); }
      Filter(keep, a) + Filter(keep, b);
      { FilterAppend(keep, a, b); }
      Filter(keep, a + b);
    }
  }

  /** Steering keys leave no trace: adding one anywhere in the query string does not change the filter object. */
  lemma FilterIgnoresExcluded(a: seq<(string, QVal)>, b: seq<(string, QVal)>, name: string, v: QVal)
    requires name in Excluded
    ensures FilterCondition(a + [(name, v)] + b) == FilterCondition(a + b)
  {
    WithoutSkipsNamed(a, b, Excluded, name, v);
  }

  /** The filter object has one property per kept key, in order, under the renamed key. */
  lemma FilterKeepsOtherKeys(q: seq<(string, QVal)>)
    ensures var kept := Without(q, Excluded);
      && |FilterCondition(q)| == |kept|
      && (forall i :: 0 <= i < |kept| ==> FilterCondition(q)[i].0 == RenameWords(kept[i].0))
      && (forall p :: p in kept <==> p in q && p.0 !in Excluded)
  {
  }

  /** Only the key `category` itself is renamed to `category`. */
  lemma RenamedToCategory(k: string)
    ensures RenameWords(k) == "category" <==> k == "category"
  {
    if k == "category" {
      CategoryKeyKept();
    } else if RenameWords(k) == "category" {
      assert '$' !in RenameWords(k);
      DollarFreeRenameIsIdentity(k);
      assert false;
    }
  }

  lemma {:induction false} GetUnderRename(w: seq<(string, QVal)>, category: Option<QVal>)
    ensures Get(Map(Entry(category), w), "category")
      == if Get(w, "category").None? then None else Some(Entry(category)(("category", Get(w, "category").value)).1)
  {
    if w != [] {
      var init := w[..|w| - 1];
      var last := w[|w| - 1];
      assert w == init + [last];
      var m := Map(Entry(category), w);
      assert m == Map(Entry(category), init) + [Entry(category)(last)];
      GetUnderRename(init, category);
      GetSnoc(init, last, "category");
      GetSnoc(Map(Entry(category), init), Entry(category)(last), "category");
      RenamedToCategory(last.0);
    }
  }

  lemma {:induction false} GetWithout(q: seq<(string, QVal)>, names: seq<string>, key: string)
    requires key !in names
    ensures Get(Without(q, names), key) == Get(q, key)
  {
    if q != [] {
      var init := q[..|q| - 1];
      var last := q[|q| - 1];
      var keep := NotIn(names);
      assert q == init + [last];
      FilterAppend(keep, init, [last]);
      GetWithout(init, names, key);
      assert Filter(keep, [last]) == if keep(last) then [last] else [];
      if keep(last) {
        var w := Without(q, names);
        assert w == Without(init, names) + [last];
        assert w[..|w| - 1] == Without(init, names);
      } else {
        assert Without(q, names) == Without(init, names);
      }
    }
  }

  /** A truthy `category` — one value or several — becomes an `$in` over all of them. */
  lemma CategoryBecomesIn(q: seq<(string, QVal)>)
    requires Get(q, "category").Some? && QTruthy(Get(q, "category").value)
    ensures Get(FilterCondition(q), "category") == Some(In(Map(RenameVal, Concat(Get(q, "category").value))))
  {
    var stripped := Without(q, Excluded);
    GetWithout(q, Excluded, "category");
    GetUnderRename(stripped, Get(stripped, "category"));
    CategoryKeyKept();
  }

  /** The count query's builder, `search().filter()`: with no search term the query holds exactly the filter object. */
  method BuildCountQuery(queryString: seq<(string, QVal)>) returns (feature: Feature, thrown: Option<string>)
    ensures fresh(feature) && feature.queryString == queryString
    ensures thrown == SearchError(queryString)
    ensures thrown.None? ==> feature.findQuery == Query([FilterCondition(queryString)], [], [], None, None)
  {
    feature := new Feature(EmptyQuery, queryString);
    thrown := feature.Search();
    if thrown.None? {
      feature.FilterStep();
    }
  }

  /** The list query's builder, `search().filter().sort().paginate()`: with no exception the query gains exactly the filter, the sort and one page window. */
  method BuildListQuery(queryString: seq<(string, QVal)>) returns (feature: Feature, thrown: Option<string>)
    ensures fresh(feature) && feature.queryString == queryString
    ensures thrown == if SearchError(queryString).Some? then SearchError(queryString)
                      else if SortSpec(queryString).Err? then Some(SortSpec(queryString).error)
                      else None
    ensures thrown.None? ==> feature.findQuery == Query([FilterCondition(queryString)], [SortSpec(queryString).value], [],
                                                        Some(SkipOf(queryString)),
                                                        Some(LimitOf(queryString)))
  {
    feature, thrown := BuildCountQuery(queryString);
    if thrown.Some? {
      return;
    }
    ghost var filtered := feature.findQuery;
    thrown := feature.Sort();
    if thrown.Some? {
      return;
    }
    ghost var sorted := feature.findQuery;
    assert sorted == filtered.(sorts := [SortSpec(queryString).value]);
    feature.Paginate();
    assert feature.findQuery == sorted.(skip := Some(SkipOf(queryString)), limit := Some(LimitOf(queryString)));
  }
}
