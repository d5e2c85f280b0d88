/**
 * The product request handlers: the paginated list, lookup by id, creation,
 * partial update and deletion. The catalog collection is a map from the
 * lower-case hexadecimal document id to the stored document.
 */
module ProductController {
  import opened JsCore
  import opened ShopModel
  import opened ApiFeature
  import opened ProductSchema
  import Sanitize

  type Obj = seq<(string, JsValue)>

  /** The catalog collection, keyed by lower-case 24-digit hexadecimal id. */
  type Store = map<string, Doc>

  /** A JSON reply: the HTTP status, the `message` and the document in `data`, if any. */
  datatype Response = Response(status: int, message: string, data: Option<Doc>)

  const InvalidIdMessage: string := "Invalid product ID format"
  const NotFoundMessage: string := "Product not found"
  const RequiredMessage: string := "Please provide all required fields: name, description, price, category, brand, stock, image"
  const DuplicateMessage: string := "Product with this name already exists"
  const NothingToUpdateMessage: string := "No valid fields to update"

  /** The reply of every `catch` block but the list handler's. */
  const ServerError: Response := Response(500, "Server Error", None)

  function Fail(status: int, message: string): Response
  {
    Response(status, message, None)
  }

  // ------------------------------------------------------------- ids

  predicate IsHexChar(c: char)
  {
    ('0' <= c <= '9') || ('a' <= c <= 'f') || ('A' <= c <= 'F')
  }

  /** `/^[0-9a-fA-F]{24}$/`. */
  predicate IsHexId(id: string)
  {
    |id| == 24 && forall i :: 0 <= i < |id| ==> IsHexChar(id[i])
  }

  /** The id a hexadecimal string denotes: letters are read case-insensitively. */
  function Key(id: string): string
  {
    ToLower(id)
  }

  // ------------------------------------------------------------- list

  /** The list reply: `result` is the number of products on the page. */
  datatype ListReply =
    | Listed(status: int, result: nat, message: string, products: seq<Doc>, pagination: Pagination)
    | ListFailed(status: int, message: string, error: string)

  /** The pagination block of the list reply, built from the page window and the matching count. */
  function PaginationOf(page: int, limit: int, total: nat): Pagination
    requires limit >= 1
  {
    var totalPages := CeilDiv(total, limit);
    Pagination(page, totalPages, total, page < totalPages, page > 1)
  }

  /** `Math.ceil(n / d)`: the fewest pages of `d` that hold `n` products. */
  lemma CeilDivSpec(n: nat, d: int)
    requires d >= 1
    ensures CeilDiv(n, d) * d >= n
    ensures n > 0 ==> (CeilDiv(n, d) - 1) * d < n
    ensures n == 0 ==> CeilDiv(n, d) == 0
  {
    var q := CeilDiv(n, d);
    var r := (n + d - 1) % d;
    assert n + d - 1 == q * d + r;
    assert (q - 1) * d == q * d - d;
  }

  lemma MulMonotone(a: int, b: int, d: int)
    requires a <= b && d >= 0
    ensures a * d <= b * d
  {
    assert b * d - a * d == (b - a) * d;
  }

  /**
   * There is a next page exactly when the products before the end of the
   * current page are fewer than the matching ones; there is a previous page
   * exactly when the page is not the first.
   */
  lemma PaginationSpec(page: int, limit: int, total: nat)
    requires page >= 1 && limit >= 1
    ensures var p := PaginationOf(page, limit, total);
      && (p.hasNext <==> page * limit < total)
      && (p.hasPrev <==> page != 1)
      && p.totalPages * limit >= total
      && (total > 0 ==> (p.totalPages - 1) * limit < total)
      && (total == 0 ==> p.totalPages == 0 && !p.hasNext)
  {
    var q := CeilDiv(total, limit);
    CeilDivSpec(total, limit);
    if page < q {
      MulMonotone(page, q - 1, limit);
    } else {
      MulMonotone(q, page, limit);
    }
  }

  /**
   * `getAllProduct`: builds the list query (search, filter, sort, page window)
   * and the count query (search and filter only) over the request's query
   * string. `fetched` and `total` are what the database returns for them.
   * Any exception in the builders becomes a 500 reply.
   */
  method GetAllProduct(queryString: seq<(string, QVal)>, fetched: seq<Doc>, total: nat)
    returns (reply: ListReply, listQuery: Query, countQuery: Query)
    ensures SearchError(queryString).Some? ==> reply == ListFailed(500, "Internal server error", SearchError(queryString).value)
    ensures SearchError(queryString).None? && SortSpec(queryString).Err? ==>
              reply == ListFailed(500, "Internal server error", SortSpec(queryString).error)
    ensures SearchError(queryString).None? && SortSpec(queryString).Ok? ==>
              && reply == Listed(200, |fetched|, if |fetched| > 0 then "List of all products" else "No products found",
                                 fetched, PaginationOf(PageOf(queryString), LimitOf(queryString), total))
              && countQuery == Query([FilterCondition(queryString)], [], [], None, None)
              && listQuery.conditions == countQuery.conditions
              && listQuery.limit == Some(LimitOf(queryString))
              && listQuery.skip == Some(SkipOf(queryString))
  {
    var features, thrown := BuildListQuery(queryString);
    listQuery := features.findQuery;
    countQuery := EmptyQuery;
    if thrown.Some? {
      reply := ListFailed(500, "Internal server error", thrown.value);
      return;
    }
    var countFeatures, countThrown := BuildCountQuery(queryString);
    countQuery := countFeatures.findQuery;
    var page := PageOf(queryString);
    var limit := LimitOf(queryString);
    reply := Listed(200, |fetched|, if |fetched| > 0 then "List of all products" else "No products found",
                    fetched, PaginationOf(page, limit, total));
  }

  // ------------------------------------------------------------- lookup and delete

  /** `getProductById`. */
  function GetProductById(store: Store, id: string): (r: Response)
    ensures r.status == 200 <==> IsHexId(id) && Key(id) in store
    ensures r.status == 200 ==> r.data == Some(store[Key(id)])
    ensures r.status != 200 ==> r.data.None? && r.status in {400, 404}
  {
    if !IsHexId(id) then Fail(400, InvalidIdMessage)
    else if Key(id) !in store then Fail(404, NotFoundMessage)
    else Response(200, "Product found", Some(store[Key(id)]))
  }

  /** `deleteProduct`: the reply and the collection afterwards. */
  function DeleteProduct(store: Store, id: string): (r: (Response, Store))
    ensures r.0.status == 200 <==> IsHexId(id) && Key(id) in store
    ensures r.0.status == 200 ==> r.0.data == Some(store[Key(id)]) && Key(id) !in r.1 && r.1.Keys == store.Keys - {Key(id)}
    ensures r.0.status != 200 ==> r.1 == store && r.0.status in {400, 404}
    ensures forall k :: k in r.1 ==> k in store && r.1[k] == store[k]
  {
    if !IsHexId(id) then (Fail(400, InvalidIdMessage), store)
    else if Key(id) !in store then (Fail(404, NotFoundMessage), store)
    else (Response(200, "Product deleted successfully", Some(store[Key(id)])), store - {Key(id)})
  }

  /** Deleting the same id twice: the second request finds nothing. */
  lemma DeleteTwiceNotFound(store: Store, id: string)
    requires IsHexId(id) && Key(id) in store
    ensures var after := DeleteProduct(store, id).1;
      DeleteProduct(after, id) == (Fail(404, NotFoundMessage), after)
      && GetProductById(after, id).status == 404
  {
  }

  /**
   * A malformed id is refused with 400 by lookup, update and deletion before
   * the collection is consulted: the reply does not depend on the collection
   * or the body, and nothing changes.
   */
  lemma MalformedIdRefused(store: Store, other: Store, id: string, body: Obj)
    requires !IsHexId(id)
    ensures GetProductById(store, id) == GetProductById(other, id) == Fail(400, InvalidIdMessage)
    ensures DeleteProduct(store, id) == (Fail(400, InvalidIdMessage), store)
    ensures UpdateResult(store, id, body) == (Fail(400, InvalidIdMessage), store)
    ensures UpdateResult(other, id, []).0 == UpdateResult(store, id, body).0
  {
  }

  // ------------------------------------------------------------- create

  /** A destructured body property: absent reads as `undefined`. */
  function Field(body: Obj, key: string): JsValue
  {
    var v := Get(body, key);
    if v.Some? then v.value else Undefined
  }

  /** The first check: the strings must be truthy, price and stock merely present. */
  predicate MissingRequired(body: Obj)
  {
    || !Truthy(Field(body, "name"))
    || !Truthy(Field(body, "description"))
    || Field(body, "price") == Undefined
    || !Truthy(Field(body, "category"))
    || !Truthy(Field(body, "brand"))
    || Field(body, "stock") == Undefined
    || !Truthy(Field(body, "image"))
  }

  /** The duplicate lookup: a stored product whose name equals `name` ignoring letter case. */
  predicate NameTaken(store: Store, name: string)
  {
    exists k :: k in store && ToLower(store[k].name) == ToLower(name)
  }

  /** No two stored products have names that differ only in letter case. */
  predicate NamesDistinct(store: Store)
  {
    forall a, b :: a in store && b in store && a != b ==> ToLower(store[a].name) != ToLower(store[b].name)
  }

  predicate AllValid(store: Store)
  {
    forall k :: k in store ==> Valid(store[k])
  }

  /** A fresh id for a new document. */
  predicate FreshId(store: Store, newId: string)
  {
    IsHexId(newId) && Key(newId) == newId && newId !in store
  }

  /** The document handed to the schema once every field is known to be a string. */
  function NewDraft(name: string, description: string, price: real, category: string, brand: string, stock: int, image: string): Draft
  {
    Draft(Some(Trim(name)), Some(Trim(description)), Some(price), Some(Trim(category)), Some(Trim(brand)), Some(stock as real), Some(Trim(image)))
  }

  /** After the name check: every other string is trimmed (a non-string throws), then the schema runs. */
  function CreateChecked(store: Store, body: Obj, name: string, price: real, stock: int, newId: string): (r: (Response, Store))
    requires FreshId(store, newId)
    ensures r.0.status == 201 ==> r.0.data.Some? && Valid(r.0.data.value) && r.1 == store[newId := r.0.data.value]
    ensures r.0.status != 201 ==> r.0 == ServerError && r.1 == store
  {
    var description := Field(body, "description");
    var category := Field(body, "category");
    var brand := Field(body, "brand");
    var image := Field(body, "image");
    if !(description.Str? && category.Str? && brand.Str? && image.Str?) then (ServerError, store)
    else
      match Cast(NewDraft(name, description.s, price, category.s, brand.s, stock, image.s))
      case Err(_) => (ServerError, store)
      case Ok(doc) => (Response(201, "Product created successfully", Some(doc)), store[newId := doc])
  }

  /**
   * `createProduct`: the reply and the collection afterwards; `newId` is the
   * id the database assigns.
   */
  function CreateProduct(store: Store, body: Obj, newId: string): (r: (Response, Store))
    requires FreshId(store, newId)
    ensures r.0.status == 201 ==> r.0.data.Some? && Valid(r.0.data.value) && r.1 == store[newId := r.0.data.value]
    ensures r.0.status != 201 ==> r.1 == store && r.0.data.None? && r.0.status in {400, 500}
    ensures MissingRequired(body) ==> r.0 == Fail(400, RequiredMessage)
  {
    if MissingRequired(body) then (Fail(400, RequiredMessage), store)
    else
      var price := ParseFloatValue(Field(body, "price"));
      var stock := ParseIntValue(Field(body, "stock"));
      if price.None? || price.value < 0.0 then (Fail(400, Sanitize.PriceMessage), store)
      else if stock.None? || stock.value < 0 then (Fail(400, Sanitize.StockMessage), store)
      else if !Field(body, "name").Str? then (ServerError, store)
      else if NameTaken(store, Trim(Field(body, "name").s)) then (Fail(400, DuplicateMessage), store)
      else CreateChecked(store, body, Field(body, "name").s, price.value, stock.value, newId)
  }

  /** The schema's view of a draft whose strings are already trimmed: it keeps them. */
  lemma CastKeepsTrimmed(name: string, description: string, price: real, category: string, brand: string, stock: int, image: string)
    requires Cast(NewDraft(name, description, price, category, brand, stock, image)).Ok?
    ensures var doc := Cast(NewDraft(name, description, price, category, brand, stock, image)).value;
      && doc.name == Trim(name) && doc.description == Trim(description) && doc.category == Trim(category)
      && doc.brand == Trim(brand) && doc.image == Trim(image) && doc.price == price && doc.stock == stock as real
  {
    TrimIdempotent(name);
    TrimIdempotent(description);
    TrimIdempotent(category);
    TrimIdempotent(brand);
  }

  /** A creation that succeeds has passed every check before the schema. */
  lemma CreateSucceeded(store: Store, body: Obj, newId: string)
    requires FreshId(store, newId) && CreateProduct(store, body, newId).0.status == 201
    ensures !MissingRequired(body) && Field(body, "name").Str?
    ensures ParseFloatValue(Field(body, "price")).Some? && ParseIntValue(Field(body, "stock")).Some?
    ensures !NameTaken(store, Trim(Field(body, "name").s))
    ensures CreateProduct(store, body, newId)
         == CreateChecked(store, body, Field(body, "name").s, ParseFloatValue(Field(body, "price")).value,
                          ParseIntValue(Field(body, "stock")).value, newId)
  {
  }

  /** The document the schema accepted: the trimmed strings and the given numbers. */
  lemma CheckedDocument(store: Store, body: Obj, name: string, price: real, stock: int, newId: string)
    requires FreshId(store, newId) && CreateChecked(store, body, name, price, stock, newId).0.status == 201
    ensures var doc := CreateChecked(store, body, name, price, stock, newId).0.data.value;
      && doc.name == Trim(name)
      && Field(body, "description").Str? && doc.description == Trim(Field(body, "description").s)
      && Field(body, "image").Str? && doc.image == Trim(Field(body, "image").s)
      && doc.price == price && doc.stock == stock as real
  {
    var d, c, b, i := Field(body, "description"), Field(body, "category"), Field(body, "brand"), Field(body, "image");
    CastKeepsTrimmed(name, d.s, price, c.s, b.s, stock, i.s);
  }

  /** What a successful creation stores: the trimmed strings and the parsed numbers, under a name not yet taken. */
  lemma CreatedDocument(store: Store, body: Obj, newId: string)
    requires FreshId(store, newId) && CreateProduct(store, body, newId).0.status == 201
    ensures var doc := CreateProduct(store, body, newId).0.data.value;
      && Field(body, "name").Str? && doc.name == Trim(Field(body, "name").s)
      && Field(body, "description").Str? && doc.description == Trim(Field(body, "description").s)
      && Field(body, "image").Str? && doc.image == Trim(Field(body, "image").s)
      && Some(doc.price) == ParseFloatValue(Field(body, "price"))
      && Some(doc.stock.Floor) == ParseIntValue(Field(body, "stock")) && doc.stock == doc.stock.Floor as real
      && !NameTaken(store, doc.name)
  {
    CreateSucceeded(store, body, newId);
    var price := ParseFloatValue(Field(body, "price")).value;
    var stock := ParseIntValue(Field(body, "stock")).value;
    CheckedDocument(store, body, Field(body, "name").s, price, stock, newId);
    assert (stock as real).Floor == stock;
  }

  /** A name equal to a stored one up to letter case and surrounding whitespace is refused. */
  lemma DuplicateRefused(store: Store, body: Obj, newId: string, k: string)
    requires FreshId(store, newId) && k in store
    requires !MissingRequired(body) && Field(body, "name").Str?
    requires ToLower(store[k].name) == ToLower(Trim(Field(body, "name").s))
    requires ParseFloatValue(Field(body, "price")).Some? && ParseFloatValue(Field(body, "price")).value >= 0.0
    requires ParseIntValue(Field(body, "stock")).Some? && ParseIntValue(Field(body, "stock")).value >= 0
    ensures CreateProduct(store, body, newId) == (Fail(400, DuplicateMessage), store)
  {
    assert NameTaken(store, Trim(Field(body, "name").s));
  }

  /** A zero price and a zero stock count as provided, and a numeric zero parses. */
  lemma ZeroIsProvided(body: Obj)
    requires Field(body, "price") == Num(0.0) && Field(body, "stock") == Num(0.0)
    requires Field(body, "name").Str? && Field(body, "name").s != ""
    requires Field(body, "description").Str? && Field(body, "description").s != ""
    requires Field(body, "category").Str? && Field(body, "category").s != ""
    requires Field(body, "brand").Str? && Field(body, "brand").s != ""
    requires Field(body, "image").Str? && Field(body, "image").s != ""
    ensures !MissingRequired(body)
    ensures ParseFloatValue(Field(body, "price")) == Some(0.0) && ParseIntValue(Field(body, "stock")) == Some(0)
  {
  }

  /** Adding a document under a new id whose name is not taken keeps the names distinct. */
  lemma InsertKeepsDistinct(store: Store, newId: string, doc: Doc)
    requires NamesDistinct(store) && newId !in store && !NameTaken(store, doc.name)
    ensures NamesDistinct(store[newId := doc])
  {
    var after := store[newId := doc];
    forall a, b | a in after && b in after && a != b
      ensures ToLower(after[a].name) != ToLower(after[b].name)
    {
      if a == newId {
        assert b in store && after[b] == store[b];
      } else if b == newId {
        assert a in store && after[a] == store[a];
      } else {
        assert after[a] == store[a] && after[b] == store[b];
      }
    }
  }

  /** Creation keeps every stored document valid and every name distinct up to letter case. */
  lemma CreatePreservesInvariant(store: Store, body: Obj, newId: string)
    requires FreshId(store, newId) && AllValid(store) && NamesDistinct(store)
    ensures var after := CreateProduct(store, body, newId).1;
      AllValid(after) && NamesDistinct(after)
  {
    var r := CreateProduct(store, body, newId);
    if r.0.status == 201 {
      var doc := r.0.data.value;
      CreatedDocument(store, body, newId);
      assert !NameTaken(store, doc.name) && Valid(doc) && r.1 == store[newId := doc];
      InsertKeepsDistinct(store, newId, doc);
      InsertKeepsValid(store, newId, doc);
    }
  }

  lemma InsertKeepsValid(store: Store, newId: string, doc: Doc)
    requires AllValid(store) && Valid(doc)
    ensures AllValid(store[newId := doc])
  {
  }

  /** A created product is found by its id, and deleting it restores the collection. */
  lemma CreateGetDelete(store: Store, body: Obj, newId: string)
    requires FreshId(store, newId) && CreateProduct(store, body, newId).0.status == 201
    ensures var (r, after) := CreateProduct(store, body, newId);
      && GetProductById(after, newId) == Response(200, "Product found", r.data)
      && DeleteProduct(after, newId).1 == store
  {
    var after := CreateProduct(store, body, newId).1;
    assert after - {newId} == store;
  }

  // ------------------------------------------------------------- update

  /** The string properties the update trims when they are truthy, in the order it visits them. */
  const TrimmedFields: seq<string> := ["name", "description", "category", "brand", "image"]

  predicate IsAllowed(p: (string, JsValue))
  {
    p.0 in Sanitize.AllowedFields
  }

  function SetValue(key: string, v: JsValue): ((string, JsValue)) -> (string, JsValue)
  {
    (p: (string, JsValue)) => if p.0 == key then (key, v) else p
  }

  /** `obj[key] = v` on a property `obj` already has: the value is replaced where it stands. */
  function Put(obj: Obj, key: string, v: JsValue): (r: Obj)
    ensures |r| == |obj| && Keys(r) == Keys(obj)
  {
    var r := Map(SetValue(key, v), obj);
    assert forall i :: 0 <= i < |r| ==> r[i].0 == obj[i].0;
    r
  }

  /** The price conversion: a present price must parse to a non-negative number, which replaces it. */
  function ConvertPrice(data: Obj): Result<Obj, Response>
  {
    var v := Field(data, "price");
    if v == Undefined then Ok(data)
    else
      var p := ParseFloatValue(v);
      if p.None? || p.value < 0.0 then Err(Fail(400, Sanitize.PriceMessage)) else Ok(Put(data, "price", Num(p.value)))
  }

  /** The stock conversion, with `parseInt`. */
  function ConvertStock(data: Obj): Result<Obj, Response>
  {
    var v := Field(data, "stock");
    if v == Undefined then Ok(data)
    else
      var n := ParseIntValue(v);
      if n.None? || n.value < 0 then Err(Fail(400, Sanitize.StockMessage)) else Ok(Put(data, "stock", Num(n.value as real)))
  }

  /** One trim: a truthy string is trimmed, a truthy non-string has no `trim` and throws. */
  function TrimField(data: Obj, field: string): Result<Obj, Response>
  {
    var v := Field(data, field);
    if !Truthy(v) then Ok(data)
    else if v.Str? then Ok(Put(data, field, Str(Trim(v.s))))
    else Err(ServerError)
  }

  function TrimAll(data: Obj, fields: seq<string>): (r: Result<Obj, Response>)
    ensures r.Err? ==> r.error == ServerError
    decreases |fields|
  {
    if fields == [] then Ok(data)
    else
      match TrimField(data, fields[0])
      case Err(e) => Err(e)
      case Ok(d) => TrimAll(d, fields[1..])
  }

  /** The update document built from a body, or the reply that ends the request first. */
  function PrepareUpdate(body: Obj): (r: Result<Obj, Response>)
    ensures r.Err? ==> r.error.data.None? && r.error.status in {400, 500}
    ensures r.Ok? ==> r.value != []
  {
    match ConvertPrice(Filter(IsAllowed, body))
    case Err(e) => Err(e)
    case Ok(d1) =>
      match ConvertStock(d1)
      case Err(e) => Err(e)
      case Ok(d2) =>
        match TrimAll(d2, TrimmedFields)
        case Err(e) => Err(e)
        case Ok(d3) => if |d3| == 0 then Err(Fail(400, NothingToUpdateMessage)) else Ok(d3)
  }

  /** The value a string path is cast to: a string, or a falsy number or boolean in text form. */
  function StringCast(v: JsValue): Option<string>
  {
    match v
    case Str(s) => Some(s)
    case Num(n) => if n == 0.0 then Some("0") else None
    case Bool(b) => Some(if b then "true" else "false")
    case _ => None
  }

  /** The validators of one updated path, after the schema's trim. */
  predicate PathValid(p: (string, JsValue))
  {
    var s := StringCast(p.1);
    var t := if s.Some? then Trim(s.value) else "";
    if p.0 == "name" then s.Some? && t != "" && NameMin <= |t| <= NameMax
    else if p.0 == "description" then s.Some? && t != "" && |t| >= DescriptionMin
    else if p.0 == "category" then s.Some? && t != ""
    else if p.0 == "brand" || p.0 == "image" then s.Some?
    else if p.0 == "price" || p.0 == "stock" then p.1.Num? && p.1.n >= 0.0
    else true
  }

  predicate PathsValid(data: Obj)
  {
    forall i :: 0 <= i < |data| ==> PathValid(data[i])
  }

  /** One `$set` path applied to a document. */
  function SetPath(doc: Doc, p: (string, JsValue)): Doc
  {
    var s := StringCast(p.1);
    var text := if s.Some? then s.value else "";
    if p.0 == "name" then doc.(name := Trim(text))
    else if p.0 == "description" then doc.(description := Trim(text))
    else if p.0 == "category" then doc.(category := Trim(text))
    else if p.0 == "brand" then doc.(brand := Trim(text))
    else if p.0 == "image" then doc.(image := text)
    else if p.0 == "price" && p.1.Num? then doc.(price := p.1.n)
    else if p.0 == "stock" && p.1.Num? then doc.(stock := p.1.n)
    else doc
  }

  function Apply(doc: Doc, data: Obj): Doc
    decreases |data|
  {
    if data == [] then doc else Apply(SetPath(doc, data[0]), data[1..])
  }

  /**
   * `updateProduct` as a function of the collection, the id and the body:
   * the reply and the collection afterwards. The update's validators run
   * before the document is looked up.
   */
  function UpdateResult(store: Store, id: string, body: Obj): (Response, Store)
  {
    if !IsHexId(id) then (Fail(400, InvalidIdMessage), store)
    else
      match PrepareUpdate(body)
      case Err(e) => (e, store)
      case Ok(data) =>
        if !PathsValid(data) then (ServerError, store)
        else if Key(id) !in store then (Fail(404, NotFoundMessage), store)
        else
          var updated := Apply(store[Key(id)], data);
          (Response(200, "Product updated successfully", Some(updated)), store[Key(id) := updated])
  }

  /** The `forEach` over the body's keys that copies the whitelisted properties. */
  method CopyAllowed(body: Obj) returns (updateData: Obj)
    ensures updateData == Filter(IsAllowed, body)
  {
    updateData := [];
    for i := 0 to |body|
      invariant updateData == Filter(IsAllowed, body[..i])
    {
      assert body[..i + 1] == body[..i] + [body[i]];
      FilterAppend(IsAllowed, body[..i], [body[i]]);
      if body[i].0 in Sanitize.AllowedFields {
        updateData := updateData + [body[i]];
      }
    }
    assert body[..|body|] == body;
  }

  /** The `forEach` over the string fields that trims the truthy ones. */
  method TrimStrings(data: Obj) returns (r: Result<Obj, Response>)
    ensures r == TrimAll(data, TrimmedFields)
  {
    var updateData := data;
    for j := 0 to |TrimmedFields|
      invariant TrimAll(data, TrimmedFields) == TrimAll(updateData, TrimmedFields[j..])
    {
      assert TrimmedFields[j..][1..] == TrimmedFields[j + 1..];
      var field := TrimmedFields[j];
      var v := Field(updateData, field);
      if Truthy(v) {
        if !v.Str? {
          return Err(ServerError);
        }
        updateData := Put(updateData, field, Str(Trim(v.s)));
      }
    }
    return Ok(updateData);
  }

  /**
   * `updateProduct`: copies the whitelisted properties of the body into the
   * update document, converts price and stock, trims the truthy string
   * fields, and applies the update with the path validators.
   */
  method UpdateProduct(store: Store, id: string, body: Obj) returns (resp: Response, after: Store)
    requires UniqueKeys(body)
    ensures (resp, after) == UpdateResult(store, id, body)
  {
    if !IsHexId(id) {
      return Fail(400, InvalidIdMessage), store;
    }
    var updateData := CopyAllowed(body);
    ghost var copied := updateData;
    var price := Field(updateData, "price");
    if price != Undefined {
      var p := ParseFloatValue(price);
      if p.None? || p.value < 0.0 {
        return Fail(400, Sanitize.PriceMessage), store;
      }
      updateData := Put(updateData, "price", Num(p.value));
    }
    assert ConvertPrice(copied) == Ok(updateData);
    ghost var priced := updateData;
    var stock := Field(updateData, "stock");
    if stock != Undefined {
      var n := ParseIntValue(stock);
      if n.None? || n.value < 0 {
        return Fail(400, Sanitize.StockMessage), store;
      }
      updateData := Put(updateData, "stock", Num(n.value as real));
    }
    assert ConvertStock(priced) == Ok(updateData);
    var trimmed := TrimStrings(updateData);
    if trimmed.Err? {
      return trimmed.error, store;
    }
    updateData := trimmed.value;
    if |updateData| == 0 {
      return Fail(400, NothingToUpdateMessage), store;
    }
    assert PrepareUpdate(body) == Ok(updateData);
    if !PathsValid(updateData) {
      return ServerError, store;
    }
    var key := Key(id);
    if key !in store {
      return Fail(404, NotFoundMessage), store;
    }
    var updated := Apply(store[key], updateData);
    return Response(200, "Product updated successfully", Some(updated)), store[key := updated];
  }

  /** A path that passes its validator keeps a valid document valid. */
  lemma SetPathKeepsValid(doc: Doc, p: (string, JsValue))
    requires Valid(doc) && PathValid(p)
    ensures Valid(SetPath(doc, p))
  {
  }

  /** Applying an update whose every path passes its validator keeps a valid document valid. */
  lemma {:induction false} ApplyKeepsValid(doc: Doc, data: Obj)
    requires Valid(doc) && PathsValid(data)
    ensures Valid(Apply(doc, data))
    decreases |data|
  {
    if data != [] {
      SetPathKeepsValid(doc, data[0]);
      assert PathsValid(data[1..]) by {
        forall i | 0 <= i < |data[1..]| ensures PathValid(data[1..][i]) {
          assert data[1..][i] == data[i + 1];
        }
      }
      ApplyKeepsValid(SetPath(doc, data[0]), data[1..]);
    }
  }

  /**
   * An update changes at most the addressed document, keeps every stored
   * document valid, and on success the document is found with its new contents.
   */
  lemma UpdateSpec(store: Store, id: string, body: Obj)
    requires AllValid(store)
    ensures var (r, after) := UpdateResult(store, id, body);
      && after.Keys == store.Keys
      && (forall k :: k in store && k != Key(id) ==> after[k] == store[k])
      && AllValid(after)
      && (r.status == 200 <==> IsHexId(id) && Key(id) in store && PrepareUpdate(body).Ok? && PathsValid(PrepareUpdate(body).value))
      && (r.status == 200 ==> GetProductById(after, id) == Response(200, "Product found", r.data))
      && (r.status != 200 ==> after == store && r.status in {400, 404, 500})
  {
    var r := UpdateResult(store, id, body);
    if IsHexId(id) && PrepareUpdate(body).Ok? && PathsValid(PrepareUpdate(body).value) && Key(id) in store {
      var data := PrepareUpdate(body).value;
      var updated := Apply(store[Key(id)], data);
      assert r == (Response(200, "Product updated successfully", Some(updated)), store[Key(id) := updated]);
      ApplyKeepsValid(store[Key(id)], data);
      InsertKeepsValid(store, Key(id), updated);
    } else {
      assert r.1 == store && r.0.status in {400, 404, 500};
    }
  }

  /** Each conversion and trim step keeps the set of property names. */
  lemma {:induction false} TrimAllKeepsKeys(data: Obj, fields: seq<string>)
    requires TrimAll(data, fields).Ok?
    ensures Keys(TrimAll(data, fields).value) == Keys(data)
    decreases |fields|
  {
    if fields != [] {
      TrimAllKeepsKeys(TrimField(data, fields[0]).value, fields[1..]);
    }
  }

  lemma FilterKeys(body: Obj)
    ensures Keys(Filter(IsAllowed, body)) == Keys(body) * set k | k in Sanitize.AllowedFields
  {
    var w := Filter(IsAllowed, body);
    forall k | k in Keys(w) ensures k in Keys(body) && k in Sanitize.AllowedFields {
      var i :| 0 <= i < |w| && w[i].0 == k;
      assert w[i] in w;
      var j :| 0 <= j < |body| && body[j] == w[i];
    }
    forall k | k in Keys(body) && k in Sanitize.AllowedFields ensures k in Keys(w) {
      var j :| 0 <= j < |body| && body[j].0 == k;
      assert body[j] in body && IsAllowed(body[j]);
      var i :| 0 <= i < |w| && w[i] == body[j];
    }
  }

  /** The price and stock conversions keep the set of property names. */
  lemma ConvertKeepsKeys(data: Obj)
    ensures ConvertPrice(data).Ok? ==> Keys(ConvertPrice(data).value) == Keys(data)
    ensures ConvertStock(data).Ok? ==> Keys(ConvertStock(data).value) == Keys(data)
  {
  }

  /** The update document holds exactly the whitelisted properties the body names, and at least one. */
  lemma UpdateDocumentKeys(body: Obj)
    requires PrepareUpdate(body).Ok?
    ensures Keys(PrepareUpdate(body).value) == Keys(body) * set k | k in Sanitize.AllowedFields
    ensures Keys(PrepareUpdate(body).value) != {}
  {
    var d0 := Filter(IsAllowed, body);
    var d1 := ConvertPrice(d0).value;
    var d2 := ConvertStock(d1).value;
    var d3 := PrepareUpdate(body).value;
    assert TrimAll(d2, TrimmedFields) == Ok(d3);
    FilterKeys(body);
    ConvertKeepsKeys(d0);
    ConvertKeepsKeys(d1);
    TrimAllKeepsKeys(d2, TrimmedFields);
    assert d3[0].0 in Keys(d3);
  }

  lemma {:induction false} NoneAllowed(body: Obj)
    requires forall i :: 0 <= i < |body| ==> body[i].0 !in Sanitize.AllowedFields
    ensures Filter(IsAllowed, body) == []
  {
    if body != [] {
      forall i | 0 <= i < |body[1..]| ensures body[1..][i].0 !in Sanitize.AllowedFields {
        assert body[1..][i] == body[i + 1];
      }
      NoneAllowed(body[1..]);
    }
  }

  /** A body without any whitelisted property is refused as having nothing to update. */
  lemma NothingToUpdate(store: Store, id: string, body: Obj)
    requires IsHexId(id)
    requires forall i :: 0 <= i < |body| ==> body[i].0 !in Sanitize.AllowedFields
    ensures UpdateResult(store, id, body) == (Fail(400, NothingToUpdateMessage), store)
  {
    var w := Filter(IsAllowed, body);
    NoneAllowed(body);
    assert Field(w, "price") == Undefined && Field(w, "stock") == Undefined;
    assert TrimAll(w, TrimmedFields) == Ok(w) by {
      var fs := TrimmedFields;
      assert fs[1..][1..][1..][1..][1..] == [];
    }
  }

  /** A body holding only a non-empty trimmed name becomes the update document unchanged. */
  lemma PrepareSingleName(name: string)
    requires IsTrimmed(name) && name != ""
    ensures PrepareUpdate([("name", Str(name))]) == Ok([("name", Str(name))])
  {
    var body := [("name", Str(name))];
    SingleNameAllowed(body);
    SingleNameNoNumbers(name);
    SingleNameTrimmed(name);
  }

  lemma SingleNameAllowed(body: Obj)
    requires |body| == 1 && body[0].0 == "name"
    ensures Filter(IsAllowed, body) == body
  {
    assert IsAllowed(body[0]);
    assert body[1..] == [];
  }

  lemma SingleNameNoNumbers(name: string)
    ensures ConvertPrice([("name", Str(name))]) == Ok([("name", Str(name))])
    ensures ConvertStock([("name", Str(name))]) == Ok([("name", Str(name))])
  {
    var body := [("name", Str(name))];
    assert "price" !in Keys(body) && "stock" !in Keys(body);
  }

  lemma SingleNameTrimmed(name: string)
    requires IsTrimmed(name) && name != ""
    ensures TrimAll([("name", Str(name))], TrimmedFields) == Ok([("name", Str(name))])
  {
    var body := [("name", Str(name))];
    var fs := TrimmedFields;
    TrimOfTrimmed(name);
    assert Field(body, "name") == Str(name);
    assert Put(body, "name", Str(name)) == body;
    assert TrimField(body, fs[0]) == Ok(body);
    var rest := fs[1..];
    forall k | 0 <= k < |rest| ensures TrimField(body, rest[k]) == Ok(body) {
      assert rest[k] !in Keys(body);
    }
    UntouchedFields(body, rest);
  }

  /** Trimming fields the object does not have leaves it as it is. */
  lemma {:induction false} UntouchedFields(data: Obj, fields: seq<string>)
    requires forall k :: 0 <= k < |fields| ==> TrimField(data, fields[k]) == Ok(data)
    ensures TrimAll(data, fields) == Ok(data)
    decreases |fields|
  {
    if fields != [] {
      assert TrimField(data, fields[0]) == Ok(data);
      forall k | 0 <= k < |fields[1..]| ensures TrimField(data, fields[1..][k]) == Ok(data) {
        assert fields[1..][k] == fields[k + 1];
      }
      UntouchedFields(data, fields[1..]);
    }
  }

  lemma ApplyOne(doc: Doc, p: (string, JsValue))
    ensures Apply(doc, [p]) == SetPath(doc, p)
  {
    assert [p][1..] == [];
  }

  lemma ApplyName(doc: Doc, name: string)
    requires IsTrimmed(name)
    ensures Apply(doc, [("name", Str(name))]) == doc.(name := name)
  {
    ApplyOne(doc, ("name", Str(name)));
    assert SetPath(doc, ("name", Str(name))) == doc.(name := Trim(name));
    TrimOfTrimmed(name);
  }

  lemma NameOfValidPasses(d: Doc)
    requires Valid(d)
    ensures PathsValid([("name", Str(d.name))])
  {
    TrimOfTrimmed(d.name);
    assert PathValid(("name", Str(d.name)));
  }

  /**
   * Unlike creation, an update does not look for other products with the
   * same name: renaming one product to another's name succeeds and leaves
   * two products whose names are equal.
   */
  lemma UpdateCanDuplicateName(store: Store, id: string, other: string)
    requires AllValid(store) && IsHexId(id) && Key(id) in store && other in store && other != Key(id)
    ensures var (r, after) := UpdateResult(store, id, [("name", Str(store[other].name))]);
      r.status == 200 && after[Key(id)].name == after[other].name && !NamesDistinct(after)
  {
    var name := store[other].name;
    var body := [("name", Str(name))];
    PrepareSingleName(name);
    NameOfValidPasses(store[other]);
    ApplyName(store[Key(id)], name);
    var updated := store[Key(id)].(name := name);
    assert UpdateResult(store, id, body) == (Response(200, "Product updated successfully", Some(updated)), store[Key(id) := updated]);
  }
}
