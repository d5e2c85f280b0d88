/**
 * The product schema: which documents the catalog collection accepts, the
 * defaults and trims applied on the way in, and the getters applied on the way out.
 */
module ProductSchema {
  import opened JsCore

  /** A stored product document. Numbers are exact; `stock` need not be whole. */
  datatype Doc = Doc(name: string, description: string, price: real, category: string, brand: string, stock: real, image: string)

  /** What is handed to the schema: any field may be missing. */
  datatype Draft = Draft(
    name: Option<string>,
    description: Option<string>,
    price: Option<real>,
    category: Option<string>,
    brand: Option<string>,
    stock: Option<real>,
    image: Option<string>)

  const NameMin: nat := 2
  const NameMax: nat := 100
  const DescriptionMin: nat := 10
  const DefaultBrand: string := "Generic"


  /** The validator that refused a draft. */
  datatype SchemaError =
    | NameRequired | NameTooShort | NameTooLong
    | DescriptionRequired | DescriptionTooShort
    | PriceRequired | PriceNegative
    | CategoryRequired
    | StockNegative

  function Message(e: SchemaError): string
  {
    match e
    case NameRequired => "Please enter product name"
    case NameTooShort => "Product name must be at least 2 characters long"
    case NameTooLong => "Product name can't exceed 100 characters"
    case DescriptionRequired => "Please enter product description"
    case DescriptionTooShort => "Description should be at least 10 characters long"
    case PriceRequired => "Please enter product price"
    case PriceNegative => "Price cannot be negative"
    case CategoryRequired => "Please enter product category"
    case StockNegative => "Stock cannot be negative"
  }

  /** The field constraints, on a document whose strings have already been trimmed. */
  predicate Valid(d: Doc)
  {
    && d.name != "" && NameMin <= |d.name| <= NameMax
    && d.description != "" && |d.description| >= DescriptionMin
    && d.price >= 0.0
    && d.category != ""
    && d.stock >= 0.0
    && IsTrimmed(d.name) && IsTrimmed(d.description) && IsTrimmed(d.category) && IsTrimmed(d.brand)
  }

  /** The validators, in declaration order, over already-trimmed strings; `Err` names the first one that fails. */
  function Validate(name: string, description: string, price: Option<real>, category: string, brand: string, stock: real, image: string): (r: Result<Doc, SchemaError>)
    requires IsTrimmed(name) && IsTrimmed(description) && IsTrimmed(category) && IsTrimmed(brand)
    ensures r.Ok? <==> Valid(Doc(name, description, if price.Some? then price.value else 0.0, category, brand, stock, image)) && price.Some?
    ensures r.Ok? ==> r.value == Doc(name, description, price.value, category, brand, stock, image)
  {
    if name == "" then Err(NameRequired)
    else if |name| < NameMin then Err(NameTooShort)
    else if |name| > NameMax then Err(NameTooLong)
    else if description == "" then Err(DescriptionRequired)
    else if |description| < DescriptionMin then Err(DescriptionTooShort)
    else if price.None? then Err(PriceRequired)
    else if price.value < 0.0 then Err(PriceNegative)
    else if category == "" then Err(CategoryRequired)
    else if stock < 0.0 then Err(StockNegative)
    else Ok(Doc(name, description, price.value, category, brand, stock, image))
  }

  /** Defaults (brand "Generic", stock 0, image ""), then trims (every string field but image), then the validators. */
  function Cast(d: Draft): (r: Result<Doc, SchemaError>)
    ensures r.Ok? ==> Valid(r.value)
  {
    Validate(
      Trim(if d.name.Some? then d.name.value else ""),
      Trim(if d.description.Some? then d.description.value else ""),
      d.price,
      Trim(if d.category.Some? then d.category.value else ""),
      Trim(if d.brand.Some? then d.brand.value else DefaultBrand),
      if d.stock.Some? then d.stock.value else 0.0,
      if d.image.Some? then d.image.value else "")
  }

  /** Every field of a document, as a draft. */
  function DraftOf(d: Doc): Draft
  {
    Draft(Some(d.name), Some(d.description), Some(d.price), Some(d.category), Some(d.brand), Some(d.stock), Some(d.image))
  }

  /** A valid document passes through the schema unchanged. */
  lemma CastOfValid(d: Doc)
    requires Valid(d)
    ensures Cast(DraftOf(d)) == Ok(d)
  {
    TrimOfTrimmed(d.name);
    TrimOfTrimmed(d.description);
    TrimOfTrimmed(d.category);
    TrimOfTrimmed(d.brand);
  }

  /** Casting what the schema produced gives it back: the cast is idempotent. */
  lemma CastIdempotent(d: Draft)
    requires Cast(d).Ok?
    ensures Cast(DraftOf(Cast(d).value)) == Cast(d)
  {
    CastOfValid(Cast(d).value);
  }

  /** Missing brand, stock and image get their defaults. */
  lemma DefaultsApplied(name: string, description: string, price: real, category: string)
    requires Cast(Draft(Some(name), Some(description), Some(price), Some(category), None, None, None)).Ok?
    ensures var r := Cast(Draft(Some(name), Some(description), Some(price), Some(category), None, None, None)).value;
      r.brand == DefaultBrand && r.stock == 0.0 && r.image == ""
  {
    DefaultBrandTrimmed();
  }

  lemma DefaultBrandTrimmed()
    ensures Trim(DefaultBrand) == DefaultBrand
  {
    var b := DefaultBrand;
    assert b[0] == 'G' && b[|b| - 1] == 'c';
    TrimOfTrimmed(b);
  }

  /** A name of one visible character is refused, whatever whitespace surrounds it. */
  lemma ShortNameRefused(d: Draft)
    requires d.name.Some? && |Trim(d.name.value)| == 1
    ensures Cast(d) == Err(NameTooShort)
  {
  }

  /** The image is stored exactly as given: it is the one string field without a trim. */
  lemma ImageNotTrimmed(d: Draft)
    requires Cast(d).Ok? && d.image.Some?
    ensures Cast(d).value.image == d.image.value
  {
  }

  /** The stock getter rounds to the nearest whole number, halves upward. */
  function StockRead(d: Doc): (r: int)
    ensures d.stock - 0.5 < r as real <= d.stock + 0.5
    ensures Valid(d) ==> r >= 0
  {
    Round(d.stock)
  }
}
