/**
 * The product-update sanitizer: keeps the whitelisted properties of a request
 * body, trims strings, and turns price and stock into checked numbers.
 */
module Sanitize {
  import opened JsCore

  /** A request body: an object as an ordered property list. */
  type Obj = seq<(string, JsValue)>

  const AllowedFields: seq<string> := ["name", "description", "price", "category", "brand", "stock", "image"]

  const PriceMessage: string := "Price must be a valid positive number"
  const StockMessage: string := "Stock must be a valid positive number"

  function TrimValue(v: JsValue): JsValue
  {
    if v.Str? then Str(Trim(v.s)) else v
  }

  /** A price or stock property that makes the sanitizer throw. */
  predicate Rejected(p: (string, JsValue))
  {
    || (p.0 == "price" && (ParseFloatValue(TrimValue(p.1)).None? || ParseFloatValue(TrimValue(p.1)).value < 0.0))
    || (p.0 == "stock" && (ParseIntValue(TrimValue(p.1)).None? || ParseIntValue(TrimValue(p.1)).value < 0))
  }

  /** One pass of the loop body: the property's contribution, or the exception it raises. */
  function Step(cleaned: Obj, key: string, value: JsValue): (r: Result<Obj, string>)
    ensures r.Err? <==> Rejected((key, value))
  {
    if key !in AllowedFields then Ok(cleaned)
    else
      var v := TrimValue(value);
      if key == "price" then
        var p := ParseFloatValue(v);
        if p.None? || p.value < 0.0 then Err(PriceMessage) else Ok(cleaned + [("price", Num(p.value))])
      else if key == "stock" then
        var n := ParseIntValue(v);
        if n.None? || n.value < 0 then Err(StockMessage) else Ok(cleaned + [("stock", Num(n.value as real))])
      else Ok(cleaned + [(key, v)])
  }

  /** What the loop has built after the given properties, or the first exception. */
  function Clean(data: Obj): Result<Obj, string>
  {
    if data == [] then Ok([])
    else
      match Clean(data[..|data| - 1])
      case Err(e) => Err(e)
      case Ok(c) => Step(c, data[|data| - 1].0, data[|data| - 1].1)
  }

  /** Once a property has thrown, later properties cannot undo it. */
  lemma {:induction false} ErrorIsFinal(data: Obj, k: nat)
    requires k <= |data| && Clean(data[..k]).Err?
    ensures Clean(data) == Clean(data[..k])
    decreases |data| - k
  {
    if k == |data| {
      assert data[..k] == data;
    } else {
      assert data[..k + 1][..k] == data[..k];
      ErrorIsFinal(data, k + 1);
    }
  }

  /** `sanitizeProductData(data = {})`: a for-of loop over the keys that fills `cleaned` in place. */
  method SanitizeProductData(data: Option<Obj>) returns (r: Result<Obj, string>)
    requires data.Some? ==> UniqueKeys(data.value)
    ensures r == Clean(if data.None? then [] else data.value)
  {
    var input := if data.None? then [] else data.value;
    var cleaned: Obj := [];
    for i := 0 to |input|
      invariant Clean(input[..i]) == Ok(cleaned)
    {
      var key := input[i].0;
      var value := input[i].1;
      assert input[..i + 1][..i] == input[..i];
      var step := Step(cleaned, key, value);
      if step.Err? {
        ErrorIsFinal(input, i + 1);
        return step;
      }
      cleaned := step.value;
    }
    assert input[..|input|] == input;
    return Ok(cleaned);
  }

  /** With no argument the result is the empty object. */
  lemma NoArgument()
    ensures Clean([]) == Ok([])
  {
  }

  /** The sanitizer throws exactly when some price or stock property is not a non-negative number. */
  lemma {:induction false} ThrowsIffRejected(data: Obj)
    ensures Clean(data).Err? <==> exists i :: 0 <= i < |data| && Rejected(data[i])
  {
    if data != [] {
      var init := data[..|data| - 1];
      ThrowsIffRejected(init);
      forall i | 0 <= i < |init| ensures init[i] == data[i] { }
      if Clean(init).Err? {
        assert exists i :: 0 <= i < |data| && Rejected(data[i]) by {
          var i :| 0 <= i < |init| && Rejected(init[i]);
          assert Rejected(data[i]);
        }
      }
    }
  }

  /** A kept property: whitelisted, and holding a checked number or a trimmed string. */
  predicate Sound(p: (string, JsValue))
  {
    && p.0 in AllowedFields
    && (p.0 == "price" ==> p.1.Num? && p.1.n >= 0.0)
    && (p.0 == "stock" ==> p.1.Num? && p.1.n >= 0.0 && p.1.n == p.1.n.Floor as real)
    && (p.1.Str? ==> IsTrimmed(p.1.s))
  }

  /** A step that does not throw adds nothing for a key off the list, and one sound property for a key on it. */
  lemma StepKeeps(c: Obj, key: string, value: JsValue)
    requires Step(c, key, value).Ok?
    ensures key !in AllowedFields ==> Step(c, key, value).value == c
    ensures key in AllowedFields ==> exists q :: Step(c, key, value).value == c + [q] && q.0 == key && Sound(q)
  {
    if key in AllowedFields {
      var v := TrimValue(value);
      if key == "price" {
        var q := ("price", Num(ParseFloatValue(v).value));
        assert Step(c, key, value).value == c + [q] && Sound(q);
      } else if key == "stock" {
        var q := ("stock", Num(ParseIntValue(v).value as real));
        assert Step(c, key, value).value == c + [q] && Sound(q);
      } else {
        var q := (key, v);
        assert Step(c, key, value).value == c + [q];
        assert Sound(q);
      }
    }
  }

  /**
   * A successful result keeps exactly the whitelisted keys of the input, and
   * each kept value is a checked number or a trimmed string.
   */
  lemma {:induction false} CleanedKeys(data: Obj)
    requires Clean(data).Ok?
    ensures Keys(Clean(data).value) == Keys(data) * set k | k in AllowedFields
    ensures forall p :: p in Clean(data).value ==> Sound(p)
  {
    if data != [] {
      var init := data[..|data| - 1];
      var last := data[|data| - 1];
      assert data == init + [last];
      KeysSnoc(init, last);
      CleanedKeys(init);
      var c := Clean(init).value;
      var r := Clean(data).value;
      assert Clean(data) == Step(c, last.0, last.1);
      StepKeeps(c, last.0, last.1);
      if last.0 in AllowedFields {
        var q :| r == c + [q] && q.0 == last.0 && Sound(q);
        KeysSnoc(c, q);
        assert forall p :: p in r ==> p in c || p == q;
      } else {
        assert r == c;
      }
    }
  }
}
