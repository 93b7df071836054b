/** The product document and the constraints its schema enforces on save
    (backend/src/models/product.model.ts). */
module ProductModel {
  import opened Common

  datatype ColorOption = ColorOption(name: string, value: string, colorClass: string)

  datatype Product = Product(
    name: string,
    description: string,
    price: int,
    originalPrice: Option<int>,
    images: seq<string>,
    highlights: seq<string>,
    colors: seq<ColorOption>,
    sizes: seq<string>,
    tags: seq<string>,
    inventory: int)

  datatype SaveError = ValidationError(path: string)

  datatype SaveResult = Saved(product: Product) | Rejected(error: SaveError)

  /** A character of the class `[0-9A-F]` under the `i` flag. */
  predicate IsHexDigit(c: char)
  {
    IsDigit(c) || 'a' <= c <= 'f' || 'A' <= c <= 'F'
  }

  /** `/^#[0-9A-F]{6}$/i` */
  predicate IsHexColor(s: string)
  {
    |s| == 7 && s[0] == '#' && forall i :: 1 <= i < 7 ==> IsHexDigit(s[i])
  }

  /** A required string: present and not empty once its setters have run. */
  predicate Present(s: string)
  {
    s != []
  }

  predicate ValidColor(c: ColorOption)
  {
    Present(c.name) && IsHexColor(c.value) && Present(c.colorClass)
  }

  /** Every schema constraint, checked on a document whose `trim` setters
      have already run. */
  predicate ValidProduct(p: Product)
  {
    && Present(p.name) && |p.name| <= 100
    && Present(p.description) && |p.description| <= 2000
    && p.price >= 0
    && (p.originalPrice.Some? ==> p.originalPrice.value >= 0)
    && |p.colors| > 0
    && (forall i :: 0 <= i < |p.colors| ==> ValidColor(p.colors[i]))
    && |p.sizes| > 0
    && p.inventory >= 0
  }

  /** The `trim: true` setters on name, description and the colour names and classes. */
  function Normalize(p: Product): (q: Product)
    ensures q.name == Trim(p.name) && q.description == Trim(p.description)
    ensures q.price == p.price && q.originalPrice == p.originalPrice && q.inventory == p.inventory
    ensures q.images == p.images && q.highlights == p.highlights && q.sizes == p.sizes && q.tags == p.tags
    ensures |q.colors| == |p.colors|
    ensures forall i :: 0 <= i < |p.colors| ==>
              && q.colors[i].name == Trim(p.colors[i].name)
              && q.colors[i].value == p.colors[i].value
              && q.colors[i].colorClass == Trim(p.colors[i].colorClass)
  {
    p.(name := Trim(p.name),
       description := Trim(p.description),
       colors := seq(|p.colors|, i requires 0 <= i < |p.colors| =>
         p.colors[i].(name := Trim(p.colors[i].name), colorClass := Trim(p.colors[i].colorClass))))
  }

  /** The first failing path, in schema order, of a normalized document. */
  function FirstInvalidPath(p: Product): (path: Option<string>)
    ensures path.None? <==> ValidProduct(p)
  {
    if !Present(p.name) || |p.name| > 100 then Some("name")
    else if !Present(p.description) || |p.description| > 2000 then Some("description")
    else if p.price < 0 then Some("price")
    else if p.originalPrice.Some? && p.originalPrice.value < 0 then Some("originalPrice")
    else if |p.colors| == 0 || exists i :: 0 <= i < |p.colors| && !ValidColor(p.colors[i]) then Some("colors")
    else if |p.sizes| == 0 then Some("sizes")
    else if p.inventory < 0 then Some("inventory")
    else None
  }

  /** `product.save()`: run the setters, then the validators; the stored
      document is the normalized one. */
  function Save(p: Product): (r: SaveResult)
    ensures r.Saved? <==> ValidProduct(Normalize(p))
    ensures r.Saved? ==> r.product == Normalize(p)
  {
    var q := Normalize(p);
    match FirstInvalidPath(q)
    case None => Saved(q)
    case Some(path) => Rejected(ValidationError(path))
  }

  /** A document every `trim` setter leaves as it is. */
  predicate Normalized(p: Product)
  {
    && IsTrimmed(p.name) && IsTrimmed(p.description)
    && forall i :: 0 <= i < |p.colors| ==> IsTrimmed(p.colors[i].name) && IsTrimmed(p.colors[i].colorClass)
  }

  lemma {:induction false} NormalizeOfNormalized(p: Product)
    requires Normalized(p)
    ensures Normalize(p) == p
  {
    TrimOfTrimmed(p.name);
    TrimOfTrimmed(p.description);
    forall i | 0 <= i < |p.colors|
      ensures Normalize(p).colors[i] == p.colors[i]
    {
      TrimOfTrimmed(p.colors[i].name);
      TrimOfTrimmed(p.colors[i].colorClass);
    }
  }

  /** The setters' output is normalized, so a stored product saves unchanged. */
  lemma {:induction false} NormalizeIsNormalized(p: Product)
    ensures Normalized(Normalize(p))
  {
    var q := Normalize(p);
    forall i | 0 <= i < |q.colors|
      ensures IsTrimmed(q.colors[i].name) && IsTrimmed(q.colors[i].colorClass)
    {
      assert q.colors[i].name == Trim(p.colors[i].name);
      assert q.colors[i].colorClass == Trim(p.colors[i].colorClass);
    }
  }

  /** A stored (normalized, valid) product whose inventory drops by a quantity
      no larger than the inventory still saves: the order route's check keeps
      the `min: 0` validator from ever firing. */
  lemma {:induction false} ReserveStillSaves(p: Product, quantity: int)
    requires ValidProduct(p) && Normalized(p)
    requires quantity <= p.inventory
    ensures Save(p.(inventory := p.inventory - quantity)) == Saved(p.(inventory := p.inventory - quantity))
  {
    var q := p.(inventory := p.inventory - quantity);
    NormalizeOfNormalized(q);
  }

  /** A save that would leave the inventory negative is rejected. */
  lemma NegativeInventoryRejected(p: Product)
    requires p.inventory < 0
    ensures Save(p).Rejected?
  {
  }
}
