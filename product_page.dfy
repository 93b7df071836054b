/** The product page's state and handlers (doomwear/src/pages/ProductPage.tsx):
    the active product, the quantity stepper, the image carousel, the colour
    and size pickers, the related-products strip and "Buy Now". React's
    re-rendering is left out: each handler and effect is a method that
    updates the component's state fields. */
module ProductPage {
  import opened Common
  import opened ProductModel

  /** A catalog entry as the products endpoint returns it. */
  datatype Listing = Listing(id: Id, product: Product)

  /** A JavaScript number as the carousel index can become: an integer or NaN. */
  datatype JsNumber = Num(value: int) | NaN

  /** JavaScript's `a % n`: NaN for a zero divisor, otherwise truncated
      towards zero, so the result takes the sign of `a`. */
  function JsRem(a: int, n: nat): (r: JsNumber)
    ensures n == 0 <==> r.NaN?
    ensures n > 0 && a >= 0 ==> r == Num(a % n) && 0 <= r.value < n
    ensures n > 0 && a < 0 ==> -(n as int) < r.value <= 0 && (a - r.value) % n == 0
  {
    if n == 0 then NaN
    else if a >= 0 then Num(a % n)
    else
      NegativeRemainder(a, n);
      Num(-((-a) % n))
  }

  /** Truncation leaves a multiple of the divisor behind on negative
      dividends too. */
  lemma NegativeRemainder(a: int, n: int)
    requires a < 0 && n > 0
    ensures (a + (-a) % n) % n == 0
  {
    var q := (-a) / n;
    assert a + (-a) % n == n * -q;
    MultipleRemainder(n, -q);
  }

  lemma MultipleRemainder(n: int, k: int)
    requires n > 0
    ensures (n * k) % n == 0
  {
    var x := n * k;
    var j := k - x / n;
    assert n * j == x % n;
  }

  /** The right arrow: `(prev + 1) % images.length`. */
  function NextImage(i: JsNumber, n: nat): JsNumber
  {
    match i
    case NaN => NaN
    case Num(k) => JsRem(k + 1, n)
  }

  /** The left arrow: `prev === 0 ? images.length - 1 : prev - 1`. */
  function PrevImage(i: JsNumber, n: nat): JsNumber
  {
    match i
    case NaN => NaN
    case Num(k) => if k == 0 then Num(n - 1) else Num(k - 1)
  }

  /** On a product with images, both arrows keep a valid index valid: the
      right arrow wraps from the last image to the first, the left arrow from
      the first to the last, and each undoes the other. */
  lemma CarouselWraps(i: int, n: nat)
    requires 0 <= i < n
    ensures NextImage(Num(i), n) == Num(if i == n - 1 then 0 else i + 1)
    ensures PrevImage(Num(i), n) == Num(if i == 0 then n - 1 else i - 1)
    ensures PrevImage(NextImage(Num(i), n), n) == Num(i)
    ensures NextImage(PrevImage(Num(i), n), n) == Num(i)
  {
    if i + 1 < n {
      ModBelow(i + 1, n);
    } else {
      assert (i + 1) % n == n % n == 0;
    }
    ModBelow(i, n);
    if i == 0 {
      ModBelow(n - 1, n);
    }
  }

  lemma ModBelow(a: int, n: int)
    requires 0 <= a < n
    ensures a % n == a
  {
  }

  /** With no images the right arrow makes the index NaN, and NaN stays
      NaN under both arrows. */
  lemma CarouselWithoutImages(i: int)
    ensures i >= -1 ==> NextImage(Num(i), 0) == NaN
    ensures NextImage(NaN, 0) == NaN && PrevImage(NaN, 0) == NaN
    ensures PrevImage(Num(0), 0) == Num(-1)
  {
  }

  /** `products.filter(p => p._id !== activeProductId)` */
  function Others(products: seq<Listing>, active: Option<Id>): (r: seq<Listing>)
    ensures |r| <= |products|
    ensures forall i :: 0 <= i < |r| ==> r[i] in products && Some(r[i].id) != active
    ensures forall p :: p in products && Some(p.id) != active ==> p in r
    ensures IsSubsequence(r, products)
    ensures forall p :: multiset(r)[p] == if Some(p.id) != active then multiset(products)[p] else 0
  {
    if products == [] then []
    else
      assert products == [products[0]] + products[1..];
      if Some(products[0].id) != active then [products[0]] + Others(products[1..], active)
      else Others(products[1..], active)
  }

  /** `a` is `b` with some entries left out, the rest in the same order. */
  predicate IsSubsequence<T(==)>(a: seq<T>, b: seq<T>)
    decreases |b|
  {
    if a == [] then true
    else if b == [] then false
    else (a[0] == b[0] && IsSubsequence(a[1..], b[1..])) || IsSubsequence(a, b[1..])
  }

  /** A prefix of a subsequence is a subsequence. */
  lemma {:induction false} PrefixOfSubsequence<T>(a: seq<T>, b: seq<T>, k: nat)
    requires IsSubsequence(a, b) && k <= |a|
    ensures IsSubsequence(a[..k], b)
    decreases |b|
  {
    if k == 0 {
    } else if a[0] == b[0] && IsSubsequence(a[1..], b[1..]) {
      PrefixOfSubsequence(a[1..], b[1..], k - 1);
      assert a[..k][1..] == a[1..][..k - 1];
    } else {
      PrefixOfSubsequence(a, b[1..], k);
    }
  }

  const RelatedLimit: nat := 6

  /** `relatedProducts`: the other products, in catalog order, at most six. */
  function RelatedProducts(products: seq<Listing>, active: Option<Id>): (r: seq<Listing>)
    ensures |r| <= RelatedLimit
    ensures forall i :: 0 <= i < |r| ==> r[i] in products && Some(r[i].id) != active
    ensures IsSubsequence(r, products)
    ensures |r| < RelatedLimit ==> forall p :: p in products && Some(p.id) != active ==> p in r
    ensures |r| == (if |Others(products, active)| < RelatedLimit then |Others(products, active)| else RelatedLimit)
    ensures r == Others(products, active)[..|r|]
  {
    var others := Others(products, active);
    if |others| <= RelatedLimit then others
    else
      PrefixOfSubsequence(others, products, RelatedLimit);
      others[..RelatedLimit]
  }

  /** `products.findIndex(p => p._id === active)`: the first product with
      that id, or -1. */
  function FindListing(products: seq<Listing>, active: Option<Id>): (k: int)
    ensures -1 <= k < |products|
    ensures k == -1 <==> forall j :: 0 <= j < |products| ==> Some(products[j].id) != active
    ensures k >= 0 ==> Some(products[k].id) == active && forall j :: 0 <= j < k ==> Some(products[j].id) != active
  {
    if products == [] then -1
    else if Some(products[0].id) == active then 0
    else
      var k := FindListing(products[1..], active);
      if k == -1 then -1 else k + 1
  }

  /** `products.find(p => p._id === activeProductId)` */
  function Find(products: seq<Listing>, active: Option<Id>): (r: Option<Listing>)
    ensures r.None? <==> forall p :: p in products ==> Some(p.id) != active
    ensures r.Some? ==> r.value == products[FindListing(products, active)]
  {
    var k := FindListing(products, active);
    if k == -1 then None else Some(products[k])
  }

  /** `colors.findIndex(c => c.name === name)`: the first colour with that
      name, or -1. */
  function FindColor(colors: seq<ColorOption>, name: string): (k: int)
    ensures -1 <= k < |colors|
    ensures k == -1 <==> forall j :: 0 <= j < |colors| ==> colors[j].name != name
    ensures k >= 0 ==> colors[k].name == name && forall j :: 0 <= j < k ==> colors[j].name != name
  {
    if colors == [] then -1
    else if colors[0].name == name then 0
    else
      var k := FindColor(colors[1..], name);
      if k == -1 then -1 else k + 1
  }

  /** The colour preselected when a product becomes active: the first
      colour's name, or "" when there is none. */
  function DefaultColor(p: Product): string
  {
    if |p.colors| > 0 then p.colors[0].name else ""
  }

  /** The size preselected when a product becomes active: the second size
      (`sizes[1]`), or "" when there are fewer than two. */
  function DefaultSize(p: Product): string
  {
    if |p.sizes| > 1 then p.sizes[1] else ""
  }

  /** On a stored product the preselected colour is one the product offers,
      and it is found at index 0; the preselected size is the second one,
      so a single-size product starts with no size selected. */
  lemma DefaultsOffered(p: Product)
    requires ValidProduct(p)
    ensures exists k :: 0 <= k < |p.colors| && p.colors[k].name == DefaultColor(p)
    ensures FindColor(p.colors, DefaultColor(p)) == 0
    ensures |p.sizes| == 1 ==> DefaultSize(p) == ""
    ensures |p.sizes| > 1 ==> DefaultSize(p) in p.sizes && DefaultSize(p) == p.sizes[1]
  {
    assert p.colors[0].name == DefaultColor(p);
  }

  /** The image "Buy Now" records: `images[findIndex(...)]`, which is
      undefined when no colour has the selected name or there are fewer
      images than colours. */
  function ImageFor(p: Product, color: string): (image: Option<string>)
    ensures image.Some? <==> 0 <= FindColor(p.colors, color) < |p.images|
    ensures image.Some? ==> image.value == p.images[FindColor(p.colors, color)]
  {
    var k := FindColor(p.colors, color);
    if 0 <= k < |p.images| then Some(p.images[k]) else None
  }

  /** With distinct colour names, the image "Buy Now" records for the colour
      picked at position `k` is the image the picker showed. */
  lemma PickedColorImage(p: Product, k: nat)
    requires k < |p.colors| && k < |p.images|
    requires forall a, b :: 0 <= a < b < |p.colors| ==> p.colors[a].name != p.colors[b].name
    ensures ImageFor(p, p.colors[k].name) == Some(p.images[k])
  {
  }

  /** What "Buy Now" saves for the checkout page. */
  datatype Selection = Selection(
    productId: Id, name: string, price: int, image: Option<string>,
    quantity: int, color: string, size: string, subtotal: int)

  datatype BuyNowResult = GoToLogin | GoToCheckout(selection: Selection)

  /** The quantity stepper's bounds. */
  const MinQuantity: int := 1
  const MaxQuantity: int := 10

  class ProductView {
    var products: seq<Listing>
    var activeProductId: Option<Id>
    var quantity: int
    var selectedColor: string
    var selectedSize: string
    var activeImageIndex: JsNumber

    ghost predicate Valid()
      reads this
    {
      MinQuantity <= quantity <= MaxQuantity
    }

    /** The product shown, `PRODUCT`. */
    function Current(): Option<Listing>
      reads this
    {
      Find(products, activeProductId)
    }

    /** The component's initial state once the catalog query has answered. */
    constructor (products: seq<Listing>)
      ensures Valid()
      ensures this.products == products && activeProductId == None
      ensures quantity == 1 && selectedColor == "" && selectedSize == "" && activeImageIndex == Num(0)
    {
      this.products := products;
      activeProductId := None;
      quantity := 1;
      selectedColor := "";
      selectedSize := "";
      activeImageIndex := Num(0);
    }

    /** The effect on `[products, activeProductId]`: with products loaded and
        none active, the first becomes active. */
    method SyncActiveProduct()
      modifies this
      ensures products == old(products) && quantity == old(quantity)
      ensures selectedColor == old(selectedColor) && selectedSize == old(selectedSize)
      ensures activeImageIndex == old(activeImageIndex)
      ensures activeProductId ==
        if |products| > 0 && old(activeProductId).None? then Some(products[0].id) else old(activeProductId)
    {
      if |products| > 0 && activeProductId.None? {
        activeProductId := Some(products[0].id);
      }
    }

    /** The effect on `[PRODUCT]`: a newly shown product preselects its
        default colour and size. */
    method SyncSelection()
      modifies this
      ensures products == old(products) && activeProductId == old(activeProductId)
      ensures quantity == old(quantity) && activeImageIndex == old(activeImageIndex)
      ensures Current().Some? ==> selectedColor == DefaultColor(Current().value.product)
                                  && selectedSize == DefaultSize(Current().value.product)
      ensures Current().None? ==> selectedColor == old(selectedColor) && selectedSize == old(selectedSize)
    {
      var current := Find(products, activeProductId);
      if current.Some? {
        selectedColor := DefaultColor(current.value.product);
        selectedSize := DefaultSize(current.value.product);
      }
    }

    /** `handleQuantityChange`: the change is applied only when the result
        stays within 1..10. */
    method HandleQuantityChange(change: int)
      requires Valid()
      modifies this
      ensures Valid()
      ensures quantity == if MinQuantity <= old(quantity) + change <= MaxQuantity
                          then old(quantity) + change else old(quantity)
      ensures products == old(products) && activeProductId == old(activeProductId)
      ensures selectedColor == old(selectedColor) && selectedSize == old(selectedSize)
      ensures activeImageIndex == old(activeImageIndex)
    {
      var newQuantity := quantity + change;
      if MinQuantity <= newQuantity <= MaxQuantity {
        quantity := newQuantity;
      }
    }

    /** The left arrow of the shown product's carousel. */
    method ShowPrevious()
      requires Current().Some?
      modifies this
      ensures activeImageIndex == PrevImage(old(activeImageIndex), |old(Current()).value.product.images|)
      ensures products == old(products) && activeProductId == old(activeProductId) && quantity == old(quantity)
      ensures selectedColor == old(selectedColor) && selectedSize == old(selectedSize)
    {
      var n := |Find(products, activeProductId).value.product.images|;
      activeImageIndex := PrevImage(activeImageIndex, n);
    }

    /** The right arrow of the shown product's carousel. */
    method ShowNext()
      requires Current().Some?
      modifies this
      ensures activeImageIndex == NextImage(old(activeImageIndex), |old(Current()).value.product.images|)
      ensures products == old(products) && activeProductId == old(activeProductId) && quantity == old(quantity)
      ensures selectedColor == old(selectedColor) && selectedSize == old(selectedSize)
    {
      var n := |Find(products, activeProductId).value.product.images|;
      activeImageIndex := NextImage(activeImageIndex, n);
    }

    /** A thumbnail click shows that image. */
    method SelectImage(k: nat)
      requires Current().Some? && k < |Current().value.product.images|
      modifies this
      ensures activeImageIndex == Num(k)
      ensures products == old(products) && activeProductId == old(activeProductId) && quantity == old(quantity)
      ensures selectedColor == old(selectedColor) && selectedSize == old(selectedSize)
    {
      activeImageIndex := Num(k);
    }

    /** A colour swatch click: the colour is selected and the carousel jumps
        to the image at the colour's own position. */
    method SelectColor(k: nat)
      requires Current().Some? && k < |Current().value.product.colors|
      modifies this
      ensures selectedColor == old(Current()).value.product.colors[k].name
      ensures activeImageIndex == Num(k)
      ensures products == old(products) && activeProductId == old(activeProductId) && quantity == old(quantity)
      ensures selectedSize == old(selectedSize)
    {
      var p := Find(products, activeProductId).value.product;
      selectedColor := p.colors[k].name;
      activeImageIndex := Num(k);
    }

    /** The size radio group. */
    method SelectSize(size: string)
      requires Current().Some? && size in Current().value.product.sizes
      modifies this
      ensures selectedSize == size
      ensures products == old(products) && activeProductId == old(activeProductId) && quantity == old(quantity)
      ensures selectedColor == old(selectedColor) && activeImageIndex == old(activeImageIndex)
    {
      selectedSize := size;
    }

    /** A related-product card click makes that product active; quantity,
        picks and image index carry over until the effects run. */
    method SelectRelated(k: nat)
      requires k < |RelatedProducts(products, activeProductId)|
      modifies this
      ensures activeProductId == Some(RelatedProducts(old(products), old(activeProductId))[k].id)
      ensures Current().Some? && Current().value.id == RelatedProducts(old(products), old(activeProductId))[k].id
      ensures activeProductId != old(activeProductId)
      ensures products == old(products) && quantity == old(quantity)
      ensures selectedColor == old(selectedColor) && selectedSize == old(selectedSize)
      ensures activeImageIndex == old(activeImageIndex)
    {
      var related := RelatedProducts(products, activeProductId);
      activeProductId := Some(related[k].id);
    }

    /** `handleBuyNow`: without a session it sends the visitor to log in and
        saves nothing; otherwise it saves the shown product's id, name and
        price, the image of the selected colour, the picks and the subtotal
        `quantity * price`. */
    method BuyNow(isAuthenticated: bool) returns (result: BuyNowResult)
      requires Current().Some?
      ensures !isAuthenticated <==> result == GoToLogin
      ensures result.GoToCheckout? ==>
        var p := Current().value;
        && result.selection.productId == p.id
        && result.selection.name == p.product.name && result.selection.price == p.product.price
        && result.selection.image == ImageFor(p.product, selectedColor)
        && result.selection.quantity == quantity
        && result.selection.color == selectedColor && result.selection.size == selectedSize
        && result.selection.subtotal == quantity * p.product.price
    {
      if !isAuthenticated {
        return GoToLogin;
      }
      var p := Find(products, activeProductId).value;
      var image := ImageFor(p.product, selectedColor);
      result := GoToCheckout(Selection(p.id, p.product.name, p.product.price, image,
                                       quantity, selectedColor, selectedSize, quantity * p.product.price));
    }
  }
}
