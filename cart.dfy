/** The cart as a value: merge-on-add, removal by id and the cart total. */
module Cart {
  import opened Model
  import opened Lists
  import opened Pricing

  /** An existing line matches an addition when the product name is the same
      (exact comparison) and every option except the quantity agrees. */
  predicate SameShape(existing: CartItem, product: string, option: ProductOption) {
    && existing.product == product
    && existing.option.shot == option.shot
    && existing.option.temperature == option.temperature
    && existing.option.size == option.size
    && existing.option.ice == option.ice
  }

  /** The index of the line an addition merges into, or -1. */
  function MergeIndex(cart: seq<CartItem>, product: string, option: ProductOption): int {
    IndexOfFirst(cart, (c: CartItem) => SameShape(c, product, option))
  }

  /** The cart after `addToCart(product, option)`, with `newId` as the id a new
      line would get. */
  function AddToCart(cart: seq<CartItem>, product: string, option: ProductOption, newId: string): (r: seq<CartItem>)
    ensures var k := MergeIndex(cart, product, option);
      if k >= 0 then
        && |r| == |cart|
        && r[k].id == cart[k].id
        && r[k].product == cart[k].product
        && r[k].option == cart[k].option.(quantity := cart[k].option.quantity + option.quantity)
        && r[k].price == GetPrice(product, r[k].option)
        && forall j :: 0 <= j < |r| && j != k ==> r[j] == cart[j]
      else
        r == cart + [CartItem(newId, product, GetPrice(product, option), option)]
  {
    var k := MergeIndex(cart, product, option);
    if k >= 0 then
      var merged := cart[k].option.(quantity := cart[k].option.quantity + option.quantity);
      cart[k := cart[k].(option := merged, price := GetPrice(product, merged))]
    else
      cart + [CartItem(newId, product, GetPrice(product, option), option)]
  }

  /** The test `it.id == itemId`. */
  function ById(itemId: string): CartItem -> bool {
    (c: CartItem) => c.id == itemId
  }

  /** The index of the first line with id `itemId`, or -1. */
  function IdIndex(cart: seq<CartItem>, itemId: string): int {
    IndexOfFirst(cart, ById(itemId))
  }

  /** The cart after `removeFromCart(itemId)` succeeds: the first line with
      that id is gone and every other line stays, in order. */
  function RemoveFromCart(cart: seq<CartItem>, itemId: string): (r: seq<CartItem>)
    requires exists j :: 0 <= j < |cart| && cart[j].id == itemId
    ensures var k := IdIndex(cart, itemId);
      && 0 <= k && cart[k].id == itemId
      && (forall j :: 0 <= j < k ==> cart[j].id != itemId)
      && r == cart[..k] + cart[k + 1..]
      && multiset(r) + multiset{cart[k]} == multiset(cart)
  {
    var k := IdIndex(cart, itemId);
    RemoveFirstAtFirstMatch(cart, ById(itemId), k);
    assert RemoveAt(cart, k) == cart[..k] + cart[k + 1..];
    RemoveFirst(cart, cart[k])
  }

  /** The price of every line is what `getPrice` gives for it. */
  ghost predicate PricesCurrent(cart: seq<CartItem>) {
    forall j :: 0 <= j < |cart| ==> cart[j].price == GetPrice(cart[j].product, cart[j].option)
  }

  /** No two lines have the same shape. */
  ghost predicate ShapesDistinct(cart: seq<CartItem>) {
    forall i, j :: 0 <= i < j < |cart| ==> !SameShape(cart[i], cart[j].product, cart[j].option)
  }

  /** The sum of the line prices. */
  function Total(cart: seq<CartItem>): real {
    SumOf(cart, (c: CartItem) => c.price)
  }

  lemma SameShapeSymmetric(a: CartItem, b: CartItem)
    ensures SameShape(a, b.product, b.option) <==> SameShape(b, a.product, a.option)
  {
  }

  /** Adding keeps the prices current, keeps the shapes distinct, and raises
      the total by exactly the price of the added option. */
  lemma AddToCartTotal(cart: seq<CartItem>, product: string, option: ProductOption, newId: string)
    requires PricesCurrent(cart)
    ensures PricesCurrent(AddToCart(cart, product, option, newId))
    ensures Total(AddToCart(cart, product, option, newId)) == Total(cart) + GetPrice(product, option)
  {
    AddToCartKeepsPrices(cart, product, option, newId);
    if MergeIndex(cart, product, option) >= 0 {
      MergeTotal(cart, product, option, newId);
    } else {
      AppendTotal(cart, product, option, newId);
    }
  }

  lemma AddToCartKeepsPrices(cart: seq<CartItem>, product: string, option: ProductOption, newId: string)
    requires PricesCurrent(cart)
    ensures PricesCurrent(AddToCart(cart, product, option, newId))
  {
  }

  lemma MergeTotal(cart: seq<CartItem>, product: string, option: ProductOption, newId: string)
    requires PricesCurrent(cart) && MergeIndex(cart, product, option) >= 0
    ensures Total(AddToCart(cart, product, option, newId)) == Total(cart) + GetPrice(product, option)
  {
    var r := AddToCart(cart, product, option, newId);
    var k := MergeIndex(cart, product, option);
    MergedPrice(cart[k], product, option);
    assert r == cart[k := r[k]];
    MergedSum(cart, k, r[k], GetPrice(product, option));
  }

  /** Raising one line's price by `p` raises the total by `p`. */
  lemma MergedSum(cart: seq<CartItem>, k: nat, line: CartItem, p: real)
    requires k < |cart| && line.price == cart[k].price + p
    ensures Total(cart[k := line]) == Total(cart) + p
  {
    SumOfUpdate(cart, k, line, (c: CartItem) => c.price);
  }

  lemma AppendTotal(cart: seq<CartItem>, product: string, option: ProductOption, newId: string)
    requires MergeIndex(cart, product, option) < 0
    ensures Total(AddToCart(cart, product, option, newId)) == Total(cart) + GetPrice(product, option)
  {
    var line := CartItem(newId, product, GetPrice(product, option), option);
    SumOfAppend(cart, [line], (c: CartItem) => c.price);
    assert SumOf([line], (c: CartItem) => c.price) == line.price;
  }

  /** A line of the same product and shot and size whose price is current,
      with `option`'s quantity added, costs its old price plus the price of
      `option`. */
  lemma MergedPrice(line: CartItem, product: string, option: ProductOption)
    requires line.price == GetPrice(product, line.option)
    requires line.option.shot == option.shot && line.option.size == option.size
    ensures var merged := line.option.(quantity := line.option.quantity + option.quantity);
      GetPrice(product, merged) == line.price + GetPrice(product, option)
  {
    PriceOfMerge(product, line.option, option);
  }

  /** Adding never creates a second line of a shape already in the cart. */
  lemma AddToCartShapesDistinct(cart: seq<CartItem>, product: string, option: ProductOption, newId: string)
    requires ShapesDistinct(cart)
    ensures ShapesDistinct(AddToCart(cart, product, option, newId))
  {
    var r := AddToCart(cart, product, option, newId);
    var k := MergeIndex(cart, product, option);
    if k >= 0 {
      forall i, j | 0 <= i < j < |r|
        ensures !SameShape(r[i], r[j].product, r[j].option)
      {
        assert SameShape(r[i], r[j].product, r[j].option) <==> SameShape(cart[i], cart[j].product, cart[j].option);
      }
    } else {
      forall i, j | 0 <= i < j < |r|
        ensures !SameShape(r[i], r[j].product, r[j].option)
      {
        if j == |cart| {
          assert !SameShape(cart[i], product, option);
        }
      }
    }
  }

  /** Two additions of the same shape, with quantities `q1` and `q2`, to a cart
      without that shape leave one line of quantity `q1 + q2`, priced for it. */
  lemma AddTwiceMerges(cart: seq<CartItem>, product: string, option: ProductOption, q1: int, q2: int, id1: string, id2: string)
    requires MergeIndex(cart, product, option) < 0
    ensures var r := AddToCart(AddToCart(cart, product, option.(quantity := q1), id1), product, option.(quantity := q2), id2);
      && |r| == |cart| + 1
      && r[..|cart|] == cart
      && r[|cart|] == CartItem(id1, product, GetPrice(product, option.(quantity := q1 + q2)), option.(quantity := q1 + q2))
  {
    var o1 := option.(quantity := q1);
    var o2 := option.(quantity := q2);
    var c1 := AddToCart(cart, product, o1, id1);
    assert MergeIndex(cart, product, o1) < 0;
    assert MergeIndex(c1, product, o2) == |cart| by {
      assert forall j :: 0 <= j < |cart| ==> c1[j] == cart[j];
      assert SameShape(c1[|cart|], product, o2);
      assert forall j :: 0 <= j < |cart| ==> !SameShape(cart[j], product, o2);
    }
  }

  /** Removing a line lowers the total by its price. */
  lemma RemoveFromCartTotal(cart: seq<CartItem>, itemId: string)
    requires exists j :: 0 <= j < |cart| && cart[j].id == itemId
    ensures var k := IdIndex(cart, itemId);
      0 <= k && Total(RemoveFromCart(cart, itemId)) == Total(cart) - cart[k].price
  {
    var k := IdIndex(cart, itemId);
    assert RemoveFromCart(cart, itemId) == cart[..k] + cart[k + 1..];
    SumOfRemoveAt(cart, k, (c: CartItem) => c.price);
  }
}
