/** What one `checkOut` derives from the cart: one order and one points
    entry per line, the points earned, and the stamp award. */
module Checkout {
  import opened Wrappers
  import opened Model
  import opened Lists
  import opened Pricing

  /** The price an order is recorded with: the line price less `d` percent,
      rounded to cents. */
  function LinePrice(price: real, d: int): (r: real)
    ensures IsCents(r)
    ensures -0.005 <= r - Discounted(price, d) <= 0.005
    ensures price >= 0.0 && d <= 100 ==> r >= 0.0
  {
    if price >= 0.0 && d <= 100 then
      DiscountedNonNegative(price, d);
      Round2(Discounted(price, d))
    else
      Round2(Discounted(price, d))
  }

  /** `price * (1.0 - d / 100.0)`: the price less `d` percent, unrounded. */
  function Discounted(price: real, d: int): real {
    price * (1.0 - d as real / 100.0)
  }

  /** A discount of at most 100% leaves a non-negative price non-negative. */
  lemma DiscountedNonNegative(price: real, d: int)
    requires price >= 0.0 && d <= 100
    ensures Discounted(price, d) >= 0.0
  {
    var factor := 1.0 - d as real / 100.0;
    assert factor >= 0.0;
    assert price * factor >= 0.0 * factor;
  }

  /** `addPoints`: the points a payment of `price` earns, `(price * 100).toInt()`. */
  function PointsEarned(price: real): (n: int)
    ensures price >= 0.0 ==> n >= 0
    ensures price >= 0.0 ==> n as real <= price * 100.0 < n as real + 1.0
  {
    TruncToInt(price * 100.0)
  }

  /** A payment in whole cents earns exactly one point per cent. */
  lemma PointsOfCents(price: real)
    requires IsCents(price)
    ensures PointsEarned(price) as real == price * 100.0
  {
    var m := (price * 100.0).Floor;
    assert m as real == price * 100.0;
    if price * 100.0 < 0.0 {
      assert (-(price * 100.0)).Floor == -m;
    }
  }

  /** `addPoints` as written on `Double`s: `price * 100` is first rounded to
      the nearest `Double` (binade `e`), and only then truncated. */
  function DoublePointsEarned(price: real, e: int): (n: int)
    requires -1022 <= e <= 1023 && Pow2Real(e) <= price * 100.0 < Pow2Real(e + 1)
    ensures n >= 0
    ensures n as real <= RoundToDouble(price * 100.0, e) < n as real + 1.0
  {
    TruncToInt(RoundToDouble(price * 100.0, e))
  }

  /** As written, a small single cappuccino at 5% off earns 227 points, not
      228: its order price is the `Double` nearest 2.28, which times 100
      rounds to the `Double` 227.99999999999997, and `toInt` truncates that. */
  lemma WholeCentOrderLosesAPoint()
    ensures LinePrice(GetPrice("cappuccino", ProductOption(1, Single, Hot, Small, Full)), 5) == 2.28
    ensures PointsEarned(2.28) == 228
    ensures RoundToDouble(2.28, 1) == 5134103575202365.0 / 2251799813685248.0
    ensures DoublePointsEarned(5134103575202365.0 / 2251799813685248.0, 7) == 227
  {
    SmallCappuccinoPrice();
    assert Round2(Discounted(2.4, 5)) == 2.28 by {
      assert RoundHalfEven(228.0) == 228;
    }
    PointsOfCents(2.28);
    UlpValues();
    NearestDoubleOf228();
    PointsOfDouble228();
  }

  /** 2.28 lies in the binade [2, 4) and its nearest `Double` is just below it. */
  lemma NearestDoubleOf228()
    ensures Pow2Real(1) <= 2.28 < Pow2Real(2)
    ensures RoundToDouble(2.28, 1) == 5134103575202365.0 / 2251799813685248.0
  {
    UlpValues();
    assert 2.28 / Ulp(1) == 5134103575202365.44;
    assert RoundHalfEven(5134103575202365.44) == 5134103575202365;
  }

  /** That `Double` times 100 rounds to a `Double` just below 228. */
  lemma PointsOfDouble228()
    ensures Pow2Real(7) <= 5134103575202365.0 / 2251799813685248.0 * 100.0 < Pow2Real(8)
    ensures DoublePointsEarned(5134103575202365.0 / 2251799813685248.0, 7) == 227
  {
    UlpValues();
    var price := 5134103575202365.0 / 2251799813685248.0;
    assert price * 100.0 / Ulp(7) == 8022036836253695.3125;
    assert RoundHalfEven(8022036836253695.3125) == 8022036836253695;
    assert RoundToDouble(price * 100.0, 7) == 8022036836253695.0 / 35184372088832.0;
    assert TruncToInt(8022036836253695.0 / 35184372088832.0) == 227;
  }

  /** As written, a large single flat white costs 4.23, not 4.22: 3.25 times
      the `Double` nearest 1.3 is the `Double` 4.2250000000000005, which
      rounds to cents upwards, while the exact 4.225 is a tie that rounds to
      even. */
  lemma LargeFlatWhiteRoundsUp()
    ensures GetPrice("flat white", ProductOption(1, Single, Hot, Large, Full)) == 4.225
    ensures LinePrice(4.225, 0) == 4.22
    ensures Pow2Real(0) <= 1.3 < Pow2Real(1)
    ensures RoundToDouble(1.3, 0) == 5854679515581645.0 / 4503599627370496.0
    ensures Pow2Real(2) <= 3.25 * (5854679515581645.0 / 4503599627370496.0) < Pow2Real(3)
    ensures RoundToDouble(3.25 * (5854679515581645.0 / 4503599627370496.0), 2) == 4756927106410087.0 / 1125899906842624.0
    ensures Pow2Real(8) <= 4756927106410087.0 / 1125899906842624.0 * 100.0 < Pow2Real(9)
    ensures RoundHalfEven(RoundToDouble(4756927106410087.0 / 1125899906842624.0 * 100.0, 8)) == 423
  {
    LargeFlatWhitePrice();
    assert Round2(Discounted(4.225, 0)) == 4.22 by {
      assert RoundHalfEven(422.5) == 422;
    }
    NearestDoubleOf13();
    FlatWhiteDouble();
    FlatWhiteCents();
  }

  /** 1.3 lies in the binade [1, 2) and its nearest `Double` is just above it. */
  lemma NearestDoubleOf13()
    ensures Pow2Real(0) <= 1.3 < Pow2Real(1)
    ensures RoundToDouble(1.3, 0) == 5854679515581645.0 / 4503599627370496.0
  {
    UlpValues();
    assert 1.3 / Ulp(0) == 5854679515581644.8;
    assert RoundHalfEven(5854679515581644.8) == 5854679515581645;
  }

  /** 3.25 times that `Double` rounds to a `Double` just above 4.225. */
  lemma FlatWhiteDouble()
    ensures Pow2Real(2) <= 3.25 * (5854679515581645.0 / 4503599627370496.0) < Pow2Real(3)
    ensures RoundToDouble(3.25 * (5854679515581645.0 / 4503599627370496.0), 2) == 4756927106410087.0 / 1125899906842624.0
  {
    UlpValues();
    var factor := 5854679515581645.0 / 4503599627370496.0;
    assert 3.25 * factor / Ulp(2) == 4756927106410086.5625;
    assert RoundHalfEven(4756927106410086.5625) == 4756927106410087;
  }

  /** That `Double` times 100 is just above 422.5, so `round` gives 423. */
  lemma FlatWhiteCents()
    ensures Pow2Real(8) <= 4756927106410087.0 / 1125899906842624.0 * 100.0 < Pow2Real(9)
    ensures RoundHalfEven(RoundToDouble(4756927106410087.0 / 1125899906842624.0 * 100.0, 8)) == 423
  {
    UlpValues();
    var price := 4756927106410087.0 / 1125899906842624.0;
    assert price * 100.0 / Ulp(8) == 7432698603765760.9375;
    assert RoundHalfEven(7432698603765760.9375) == 7432698603765761;
    assert RoundToDouble(price * 100.0, 8) == 7432698603765761.0 / 17592186044416.0;
    assert RoundHalfEven(7432698603765761.0 / 17592186044416.0) == 423;
  }

  /** The stamp count after a checkout: one more, capped at 8; a count already
      at 8 or above becomes 8. */
  function StampAfterCheckout(stamps: int): (r: int)
    ensures r <= 8
    ensures stamps < 8 ==> r == stamps + 1
    ensures stamps >= 8 ==> r == 8
  {
    if stamps >= 8 then 8 else Min(stamps + 1, 8)
  }

  function Min(a: int, b: int): int {
    if a <= b then a else b
  }

  /** `n` checkouts from no stamps leave `min(n, 8)`. */
  lemma {:induction false} StampsAfterCheckouts(n: nat)
    ensures Iterate(n) == Min(n, 8)
  {
    if n > 0 {
      StampsAfterCheckouts(n - 1);
    }
  }

  /** The stamp count after `n` checkouts starting from 0. */
  function Iterate(n: nat): int {
    if n == 0 then 0 else StampAfterCheckout(Iterate(n - 1))
  }

  /** The order built from one cart line. */
  function LineOrder(item: CartItem, orderId: string, now: string, address: string, d: int, paymentMethod: Option<string>): Order {
    Order(orderId, item.product, now, LinePrice(item.price, d), address, item.option, paymentMethod, d, Ongoing)
  }

  /** The points entry `addPoints` records for one cart line, stamped with
      the datetime string `addPoints` reads itself. */
  function LineReward(item: CartItem, rewardId: string, datetime: string, d: int): PointReward {
    PointReward(rewardId, item.product, datetime, PointsEarned(LinePrice(item.price, d)))
  }

  /** The datetime strings a checkout reads, in the order it reads them:
      `checkOut` reads `clock(0)` once for all its orders, and `addPoints`
      reads `clock(i + 1)` anew for line `i`'s points entry. */
  function OrderTime(clock: nat -> string): string { clock(0) }
  function RewardTime(clock: nat -> string, i: nat): string { clock(i + 1) }

  /** The ids a checkout draws: line `i` takes `ids(2 * i)` for its points
      entry and `ids(2 * i + 1)` for its order. */
  function RewardId(ids: nat -> string, i: nat): string { ids(2 * i) }
  function OrderId(ids: nat -> string, i: nat): string { ids(2 * i + 1) }

  /** The orders a checkout appends, in cart order. */
  function Orders(cart: seq<CartItem>, ids: nat -> string, now: string, address: string, d: int, paymentMethod: Option<string>): (r: seq<Order>)
    ensures |r| == |cart|
  {
    if cart == [] then []
    else
      var n := |cart| - 1;
      Orders(cart[..n], ids, now, address, d, paymentMethod) + [LineOrder(cart[n], OrderId(ids, n), now, address, d, paymentMethod)]
  }

  /** The points entries a checkout appends, in cart order. */
  function Rewards(cart: seq<CartItem>, ids: nat -> string, clock: nat -> string, d: int): (r: seq<PointReward>)
    ensures |r| == |cart|
  {
    if cart == [] then []
    else
      var n := |cart| - 1;
      Rewards(cart[..n], ids, clock, d) + [LineReward(cart[n], RewardId(ids, n), RewardTime(clock, n), d)]
  }

  /** The sum of the points of some entries. */
  function SumPoints(rewards: seq<PointReward>): int {
    if rewards == [] then 0 else SumPoints(rewards[..|rewards| - 1]) + rewards[|rewards| - 1].points
  }

  /** One more cart line extends the orders, the points entries and their
      sum by that line's order and entry. */
  lemma CheckoutStep(lines: seq<CartItem>, i: nat, ids: nat -> string, now: string, clock: nat -> string, address: string, d: int, paymentMethod: Option<string>)
    requires i < |lines|
    ensures Orders(lines[..i + 1], ids, now, address, d, paymentMethod)
      == Orders(lines[..i], ids, now, address, d, paymentMethod) + [LineOrder(lines[i], OrderId(ids, i), now, address, d, paymentMethod)]
    ensures Rewards(lines[..i + 1], ids, clock, d) == Rewards(lines[..i], ids, clock, d) + [LineReward(lines[i], RewardId(ids, i), RewardTime(clock, i), d)]
    ensures SumPoints(Rewards(lines[..i + 1], ids, clock, d))
      == SumPoints(Rewards(lines[..i], ids, clock, d)) + LineReward(lines[i], RewardId(ids, i), RewardTime(clock, i), d).points
  {
    assert lines[..i + 1][..i] == lines[..i];
    var rs := Rewards(lines[..i + 1], ids, clock, d);
    assert rs[..|rs| - 1] == Rewards(lines[..i], ids, clock, d);
  }

  /** The sum of the prices of some orders. */
  function OrdersTotal(orders: seq<Order>): real {
    SumOf(orders, (o: Order) => o.price)
  }

  /** The sum of the prices of the cart lines (the payment screen's subtotal). */
  function Subtotal(cart: seq<CartItem>): (r: real)
    ensures cart == [] ==> r == 0.0
    ensures (forall j :: 0 <= j < |cart| ==> cart[j].price >= 0.0) ==> r >= 0.0
  {
    var total := SumOf(cart, (c: CartItem) => c.price);
    if forall j :: 0 <= j < |cart| ==> cart[j].price >= 0.0 then
      SumOfNonNegative(cart, (c: CartItem) => c.price);
      total
    else total
  }

  /** N cart lines become N orders in cart order: line `i` gives the order with
      the line's product and option, its discounted price, the coupon percent,
      the shared datetime string, the address and payment method, the i-th
      order id and status ONGOING. */
  lemma {:induction false} OrdersShape(cart: seq<CartItem>, ids: nat -> string, now: string, address: string, d: int, paymentMethod: Option<string>)
    ensures var r := Orders(cart, ids, now, address, d, paymentMethod);
      && |r| == |cart|
      && forall i :: 0 <= i < |cart| ==> r[i] == LineOrder(cart[i], OrderId(ids, i), now, address, d, paymentMethod)
  {
    if cart != [] {
      var n := |cart| - 1;
      OrdersShape(cart[..n], ids, now, address, d, paymentMethod);
    }
  }

  /** Every order a checkout creates is ONGOING and priced in whole cents. */
  lemma OrdersOngoing(cart: seq<CartItem>, ids: nat -> string, now: string, address: string, d: int, paymentMethod: Option<string>)
    ensures forall o :: o in Orders(cart, ids, now, address, d, paymentMethod) ==> o.status == Ongoing && IsCents(o.price) && o.couponPercent == d
  {
    OrdersShape(cart, ids, now, address, d, paymentMethod);
  }

  /** N cart lines give N points entries, line `i` earning the points of its
      discounted price. */
  lemma {:induction false} RewardsShape(cart: seq<CartItem>, ids: nat -> string, clock: nat -> string, d: int)
    ensures var r := Rewards(cart, ids, clock, d);
      && |r| == |cart|
      && forall i :: 0 <= i < |cart| ==> r[i] == LineReward(cart[i], RewardId(ids, i), RewardTime(clock, i), d)
  {
    if cart != [] {
      var n := |cart| - 1;
      RewardsShape(cart[..n], ids, clock, d);
    }
  }

  /** The points a checkout earns are one per cent of the total of the orders
      it creates. */
  lemma {:induction false} PointsAreCentsOfOrders(cart: seq<CartItem>, ids: nat -> string, now: string, clock: nat -> string, address: string, d: int, paymentMethod: Option<string>)
    ensures SumPoints(Rewards(cart, ids, clock, d)) as real == 100.0 * OrdersTotal(Orders(cart, ids, now, address, d, paymentMethod))
  {
    if cart != [] {
      var n := |cart| - 1;
      var os := Orders(cart, ids, now, address, d, paymentMethod);
      var rs := Rewards(cart, ids, clock, d);
      PointsAreCentsOfOrders(cart[..n], ids, now, clock, address, d, paymentMethod);
      PointsOfCents(LinePrice(cart[n].price, d));
      assert rs[..|rs| - 1] == Rewards(cart[..n], ids, clock, d);
      assert os[..|os| - 1] == Orders(cart[..n], ids, now, address, d, paymentMethod);
    }
  }

  /** With non-negative line prices and a percent of at most 100, a checkout
      never takes points away. */
  lemma {:induction false} PointsNonNegative(cart: seq<CartItem>, ids: nat -> string, clock: nat -> string, d: int)
    requires forall j :: 0 <= j < |cart| ==> cart[j].price >= 0.0
    requires d <= 100
    ensures SumPoints(Rewards(cart, ids, clock, d)) >= 0
    ensures forall r :: r in Rewards(cart, ids, clock, d) ==> r.points >= 0
  {
    if cart != [] {
      var n := |cart| - 1;
      PointsNonNegative(cart[..n], ids, clock, d);
      var rs := Rewards(cart, ids, clock, d);
      assert rs[..|rs| - 1] == Rewards(cart[..n], ids, clock, d);
    }
  }

  /** The sum of the unrounded discounted line prices. */
  function DiscountedSubtotal(cart: seq<CartItem>, d: int): real {
    SumOf(cart, (c: CartItem) => Discounted(c.price, d))
  }

  /** The orders' total is the sum of the unrounded discounted line prices up
      to half a cent per line. */
  lemma {:induction false} OrdersTotalNearDiscounted(cart: seq<CartItem>, ids: nat -> string, now: string, address: string, d: int, paymentMethod: Option<string>)
    ensures var diff := OrdersTotal(Orders(cart, ids, now, address, d, paymentMethod)) - DiscountedSubtotal(cart, d);
      -0.005 * |cart| as real <= diff <= 0.005 * |cart| as real
  {
    if cart != [] {
      var n := |cart| - 1;
      OrdersTotalNearDiscounted(cart[..n], ids, now, address, d, paymentMethod);
      TotalsStep(cart, ids, now, address, d, paymentMethod);
    }
  }

  /** Discounting each line is discounting the subtotal. */
  lemma {:induction false} DiscountedSubtotalIsDiscount(cart: seq<CartItem>, d: int)
    ensures DiscountedSubtotal(cart, d) == Discounted(Subtotal(cart), d)
  {
    if cart != [] {
      var n := |cart| - 1;
      DiscountedSubtotalIsDiscount(cart[..n], d);
      assert cart[..|cart| - 1] == cart[..n];
      var k := 1.0 - d as real / 100.0;
      assert (Subtotal(cart[..n]) + cart[n].price) * k == Subtotal(cart[..n]) * k + cart[n].price * k;
    }
  }

  /** The orders' total is the discounted subtotal (what the payment screen
      shows) up to half a cent per line. */
  lemma OrdersTotalNearDiscountedSubtotal(cart: seq<CartItem>, ids: nat -> string, now: string, address: string, d: int, paymentMethod: Option<string>)
    ensures var diff := OrdersTotal(Orders(cart, ids, now, address, d, paymentMethod)) - Discounted(Subtotal(cart), d);
      -0.005 * |cart| as real <= diff <= 0.005 * |cart| as real
  {
    OrdersTotalNearDiscounted(cart, ids, now, address, d, paymentMethod);
    DiscountedSubtotalIsDiscount(cart, d);
  }

  /** Both totals grow by the last line's part. */
  lemma TotalsStep(cart: seq<CartItem>, ids: nat -> string, now: string, address: string, d: int, paymentMethod: Option<string>)
    requires cart != []
    ensures var n := |cart| - 1;
      && OrdersTotal(Orders(cart, ids, now, address, d, paymentMethod))
         == OrdersTotal(Orders(cart[..n], ids, now, address, d, paymentMethod)) + LinePrice(cart[n].price, d)
      && Subtotal(cart) == Subtotal(cart[..n]) + cart[n].price
      && DiscountedSubtotal(cart, d) == DiscountedSubtotal(cart[..n], d) + Discounted(cart[n].price, d)
  {
    var n := |cart| - 1;
    var os := Orders(cart, ids, now, address, d, paymentMethod);
    assert os[..|os| - 1] == Orders(cart[..n], ids, now, address, d, paymentMethod);
  }
}
