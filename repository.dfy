/** The repository: the app's in-memory state and the operations that change
    it. Ids, the clock's readings and store contents come in as parameters. */
module Repository {
  import opened Wrappers
  import opened Model
  import opened Lists
  import opened Pricing
  import Cart
  import opened Vouchers
  import opened Checkout
  import opened Codec

  /** Points a voucher costs. */
  const VoucherCost := 300
  const DefaultPhone := "+1 (555) 123-4567"
  const DefaultLocation := "123 Coffee Street, Bean City"

  function RedeemableById(id: string): Redeemable -> bool {
    (r: Redeemable) => r.id == id
  }

  function CouponById(id: string): Coupon -> bool {
    (c: Coupon) => c.id == id
  }

  function OrderById(id: string): Order -> bool {
    (o: Order) => o.id == id
  }

  /** Every order of the list has status `st`. */
  ghost predicate AllStatus(orders: seq<Order>, st: OrderStatus) {
    forall j :: 0 <= j < |orders| ==> orders[j].status == st
  }

  /** Every cart line has a non-negative quantity and price. */
  ghost predicate CartLinesOk(cart: seq<CartItem>) {
    forall j :: 0 <= j < |cart| ==> cart[j].price >= 0.0 && cart[j].option.quantity >= 0
  }

  /** `list - order` after `find { it.id == id }` removes exactly the first
      order with the id, and keeps a list of one status of one status. */
  lemma FoundOrderRemoval(orders: seq<Order>, id: string, st: OrderStatus)
    ensures var found := Find(orders, OrderById(id));
      var k := IndexOfFirst(orders, OrderById(id));
      && (found.None? <==> k < 0)
      && (found.Some? ==>
            && 0 <= k && found.value == orders[k]
            && RemoveFirst(orders, found.value) == RemoveAt(orders, k)
            && (AllStatus(orders, st) ==> AllStatus(RemoveAt(orders, k), st)))
  {
    var k := IndexOfFirst(orders, OrderById(id));
    if 0 <= k {
      RemoveFirstAtFirstMatch(orders, OrderById(id), k);
    }
  }

  /** `cart - item` after `find { it.id == itemId }` is the cart without its
      first line with the id, and keeps the lines' quantities and prices
      non-negative. */
  lemma FoundLineRemoval(cart: seq<CartItem>, itemId: string)
    ensures var found := Find(cart, Cart.ById(itemId));
      && (found.None? <==> !exists j :: 0 <= j < |cart| && cart[j].id == itemId)
      && (found.Some? ==>
            && RemoveFirst(cart, found.value) == Cart.RemoveFromCart(cart, itemId)
            && (CartLinesOk(cart) ==> CartLinesOk(RemoveFirst(cart, found.value))))
  {
    var found := Find(cart, Cart.ById(itemId));
    if found.None? {
      assert forall j :: 0 <= j < |cart| ==> !Cart.ById(itemId)(cart[j]);
    } else {
      assert Cart.ById(itemId)(found.value);
      var k := Cart.IdIndex(cart, itemId);
      RemoveFirstAtFirstMatch(cart, Cart.ById(itemId), k);
      assert found.value == cart[k];
      assert RemoveFirst(cart, found.value) == RemoveAt(cart, k);
    }
  }

  /** A checkout appends only ONGOING orders, and with prices that are not
      negative and a discount of at most 100% earns no negative points, so
      it keeps the repository invariant with one stamp more and an empty
      cart. */
  lemma CheckoutKeepsInvariant(points: int, stamps: int, owned: seq<VoucherOwned>, lines: seq<CartItem>,
                               ongoing: seq<Order>, history: seq<Order>,
                               ids: nat -> string, now: string, clock: nat -> string, address: string, d: int, paymentMethod: Option<string>)
    requires Consistent(points, stamps, owned, lines, ongoing, history) && d <= 100
    ensures AllStatus(ongoing + Orders(lines, ids, now, address, d, paymentMethod), Ongoing)
    ensures SumPoints(Rewards(lines, ids, clock, d)) >= 0
    ensures Consistent(points + SumPoints(Rewards(lines, ids, clock, d)), StampAfterCheckout(stamps), owned, [],
                       ongoing + Orders(lines, ids, now, address, d, paymentMethod), history)
  {
    PointsNonNegative(lines, ids, clock, d);
    OrdersShape(lines, ids, now, address, d, paymentMethod);
    EmptyStateParts();
  }

  /** The empty collections satisfy each part of the repository invariant. */
  lemma EmptyStateParts()
    ensures AllPositive([]) && UniqueIds([]) && CartLinesOk([])
    ensures AllStatus([], Ongoing) && AllStatus([], Completed)
  {
    assert forall id :: Entries([], id) == 0;
  }

  /** The repository invariant, on the values of the fields it constrains:
      points never negative, stamps between 0 and 8, held vouchers of
      positive quantity with distinct ids, cart lines of non-negative quantity
      and price, and each order list holding only orders of its status. */
  ghost predicate Consistent(points: int, stamps: int, owned: seq<VoucherOwned>, cart: seq<CartItem>,
                             ongoing: seq<Order>, history: seq<Order>) {
    && points >= 0
    && 0 <= stamps <= 8
    && AllPositive(owned)
    && UniqueIds(owned)
    && CartLinesOk(cart)
    && AllStatus(ongoing, Ongoing)
    && AllStatus(history, Completed)
  }

  /** A voucher purchase paid from at least 300 points keeps the invariant and
      adds exactly one to the bought voucher's count. */
  lemma PurchaseKeepsConsistent(points: int, stamps: int, owned: seq<VoucherOwned>, cart: seq<CartItem>,
                                ongoing: seq<Order>, history: seq<Order>, c: Coupon)
    requires Consistent(points, stamps, owned, cart, ongoing, history) && points >= VoucherCost
    ensures Consistent(points - VoucherCost, stamps, OwnedAfterPurchase(owned, c), cart, ongoing, history)
    ensures Quantity(OwnedAfterPurchase(owned, c), c.id) == Quantity(owned, c.id) + 1
  {
    PurchaseKeepsUniqueIds(owned, c);
    PurchaseCounts(owned, c, c.id);
  }

  /** Moving an order: `find` the first order of `source` with the id, then
      `source - order` and `target + order` with its status set to `to`. The
      pair of new lists; both unchanged when no order has the id. */
  function MoveBetween(source: seq<Order>, target: seq<Order>, id: string, to: OrderStatus): (r: (seq<Order>, seq<Order>))
    ensures var k := IndexOfFirst(source, OrderById(id));
      && (k < 0 ==> r == (source, target))
      && (k >= 0 ==> k < |source| && r.0 == RemoveAt(source, k) && r.1 == target + [source[k].(status := to)])
    ensures |r.0| + |r.1| == |source| + |target|
  {
    FoundOrderRemoval(source, id, to);
    var found := Find(source, OrderById(id));
    if found.None? then (source, target)
    else (RemoveFirst(source, found.value), target + [found.value.(status := to)])
  }

  /** A move keeps a list of one status of that status, and the target list
      holds only orders of the status they are moved to. */
  lemma MoveKeepsStatus(source: seq<Order>, target: seq<Order>, id: string, from: OrderStatus, to: OrderStatus)
    requires AllStatus(source, from) && AllStatus(target, to)
    ensures AllStatus(MoveBetween(source, target, id, to).0, from)
    ensures AllStatus(MoveBetween(source, target, id, to).1, to)
  {
    FoundOrderRemoval(source, id, from);
  }

  function RedemptionReward(r: Redeemable, rewardId: string, now: string): PointReward {
    PointReward(rewardId, "Redeemed " + r.product, now, -r.pointsRequired)
  }

  /** The free order a redemption creates, delivered to `address`. */
  function RedemptionOrder(r: Redeemable, orderId: string, now: string, address: string): Order {
    Order(orderId, r.product, now, 0.0, address, RedeemOption, Some("Points Redemption"), 0, Ongoing)
  }

  /** The points entry a voucher purchase records. */
  function VoucherReward(c: Coupon, rewardId: string, now: string): PointReward {
    PointReward(rewardId, "Voucher " + c.labelText, now, -VoucherCost)
  }

  class MainRepository {
    var fullName: string
    /** The checkout default address: starts empty and nothing writes it. */
    var address: string
    var stampCount: int
    var points: int
    var pointsHistory: seq<PointReward>
    var redeemables: seq<Redeemable>
    var availableVouchers: seq<Coupon>
    var ownedVouchers: seq<VoucherOwned>
    var cart: seq<CartItem>
    var ongoingOrders: seq<Order>
    var historyOrders: seq<Order>
    var phoneNumber: string
    var email: string
    var deliveryLocation: string
    var photoUrl: Option<string>
    var coupons: seq<Coupon>
    var isLoggedIn: bool
    var rememberMe: bool

    /** What the local operations keep: points never negative, stamps
        between 0 and 8, held vouchers of positive quantity with distinct ids,
        cart lines of non-negative quantity and price, and each order list
        holding only orders of its status. */
    ghost predicate Valid()
      reads this
    {
      Consistent(points, stampCount, ownedVouchers, cart, ongoingOrders, historyOrders)
    }

    /** The state the app starts in. */
    constructor ()
      ensures fullName == "" && address == "" && email == ""
      ensures stampCount == 0 && points == 0 && pointsHistory == []
      ensures redeemables == [Redeemable("r1", "Americano", "31 Dec 2025", 2500), Redeemable("r2", "Latte", "31 Dec 2025", 3500)]
      ensures availableVouchers == [Coupon("v1", "5% off", 5), Coupon("v2", "10% off", 10)]
      ensures coupons == [Coupon("c1", "5% off", 5), Coupon("c2", "10% off", 10)]
      ensures ownedVouchers == [] && cart == [] && ongoingOrders == [] && historyOrders == []
      ensures phoneNumber == DefaultPhone && deliveryLocation == DefaultLocation && photoUrl == None
      ensures !isLoggedIn && !rememberMe
      ensures Valid()
    {
      fullName := "";
      address := "";
      stampCount := 0;
      points := 0;
      pointsHistory := [];
      redeemables := [Redeemable("r1", "Americano", "31 Dec 2025", 2500), Redeemable("r2", "Latte", "31 Dec 2025", 3500)];
      availableVouchers := [Coupon("v1", "5% off", 5), Coupon("v2", "10% off", 10)];
      ownedVouchers := [];
      cart := [];
      ongoingOrders := [];
      historyOrders := [];
      phoneNumber := DefaultPhone;
      email := "";
      deliveryLocation := DefaultLocation;
      photoUrl := None;
      coupons := [Coupon("c1", "5% off", 5), Coupon("c2", "10% off", 10)];
      isLoggedIn := false;
      rememberMe := false;
    }

    /** `resetStampCount`: back to 0, whatever the count. */
    method ResetStampCount()
      modifies this`stampCount
      ensures stampCount == 0
      ensures old(Valid()) ==> Valid()
    {
      stampCount := 0;
    }

    /** `addToCart`: merge into the line of the same shape, or append a line
        with id `newId`. */
    method AddToCart(product: string, option: ProductOption, newId: string)
      modifies this`cart
      ensures cart == Cart.AddToCart(old(cart), product, option, newId)
      ensures old(Valid()) && option.quantity >= 0 ==> Valid()
    {
      cart := Cart.AddToCart(cart, product, option, newId);
    }

    /** `removeFromCart`: false, with the cart unchanged, when no line has the
        id; otherwise the first line with the id is removed. */
    method RemoveFromCart(itemId: string) returns (ok: bool)
      modifies this`cart
      ensures ok <==> exists j :: 0 <= j < |old(cart)| && old(cart)[j].id == itemId
      ensures ok ==> cart == Cart.RemoveFromCart(old(cart), itemId)
      ensures !ok ==> cart == old(cart)
      ensures old(Valid()) ==> Valid()
    {
      var item := Find(cart, Cart.ById(itemId));
      FoundLineRemoval(cart, itemId);
      if item.None? {
        return false;
      }
      cart := RemoveFirst(cart, item.value);
      ok := true;
    }

    /** `redeemDrink`: with a known redeemable and enough points, the points
        drop by its cost, one negative points entry is recorded and one free
        ONGOING order to the delivery location is created; otherwise nothing
        changes. */
    method RedeemDrink(redeemableId: string, rewardId: string, orderId: string, now: string) returns (ok: bool)
      modifies this`points, this`pointsHistory, this`ongoingOrders
      ensures var found := Find(redeemables, RedeemableById(redeemableId));
        && (ok <==> found.Some? && old(points) >= found.value.pointsRequired)
        && (ok ==>
              && points == old(points) - found.value.pointsRequired
              && pointsHistory == old(pointsHistory) + [RedemptionReward(found.value, rewardId, now)]
              && ongoingOrders == old(ongoingOrders) + [RedemptionOrder(found.value, orderId, now, deliveryLocation)])
      ensures !ok ==> points == old(points) && pointsHistory == old(pointsHistory) && ongoingOrders == old(ongoingOrders)
      ensures old(Valid()) ==> Valid()
    {
      var r := Find(redeemables, RedeemableById(redeemableId));
      if r.None? || points < r.value.pointsRequired {
        return false;
      }
      points := points - r.value.pointsRequired;
      pointsHistory := pointsHistory + [RedemptionReward(r.value, rewardId, now)];
      ongoingOrders := ongoingOrders + [RedemptionOrder(r.value, orderId, now, deliveryLocation)];
      ok := true;
    }

    /** `purchaseVoucher`: with a known voucher and at least 300 points, the
        points drop by 300, the voucher's held count rises by one, the coupon
        list gains it if new, and one negative points entry is recorded;
        otherwise nothing changes. */
    method PurchaseVoucher(voucherId: string, rewardId: string, now: string) returns (ok: bool)
      modifies this`points, this`ownedVouchers, this`coupons, this`pointsHistory
      ensures var found := Find(availableVouchers, CouponById(voucherId));
        && (ok <==> found.Some? && old(points) >= VoucherCost)
        && (ok ==>
              && points == old(points) - VoucherCost
              && ownedVouchers == OwnedAfterPurchase(old(ownedVouchers), found.value)
              && coupons == CouponsAfterPurchase(old(coupons), found.value)
              && pointsHistory == old(pointsHistory) + [VoucherReward(found.value, rewardId, now)])
      ensures !ok ==> points == old(points) && ownedVouchers == old(ownedVouchers) && coupons == old(coupons) && pointsHistory == old(pointsHistory)
      ensures old(Valid()) ==> Valid()
      ensures old(Valid()) && ok ==> Quantity(ownedVouchers, voucherId) == old(Quantity(ownedVouchers, voucherId)) + 1
    {
      var v := Find(availableVouchers, CouponById(voucherId));
      if v.None? || points < VoucherCost {
        return false;
      }
      PayForVoucher(v.value, rewardId, now);
      ok := true;
    }

    /** The effects of a purchase the points cover: 300 points are spent, the
        voucher is added to the owned vouchers and the coupons, and the
        negative points entry is recorded. */
    method PayForVoucher(c: Coupon, rewardId: string, now: string)
      requires points >= VoucherCost
      modifies this`points, this`ownedVouchers, this`coupons, this`pointsHistory
      ensures points == old(points) - VoucherCost
      ensures ownedVouchers == OwnedAfterPurchase(old(ownedVouchers), c)
      ensures coupons == CouponsAfterPurchase(old(coupons), c)
      ensures pointsHistory == old(pointsHistory) + [VoucherReward(c, rewardId, now)]
      ensures old(Valid()) ==> Valid() && Quantity(ownedVouchers, c.id) == old(Quantity(ownedVouchers, c.id)) + 1
    {
      if Valid() {
        PurchaseKeepsConsistent(points, stampCount, ownedVouchers, cart, ongoingOrders, historyOrders, c);
      }
      points, ownedVouchers, coupons, pointsHistory :=
        points - VoucherCost, OwnedAfterPurchase(ownedVouchers, c), CouponsAfterPurchase(coupons, c),
        pointsHistory + [VoucherReward(c, rewardId, now)];
    }

    /** `useVoucher`: false, with nothing changed, when the voucher is not held
        or its first entry has quantity 0 or less; otherwise its count drops by
        one and entries that reach 0 are removed. */
    method UseVoucher(voucherId: string) returns (ok: bool)
      modifies this`ownedVouchers
      ensures var found := Find(old(ownedVouchers), OwnedById(voucherId));
        && (ok <==> found.Some? && found.value.quantity > 0)
        && (ok ==> ownedVouchers == OwnedAfterUse(old(ownedVouchers), voucherId))
      ensures !ok ==> ownedVouchers == old(ownedVouchers)
      ensures old(Valid()) ==> Valid()
      ensures old(Valid()) && ok ==> Quantity(ownedVouchers, voucherId) == old(Quantity(ownedVouchers, voucherId)) - 1
    {
      var v := Find(ownedVouchers, OwnedById(voucherId));
      if v.None? || v.value.quantity <= 0 {
        return false;
      }
      EntriesZero(ownedVouchers, voucherId);
      if Valid() {
        UseKeepsUniqueIds(ownedVouchers, voucherId);
        UseCounts(ownedVouchers, voucherId, voucherId);
      }
      ownedVouchers := OwnedAfterUse(ownedVouchers, voucherId);
      ok := true;
    }

    /** `addPoints`: earn one point per whole cent of `price` and record it. */
    method AddPoints(price: real, productName: string, rewardId: string, now: string)
      modifies this`points, this`pointsHistory
      ensures points == old(points) + PointsEarned(price)
      ensures pointsHistory == old(pointsHistory) + [PointReward(rewardId, productName, now, PointsEarned(price))]
    {
      var earned := PointsEarned(price);
      points := points + earned;
      pointsHistory := pointsHistory + [PointReward(rewardId, productName, now, earned)];
    }

    /** `checkOut`: false, with nothing changed, on an empty cart. Otherwise
        every line becomes an ONGOING order at the override address (or the
        default address) and earns points, one stamp is awarded up to 8, and
        the cart is emptied. The orders carry `checkOut`'s own datetime
        reading and each points entry the reading its `addPoints` takes. */
    method CheckOut(addressOverride: Option<string>, discountPercent: int, paymentMethod: Option<string>, clock: nat -> string, ids: nat -> string)
      returns (ok: bool)
      modifies this`cart, this`points, this`pointsHistory, this`stampCount, this`ongoingOrders
      ensures ok <==> old(cart) != []
      ensures !ok ==> cart == old(cart) && points == old(points) && pointsHistory == old(pointsHistory)
                      && stampCount == old(stampCount) && ongoingOrders == old(ongoingOrders)
      ensures ok ==>
        && ongoingOrders == old(ongoingOrders) + Orders(old(cart), ids, OrderTime(clock), addressOverride.GetOr(address), discountPercent, paymentMethod)
        && pointsHistory == old(pointsHistory) + Rewards(old(cart), ids, clock, discountPercent)
        && points == old(points) + SumPoints(Rewards(old(cart), ids, clock, discountPercent))
        && stampCount == StampAfterCheckout(old(stampCount))
        && cart == []
      ensures old(Valid()) && discountPercent <= 100 ==> Valid()
    {
      if cart == [] {
        return false;
      }
      var lines := cart;
      var addressToUse := addressOverride.GetOr(address);
      var now := OrderTime(clock);
      var orders := PlaceOrders(lines, addressToUse, discountPercent, paymentMethod, now, clock, ids);
      if old(Valid()) && discountPercent <= 100 {
        CheckoutKeepsInvariant(old(points), stampCount, ownedVouchers, lines, ongoingOrders, historyOrders,
                               ids, now, clock, addressToUse, discountPercent, paymentMethod);
      }
      stampCount, ongoingOrders, cart, ok := StampAfterCheckout(stampCount), ongoingOrders + orders, [], true;
    }

    /** The `map` over the cart lines inside `checkOut`: line `i` earns the
        points of its rounded discounted price (entry id `RewardId(ids, i)`)
        and becomes an order with id `OrderId(ids, i)`. */
    method PlaceOrders(lines: seq<CartItem>, addressToUse: string, discountPercent: int, paymentMethod: Option<string>, now: string, clock: nat -> string, ids: nat -> string)
      returns (orders: seq<Order>)
      modifies this`points, this`pointsHistory
      ensures orders == Orders(lines, ids, now, addressToUse, discountPercent, paymentMethod)
      ensures pointsHistory == old(pointsHistory) + Rewards(lines, ids, clock, discountPercent)
      ensures points == old(points) + SumPoints(Rewards(lines, ids, clock, discountPercent))
    {
      orders := [];
      var i := 0;
      while i < |lines|
        invariant 0 <= i <= |lines|
        invariant orders == Orders(lines[..i], ids, now, addressToUse, discountPercent, paymentMethod)
        invariant pointsHistory == old(pointsHistory) + Rewards(lines[..i], ids, clock, discountPercent)
        invariant points == old(points) + SumPoints(Rewards(lines[..i], ids, clock, discountPercent))
      {
        CheckoutStep(lines, i, ids, now, clock, addressToUse, discountPercent, paymentMethod);
        AppendAssociates(old(pointsHistory), Rewards(lines[..i], ids, clock, discountPercent),
                         [LineReward(lines[i], RewardId(ids, i), RewardTime(clock, i), discountPercent)]);
        var order := PlaceLine(lines[i], i, addressToUse, discountPercent, paymentMethod, now, clock, ids);
        orders, i := orders + [order], i + 1;
      }
      assert lines[..i] == lines;
    }

    /** One pass of that `map`: line `i` earns its points and becomes its
        order. */
    method PlaceLine(line: CartItem, i: nat, addressToUse: string, discountPercent: int, paymentMethod: Option<string>, now: string, clock: nat -> string, ids: nat -> string)
      returns (order: Order)
      modifies this`points, this`pointsHistory
      ensures order == LineOrder(line, OrderId(ids, i), now, addressToUse, discountPercent, paymentMethod)
      ensures pointsHistory == old(pointsHistory) + [LineReward(line, RewardId(ids, i), RewardTime(clock, i), discountPercent)]
      ensures points == old(points) + LineReward(line, RewardId(ids, i), RewardTime(clock, i), discountPercent).points
    {
      var rounded := LinePrice(line.price, discountPercent);
      AddPoints(rounded, line.product, RewardId(ids, i), RewardTime(clock, i));
      order := LineOrder(line, OrderId(ids, i), now, addressToUse, discountPercent, paymentMethod);
    }

    /** `moveToHistory`: the first ongoing order with the id leaves the ongoing
        list and joins the history as COMPLETED; an unknown id changes nothing. */
    method MoveToHistory(orderId: string)
      modifies this`ongoingOrders, this`historyOrders
      ensures (ongoingOrders, historyOrders) == MoveBetween(old(ongoingOrders), old(historyOrders), orderId, Completed)
      ensures old(Valid()) ==> Valid()
    {
      var moved := MoveBetween(ongoingOrders, historyOrders, orderId, Completed);
      if Valid() {
        MoveKeepsStatus(ongoingOrders, historyOrders, orderId, Ongoing, Completed);
      }
      ongoingOrders, historyOrders := moved.0, moved.1;
    }

    /** `moveToOngoing`: the first history order with the id leaves the history
        and joins the ongoing list as ONGOING; an unknown id changes nothing. */
    method MoveToOngoing(orderId: string)
      modifies this`ongoingOrders, this`historyOrders
      ensures (historyOrders, ongoingOrders) == MoveBetween(old(historyOrders), old(ongoingOrders), orderId, Ongoing)
      ensures old(Valid()) ==> Valid()
    {
      var moved := MoveBetween(historyOrders, ongoingOrders, orderId, Ongoing);
      if Valid() {
        MoveKeepsStatus(historyOrders, ongoingOrders, orderId, Completed, Ongoing);
      }
      historyOrders, ongoingOrders := moved.0, moved.1;
    }

    /** `removeHistoryOrder`: the first history order with the id is deleted;
        the ongoing list is never touched. */
    method RemoveHistoryOrder(orderId: string)
      modifies this`historyOrders
      ensures var k := IndexOfFirst(old(historyOrders), OrderById(orderId));
        && (k < 0 ==> historyOrders == old(historyOrders))
        && (k >= 0 ==> historyOrders == RemoveAt(old(historyOrders), k))
      ensures old(Valid()) ==> Valid()
    {
      var order := Find(historyOrders, OrderById(orderId));
      if order.None? {
        return;
      }
      FoundOrderRemoval(historyOrders, orderId, Completed);
      historyOrders := RemoveFirst(historyOrders, order.value);
    }

    /** The defaults a signed-in user without a stored document starts with:
        the account's display name and email, the mock contact details, and
        no stamps, points, history, vouchers, cart or orders. */
    method ResetForNewUser(displayName: Option<string>, accountEmail: Option<string>)
      modifies this`fullName, this`email, this`phoneNumber, this`deliveryLocation, this`photoUrl, this`stampCount,
               this`points, this`pointsHistory, this`ownedVouchers, this`cart, this`ongoingOrders, this`historyOrders
      ensures fullName == displayName.GetOr("") && email == accountEmail.GetOr("")
      ensures phoneNumber == DefaultPhone && deliveryLocation == DefaultLocation && photoUrl == None
      ensures stampCount == 0 && points == 0 && pointsHistory == [] && ownedVouchers == []
      ensures cart == [] && ongoingOrders == [] && historyOrders == []
      ensures Valid()
    {
      ResetProfile(displayName, accountEmail);
      ResetProgress();
    }

    /** The profile part of the new-user defaults. */
    method ResetProfile(displayName: Option<string>, accountEmail: Option<string>)
      modifies this`fullName, this`email, this`phoneNumber, this`deliveryLocation, this`photoUrl
      ensures fullName == displayName.GetOr("") && email == accountEmail.GetOr("")
      ensures phoneNumber == DefaultPhone && deliveryLocation == DefaultLocation && photoUrl == None
    {
      fullName := displayName.GetOr("");
      email := accountEmail.GetOr("");
      phoneNumber := DefaultPhone;
      deliveryLocation := DefaultLocation;
      photoUrl := None;
    }

    /** The progress part of the new-user defaults: nothing earned, held,
        ordered or in the cart. */
    method ResetProgress()
      modifies this`stampCount, this`points, this`pointsHistory, this`ownedVouchers, this`cart, this`ongoingOrders, this`historyOrders
      ensures stampCount == 0 && points == 0 && pointsHistory == [] && ownedVouchers == []
      ensures cart == [] && ongoingOrders == [] && historyOrders == []
      ensures Valid()
    {
      stampCount := 0;
      points := 0;
      pointsHistory := [];
      ownedVouchers := [];
      cart := [];
      ongoingOrders := [];
      historyOrders := [];
      EmptyStateParts();
    }

    /** `logout`'s local effects: the remember-me flag, cart, orders and
        stamps are cleared and the session ends; points, the points history
        and vouchers are kept. */
    method Logout()
      modifies this`rememberMe, this`cart, this`ongoingOrders, this`historyOrders, this`stampCount, this`isLoggedIn
      ensures !rememberMe && !isLoggedIn
      ensures cart == [] && ongoingOrders == [] && historyOrders == [] && stampCount == 0
      ensures old(Valid()) ==> Valid()
    {
      rememberMe := false;
      cart := [];
      ongoingOrders := [];
      historyOrders := [];
      stampCount := 0;
      isLoggedIn := false;
    }

    /** `updateUserInfo`'s local writes: each given value replaces its field. */
    method UpdateUserInfo(newFullName: Option<string>, newPhoneNumber: Option<string>, newEmail: Option<string>, newDeliveryLocation: Option<string>)
      modifies this`fullName, this`phoneNumber, this`email, this`deliveryLocation
      ensures fullName == newFullName.GetOr(old(fullName))
      ensures phoneNumber == newPhoneNumber.GetOr(old(phoneNumber))
      ensures email == newEmail.GetOr(old(email))
      ensures deliveryLocation == newDeliveryLocation.GetOr(old(deliveryLocation))
    {
      if newFullName.Some? { fullName := newFullName.value; }
      if newPhoneNumber.Some? { phoneNumber := newPhoneNumber.value; }
      if newEmail.Some? { email := newEmail.value; }
      if newDeliveryLocation.Some? { deliveryLocation := newDeliveryLocation.value; }
    }

    /** Takes over the fields read from the user document. */
    method ApplyUserDoc(fields: UserFields)
      modifies this`fullName, this`phoneNumber, this`deliveryLocation, this`photoUrl, this`stampCount, this`points
      ensures fullName == fields.fullName.GetOr(old(fullName))
      ensures phoneNumber == fields.phoneNumber.GetOr(old(phoneNumber))
      ensures deliveryLocation == fields.deliveryLocation.GetOr(old(deliveryLocation))
      ensures photoUrl == (if fields.photoUrl.Some? then fields.photoUrl else old(photoUrl))
      ensures stampCount == fields.stamps.GetOr(old(stampCount))
      ensures points == fields.points.GetOr(old(points))
    {
      fullName, phoneNumber, deliveryLocation :=
        fields.fullName.GetOr(fullName), fields.phoneNumber.GetOr(phoneNumber), fields.deliveryLocation.GetOr(deliveryLocation);
      photoUrl := if fields.photoUrl.Some? then fields.photoUrl else photoUrl;
      stampCount, points := fields.stamps.GetOr(stampCount), fields.points.GetOr(points);
    }

    /** `loadFromFirestore` when every read succeeds: with no user document the
        new-user defaults; otherwise the user document's fields, then (when no
        field of it had the wrong type) the points history, the held
        vouchers, the cart if it has a document, and the orders split by
        status. */
    method LoadFromStore(userDoc: Option<Doc>, displayName: Option<string>, accountEmail: Option<string>,
                         historyDocs: seq<Doc>, voucherDocs: seq<Doc>, cartDoc: Option<Doc>, orderDocs: seq<Doc>)
      modifies this`fullName, this`email, this`phoneNumber, this`deliveryLocation, this`photoUrl, this`stampCount,
               this`points, this`pointsHistory, this`ownedVouchers, this`cart, this`ongoingOrders, this`historyOrders
      ensures userDoc.None? ==>
        && fullName == displayName.GetOr("") && email == accountEmail.GetOr("")
        && phoneNumber == DefaultPhone && deliveryLocation == DefaultLocation && photoUrl == None
        && stampCount == 0 && points == 0 && pointsHistory == [] && ownedVouchers == []
        && cart == [] && ongoingOrders == [] && historyOrders == [] && Valid()
      ensures userDoc.Some? ==> var fields := DecodeUserDoc(userDoc.value);
        && fullName == fields.fullName.GetOr(old(fullName)) && email == old(email)
        && phoneNumber == fields.phoneNumber.GetOr(old(phoneNumber))
        && deliveryLocation == fields.deliveryLocation.GetOr(old(deliveryLocation))
        && photoUrl == (if fields.photoUrl.Some? then fields.photoUrl else old(photoUrl))
        && stampCount == fields.stamps.GetOr(old(stampCount))
        && points == fields.points.GetOr(old(points))
      ensures userDoc.Some? && DecodeUserDoc(userDoc.value).complete ==>
        && pointsHistory == LoadRewards(historyDocs)
        && ownedVouchers == LoadVouchers(voucherDocs)
        && cart == LoadCart(cartDoc, old(cart))
        && (ongoingOrders, historyOrders) == LoadOrders(orderDocs)
      ensures userDoc.Some? && !DecodeUserDoc(userDoc.value).complete ==>
        pointsHistory == old(pointsHistory) && ownedVouchers == old(ownedVouchers) && cart == old(cart)
        && ongoingOrders == old(ongoingOrders) && historyOrders == old(historyOrders)
      ensures userDoc.Some? && DecodeUserDoc(userDoc.value).complete ==>
        AllPositive(ownedVouchers) && AllStatus(ongoingOrders, Ongoing) && AllStatus(historyOrders, Completed)
    {
      if userDoc.None? {
        ResetForNewUser(displayName, accountEmail);
        return;
      }
      LoadExistingUser(DecodeUserDoc(userDoc.value), historyDocs, voucherDocs, cartDoc, orderDocs);
    }

    /** An existing user document: its fields, then the collections when no
        field threw. */
    method LoadExistingUser(fields: UserFields, historyDocs: seq<Doc>, voucherDocs: seq<Doc>, cartDoc: Option<Doc>, orderDocs: seq<Doc>)
      modifies this`fullName, this`phoneNumber, this`deliveryLocation, this`photoUrl, this`stampCount,
               this`points, this`pointsHistory, this`ownedVouchers, this`cart, this`ongoingOrders, this`historyOrders
      ensures && fullName == fields.fullName.GetOr(old(fullName))
              && phoneNumber == fields.phoneNumber.GetOr(old(phoneNumber))
              && deliveryLocation == fields.deliveryLocation.GetOr(old(deliveryLocation))
              && photoUrl == (if fields.photoUrl.Some? then fields.photoUrl else old(photoUrl))
              && stampCount == fields.stamps.GetOr(old(stampCount))
              && points == fields.points.GetOr(old(points))
      ensures fields.complete ==>
        && pointsHistory == LoadRewards(historyDocs)
        && ownedVouchers == LoadVouchers(voucherDocs)
        && cart == LoadCart(cartDoc, old(cart))
        && (ongoingOrders, historyOrders) == LoadOrders(orderDocs)
        && AllPositive(ownedVouchers) && AllStatus(ongoingOrders, Ongoing) && AllStatus(historyOrders, Completed)
      ensures !fields.complete ==>
        pointsHistory == old(pointsHistory) && ownedVouchers == old(ownedVouchers) && cart == old(cart)
        && ongoingOrders == old(ongoingOrders) && historyOrders == old(historyOrders)
    {
      ApplyUserDoc(fields);
      if fields.complete {
        LoadCollections(historyDocs, voucherDocs, cartDoc, orderDocs);
      }
    }

    /** The points history, held vouchers, cart and orders read from their
        collections. */
    method LoadCollections(historyDocs: seq<Doc>, voucherDocs: seq<Doc>, cartDoc: Option<Doc>, orderDocs: seq<Doc>)
      modifies this`pointsHistory, this`ownedVouchers, this`cart, this`ongoingOrders, this`historyOrders
      ensures pointsHistory == LoadRewards(historyDocs)
      ensures ownedVouchers == LoadVouchers(voucherDocs)
      ensures cart == LoadCart(cartDoc, old(cart))
      ensures (ongoingOrders, historyOrders) == LoadOrders(orderDocs)
      ensures AllPositive(ownedVouchers) && AllStatus(ongoingOrders, Ongoing) && AllStatus(historyOrders, Completed)
    {
      var split := LoadOrders(orderDocs);
      pointsHistory, ownedVouchers, cart, ongoingOrders, historyOrders :=
        LoadRewards(historyDocs), LoadVouchers(voucherDocs), LoadCart(cartDoc, cart), split.0, split.1;
    }
  }
}
