/** The payment screen's state: a delivery address that can be edited without
    touching the repository, a payment method, and an optional selected
    voucher whose percentage discounts the checkout. */
module Payment {
  import opened Wrappers
  import opened Model
  import opened Lists
  import opened Vouchers
  import opened Checkout
  import opened Repository

  datatype PaymentMethod = Visa | Cash {
    function Name(): string {
      match this
      case Visa => "VISA"
      case Cash => "CASH"
    }
  }

  /** The discount percent of the selected voucher: its `percentOff` when the
      first owned entry with that id has a positive quantity, else 0 (also
      when nothing is selected). */
  function CouponPercent(owned: seq<VoucherOwned>, couponId: Option<string>): (p: int)
    ensures couponId.None? ==> p == 0
    ensures p != 0 ==> couponId.Some? && exists j :: 0 <= j < |owned| && owned[j].voucherId == couponId.value
                                                   && owned[j].quantity > 0 && owned[j].percentOff == p
  {
    if couponId.Some? then
      var voucher := Find(owned, OwnedById(couponId.value));
      if voucher.Some? && voucher.value.quantity > 0 then voucher.value.percentOff else 0
    else 0
  }

  /** The price shown before paying: the subtotal less the coupon's percent. */
  function FinalPrice(cart: seq<CartItem>, owned: seq<VoucherOwned>, couponId: Option<string>): (p: real)
    ensures CouponPercent(owned, couponId) == 0 ==> p == Subtotal(cart)
    ensures (forall j :: 0 <= j < |cart| ==> cart[j].price >= 0.0) && 0 <= CouponPercent(owned, couponId) <= 100
            ==> 0.0 <= p <= Subtotal(cart)
  {
    var sub := Subtotal(cart);
    var percent := CouponPercent(owned, couponId);
    if sub >= 0.0 && 0 <= percent <= 100 then
      var factor := 1.0 - percent as real / 100.0;
      assert 0.0 <= factor <= 1.0;
      assert 0.0 <= sub * factor <= sub;
      Discounted(sub, percent)
    else Discounted(sub, percent)
  }

  /** With held vouchers of distinct ids, the selected voucher's percent is
      the `percentOff` of the entry with that id, and 0 when none has it. */
  lemma CouponPercentOfHeld(owned: seq<VoucherOwned>, id: string)
    requires AllPositive(owned) && UniqueIds(owned)
    ensures Entries(owned, id) == 0 ==> CouponPercent(owned, Some(id)) == 0
    ensures forall j :: 0 <= j < |owned| && owned[j].voucherId == id ==> CouponPercent(owned, Some(id)) == owned[j].percentOff
  {
    EntriesZero(owned, id);
    forall j | 0 <= j < |owned| && owned[j].voucherId == id
      ensures CouponPercent(owned, Some(id)) == owned[j].percentOff
    {
      var k := IndexOfFirst(owned, OwnedById(id));
      assert OwnedById(id)(owned[j]);
      OneEntryPerId(owned, id, k, j);
    }
  }

  /** The shown final price and the total of the orders a checkout with the
      same cart and voucher creates differ by at most half a cent per line,
      the rounding of each order's price. */
  lemma FinalPriceMatchesOrders(cart: seq<CartItem>, owned: seq<VoucherOwned>, couponId: Option<string>,
                                ids: nat -> string, now: string, address: string, paymentMethod: Option<string>)
    ensures var d := CouponPercent(owned, couponId);
      var diff := OrdersTotal(Orders(cart, ids, now, address, d, paymentMethod)) - FinalPrice(cart, owned, couponId);
      -0.005 * |cart| as real <= diff <= 0.005 * |cart| as real
  {
    OrdersTotalNearDiscountedSubtotal(cart, ids, now, address, CouponPercent(owned, couponId), paymentMethod);
  }

  class PaymentViewModel {
    const repo: MainRepository
    /** The editable delivery address; edits never reach the repository. */
    var tempAddress: string
    var selectedPaymentMethod: PaymentMethod
    var selectedCouponId: Option<string>

    constructor (repository: MainRepository)
      ensures repo == repository
      ensures tempAddress == repository.deliveryLocation
      ensures selectedPaymentMethod == Cash && selectedCouponId == None
    {
      repo := repository;
      tempAddress := repository.deliveryLocation;
      selectedPaymentMethod := Cash;
      selectedCouponId := None;
    }

    /** `confirmPayment`: consumes the selected voucher once when its percent
        is positive, whatever the checkout then does, and returns the result
        of checking out at the edited address with that percent and the
        method's name. */
    method ConfirmPayment(clock: nat -> string, ids: nat -> string) returns (ok: bool)
      modifies repo`ownedVouchers, repo`cart, repo`points, repo`pointsHistory, repo`stampCount, repo`ongoingOrders
      ensures var d := CouponPercent(old(repo.ownedVouchers), selectedCouponId);
        && repo.ownedVouchers == (if d > 0 then OwnedAfterUse(old(repo.ownedVouchers), selectedCouponId.value) else old(repo.ownedVouchers))
        && (ok <==> old(repo.cart) != [])
        && (!ok ==> repo.cart == old(repo.cart) && repo.points == old(repo.points) && repo.pointsHistory == old(repo.pointsHistory)
                    && repo.stampCount == old(repo.stampCount) && repo.ongoingOrders == old(repo.ongoingOrders))
        && (ok ==>
              && repo.ongoingOrders == old(repo.ongoingOrders) + Orders(old(repo.cart), ids, OrderTime(clock), tempAddress, d, Some(selectedPaymentMethod.Name()))
              && repo.pointsHistory == old(repo.pointsHistory) + Rewards(old(repo.cart), ids, clock, d)
              && repo.points == old(repo.points) + SumPoints(Rewards(old(repo.cart), ids, clock, d))
              && repo.stampCount == StampAfterCheckout(old(repo.stampCount))
              && repo.cart == [])
      ensures old(repo.Valid()) && CouponPercent(old(repo.ownedVouchers), selectedCouponId) <= 100 ==> repo.Valid()
    {
      var couponPercent := CouponPercent(repo.ownedVouchers, selectedCouponId);
      if selectedCouponId.Some? && couponPercent > 0 {
        var used := repo.UseVoucher(selectedCouponId.value);
        assert used;
      }
      ok := repo.CheckOut(Some(tempAddress), couponPercent, Some(selectedPaymentMethod.Name()), clock, ids);
    }
  }
}
