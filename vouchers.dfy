/** The voucher economy as values: owned-voucher counts after a purchase or a
    use, and the coupon list after a purchase. */
module Vouchers {
  import opened Model
  import opened Lists

  /** An entry still held: `it.quantity > 0`. */
  predicate IsHeld(v: VoucherOwned) {
    v.quantity > 0
  }

  /** `filter { it.quantity > 0 }` on owned vouchers. */
  function PositiveOnly(owned: seq<VoucherOwned>): seq<VoucherOwned> {
    Filter(owned, IsHeld)
  }

  /** The test `it.voucherId == id`. */
  function OwnedById(id: string): VoucherOwned -> bool {
    (v: VoucherOwned) => v.voucherId == id
  }

  /** Every entry with id `id` has its quantity raised by one. */
  function IncrementMatching(owned: seq<VoucherOwned>, id: string): seq<VoucherOwned> {
    if owned == [] then []
    else
      var v := owned[0];
      [if v.voucherId == id then v.(quantity := v.quantity + 1) else v] + IncrementMatching(owned[1..], id)
  }

  /** Every entry with id `id` has its quantity lowered by one. */
  function DecrementMatching(owned: seq<VoucherOwned>, id: string): (r: seq<VoucherOwned>)
    ensures |r| == |owned|
  {
    if owned == [] then []
    else
      var v := owned[0];
      [if v.voucherId == id then v.(quantity := v.quantity - 1) else v] + DecrementMatching(owned[1..], id)
  }

  /** The owned vouchers after `purchaseVoucher(c.id)` succeeds. */
  function OwnedAfterPurchase(owned: seq<VoucherOwned>, c: Coupon): (r: seq<VoucherOwned>)
    ensures AllPositive(r)
    ensures |r| <= |owned| + 1
  {
    var cleaned := PositiveOnly(owned);
    IncrementMatchingCounts(cleaned, c.id, c.id);
    if Find(cleaned, OwnedById(c.id)).Some? then IncrementMatching(cleaned, c.id)
    else cleaned + [VoucherOwned(c.id, c.labelText, c.percentOff, 1)]
  }

  /** The owned vouchers after `useVoucher(id)` succeeds. */
  function OwnedAfterUse(owned: seq<VoucherOwned>, id: string): (r: seq<VoucherOwned>)
    ensures AllPositive(r)
    ensures |r| <= |owned|
  {
    PositiveOnly(DecrementMatching(owned, id))
  }

  /** The coupon list after a purchase of `c`: appended only when its id is new. */
  function CouponsAfterPurchase(coupons: seq<Coupon>, c: Coupon): (r: seq<Coupon>)
    ensures |coupons| <= |r| <= |coupons| + 1
    ensures r[..|coupons|] == coupons
    ensures exists j :: 0 <= j < |r| && r[j].id == c.id
    ensures (exists j :: 0 <= j < |coupons| && coupons[j].id == c.id) <==> r == coupons
  {
    if exists j :: 0 <= j < |coupons| && coupons[j].id == c.id then coupons
    else
      var r := coupons + [c];
      assert r[|coupons|] == c;
      r
  }

  /** Buying the same voucher again does not grow the coupon list. */
  lemma CouponsAfterPurchaseIdempotent(coupons: seq<Coupon>, c: Coupon)
    ensures CouponsAfterPurchase(CouponsAfterPurchase(coupons, c), c) == CouponsAfterPurchase(coupons, c)
  {
    var r := CouponsAfterPurchase(coupons, c);
    assert r[|r| - 1].id == c.id || exists j :: 0 <= j < |coupons| && coupons[j].id == c.id;
  }

  /** How many of voucher `id` are held: the sum over its entries. */
  function Quantity(owned: seq<VoucherOwned>, id: string): int {
    if owned == [] then 0
    else (if owned[0].voucherId == id then owned[0].quantity else 0) + Quantity(owned[1..], id)
  }

  /** How many entries have id `id`. */
  function Entries(owned: seq<VoucherOwned>, id: string): nat {
    if owned == [] then 0
    else (if owned[0].voucherId == id then 1 else 0) + Entries(owned[1..], id)
  }

  ghost predicate AllPositive(owned: seq<VoucherOwned>) {
    forall j :: 0 <= j < |owned| ==> owned[j].quantity > 0
  }

  ghost predicate AllNonNegative(owned: seq<VoucherOwned>) {
    forall j :: 0 <= j < |owned| ==> owned[j].quantity >= 0
  }

  /** No voucher id appears in two entries. */
  ghost predicate UniqueIds(owned: seq<VoucherOwned>) {
    forall id :: Entries(owned, id) <= 1
  }

  /** Dropping entries of non-positive quantity, when none is negative, keeps
      every held count and never adds an entry. */
  lemma {:induction false} PositiveOnlyCounts(owned: seq<VoucherOwned>, id: string)
    requires AllNonNegative(owned)
    ensures Quantity(PositiveOnly(owned), id) == Quantity(owned, id)
    ensures Entries(PositiveOnly(owned), id) <= Entries(owned, id)
    ensures AllPositive(PositiveOnly(owned))
  {
    if owned != [] {
      PositiveOnlyCounts(owned[1..], id);
      assert PositiveOnly(owned) == (if IsHeld(owned[0]) then [owned[0]] else []) + PositiveOnly(owned[1..]);
      var rest := PositiveOnly(owned[1..]);
      if IsHeld(owned[0]) {
        assert ([owned[0]] + rest)[1..] == rest;
      } else {
        assert [] + rest == rest;
      }
    }
  }

  /** Raising the count of `id` adds one per entry of `id` and leaves the
      entries in place. */
  lemma {:induction false} IncrementMatchingCounts(owned: seq<VoucherOwned>, id: string, x: string)
    ensures |IncrementMatching(owned, id)| == |owned|
    ensures Quantity(IncrementMatching(owned, id), x) == Quantity(owned, x) + (if x == id then Entries(owned, id) else 0)
    ensures Entries(IncrementMatching(owned, id), x) == Entries(owned, x)
    ensures AllPositive(owned) ==> AllPositive(IncrementMatching(owned, id))
  {
    if owned != [] {
      IncrementMatchingCounts(owned[1..], id, x);
      var r := IncrementMatching(owned, id);
      assert r[1..] == IncrementMatching(owned[1..], id);
    }
  }

  /** Lowering the count of `id` removes one per entry of `id`. */
  lemma {:induction false} DecrementMatchingCounts(owned: seq<VoucherOwned>, id: string, x: string)
    ensures Quantity(DecrementMatching(owned, id), x) == Quantity(owned, x) - (if x == id then Entries(owned, id) else 0)
    ensures AllPositive(owned) ==> AllNonNegative(DecrementMatching(owned, id))
  {
    if owned != [] {
      DecrementMatchingCounts(owned[1..], id, x);
      var r := DecrementMatching(owned, id);
      assert r[1..] == DecrementMatching(owned[1..], id);
    }
  }

  lemma {:induction false} CountsAppend(owned: seq<VoucherOwned>, v: VoucherOwned, x: string)
    ensures Quantity(owned + [v], x) == Quantity(owned, x) + (if v.voucherId == x then v.quantity else 0)
    ensures Entries(owned + [v], x) == Entries(owned, x) + (if v.voucherId == x then 1 else 0)
  {
    if owned != [] {
      assert (owned + [v])[1..] == owned[1..] + [v];
      CountsAppend(owned[1..], v, x);
    } else {
      assert [] + [v] == [v];
    }
  }

  /** No entry has id `id` exactly when `find` by that id fails. */
  lemma {:induction false} EntriesZero(owned: seq<VoucherOwned>, id: string)
    ensures Entries(owned, id) == 0 <==> Find(owned, OwnedById(id)).None?
  {
    if owned != [] {
      EntriesZero(owned[1..], id);
      if owned[0].voucherId != id {
        forall j | 1 <= j < |owned| ensures owned[j] == owned[1..][j - 1] { }
      }
    }
  }

  /** A purchase raises the held count of the bought voucher by exactly one,
      leaves every other count alone, keeps the ids unique and leaves no entry
      of quantity zero. */
  lemma PurchaseCounts(owned: seq<VoucherOwned>, c: Coupon, x: string)
    requires AllNonNegative(owned) && UniqueIds(owned)
    ensures Quantity(OwnedAfterPurchase(owned, c), x) == Quantity(owned, x) + (if x == c.id then 1 else 0)
    ensures Entries(OwnedAfterPurchase(owned, c), x) <= 1
    ensures AllPositive(OwnedAfterPurchase(owned, c))
  {
    var cleaned := PositiveOnly(owned);
    PositiveOnlyCounts(owned, x);
    PositiveOnlyCounts(owned, c.id);
    assert Entries(owned, x) <= 1;
    EntriesZero(cleaned, c.id);
    if Find(cleaned, OwnedById(c.id)).Some? {
      IncrementMatchingCounts(cleaned, c.id, x);
    } else {
      CountsAppend(cleaned, VoucherOwned(c.id, c.labelText, c.percentOff, 1), x);
      var r := cleaned + [VoucherOwned(c.id, c.labelText, c.percentOff, 1)];
      assert forall j :: 0 <= j < |r| ==> r[j].quantity > 0 by {
        assert forall j :: 0 <= j < |cleaned| ==> r[j] == cleaned[j];
      }
    }
  }

  lemma PurchaseKeepsUniqueIds(owned: seq<VoucherOwned>, c: Coupon)
    requires AllNonNegative(owned) && UniqueIds(owned)
    ensures UniqueIds(OwnedAfterPurchase(owned, c)) && AllPositive(OwnedAfterPurchase(owned, c))
  {
    forall x ensures Entries(OwnedAfterPurchase(owned, c), x) <= 1 {
      PurchaseCounts(owned, c, x);
    }
    PurchaseCounts(owned, c, c.id);
  }

  /** A use of a held voucher lowers its count by exactly one, leaves every
      other count alone, keeps the ids unique and leaves no entry of quantity
      zero. */
  lemma UseCounts(owned: seq<VoucherOwned>, id: string, x: string)
    requires AllPositive(owned) && UniqueIds(owned)
    requires Entries(owned, id) > 0
    ensures Quantity(OwnedAfterUse(owned, id), x) == Quantity(owned, x) - (if x == id then 1 else 0)
    ensures Entries(OwnedAfterUse(owned, id), x) <= 1
    ensures AllPositive(OwnedAfterUse(owned, id))
  {
    assert Entries(owned, id) == 1;
    assert Entries(owned, x) <= 1;
    DecrementMatchingCounts(owned, id, x);
    DecrementEntries(owned, id, x);
    PositiveOnlyCounts(DecrementMatching(owned, id), x);
  }

  lemma {:induction false} DecrementEntries(owned: seq<VoucherOwned>, id: string, x: string)
    ensures Entries(DecrementMatching(owned, id), x) == Entries(owned, x)
  {
    if owned != [] {
      DecrementEntries(owned[1..], id, x);
      var r := DecrementMatching(owned, id);
      assert r[1..] == DecrementMatching(owned[1..], id);
    }
  }

  lemma UseKeepsUniqueIds(owned: seq<VoucherOwned>, id: string)
    requires AllPositive(owned) && UniqueIds(owned)
    requires Entries(owned, id) > 0
    ensures UniqueIds(OwnedAfterUse(owned, id)) && AllPositive(OwnedAfterUse(owned, id))
  {
    forall x ensures Entries(OwnedAfterUse(owned, id), x) <= 1 {
      UseCounts(owned, id, x);
    }
    UseCounts(owned, id, id);
  }

  /** Two entries with the same id in a list holding at most one such entry
      are the same entry. */
  lemma {:induction false} OneEntryPerId(owned: seq<VoucherOwned>, id: string, i: nat, j: nat)
    requires Entries(owned, id) <= 1
    requires i < |owned| && j < |owned| && owned[i].voucherId == id && owned[j].voucherId == id
    ensures i == j
  {
    if i != 0 && j != 0 {
      OneEntryPerId(owned[1..], id, i - 1, j - 1);
    } else if i != 0 {
      EntriesAtLeastOne(owned[1..], id, i - 1);
    } else if j != 0 {
      EntriesAtLeastOne(owned[1..], id, j - 1);
    }
  }

  lemma {:induction false} EntriesAtLeastOne(owned: seq<VoucherOwned>, id: string, i: nat)
    requires i < |owned| && owned[i].voucherId == id
    ensures Entries(owned, id) >= 1
  {
    if i != 0 {
      EntriesAtLeastOne(owned[1..], id, i - 1);
    }
  }

  /** With at most one entry per id, no two entries share an id. */
  lemma UniqueIdsDistinct(owned: seq<VoucherOwned>)
    requires UniqueIds(owned)
    ensures forall i, j :: 0 <= i < j < |owned| ==> owned[i].voucherId != owned[j].voucherId
  {
    forall i, j | 0 <= i < j < |owned| ensures owned[i].voucherId != owned[j].voucherId {
      if owned[i].voucherId == owned[j].voucherId {
        OneEntryPerId(owned, owned[i].voucherId, i, j);
      }
    }
  }
}
