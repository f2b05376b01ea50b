/** A document collection as the sync writes it: a map from document id to
    document, changed by a sequence of puts and deletes. Every write of one
    collection carries the same fields, so a merging put is a replacement. */
module Store {
  import opened Wrappers
  import opened Model
  import opened Lists
  import opened Vouchers
  import opened Codec

  type Collection = map<string, Doc>

  function ApplyWrite(c: Collection, w: Write): Collection {
    match w
    case Put(id, doc) => c[id := doc]
    case Delete(id) => c - {id}
  }

  /** The collection after the writes, in order. */
  function Apply(c: Collection, writes: seq<Write>): Collection
    decreases |writes|
  {
    if writes == [] then c else Apply(ApplyWrite(c, writes[0]), writes[1..])
  }

  lemma {:induction false} ApplyAppend(c: Collection, a: seq<Write>, b: seq<Write>)
    ensures Apply(c, a + b) == Apply(Apply(c, a), b)
    decreases |a|
  {
    if a == [] {
      assert a + b == b;
    } else {
      assert (a + b)[0] == a[0];
      assert (a + b)[1..] == a[1..] + b;
      ApplyAppend(ApplyWrite(c, a[0]), a[1..], b);
    }
  }

  /** The collection holds exactly one document per element, under the
      element's key, and that document is the element's encoding. */
  ghost predicate Mirrors<T>(c: Collection, xs: seq<T>, key: T -> string, enc: T -> Doc) {
    && (forall k :: k in c <==> exists i :: 0 <= i < |xs| && key(xs[i]) == k)
    && (forall i :: 0 <= i < |xs| ==> key(xs[i]) in c && c[key(xs[i])] == enc(xs[i]))
  }

  ghost predicate DistinctKeys<T>(xs: seq<T>, key: T -> string) {
    forall i, j :: 0 <= i < j < |xs| ==> key(xs[i]) != key(xs[j])
  }

  /** r is c with each element's document put under its key. */
  ghost predicate PutResult<T>(c: Collection, xs: seq<T>, key: T -> string, enc: T -> Doc, r: Collection) {
    && (forall k :: k in r <==> k in c || exists i :: 0 <= i < |xs| && key(xs[i]) == k)
    && (forall i :: 0 <= i < |xs| ==> key(xs[i]) in r && r[key(xs[i])] == enc(xs[i]))
    && (forall k :: k in c && (forall i :: 0 <= i < |xs| ==> key(xs[i]) != k) ==> r[k] == c[k])
  }

  lemma PutResultStep<T>(c: Collection, xs: seq<T>, key: T -> string, enc: T -> Doc, r: Collection)
    requires xs != [] && DistinctKeys(xs, key)
    requires PutResult(c[key(xs[0]) := enc(xs[0])], xs[1..], key, enc, r)
    ensures PutResult(c, xs, key, enc, r)
  {
    var tail := xs[1..];
    forall k ensures k in r <==> k in c || exists i :: 0 <= i < |xs| && key(xs[i]) == k {
      if exists i :: 0 <= i < |xs| && key(xs[i]) == k {
        var i :| 0 <= i < |xs| && key(xs[i]) == k;
        if i > 0 {
          assert key(tail[i - 1]) == k;
        }
      }
      if exists i :: 0 <= i < |tail| && key(tail[i]) == k {
        var i :| 0 <= i < |tail| && key(tail[i]) == k;
        assert key(xs[i + 1]) == k;
      }
    }
    forall i | 0 <= i < |xs| ensures key(xs[i]) in r && r[key(xs[i])] == enc(xs[i]) {
      if i == 0 {
        forall j | 0 <= j < |tail| ensures key(tail[j]) != key(xs[0]) {
          assert tail[j] == xs[j + 1];
        }
      } else {
        assert tail[i - 1] == xs[i];
      }
    }
    forall k | k in c && (forall i :: 0 <= i < |xs| ==> key(xs[i]) != k) ensures r[k] == c[k] {
      assert key(xs[0]) != k;
      forall j | 0 <= j < |tail| ensures key(tail[j]) != k {
        assert tail[j] == xs[j + 1];
      }
    }
  }

  /** Putting elements of distinct keys adds or replaces exactly their
      documents. */
  lemma {:induction false} ApplyPuts<T>(c: Collection, xs: seq<T>, key: T -> string, enc: T -> Doc, put: T -> Write)
    requires forall i :: 0 <= i < |xs| ==> put(xs[i]) == Put(key(xs[i]), enc(xs[i]))
    requires DistinctKeys(xs, key)
    ensures PutResult(c, xs, key, enc, Apply(c, MapSeq(xs, put)))
    decreases |xs|
  {
    if xs != [] {
      var ws := MapSeq(xs, put);
      var tail := xs[1..];
      assert ws[1..] == MapSeq(tail, put);
      var c1 := c[key(xs[0]) := enc(xs[0])];
      assert ApplyWrite(c, ws[0]) == c1;
      assert DistinctKeys(tail, key) by {
        forall i, j | 0 <= i < j < |tail| ensures key(tail[i]) != key(tail[j]) {
          assert tail[i] == xs[i + 1] && tail[j] == xs[j + 1];
        }
      }
      forall i | 0 <= i < |tail| ensures put(tail[i]) == Put(key(tail[i]), enc(tail[i])) {
        assert tail[i] == xs[i + 1];
      }
      ApplyPuts(c1, tail, key, enc, put);
      PutResultStep(c, xs, key, enc, Apply(c, ws));
    }
  }

  function DeleteDoc(id: string): Write {
    Delete(id)
  }

  /** Deleting ids removes exactly those documents. */
  lemma {:induction false} ApplyDeletes(c: Collection, ids: seq<string>)
    ensures var r := Apply(c, MapSeq(ids, DeleteDoc));
      && (forall k :: k in r <==> k in c && k !in ids)
      && (forall k :: k in r ==> r[k] == c[k])
  {
    if ids != [] {
      var ws := MapSeq(ids, DeleteDoc);
      assert ws[1..] == MapSeq(ids[1..], DeleteDoc);
      ApplyDeletes(c - {ids[0]}, ids[1..]);
      assert forall k :: k in ids <==> k == ids[0] || k in ids[1..];
    }
  }

  /** The keys of the previous elements that no current element has. */
  function Gone<T>(previous: seq<T>, current: seq<T>, key: T -> string): (r: seq<string>)
    ensures forall k :: k in r <==> k in MapSeq(previous, key) && k !in MapSeq(current, key)
  {
    var currentKeys := MapSeq(current, key);
    Filter(MapSeq(previous, key), (k: string) => k !in currentKeys)
  }

  lemma KeysOf<T>(xs: seq<T>, key: T -> string, k: string)
    ensures k in MapSeq(xs, key) <==> exists i :: 0 <= i < |xs| && key(xs[i]) == k
  {
    var ks := MapSeq(xs, key);
    if k in ks {
      var i :| 0 <= i < |ks| && ks[i] == k;
      assert key(xs[i]) == k;
    }
    if exists i :: 0 <= i < |xs| && key(xs[i]) == k {
      var i :| 0 <= i < |xs| && key(xs[i]) == k;
      assert ks[i] == k;
    }
  }

  /** Sync writes that keep the collection in step with the list: put every
      current element, then delete the documents of previous elements that
      are no longer there. */
  function SyncWrites<T>(previous: seq<T>, current: seq<T>, key: T -> string, put: T -> Write): seq<Write> {
    MapSeq(current, put) + MapSeq(Gone(previous, current, key), DeleteDoc)
  }

  /** A collection that mirrored the previous list mirrors the current one
      after its sync writes. */
  lemma SyncWritesMirror<T>(c: Collection, previous: seq<T>, current: seq<T>, key: T -> string, enc: T -> Doc, put: T -> Write)
    requires Mirrors(c, previous, key, enc)
    requires forall i :: 0 <= i < |current| ==> put(current[i]) == Put(key(current[i]), enc(current[i]))
    requires DistinctKeys(current, key)
    ensures Mirrors(Apply(c, SyncWrites(previous, current, key, put)), current, key, enc)
  {
    var puts := MapSeq(current, put);
    var gone := Gone(previous, current, key);
    ApplyAppend(c, puts, MapSeq(gone, DeleteDoc));
    ApplyPuts(c, current, key, enc, put);
    var mid := Apply(c, puts);
    ApplyDeletes(mid, gone);
    var r := Apply(mid, MapSeq(gone, DeleteDoc));
    forall k ensures k in r <==> exists i :: 0 <= i < |current| && key(current[i]) == k {
      KeysOf(previous, key, k);
      KeysOf(current, key, k);
    }
    forall i | 0 <= i < |current| ensures key(current[i]) in r && r[key(current[i])] == enc(current[i]) {
      KeysOf(current, key, key(current[i]));
    }
  }

  // --- Owned vouchers ---

  function VoucherKey(v: VoucherOwned): string {
    v.voucherId
  }

  /** The voucher sync as intended: the held entries are written and the
      documents of vouchers held before but not now are deleted. */
  function FixedVoucherWrites(previous: seq<VoucherOwned>, owned: seq<VoucherOwned>): seq<Write> {
    SyncWrites(PositiveOnly(previous), PositiveOnly(owned), VoucherKey, PutVoucher)
  }

  /** With the intended sync, a collection that held the previously held
      vouchers holds exactly the held vouchers afterwards. */
  lemma FixedVoucherSyncMirrors(c: Collection, previous: seq<VoucherOwned>, owned: seq<VoucherOwned>)
    requires Mirrors(c, PositiveOnly(previous), VoucherKey, EncodeVoucher)
    requires AllPositive(owned) && UniqueIds(owned)
    ensures Mirrors(Apply(c, FixedVoucherWrites(previous, owned)), owned, VoucherKey, EncodeVoucher)
  {
    FilterAll(owned, IsHeld);
    UniqueIdsDistinct(owned);
    SyncWritesMirror(c, PositiveOnly(previous), owned, VoucherKey, EncodeVoucher, PutVoucher);
  }

  /** In particular, after a voucher is used the intended sync leaves exactly
      the vouchers still held. */
  lemma FixedUseVoucherSync(c: Collection, owned: seq<VoucherOwned>, id: string)
    requires AllPositive(owned) && UniqueIds(owned) && Entries(owned, id) > 0
    requires Mirrors(c, owned, VoucherKey, EncodeVoucher)
    ensures Mirrors(Apply(c, FixedVoucherWrites(owned, OwnedAfterUse(owned, id))), OwnedAfterUse(owned, id), VoucherKey, EncodeVoucher)
  {
    FilterAll(owned, IsHeld);
    UseKeepsUniqueIds(owned, id);
    FixedVoucherSyncMirrors(c, owned, OwnedAfterUse(owned, id));
  }

  /** The sync as written deletes only entries of quantity exactly 0, but
      using the last copy of a voucher already drops its entry: the stored
      document stays, and a reload gives the voucher back with quantity 1. */
  lemma UsedUpVoucherStaysStored(v: VoucherOwned)
    requires v.quantity == 1 && IntFields(v)
    ensures var stored := Apply(map[], VoucherWrites([v]));
      var after := OwnedAfterUse([v], v.voucherId);
      && after == []
      && Mirrors(stored, [v], VoucherKey, EncodeVoucher)
      && Apply(stored, VoucherWrites(after)) == stored
      && !Mirrors(stored, after, VoucherKey, EncodeVoucher)
      && LoadVouchers([stored[v.voucherId]]) == [v]
  {
    StoreOneVoucher(v);
    UseLastCopy(v);
    assert VoucherWrites([]) == [];
    MirrorsOne(v, VoucherKey, EncodeVoucher);
    LoadOneVoucher(v);
  }

  /** A collection holding one document mirrors the list of its entry, and
      does not mirror the empty list. */
  lemma MirrorsOne<T>(x: T, key: T -> string, enc: T -> Doc)
    ensures Mirrors(map[key(x) := enc(x)], [x], key, enc)
    ensures !Mirrors(map[key(x) := enc(x)], [], key, enc)
  {
    var c := map[key(x) := enc(x)];
    forall k | k in c
      ensures exists i :: 0 <= i < |[x]| && key([x][i]) == k
    {
      assert key([x][0]) == k;
    }
    assert key(x) in c;
  }

  /** Syncing one held voucher into an empty collection stores its document
      alone. */
  lemma StoreOneVoucher(v: VoucherOwned)
    requires v.quantity > 0
    ensures Apply(map[], VoucherWrites([v])) == map[v.voucherId := EncodeVoucher(v)]
  {
    assert Filter([v], IsHeld) == [v];
    assert Filter([v], IsUsedUp) == [];
    assert VoucherWrites([v]) == [PutVoucher(v)];
    assert Apply(map[], [PutVoucher(v)]) == Apply(map[][v.voucherId := EncodeVoucher(v)], []);
  }

  /** Using the last copy of the only voucher leaves nothing owned. */
  lemma UseLastCopy(v: VoucherOwned)
    requires v.quantity == 1
    ensures OwnedAfterUse([v], v.voucherId) == []
  {
    assert DecrementMatching([v], v.voucherId) == [v.(quantity := 0)];
  }

  /** The document of one held voucher loads back as that voucher. */
  lemma LoadOneVoucher(v: VoucherOwned)
    requires v.quantity > 0 && IntFields(v)
    ensures LoadVouchers([EncodeVoucher(v)]) == [v]
  {
    DecodeEncodeVoucher(v);
    assert MapNotNull([EncodeVoucher(v)], DecodeVoucher) == [v];
  }

  // --- Orders ---

  function OrderKey(o: Order): string {
    o.id
  }

  /** The order sync as intended: every current order is written and the
      documents of orders that are gone are deleted. */
  function FixedOrderWrites(previousOngoing: seq<Order>, previousHistory: seq<Order>, ongoing: seq<Order>, history: seq<Order>): seq<Write> {
    SyncWrites(previousOngoing + previousHistory, ongoing + history, OrderKey, PutOrder)
  }

  /** With the intended sync, a collection that held the previous orders
      holds exactly the current ones afterwards. */
  lemma FixedOrderSyncMirrors(c: Collection, previousOngoing: seq<Order>, previousHistory: seq<Order>, ongoing: seq<Order>, history: seq<Order>)
    requires Mirrors(c, previousOngoing + previousHistory, OrderKey, EncodeOrder)
    requires DistinctKeys(ongoing + history, OrderKey)
    ensures Mirrors(Apply(c, FixedOrderWrites(previousOngoing, previousHistory, ongoing, history)), ongoing + history, OrderKey, EncodeOrder)
  {
    SyncWritesMirror(c, previousOngoing + previousHistory, ongoing + history, OrderKey, EncodeOrder, PutOrder);
  }

  /** The order sync as written only puts, so the document of an order
      removed from the history stays stored and a reload brings the order
      back into the history. */
  lemma RemovedHistoryOrderStaysStored(o: Order)
    requires o.status == Completed && OrderIntFields(o)
    ensures var stored := Apply(map[], OrderWrites([], [o]));
      && Mirrors(stored, [o], OrderKey, EncodeOrder)
      && Apply(stored, OrderWrites([], [])) == stored
      && !Mirrors(stored, [], OrderKey, EncodeOrder)
      && LoadOrders([stored[o.id]]) == ([], [Stored(o)])
  {
    StoreOneOrder(o);
    assert OrderWrites([], []) == [];
    MirrorsOne(o, OrderKey, EncodeOrder);
    LoadOneCompletedOrder(o);
  }

  /** Syncing one order into an empty collection stores its document alone. */
  lemma StoreOneOrder(o: Order)
    ensures Apply(map[], OrderWrites([], [o])) == map[o.id := EncodeOrder(o)]
  {
    assert [] + [o] == [o];
    assert OrderWrites([], [o]) == [PutOrder(o)];
    assert Apply(map[], [PutOrder(o)]) == Apply(map[][o.id := EncodeOrder(o)], []);
  }

  /** The document of one completed order loads into the history alone. */
  lemma LoadOneCompletedOrder(o: Order)
    requires o.status == Completed && OrderIntFields(o)
    ensures LoadOrders([EncodeOrder(o)]) == ([], [Stored(o)])
  {
    DecodeEncodeOrder(o);
    assert MapNotNull([EncodeOrder(o)], DecodeOrder) == [Stored(o)];
    assert Filter([Stored(o)], IsOngoing) == [];
    assert Filter([Stored(o)], IsCompleted) == [Stored(o)];
  }

  // --- Reading a collection back ---

  /** `docs` is what reading the whole collection returns: one document per
      stored id, the ids `ids` coming in whatever order the store lists
      them. */
  ghost predicate Snapshot(c: Collection, ids: seq<string>, docs: seq<Doc>) {
    && |ids| == |docs|
    && NoDuplicates(ids)
    && (forall k :: k in c <==> k in ids)
    && (forall i :: 0 <= i < |ids| ==> ids[i] in c && docs[i] == c[ids[i]])
  }

  /** The document stored under an id, or the empty document. */
  function StoredUnder(c: Collection): string -> Doc {
    (k: string) => if k in c then c[k] else map[]
  }

  /** Reading a collection that mirrors a list returns the list's encodings,
      in some order. */
  lemma SnapshotOfMirror<T>(c: Collection, xs: seq<T>, key: T -> string, enc: T -> Doc, ids: seq<string>, docs: seq<Doc>)
    requires Mirrors(c, xs, key, enc) && DistinctKeys(xs, key)
    requires Snapshot(c, ids, docs)
    ensures multiset(docs) == multiset(MapSeq(xs, enc))
  {
    var keys := MapSeq(xs, key);
    SnapshotKeys(c, xs, key, enc, ids, docs);
    KeysNoDuplicates(xs, key);
    SameElements(ids, keys);
    SnapshotIsLookup(c, ids, docs);
    MirrorIsLookup(c, xs, key, enc);
    MapSeqPermutes(ids, keys, StoredUnder(c));
  }

  lemma SnapshotKeys<T>(c: Collection, xs: seq<T>, key: T -> string, enc: T -> Doc, ids: seq<string>, docs: seq<Doc>)
    requires Mirrors(c, xs, key, enc) && Snapshot(c, ids, docs)
    ensures forall k :: k in ids <==> k in MapSeq(xs, key)
  {
    forall k ensures k in ids <==> k in MapSeq(xs, key) {
      KeysOf(xs, key, k);
    }
  }

  lemma KeysNoDuplicates<T>(xs: seq<T>, key: T -> string)
    requires DistinctKeys(xs, key)
    ensures NoDuplicates(MapSeq(xs, key))
  {
  }

  lemma SnapshotIsLookup(c: Collection, ids: seq<string>, docs: seq<Doc>)
    requires Snapshot(c, ids, docs)
    ensures docs == MapSeq(ids, StoredUnder(c))
  {
  }

  lemma MirrorIsLookup<T>(c: Collection, xs: seq<T>, key: T -> string, enc: T -> Doc)
    requires Mirrors(c, xs, key, enc)
    ensures MapSeq(xs, enc) == MapSeq(MapSeq(xs, key), StoredUnder(c))
  {
  }

  function RewardKey(r: PointReward): string {
    r.id
  }

  /** The points-history sync only puts, and entries are never taken out of
      the history: a collection that mirrored an earlier history mirrors the
      current one after the sync. */
  lemma RewardSyncMirrors(c: Collection, previous: seq<PointReward>, history: seq<PointReward>)
    requires Mirrors(c, previous, RewardKey, EncodeReward)
    requires forall i :: 0 <= i < |previous| ==> previous[i] in history
    requires DistinctKeys(history, RewardKey)
    ensures Mirrors(Apply(c, RewardWrites(history)), history, RewardKey, EncodeReward)
  {
    ApplyPuts(c, history, RewardKey, EncodeReward, PutReward);
    var r := Apply(c, RewardWrites(history));
    forall k | k in r ensures exists i :: 0 <= i < |history| && RewardKey(history[i]) == k {
      if k in c {
        var i :| 0 <= i < |previous| && RewardKey(previous[i]) == k;
        var j :| 0 <= j < |history| && history[j] == previous[i];
      }
    }
  }

  /** Reading a points-history collection that mirrors the history gives
      the history back, in the order the store lists it. */
  lemma LoadRewardsFromStore(c: Collection, history: seq<PointReward>, ids: seq<string>, docs: seq<Doc>)
    requires Mirrors(c, history, RewardKey, EncodeReward) && DistinctKeys(history, RewardKey)
    requires forall j :: 0 <= j < |history| ==> IsInt(history[j].points)
    requires Snapshot(c, ids, docs)
    ensures multiset(LoadRewards(docs)) == multiset(history)
  {
    SnapshotOfMirror(c, history, RewardKey, EncodeReward, ids, docs);
    MapNotNullPermutes(docs, MapSeq(history, EncodeReward), DecodeReward);
    forall j | 0 <= j < |history| ensures DecodeReward(EncodeReward(history[j])) == Some(history[j]) {
      DecodeEncodeReward(history[j]);
    }
    MapNotNullInverts(history, EncodeReward, DecodeReward);
  }

  /** Reading an owned-vouchers collection that mirrors the held vouchers
      gives them back, in the order the store lists them. */
  lemma LoadVouchersFromStore(c: Collection, owned: seq<VoucherOwned>, ids: seq<string>, docs: seq<Doc>)
    requires Mirrors(c, owned, VoucherKey, EncodeVoucher) && DistinctKeys(owned, VoucherKey)
    requires AllPositive(owned) && forall j :: 0 <= j < |owned| ==> IntFields(owned[j])
    requires Snapshot(c, ids, docs)
    ensures multiset(LoadVouchers(docs)) == multiset(owned)
  {
    SnapshotOfMirror(c, owned, VoucherKey, EncodeVoucher, ids, docs);
    MapNotNullPermutes(docs, MapSeq(owned, EncodeVoucher), DecodeVoucher);
    DecodeEncodeVouchers(owned);
    MapNotNullInverts(owned, EncodeVoucher, DecodeVoucher);
    FilterPermutes(MapNotNull(docs, DecodeVoucher), owned, IsHeld);
    FilterAll(owned, IsHeld);
  }

  /** Reading an orders collection that mirrors the ongoing and the
      completed orders gives each list back, in the order the store lists
      it, each order with a missing payment method read as "". */
  lemma LoadOrdersFromStore(c: Collection, ongoing: seq<Order>, history: seq<Order>, ids: seq<string>, docs: seq<Doc>)
    requires Mirrors(c, ongoing + history, OrderKey, EncodeOrder) && DistinctKeys(ongoing + history, OrderKey)
    requires forall j :: 0 <= j < |ongoing| ==> ongoing[j].status == Ongoing && OrderIntFields(ongoing[j])
    requires forall j :: 0 <= j < |history| ==> history[j].status == Completed && OrderIntFields(history[j])
    requires Snapshot(c, ids, docs)
    ensures multiset(LoadOrders(docs).0) == multiset(MapSeq(ongoing, Stored))
    ensures multiset(LoadOrders(docs).1) == multiset(MapSeq(history, Stored))
  {
    var all := ongoing + history;
    SnapshotOfMirror(c, all, OrderKey, EncodeOrder, ids, docs);
    OrdersDecodeInAnyOrder(all, docs);
    MapSeqAppend(ongoing, history, Stored);
    SplitStored(ongoing, history);
    var decoded := MapNotNull(docs, DecodeOrder);
    FilterPermutes(decoded, MapSeq(all, Stored), IsOngoing);
    FilterPermutes(decoded, MapSeq(all, Stored), IsCompleted);
  }

  lemma OrdersDecodeInAnyOrder(all: seq<Order>, docs: seq<Doc>)
    requires forall j :: 0 <= j < |all| ==> OrderIntFields(all[j])
    requires multiset(docs) == multiset(MapSeq(all, EncodeOrder))
    ensures multiset(MapNotNull(docs, DecodeOrder)) == multiset(MapSeq(all, Stored))
  {
    MapNotNullPermutes(docs, MapSeq(all, EncodeOrder), DecodeOrder);
    forall j | 0 <= j < |all| ensures DecodeOrder(EncodeOrder(all[j])) == Some(Stored(all[j])) {
      DecodeEncodeOrder(all[j]);
    }
    DecodeMappedOrders(all);
  }
}
