/** The remote document schema: what the repository writes for each record
    and how it reads records back, with documents as a small `Value` tree. */
module Codec {
  import opened Wrappers
  import opened Model
  import opened Lists
  import opened Vouchers
  import Pricing

  /** A stored field value: string, 64-bit integer, double, map, list or
      server timestamp. */
  datatype Value =
    | VStr(str: string)
    | VInt(num: int)
    | VDouble(dbl: real)
    | VMap(fields: map<string, Value>)
    | VList(items: seq<Value>)
    | VTimestamp(at: string)

  type Doc = map<string, Value>

  /** A write into a collection. */
  datatype Write = Put(docId: string, doc: Doc) | Delete(docId: string)

  // --- Integer widths ---

  const IntMin: int := -0x8000_0000
  const IntMax: int := 0x7fff_ffff
  const LongMin: int := -0x8000_0000_0000_0000
  const LongMax: int := 0x7fff_ffff_ffff_ffff

  /** A value of Kotlin's 32-bit `Int`. */
  predicate IsInt(x: int) {
    IntMin <= x <= IntMax
  }

  /** `Long.toInt()`: the low 32 bits, as a signed value. */
  function WrapToInt(x: int): (r: int)
    ensures IsInt(r)
    ensures (x - r) % 0x1_0000_0000 == 0
    ensures IsInt(x) ==> r == x
  {
    (x - IntMin) % 0x1_0000_0000 + IntMin
  }

  /** `Double.toInt()` after truncation: clamped to the `Int` range. */
  function SaturateToInt(x: int): (r: int)
    ensures IsInt(r)
    ensures IsInt(x) ==> r == x
    ensures x < IntMin ==> r == IntMin
    ensures x > IntMax ==> r == IntMax
  {
    if x < IntMin then IntMin else if x > IntMax then IntMax else x
  }

  /** `Double.toLong()` after truncation: clamped to the `Long` range. */
  function SaturateToLong(x: int): (r: int)
    ensures LongMin <= r <= LongMax
    ensures LongMin <= x <= LongMax ==> r == x
  {
    if x < LongMin then LongMin else if x > LongMax then LongMax else x
  }

  // --- Field access ---

  /** The outcome of a typed getter on a document: the field is absent, has
      the expected type, or has another type (the getter throws). */
  datatype Read<T> = Missing | Got(value: T) | Thrown {
    function Value(): Option<T> {
      if Got? then Some(value) else None
    }
  }

  function Lookup(m: Doc, key: string): Option<Value> {
    if key in m then Some(m[key]) else None
  }

  /** `m[key] as? String`. */
  function AsString(v: Option<Value>): Option<string> {
    if v.Some? && v.value.VStr? then Some(v.value.str) else None
  }

  /** `m[key] as? Map<String, Any>`. */
  function AsMap(v: Option<Value>): Option<Doc> {
    if v.Some? && v.value.VMap? then Some(v.value.fields) else None
  }

  /** `(m[key] as? Number)?.toInt()`: a stored integer is a `Long`, narrowed
      by wrapping; a stored double is truncated and clamped. */
  function NumberToInt(v: Option<Value>): (r: Option<int>)
    ensures r.Some? ==> IsInt(r.value)
  {
    if v.None? then None
    else match v.value
      case VInt(n) => Some(WrapToInt(n))
      case VDouble(x) => Some(SaturateToInt(Pricing.TruncToInt(x)))
      case _ => None
  }

  /** `(m[key] as? Number)?.toDouble()`. */
  function NumberToDouble(v: Option<Value>): Option<real> {
    if v.None? then None
    else match v.value
      case VInt(n) => Some(n as real)
      case VDouble(x) => Some(x)
      case _ => None
  }

  /** `DocumentSnapshot.getString(key)`. */
  function GetString(doc: Doc, key: string): (r: Read<string>)
    ensures r.Missing? <==> key !in doc
    ensures r.Got? <==> key in doc && doc[key].VStr?
  {
    if key !in doc then Missing
    else if doc[key].VStr? then Got(doc[key].str)
    else Thrown
  }

  /** `DocumentSnapshot.getLong(key)?.toInt()`: any stored number, read as a
      `Long` and narrowed by wrapping. */
  function GetLongToInt(doc: Doc, key: string): (r: Read<int>)
    ensures r.Got? ==> IsInt(r.value)
  {
    if key !in doc then Missing
    else match doc[key]
      case VInt(n) => Got(WrapToInt(n))
      case VDouble(x) => Got(WrapToInt(SaturateToLong(Pricing.TruncToInt(x))))
      case _ => Thrown
  }

  // --- Enum names ---

  /** `ShotType.valueOf(name)`: `None` where `valueOf` throws. */
  function ShotFromName(name: string): (r: Option<ShotType>)
    ensures r.Some? ==> r.value.Name() == name
    ensures forall t: ShotType :: t.Name() == name ==> r == Some(t)
  {
    if name == "SINGLE" then Some(Single) else if name == "DOUBLE" then Some(Double) else None
  }

  function TemperatureFromName(name: string): (r: Option<TemperatureType>)
    ensures r.Some? ==> r.value.Name() == name
    ensures forall t: TemperatureType :: t.Name() == name ==> r == Some(t)
  {
    if name == "HOT" then Some(Hot) else if name == "ICED" then Some(Iced) else None
  }

  function SizeFromName(name: string): (r: Option<SizeType>)
    ensures r.Some? ==> r.value.Name() == name
    ensures forall t: SizeType :: t.Name() == name ==> r == Some(t)
  {
    if name == "SMALL" then Some(Small)
    else if name == "MEDIUM" then Some(Medium)
    else if name == "LARGE" then Some(Large)
    else None
  }

  function IceFromName(name: string): (r: Option<IceType>)
    ensures r.Some? ==> r.value.Name() == name
    ensures forall t: IceType :: t.Name() == name ==> r == Some(t)
  {
    if name == "LESS" then Some(Less)
    else if name == "HALF" then Some(Half)
    else if name == "FULL" then Some(Full)
    else None
  }

  function StatusFromName(name: string): (r: Option<OrderStatus>)
    ensures r.Some? ==> r.value.Name() == name
    ensures forall t: OrderStatus :: t.Name() == name ==> r == Some(t)
  {
    if name == "ONGOING" then Some(Ongoing) else if name == "COMPLETED" then Some(Completed) else None
  }

  predicate IsUsedUp(v: VoucherOwned) { v.quantity == 0 }
  predicate IsOngoing(o: Order) { o.status == Ongoing }
  predicate IsCompleted(o: Order) { o.status == Completed }

  // --- Encoders ---

  /** The option map stored with cart items and orders. */
  function EncodeOption(o: ProductOption): Doc {
    map[
      "size" := VStr(o.size.Name()),
      "shot" := VStr(o.shot.Name()),
      "temperature" := VStr(o.temperature.Name()),
      "ice" := VStr(o.ice.Name()),
      "quantity" := VInt(o.quantity)]
  }

  function EncodeCartItem(item: CartItem): Value {
    VMap(map[
      "id" := VStr(item.id),
      "product" := VStr(item.product),
      "price" := VDouble(item.price),
      "option" := VMap(EncodeOption(item.option))])
  }

  /** The single cart document, `cart_doc`. */
  function EncodeCartDoc(cart: seq<CartItem>, updatedAt: string): (d: Doc)
    ensures d.Keys == {"id", "items", "updatedAt"}
    ensures d["id"] == VStr("cart_doc")
    ensures d["items"].VList? && |d["items"].items| == |cart|
    ensures forall i :: 0 <= i < |cart| ==> d["items"].items[i] == EncodeCartItem(cart[i])
  {
    map[
      "id" := VStr("cart_doc"),
      "items" := VList(MapSeq(cart, EncodeCartItem)),
      "updatedAt" := VTimestamp(updatedAt)]
  }

  function EncodeReward(r: PointReward): (d: Doc)
    ensures d.Keys == {"id", "product", "datetime", "points"}
  {
    map[
      "id" := VStr(r.id),
      "product" := VStr(r.product),
      "datetime" := VStr(r.datetime),
      "points" := VInt(r.points)]
  }

  function EncodeVoucher(v: VoucherOwned): (d: Doc)
    ensures d.Keys == {"voucherId", "label", "percentOff", "quantity"}
  {
    map[
      "voucherId" := VStr(v.voucherId),
      "label" := VStr(v.labelText),
      "percentOff" := VInt(v.percentOff),
      "quantity" := VInt(v.quantity)]
  }

  /** `orderToMap`: a missing payment method is stored as "". */
  function EncodeOrder(o: Order): (d: Doc)
    ensures d.Keys == {"id", "product", "datetime", "price", "address", "paymentMethod", "couponPercent", "status", "option"}
    ensures d["option"].VMap? && d["option"].fields.Keys == {"size", "shot", "temperature", "ice", "quantity"}
  {
    map[
      "id" := VStr(o.id),
      "product" := VStr(o.product),
      "datetime" := VStr(o.datetime),
      "price" := VDouble(o.price),
      "address" := VStr(o.address),
      "paymentMethod" := VStr(o.paymentMethod.GetOr("")),
      "couponPercent" := VInt(o.couponPercent),
      "status" := VStr(o.status.Name()),
      "option" := VMap(EncodeOption(o.option))]
  }

  /** The user document; a missing photo URL is stored as "". */
  function EncodeUserDoc(uid: string, email: string, fullName: string, photoUrl: Option<string>, phoneNumber: string,
                         deliveryLocation: string, stamps: int, points: int, updatedAt: string): (d: Doc)
    ensures d.Keys == {"id", "email", "fullName", "photoUrl", "phoneNumber", "deliveryLocation", "stamps", "points", "updatedAt"}
    ensures forall k :: k in d && k != "stamps" && k != "points" && k != "updatedAt" ==> d[k].VStr?
  {
    map[
      "id" := VStr(uid),
      "email" := VStr(email),
      "fullName" := VStr(fullName),
      "photoUrl" := VStr(photoUrl.GetOr("")),
      "phoneNumber" := VStr(phoneNumber),
      "deliveryLocation" := VStr(deliveryLocation),
      "stamps" := VInt(stamps),
      "points" := VInt(points),
      "updatedAt" := VTimestamp(updatedAt)]
  }

  function PutReward(r: PointReward): Write { Put(r.id, EncodeReward(r)) }
  function PutVoucher(v: VoucherOwned): Write { Put(v.voucherId, EncodeVoucher(v)) }
  function DeleteVoucher(v: VoucherOwned): Write { Delete(v.voucherId) }
  function PutOrder(o: Order): Write { Put(o.id, EncodeOrder(o)) }

  /** The points-history writes of a sync: one per entry, keyed by its id. */
  function RewardWrites(history: seq<PointReward>): (w: seq<Write>)
    ensures |w| == |history|
    ensures forall i :: 0 <= i < |history| ==> w[i] == Put(history[i].id, EncodeReward(history[i]))
  {
    MapSeq(history, PutReward)
  }

  /** The owned-voucher writes of a sync: entries of positive quantity are
      written, entries of quantity exactly zero are deleted. */
  function VoucherWrites(owned: seq<VoucherOwned>): (w: seq<Write>)
    ensures forall v :: v in owned && v.quantity > 0 ==> Put(v.voucherId, EncodeVoucher(v)) in w
    ensures forall v :: v in owned && v.quantity == 0 ==> Delete(v.voucherId) in w
    ensures forall x :: x in w ==> exists v :: v in owned && v.quantity >= 0 && x.docId == v.voucherId
  {
    var puts := MapSeq(Filter(owned, IsHeld), PutVoucher);
    var deletes := MapSeq(Filter(owned, IsUsedUp), DeleteVoucher);
    VoucherPutsCover(owned);
    VoucherDeletesCover(owned);
    VoucherWritesFromOwned(owned);
    puts + deletes
  }

  lemma VoucherPutsCover(owned: seq<VoucherOwned>)
    ensures forall v :: v in owned && v.quantity > 0 ==> PutVoucher(v) in MapSeq(Filter(owned, IsHeld), PutVoucher)
  {
    forall v | v in owned && v.quantity > 0 ensures PutVoucher(v) in MapSeq(Filter(owned, IsHeld), PutVoucher) {
      MapSeqHas(Filter(owned, IsHeld), PutVoucher, v);
    }
  }

  lemma VoucherDeletesCover(owned: seq<VoucherOwned>)
    ensures forall v :: v in owned && v.quantity == 0 ==> DeleteVoucher(v) in MapSeq(Filter(owned, IsUsedUp), DeleteVoucher)
  {
    forall v | v in owned && v.quantity == 0 ensures DeleteVoucher(v) in MapSeq(Filter(owned, IsUsedUp), DeleteVoucher) {
      MapSeqHas(Filter(owned, IsUsedUp), DeleteVoucher, v);
    }
  }

  lemma VoucherWritesFromOwned(owned: seq<VoucherOwned>)
    ensures forall x :: x in MapSeq(Filter(owned, IsHeld), PutVoucher) + MapSeq(Filter(owned, IsUsedUp), DeleteVoucher)
                        ==> exists v :: v in owned && v.quantity >= 0 && x.docId == v.voucherId
  {
    var puts := MapSeq(Filter(owned, IsHeld), PutVoucher);
    var deletes := MapSeq(Filter(owned, IsUsedUp), DeleteVoucher);
    forall x: Write | x in puts + deletes ensures exists v :: v in owned && v.quantity >= 0 && x.docId == v.voucherId {
      if x in puts {
        MapSeqFrom(Filter(owned, IsHeld), PutVoucher, x);
      } else {
        MapSeqFrom(Filter(owned, IsUsedUp), DeleteVoucher, x);
      }
    }
  }

  /** The order writes of a sync: ongoing orders, then history orders. */
  function OrderWrites(ongoing: seq<Order>, history: seq<Order>): (w: seq<Write>)
    ensures |w| == |ongoing| + |history|
    ensures forall i :: 0 <= i < |ongoing| ==> w[i] == Put(ongoing[i].id, EncodeOrder(ongoing[i]))
    ensures forall i :: 0 <= i < |history| ==> w[|ongoing| + i] == Put(history[i].id, EncodeOrder(history[i]))
  {
    var all := ongoing + history;
    assert forall i :: 0 <= i < |history| ==> all[|ongoing| + i] == history[i];
    MapSeq(all, PutOrder)
  }

  /** The documents a sequence of writes stores, in order. */
  function PutDocs(writes: seq<Write>): seq<Doc> {
    MapNotNull(writes, (w: Write) => if w.Put? then Some(w.doc) else None)
  }

  // --- Decoders ---

  /** The option map read back; an absent or non-string option field takes
      its default, a name that is not an enum constant drops the record. */
  function DecodeOption(m: Doc): (r: Option<ProductOption>)
    ensures r.Some? ==> && r.value.shot.Name() == AsString(Lookup(m, "shot")).GetOr("SINGLE")
                        && r.value.temperature.Name() == AsString(Lookup(m, "temperature")).GetOr("HOT")
                        && r.value.size.Name() == AsString(Lookup(m, "size")).GetOr("MEDIUM")
                        && r.value.ice.Name() == AsString(Lookup(m, "ice")).GetOr("FULL")
                        && r.value.quantity == NumberToInt(Lookup(m, "quantity")).GetOr(1)
    ensures (forall t: ShotType :: t.Name() != AsString(Lookup(m, "shot")).GetOr("SINGLE")) ==> r.None?
    ensures (forall t: TemperatureType :: t.Name() != AsString(Lookup(m, "temperature")).GetOr("HOT")) ==> r.None?
    ensures (forall t: SizeType :: t.Name() != AsString(Lookup(m, "size")).GetOr("MEDIUM")) ==> r.None?
    ensures (forall t: IceType :: t.Name() != AsString(Lookup(m, "ice")).GetOr("FULL")) ==> r.None?
  {
    var quantity := NumberToInt(Lookup(m, "quantity")).GetOr(1);
    var shot := ShotFromName(AsString(Lookup(m, "shot")).GetOr("SINGLE"));
    var temperature := TemperatureFromName(AsString(Lookup(m, "temperature")).GetOr("HOT"));
    var size := SizeFromName(AsString(Lookup(m, "size")).GetOr("MEDIUM"));
    var ice := IceFromName(AsString(Lookup(m, "ice")).GetOr("FULL"));
    if shot.Some? && temperature.Some? && size.Some? && ice.Some? then
      Some(ProductOption(quantity, shot.value, temperature.value, size.value, ice.value))
    else None
  }

  /** One entry of the cart document's `items` list. */
  function DecodeCartItem(v: Value): (r: Option<CartItem>)
    ensures !v.VMap? ==> r.None?
    ensures r.Some? ==> && v.VMap?
                        && Lookup(v.fields, "id") == Some(VStr(r.value.id))
                        && Lookup(v.fields, "product") == Some(VStr(r.value.product))
                        && AsMap(Lookup(v.fields, "option")).Some?
                        && DecodeOption(AsMap(Lookup(v.fields, "option")).value) == Some(r.value.option)
  {
    if !v.VMap? then None
    else
      var m := v.fields;
      var optionMap := AsMap(Lookup(m, "option"));
      var id := AsString(Lookup(m, "id"));
      var product := AsString(Lookup(m, "product"));
      var price := NumberToDouble(Lookup(m, "price"));
      if optionMap.None? || id.None? || product.None? || price.None? then None
      else
        var option := DecodeOption(optionMap.value);
        if option.None? then None
        else Some(CartItem(id.value, product.value, price.value, option.value))
  }

  /** The cart after loading: unchanged when there is no cart document; a
      missing or non-list `items` gives the empty cart. */
  function LoadCart(cartDoc: Option<Doc>, current: seq<CartItem>): (r: seq<CartItem>)
    ensures cartDoc.None? ==> r == current
    ensures cartDoc.Some? && !("items" in cartDoc.value && cartDoc.value["items"].VList?) ==> r == []
    ensures cartDoc.Some? && "items" in cartDoc.value && cartDoc.value["items"].VList? ==> |r| <= |cartDoc.value["items"].items|
  {
    if cartDoc.None? then current
    else
      var items := Lookup(cartDoc.value, "items");
      var entries := if items.Some? && items.value.VList? then items.value.items else [];
      MapNotNull(entries, DecodeCartItem)
  }

  function DecodeReward(doc: Doc): (r: Option<PointReward>)
    ensures !("id" in doc && doc["id"].VStr?) ==> r.None?
    ensures r.Some? ==> && Lookup(doc, "id") == Some(VStr(r.value.id))
                        && Lookup(doc, "product") == Some(VStr(r.value.product))
                        && Lookup(doc, "datetime") == Some(VStr(r.value.datetime))
                        && IsInt(r.value.points)
  {
    var id := GetString(doc, "id");
    var product := GetString(doc, "product");
    var datetime := GetString(doc, "datetime");
    var points := NumberToInt(Lookup(doc, "points"));
    if id.Got? && product.Got? && datetime.Got? && points.Some? then
      Some(PointReward(id.value, product.value, datetime.value, points.value))
    else None
  }

  /** The points history after loading. */
  function LoadRewards(docs: seq<Doc>): (r: seq<PointReward>)
    ensures |r| <= |docs|
    ensures (forall j :: 0 <= j < |docs| ==> DecodeReward(docs[j]).Some?) ==> |r| == |docs|
  {
    MapNotNullAllSome(docs, DecodeReward);
    MapNotNull(docs, DecodeReward)
  }

  function DecodeVoucher(doc: Doc): (r: Option<VoucherOwned>)
    ensures !("voucherId" in doc && doc["voucherId"].VStr?) ==> r.None?
    ensures r.Some? ==> && Lookup(doc, "voucherId") == Some(VStr(r.value.voucherId))
                        && Lookup(doc, "label") == Some(VStr(r.value.labelText))
                        && IsInt(r.value.percentOff) && IsInt(r.value.quantity)
  {
    var voucherId := GetString(doc, "voucherId");
    var labelText := GetString(doc, "label");
    var percentOff := NumberToInt(Lookup(doc, "percentOff"));
    var quantity := NumberToInt(Lookup(doc, "quantity"));
    if voucherId.Got? && labelText.Got? && percentOff.Some? && quantity.Some? then
      Some(VoucherOwned(voucherId.value, labelText.value, percentOff.value, quantity.value))
    else None
  }

  /** The owned vouchers after loading: entries of quantity 0 or less are
      dropped. */
  function LoadVouchers(docs: seq<Doc>): (r: seq<VoucherOwned>)
    ensures forall j :: 0 <= j < |r| ==> r[j].quantity > 0
  {
    Filter(MapNotNull(docs, DecodeVoucher), IsHeld)
  }

  /** One order document. A missing status or an unknown status name reads as
      ONGOING, but a status of another type drops the record, as does a
      payment method of another type. */
  function DecodeOrder(doc: Doc): (r: Option<Order>)
    ensures r.Some? ==> (r.value.status == Completed <==> Lookup(doc, "status") == Some(VStr("COMPLETED")))
    ensures Lookup(doc, "status").Some? && !doc["status"].VStr? ==> r.None?
  {
    var optionMap := AsMap(Lookup(doc, "option"));
    var statusRead := GetString(doc, "status");
    if optionMap.None? || statusRead.Thrown? then None
    else
      var status := StatusFromName(statusRead.Value().GetOr("ONGOING")).GetOr(Ongoing);
      var id := GetString(doc, "id");
      var product := GetString(doc, "product");
      var datetime := GetString(doc, "datetime");
      var price := NumberToDouble(Lookup(doc, "price"));
      var address := GetString(doc, "address");
      var option := DecodeOption(optionMap.value);
      var paymentMethod := GetString(doc, "paymentMethod");
      var couponPercent := NumberToInt(Lookup(doc, "couponPercent")).GetOr(0);
      if id.Got? && product.Got? && datetime.Got? && price.Some? && address.Got? && option.Some? && !paymentMethod.Thrown? then
        Some(Order(id.value, product.value, datetime.value, price.value, address.value, option.value,
                   paymentMethod.Value(), couponPercent, status))
      else None
  }

  /** The ongoing and history lists after loading the orders collection. */
  function LoadOrders(docs: seq<Doc>): (r: (seq<Order>, seq<Order>))
    ensures forall j :: 0 <= j < |r.0| ==> r.0[j].status == Ongoing
    ensures forall j :: 0 <= j < |r.1| ==> r.1[j].status == Completed
  {
    var orders := MapNotNull(docs, DecodeOrder);
    var ongoing := Filter(orders, IsOngoing);
    var completed := Filter(orders, IsCompleted);
    (ongoing, completed)
  }

  /** The fields of the user document the repository takes over, in the order
      it reads them. A field of the wrong type throws: it and every later field
      are not taken, and `complete` is false. */
  datatype UserFields = UserFields(
    fullName: Option<string>,
    phoneNumber: Option<string>,
    deliveryLocation: Option<string>,
    photoUrl: Option<string>,
    stamps: Option<int>,
    points: Option<int>,
    complete: bool)

  function DecodeUserDoc(doc: Doc): (u: UserFields)
    ensures u.complete <==> && !GetString(doc, "fullName").Thrown? && !GetString(doc, "phoneNumber").Thrown?
                            && !GetString(doc, "deliveryLocation").Thrown? && !GetString(doc, "photoUrl").Thrown?
                            && !GetLongToInt(doc, "stamps").Thrown? && !GetLongToInt(doc, "points").Thrown?
    ensures !GetString(doc, "fullName").Thrown? ==> u.fullName == GetString(doc, "fullName").Value()
    ensures u.complete ==> && u.phoneNumber == GetString(doc, "phoneNumber").Value()
                           && u.deliveryLocation == GetString(doc, "deliveryLocation").Value()
                           && u.photoUrl == GetString(doc, "photoUrl").Value()
                           && u.stamps == GetLongToInt(doc, "stamps").Value()
                           && u.points == GetLongToInt(doc, "points").Value()
    ensures u.points.Some? ==> u.complete
  {
    var f := GetString(doc, "fullName");
    if f.Thrown? then UserFields(None, None, None, None, None, None, false) else
    var ph := GetString(doc, "phoneNumber");
    if ph.Thrown? then UserFields(f.Value(), None, None, None, None, None, false) else
    var dl := GetString(doc, "deliveryLocation");
    if dl.Thrown? then UserFields(f.Value(), ph.Value(), None, None, None, None, false) else
    var pu := GetString(doc, "photoUrl");
    if pu.Thrown? then UserFields(f.Value(), ph.Value(), dl.Value(), None, None, None, false) else
    var st := GetLongToInt(doc, "stamps");
    if st.Thrown? then UserFields(f.Value(), ph.Value(), dl.Value(), pu.Value(), None, None, false) else
    var pt := GetLongToInt(doc, "points");
    if pt.Thrown? then UserFields(f.Value(), ph.Value(), dl.Value(), pu.Value(), st.Value(), None, false) else
    UserFields(f.Value(), ph.Value(), dl.Value(), pu.Value(), st.Value(), pt.Value(), true)
  }

  // --- Round trips ---

  /** An option set whose quantity is an `Int` reads back unchanged. */
  lemma DecodeEncodeOption(o: ProductOption)
    requires IsInt(o.quantity)
    ensures DecodeOption(EncodeOption(o)) == Some(o)
  {
  }

  /** All option fields absent: one single-shot hot medium drink, full ice. */
  lemma DecodeOptionDefaults()
    ensures DecodeOption(map[]) == Some(ProductOption(1, Single, Hot, Medium, Full))
  {
  }

  lemma DecodeEncodeCartItem(item: CartItem)
    requires IsInt(item.option.quantity)
    ensures DecodeCartItem(EncodeCartItem(item)) == Some(item)
  {
    DecodeEncodeOption(item.option);
  }

  /** Loading the cart document a sync wrote gives back the cart. */
  lemma LoadStoredCart(cart: seq<CartItem>, updatedAt: string, current: seq<CartItem>)
    requires forall j :: 0 <= j < |cart| ==> IsInt(cart[j].option.quantity)
    ensures LoadCart(Some(EncodeCartDoc(cart, updatedAt)), current) == cart
  {
    forall j | 0 <= j < |cart| ensures DecodeCartItem(EncodeCartItem(cart[j])) == Some(cart[j]) {
      DecodeEncodeCartItem(cart[j]);
    }
    MapNotNullInverts(cart, EncodeCartItem, DecodeCartItem);
  }

  lemma DecodeEncodeReward(r: PointReward)
    requires IsInt(r.points)
    ensures DecodeReward(EncodeReward(r)) == Some(r)
  {
  }

  /** The documents a sync writes into the points-history collection load back
      as the same history. */
  lemma LoadStoredRewards(history: seq<PointReward>)
    requires forall j :: 0 <= j < |history| ==> IsInt(history[j].points)
    ensures LoadRewards(PutDocs(RewardWrites(history))) == history
  {
    PutDocsOfPuts(history, PutReward, EncodeReward);
    forall j | 0 <= j < |history| ensures DecodeReward(EncodeReward(history[j])) == Some(history[j]) {
      DecodeEncodeReward(history[j]);
    }
    MapNotNullInverts(history, EncodeReward, DecodeReward);
  }

  /** The stored documents of writes that are all puts are their encodings. */
  lemma {:induction false} PutDocsOfPuts<T>(xs: seq<T>, put: T -> Write, enc: T -> Doc)
    requires forall i :: 0 <= i < |xs| ==> put(xs[i]) == Put(put(xs[i]).docId, enc(xs[i]))
    ensures PutDocs(MapSeq(xs, put)) == MapSeq(xs, enc)
  {
    if xs != [] {
      var m := MapSeq(xs, put);
      assert m[1..] == MapSeq(xs[1..], put);
      PutDocsOfPuts(xs[1..], put, enc);
      var e := MapSeq(xs, enc);
      assert e == [enc(xs[0])] + MapSeq(xs[1..], enc);
    }
  }

  /** Writes that are all deletes store no document. */
  lemma {:induction false} PutDocsOfDeletes(xs: seq<VoucherOwned>)
    ensures PutDocs(MapSeq(xs, DeleteVoucher)) == []
  {
    if xs != [] {
      var m := MapSeq(xs, DeleteVoucher);
      assert m[1..] == MapSeq(xs[1..], DeleteVoucher);
      PutDocsOfDeletes(xs[1..]);
    }
  }

  lemma {:induction false} PutDocsAppend(a: seq<Write>, b: seq<Write>)
    ensures PutDocs(a + b) == PutDocs(a) + PutDocs(b)
  {
    if a == [] {
      assert a + b == b;
    } else {
      assert (a + b)[1..] == a[1..] + b;
      PutDocsAppend(a[1..], b);
    }
  }

  lemma DecodeEncodeVoucher(v: VoucherOwned)
    requires IsInt(v.percentOff) && IsInt(v.quantity)
    ensures DecodeVoucher(EncodeVoucher(v)) == Some(v)
  {
  }

  /** The integer fields of an owned voucher are `Int`s. */
  predicate IntFields(v: VoucherOwned) {
    IsInt(v.percentOff) && IsInt(v.quantity)
  }

  lemma DecodeEncodeVouchers(xs: seq<VoucherOwned>)
    requires forall j :: 0 <= j < |xs| ==> IntFields(xs[j])
    ensures forall j :: 0 <= j < |xs| ==> DecodeVoucher(EncodeVoucher(xs[j])) == Some(xs[j])
  {
    forall j | 0 <= j < |xs| ensures DecodeVoucher(EncodeVoucher(xs[j])) == Some(xs[j]) {
      DecodeEncodeVoucher(xs[j]);
    }
  }

  /** The documents a sync leaves in the owned-vouchers collection load back
      as the entries of positive quantity. */
  lemma LoadStoredVouchers(owned: seq<VoucherOwned>)
    requires forall j :: 0 <= j < |owned| ==> IntFields(owned[j])
    ensures LoadVouchers(PutDocs(VoucherWrites(owned))) == PositiveOnly(owned)
  {
    var pos := Filter(owned, IsHeld);
    var zero := Filter(owned, IsUsedUp);
    PutDocsAppend(MapSeq(pos, PutVoucher), MapSeq(zero, DeleteVoucher));
    PutDocsOfPuts(pos, PutVoucher, EncodeVoucher);
    PutDocsOfDeletes(zero);
    assert PutDocs(VoucherWrites(owned)) == MapSeq(pos, EncodeVoucher);
    FilterKeeps(owned, IsHeld, IntFields);
    DecodeEncodeVouchers(pos);
    MapNotNullInverts(pos, EncodeVoucher, DecodeVoucher);
    FilterAll(pos, IsHeld);
  }

  /** What an order reads back as: a missing payment method becomes "". */
  function Stored(o: Order): Order {
    o.(paymentMethod := Some(o.paymentMethod.GetOr("")))
  }

  lemma DecodeEncodeOrder(o: Order)
    requires OrderIntFields(o)
    ensures DecodeOrder(EncodeOrder(o)) == Some(Stored(o))
  {
    EncodedOrderFields(o);
    DecodeEncodeOption(o.option);
    DecodeOrderFields(EncodeOrder(o), o);
  }

  /** A document whose keys hold an order's fields decodes to that order as
      stored. */
  lemma DecodeOrderFields(doc: Doc, o: Order)
    requires Lookup(doc, "id") == Some(VStr(o.id))
    requires Lookup(doc, "product") == Some(VStr(o.product))
    requires Lookup(doc, "datetime") == Some(VStr(o.datetime))
    requires Lookup(doc, "price") == Some(VDouble(o.price))
    requires Lookup(doc, "address") == Some(VStr(o.address))
    requires Lookup(doc, "paymentMethod") == Some(VStr(o.paymentMethod.GetOr("")))
    requires Lookup(doc, "couponPercent") == Some(VInt(o.couponPercent)) && IsInt(o.couponPercent)
    requires Lookup(doc, "status") == Some(VStr(o.status.Name()))
    requires Lookup(doc, "option") == Some(VMap(EncodeOption(o.option)))
    requires DecodeOption(EncodeOption(o.option)) == Some(o.option)
    ensures DecodeOrder(doc) == Some(Stored(o))
  {
  }

  /** What each key of a stored order document holds. */
  lemma EncodedOrderFields(o: Order)
    ensures var doc := EncodeOrder(o);
      && Lookup(doc, "id") == Some(VStr(o.id))
      && Lookup(doc, "product") == Some(VStr(o.product))
      && Lookup(doc, "datetime") == Some(VStr(o.datetime))
      && Lookup(doc, "price") == Some(VDouble(o.price))
      && Lookup(doc, "address") == Some(VStr(o.address))
      && Lookup(doc, "paymentMethod") == Some(VStr(o.paymentMethod.GetOr("")))
      && Lookup(doc, "couponPercent") == Some(VInt(o.couponPercent))
      && Lookup(doc, "status") == Some(VStr(o.status.Name()))
      && Lookup(doc, "option") == Some(VMap(EncodeOption(o.option)))
  {
  }

  /** The integer fields of an order are `Int`s. */
  predicate OrderIntFields(o: Order) {
    IsInt(o.couponPercent) && IsInt(o.option.quantity)
  }

  /** The orders a sync writes load back into the same two lists, each order
      with its missing payment method read as "". */
  lemma LoadStoredOrders(ongoing: seq<Order>, history: seq<Order>)
    requires forall j :: 0 <= j < |ongoing| ==> ongoing[j].status == Ongoing && OrderIntFields(ongoing[j])
    requires forall j :: 0 <= j < |history| ==> history[j].status == Completed && OrderIntFields(history[j])
    ensures LoadOrders(PutDocs(OrderWrites(ongoing, history))) == (MapSeq(ongoing, Stored), MapSeq(history, Stored))
  {
    var all := ongoing + history;
    StoredOrdersDecode(all);
    MapSeqAppend(ongoing, history, Stored);
    SplitStored(ongoing, history);
  }

  /** Decoding the stored documents of some orders gives back the orders as
      stored. */
  lemma StoredOrdersDecode(all: seq<Order>)
    requires forall j :: 0 <= j < |all| ==> OrderIntFields(all[j])
    ensures MapNotNull(PutDocs(MapSeq(all, PutOrder)), DecodeOrder) == MapSeq(all, Stored)
  {
    PutDocsOfPuts(all, PutOrder, EncodeOrder);
    forall j | 0 <= j < |all| ensures DecodeOrder(EncodeOrder(all[j])) == Some(Stored(all[j])) {
      DecodeEncodeOrder(all[j]);
    }
    DecodeMappedOrders(all);
  }

  /** Splitting stored ongoing-then-history orders by status separates them
      again. */
  lemma SplitStored(ongoing: seq<Order>, history: seq<Order>)
    requires forall j :: 0 <= j < |ongoing| ==> ongoing[j].status == Ongoing
    requires forall j :: 0 <= j < |history| ==> history[j].status == Completed
    ensures Filter(MapSeq(ongoing, Stored) + MapSeq(history, Stored), IsOngoing) == MapSeq(ongoing, Stored)
    ensures Filter(MapSeq(ongoing, Stored) + MapSeq(history, Stored), IsCompleted) == MapSeq(history, Stored)
  {
    var so := MapSeq(ongoing, Stored);
    var sh := MapSeq(history, Stored);
    FilterAppend(so, sh, IsOngoing);
    FilterAppend(so, sh, IsCompleted);
    FilterAll(so, IsOngoing);
    FilterNone(sh, IsOngoing);
    FilterNone(so, IsCompleted);
    FilterAll(sh, IsCompleted);
  }

  lemma {:induction false} DecodeMappedOrders(xs: seq<Order>)
    requires forall j :: 0 <= j < |xs| ==> DecodeOrder(EncodeOrder(xs[j])) == Some(Stored(xs[j]))
    ensures MapNotNull(MapSeq(xs, EncodeOrder), DecodeOrder) == MapSeq(xs, Stored)
  {
    if xs != [] {
      var m := MapSeq(xs, EncodeOrder);
      assert m[1..] == MapSeq(xs[1..], EncodeOrder);
      DecodeMappedOrders(xs[1..]);
      assert MapSeq(xs, Stored) == [Stored(xs[0])] + MapSeq(xs[1..], Stored);
    }
  }

  /** The user document a sync writes restores every field the repository
      takes over; a missing photo URL comes back as "". */
  lemma DecodeEncodeUserDoc(uid: string, email: string, fullName: string, photoUrl: Option<string>, phoneNumber: string,
                            deliveryLocation: string, stamps: int, points: int, updatedAt: string)
    requires IsInt(stamps) && IsInt(points)
    ensures DecodeUserDoc(EncodeUserDoc(uid, email, fullName, photoUrl, phoneNumber, deliveryLocation, stamps, points, updatedAt))
      == UserFields(Some(fullName), Some(phoneNumber), Some(deliveryLocation), Some(photoUrl.GetOr("")), Some(stamps), Some(points), true)
  {
  }
}
