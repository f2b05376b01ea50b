/** The app's value types: the option set a drink is ordered with, cart lines,
    orders, points-history entries, redeemable drinks, voucher templates and
    owned vouchers. */
module Model {
  import opened Wrappers

  datatype ShotType = Single | Double {
    /** The enum constant's `name`. */
    function Name(): string {
      match this
      case Single => "SINGLE"
      case Double => "DOUBLE"
    }
  }

  datatype TemperatureType = Hot | Iced {
    function Name(): string {
      match this
      case Hot => "HOT"
      case Iced => "ICED"
    }
  }

  datatype SizeType = Small | Medium | Large {
    function Name(): string {
      match this
      case Small => "SMALL"
      case Medium => "MEDIUM"
      case Large => "LARGE"
    }
  }

  datatype IceType = Less | Half | Full {
    function Name(): string {
      match this
      case Less => "LESS"
      case Half => "HALF"
      case Full => "FULL"
    }
  }

  datatype OrderStatus = Ongoing | Completed {
    function Name(): string {
      match this
      case Ongoing => "ONGOING"
      case Completed => "COMPLETED"
    }
  }

  /** The options a drink is ordered with. Two option sets have the same
      "shape" when they agree on everything but the quantity. */
  datatype ProductOption = ProductOption(
    quantity: int,
    shot: ShotType,
    temperature: TemperatureType,
    size: SizeType,
    ice: IceType)

  /** A cart line; `price` is the full price of the line, quantity included. */
  datatype CartItem = CartItem(id: string, product: string, price: real, option: ProductOption)

  datatype Order = Order(
    id: string,
    product: string,
    datetime: string,
    price: real,
    address: string,
    option: ProductOption,
    paymentMethod: Option<string>,
    couponPercent: int,
    status: OrderStatus)

  /** A points-history entry: positive points were earned, negative spent. */
  datatype PointReward = PointReward(id: string, product: string, datetime: string, points: int)

  /** A drink that can be obtained for points. */
  datatype Redeemable = Redeemable(id: string, product: string, validUntil: string, pointsRequired: int)

  /** A voucher template, purchasable for points (`labelText` is the Kotlin field
      `label`, a reserved word here). */
  datatype Coupon = Coupon(id: string, labelText: string, percentOff: int)

  /** A voucher the user holds, with how many of it. */
  datatype VoucherOwned = VoucherOwned(voucherId: string, labelText: string, percentOff: int, quantity: int)

  /** The option a redeemed drink is ordered with: one single-shot hot medium
      drink with full ice. */
  const RedeemOption := ProductOption(1, Single, Hot, Medium, Full)
}
