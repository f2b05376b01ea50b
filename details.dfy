/** The product details screen: an option editor for one product whose
    quantity never drops below 1, with the live price of the current option. */
module Details {
  import opened Model
  import opened Pricing
  import Cart
  import opened Repository

  /** The option the screen opens with and `reset` restores. */
  const InitialOption := ProductOption(1, Single, Iced, Medium, Full)

  class DetailsViewModel {
    const repo: MainRepository
    const product: string
    var option: ProductOption

    /** The quantity shown is at least 1. */
    ghost predicate Valid()
      reads this
    {
      option.quantity >= 1
    }

    /** The price shown: `getPrice` of the product and the current option,
        never below the 2.00 that one small single-shot drink of the cheapest
        base costs while the editor is valid. */
    function Price(): (r: real)
      reads this
      ensures Valid() ==> r >= 2.0
    {
      GetPrice(product, option)
    }

    /** The price of one drink with the current option. */
    function UnitPrice(): real
      reads this
    {
      GetPrice(product, option.(quantity := 1))
    }

    constructor (repository: MainRepository, productName: string)
      ensures repo == repository && product == productName
      ensures option == InitialOption
      ensures Valid()
    {
      repo := repository;
      product := productName;
      option := InitialOption;
    }

    /** `incQuantity`: one more drink; the price grows by one unit price. */
    method IncQuantity()
      modifies this`option
      ensures option == old(option).(quantity := old(option).quantity + 1)
      ensures Price() == old(Price()) + UnitPrice()
      ensures old(Valid()) ==> Valid()
    {
      GetPriceAdditive(product, option, option.quantity, 1);
      option := option.(quantity := option.quantity + 1);
    }

    /** `decQuantity`: one drink fewer, but never fewer than one. */
    method DecQuantity()
      modifies this`option
      ensures option == old(option).(quantity := if old(option).quantity - 1 >= 1 then old(option).quantity - 1 else 1)
      ensures old(option).quantity > 1 ==> Price() == old(Price()) - UnitPrice()
      ensures Valid()
    {
      if option.quantity - 1 >= 1 {
        GetPriceAdditive(product, option, option.quantity - 1, 1);
      }
      option := option.(quantity := if option.quantity - 1 >= 1 then option.quantity - 1 else 1);
    }

    method SetShot(shot: ShotType)
      modifies this`option
      ensures option == old(option).(shot := shot)
      ensures old(Valid()) ==> Valid()
    {
      option := option.(shot := shot);
    }

    /** `setTemperature`: only the temperature changes, and the price not at all. */
    method SetTemperature(temperature: TemperatureType)
      modifies this`option
      ensures option == old(option).(temperature := temperature)
      ensures Price() == old(Price())
      ensures old(Valid()) ==> Valid()
    {
      GetPriceIgnoresTemperatureAndIce(product, option, temperature, option.ice);
      option := option.(temperature := temperature);
    }

    method SetSize(size: SizeType)
      modifies this`option
      ensures option == old(option).(size := size)
      ensures old(Valid()) ==> Valid()
    {
      option := option.(size := size);
    }

    /** `setIce`: only the ice level changes, and the price not at all. */
    method SetIce(ice: IceType)
      modifies this`option
      ensures option == old(option).(ice := ice)
      ensures Price() == old(Price())
      ensures old(Valid()) ==> Valid()
    {
      GetPriceIgnoresTemperatureAndIce(product, option, option.temperature, ice);
      option := option.(ice := ice);
    }

    /** `reset`: back to the opening option. */
    method Reset()
      modifies this`option
      ensures option == InitialOption
      ensures Valid()
    {
      option := InitialOption;
    }

    /** `addToCart`: the current option goes to the repository unchanged. */
    method AddToCart(newId: string)
      modifies repo`cart
      ensures repo.cart == Cart.AddToCart(old(repo.cart), product, option, newId)
      ensures old(repo.Valid()) && Valid() ==> repo.Valid()
    {
      repo.AddToCart(product, option, newId);
    }
  }
}
