# Coffee-booking app: a verified model

This project models the state and rules of a coffee-ordering Android app in
Dafny and proves what they promise. The app is written in Kotlin.

- **The repository.** A singleton holds the cart, the loyalty points and
  their history, the stamp card, owned vouchers, ongoing and completed
  orders and the user's profile. It writes them to a document store and
  reads them back. Here it is a class whose methods change exactly the
  fields the Kotlin functions change (`repository.dfy`). Beside it are
  value-level modules:
  - line pricing (`pricing.dfy`);
  - the product catalog (`catalog.dfy`);
  - cart merging (`cart.dfy`);
  - voucher counts (`vouchers.dfy`);
  - what a checkout derives from the cart (`checkout.dfy`);
  - the stored document schema with its encoders and decoders (`codec.dfy`).
- **The document store.** It is a map from document id to document. The
  sync's writes apply to it in order (`store.dfy`). This is where the two
  findings below are stated and proved.
- **The screens' view models.** A class per view model:
  - payment: the voucher discount and confirmation (`payment.dfy`);
  - product details: the option editor and its live price (`details.dfy`);
  - sign-up and login validation chains (`signup.dfy`, `login.dfy`);
  - drink recommendations: post-processing of the language model's reply
    (`recommendation.dfy`).
- **Picture lookup.** The drink-picture resource-name normalisation and its
  candidate names (`avatar.dfy`).

Generic sequence helpers are in `lists.dfy`, Kotlin's string functions in
`text.dfy`, and `Option`/`Result` in `wrappers.dfy`.

Conventions:
- Ids, the clock and the store's documents are parameters.
- A checkout draws its ids from a function `ids: nat -> string`. Line `i`
  takes `ids(2i)` for its points entry and `ids(2i+1)` for its order.
- Money is an exact `real`, and every contract about money holds on exact
  reals. The app's `round` (half to even) and `toInt` (truncation) are
  written out. Kotlin's `Double` rounds the result of every operation to 53
  significant bits; `Pricing.RoundToDouble` models that rounding, and two
  lemmas use it to show inputs where the app's `Double` results differ
  from the exact ones (see "## Findings" and "## Left out").
- Integers read from the store are narrowed to 32 bits explicitly.
- The clock is a function `clock: nat -> string` read in call order. A
  checkout's orders share its first reading, `clock(0)`. The points entry of
  line `i` takes the reading its own `addPoints` call makes, `clock(i + 1)`.

## Model

| member | source | states |
|---|---|---|
| Pricing.GetPrice | src/main/java/com/example/mobilcoffeebookingappmidterm2025/data/MainRepository.kt:339-364 | a line of a non-negative quantity costs at least 0, and of one or more drinks at least 2.00 (the cheapest small single-shot drink) |
| Pricing.GetPriceLinear | src/main/java/com/example/mobilcoffeebookingappmidterm2025/data/MainRepository.kt:363 | the price of a line is the quantity times the price of one drink |
| Pricing.GetPriceAdditive | src/main/java/com/example/mobilcoffeebookingappmidterm2025/data/MainRepository.kt:300-304 | a line of q1 + q2 drinks costs what lines of q1 and q2 drinks of the same option cost together, so a merged cart line is priced as the two additions |
| Pricing.PriceOfMerge | src/main/java/com/example/mobilcoffeebookingappmidterm2025/data/MainRepository.kt:298-304 | adding the quantity of an option to a line of the same shot and size costs what the two cost apart, whatever their temperature and ice |
| Pricing.GetPriceIgnoresTemperatureAndIce | src/main/java/com/example/mobilcoffeebookingappmidterm2025/data/MainRepository.kt:349-363 | temperature and ice never change the price |
| Pricing.GetPriceIgnoresCase | src/main/java/com/example/mobilcoffeebookingappmidterm2025/data/MainRepository.kt:341 | the product name is looked up after lower-casing, so its case does not matter |
| Pricing.GetPriceDefaultBase | src/main/java/com/example/mobilcoffeebookingappmidterm2025/data/MainRepository.kt:341-347 | a name outside americano, cappuccino, latte and flat white is priced from a base of 3.00 |
| Pricing.LattePrice | src/main/java/com/example/mobilcoffeebookingappmidterm2025/data/MainRepository.kt:339-364 | one medium single-shot latte costs 3.50 |
| Pricing.SmallCappuccinoPrice | src/main/java/com/example/mobilcoffeebookingappmidterm2025/data/MainRepository.kt:339-364 | one small single-shot cappuccino costs 3.00 * 0.8 = 2.40 |
| Pricing.LargeFlatWhitePrice | src/main/java/com/example/mobilcoffeebookingappmidterm2025/data/MainRepository.kt:339-364 | one large single-shot flat white costs 3.25 * 1.3 = 4.225 on exact reals |
| Pricing.RoundHalfEven | src/main/java/com/example/mobilcoffeebookingappmidterm2025/data/MainRepository.kt:569 | `round` gives an integer within one half of its argument, and the even one on a tie |
| Pricing.RoundHalfEvenUnique | src/main/java/com/example/mobilcoffeebookingappmidterm2025/data/MainRepository.kt:569 | those two properties determine the result of `round` |
| Pricing.Round2 | src/main/java/com/example/mobilcoffeebookingappmidterm2025/data/MainRepository.kt:569 | rounding to two decimals gives a whole number of cents within half a cent, never negative for a non-negative amount |
| Pricing.Round2OfCents | src/main/java/com/example/mobilcoffeebookingappmidterm2025/data/MainRepository.kt:569 | an amount already in whole cents is left unchanged by the rounding |
| Pricing.RoundToDouble | src/main/java/com/example/mobilcoffeebookingappmidterm2025/data/MainRepository.kt:531 | the `Double` result of an operation whose exact value lies in the binade [2^e, 2^(e+1)) is within half a gap of 2^(e-52) of that value, and not negative |
| Pricing.TruncToInt | src/main/java/com/example/mobilcoffeebookingappmidterm2025/data/MainRepository.kt:531 | `toInt` truncates toward zero: the result is the integer part of its argument, on either side of zero |
| Text.Trim | src/main/java/com/example/mobilcoffeebookingappmidterm2025/ui/auth/SignUpViewModel.kt:69-70 | `trim` gives the slice of the input between its leading and trailing whitespace; the result is empty exactly when the input is blank, and otherwise begins and ends with a non-whitespace character |
| Text.TrimIdempotent | src/main/java/com/example/mobilcoffeebookingappmidterm2025/ui/recommendation/RecommendationViewModel.kt:134-136 | trimming a trimmed string changes nothing |
| Text.TrimmedBlankIsEmpty | src/main/java/com/example/mobilcoffeebookingappmidterm2025/ui/recommendation/RecommendationViewModel.kt:136-137 | a trimmed line is blank exactly when it is empty |
| Text.Utf16Length | src/main/java/com/example/mobilcoffeebookingappmidterm2025/ui/auth/SignUpViewModel.kt:92 | Kotlin's `length` counts UTF-16 code units: between one and two per character, exactly one per character for a string inside the Basic Multilingual Plane, and zero only for the empty string |
| Text.Utf16LengthOfAstral | src/main/java/com/example/mobilcoffeebookingappmidterm2025/ui/auth/SignUpViewModel.kt:92 | three emoji outside the Basic Multilingual Plane have length 6 |
| Text.ToLowerIdempotent | src/main/java/com/example/mobilcoffeebookingappmidterm2025/data/MainRepository.kt:341 | lower-casing leaves no upper-case letter, so lower-casing twice is lower-casing once |
| Text.ToLower | src/main/java/com/example/mobilcoffeebookingappmidterm2025/ui/Utils.kt:36 | `lowercase()` keeps the length, maps each upper-case ASCII letter to its lower-case letter and keeps every other character |
| Text.EqualsIgnoreCase | src/main/java/com/example/mobilcoffeebookingappmidterm2025/ui/recommendation/RecommendationViewModel.kt:141 | `equals(ignoreCase = true)` holds exactly when the strings have the same length and agree character by character after lower-casing, and always for equal strings |
| Text.Split | src/main/java/com/example/mobilcoffeebookingappmidterm2025/ui/recommendation/RecommendationViewModel.kt:135 | `split` on one character gives at least one piece, no piece holds the separator, and joining the pieces with it gives the input back |
| Catalog.ProductNames | src/main/java/com/example/mobilcoffeebookingappmidterm2025/data/MainRepository.kt:269 | `getProducts` lists the catalog names one per product, in catalog order |
| Catalog.ProductPrice | src/main/java/com/example/mobilcoffeebookingappmidterm2025/data/MainRepository.kt:273 | `getProductPrice` gives the base price of the first product with exactly that name, and 3.50 when no product has it |
| PriceTables.CatalogHead | src/main/java/com/example/mobilcoffeebookingappmidterm2025/data/MainRepository.kt:78-86 | the first six catalog products, with their categories and base prices |
| PriceTables.CappuccinoTablesDiffer | src/main/java/com/example/mobilcoffeebookingappmidterm2025/data/MainRepository.kt:81 | `getPrice` prices a cappuccino from 3.00 while `getProductPrice` gives 3.50 |
| PriceTables.MochaPricedFromDefault | src/main/java/com/example/mobilcoffeebookingappmidterm2025/data/MainRepository.kt:85 | a mocha, which the pricing table lacks, is priced from 3.00 while the catalog lists it at 4.00 |
| Cart.AddToCart | src/main/java/com/example/mobilcoffeebookingappmidterm2025/data/MainRepository.kt:288-323 | when a line of the same product and shot, temperature, size and ice exists, the first such line keeps its id, product and position, its quantity becomes the sum and its price is recomputed, and every other line is unchanged; otherwise exactly one new line with the new id and the option's price is appended |
| Cart.RemoveFromCart | src/main/java/com/example/mobilcoffeebookingappmidterm2025/data/MainRepository.kt:329-331 | the cart loses exactly its first line with the id, every other line staying in order, and the multiset of lines loses exactly that line |
| Cart.AddToCartTotal | src/main/java/com/example/mobilcoffeebookingappmidterm2025/data/MainRepository.kt:298-322 | adding keeps every line priced by `getPrice` and raises the cart total by exactly the price of the added option |
| Cart.MergedPrice | src/main/java/com/example/mobilcoffeebookingappmidterm2025/data/MainRepository.kt:298-304 | a merged line whose price was current costs its old price plus the price of the added option |
| Cart.AddToCartShapesDistinct | src/main/java/com/example/mobilcoffeebookingappmidterm2025/data/MainRepository.kt:288-323 | adding never creates a second line of a shape already in the cart |
| Cart.AddTwiceMerges | src/main/java/com/example/mobilcoffeebookingappmidterm2025/data/MainRepository.kt:288-323 | two additions of one shape to a cart without it leave a single new line, with the first id, the summed quantity and the price for it |
| Cart.RemoveFromCartTotal | src/main/java/com/example/mobilcoffeebookingappmidterm2025/data/MainRepository.kt:329-331 | removing a line lowers the cart total by that line's price |
| Vouchers.CouponsAfterPurchase | src/main/java/com/example/mobilcoffeebookingappmidterm2025/data/MainRepository.kt:471-477 | the coupon list keeps its prefix, afterwards holds the voucher's id, and is unchanged exactly when the id was already there |
| Vouchers.CouponsAfterPurchaseIdempotent | src/main/java/com/example/mobilcoffeebookingappmidterm2025/data/MainRepository.kt:471-477 | buying the same voucher twice leaves the coupon list as buying it once |
| Vouchers.PositiveOnlyCounts | src/main/java/com/example/mobilcoffeebookingappmidterm2025/data/MainRepository.kt:447 | dropping entries of quantity 0 keeps every held count, adds no entry and leaves only positive quantities |
| Vouchers.IncrementMatchingCounts | src/main/java/com/example/mobilcoffeebookingappmidterm2025/data/MainRepository.kt:452-458 | raising a voucher's entries adds one per entry to its held count and leaves every other count and every entry in place |
| Vouchers.DecrementMatchingCounts | src/main/java/com/example/mobilcoffeebookingappmidterm2025/data/MainRepository.kt:509-515 | lowering a voucher's entries takes one per entry from its held count and leaves every other count |
| Vouchers.CountsAppend | src/main/java/com/example/mobilcoffeebookingappmidterm2025/data/MainRepository.kt:461-466 | appending an entry adds its quantity to the count of its id only |
| Vouchers.EntriesZero | src/main/java/com/example/mobilcoffeebookingappmidterm2025/data/MainRepository.kt:449 | no entry has the id exactly when `find` by that id fails |
| Vouchers.OwnedAfterPurchase | src/main/java/com/example/mobilcoffeebookingappmidterm2025/data/MainRepository.kt:445-468 | after a purchase every owned entry has positive quantity, and at most one entry more than before exists |
| Vouchers.OwnedAfterUse | src/main/java/com/example/mobilcoffeebookingappmidterm2025/data/MainRepository.kt:508-516 | after a use every owned entry has positive quantity, and no entry is added |
| Vouchers.PurchaseCounts | src/main/java/com/example/mobilcoffeebookingappmidterm2025/data/MainRepository.kt:445-468 | a purchase raises the bought voucher's held count by exactly one, leaves every other count alone, keeps at most one entry per id and leaves no entry of quantity 0 |
| Vouchers.PurchaseKeepsUniqueIds | src/main/java/com/example/mobilcoffeebookingappmidterm2025/data/MainRepository.kt:445-468 | a purchase keeps one entry per id and only positive quantities |
| Vouchers.UseCounts | src/main/java/com/example/mobilcoffeebookingappmidterm2025/data/MainRepository.kt:508-516 | using a held voucher lowers its count by exactly one, leaves every other count alone, keeps at most one entry per id and leaves no entry of quantity 0 |
| Vouchers.DecrementEntries | src/main/java/com/example/mobilcoffeebookingappmidterm2025/data/MainRepository.kt:509-515 | lowering quantities keeps the entries of every id |
| Vouchers.UseKeepsUniqueIds | src/main/java/com/example/mobilcoffeebookingappmidterm2025/data/MainRepository.kt:508-516 | a use keeps one entry per id and only positive quantities |
| Vouchers.UniqueIdsDistinct | src/main/java/com/example/mobilcoffeebookingappmidterm2025/data/MainRepository.kt:449 | with at most one entry per id, no two entries share an id |
| Checkout.LinePrice | src/main/java/com/example/mobilcoffeebookingappmidterm2025/data/MainRepository.kt:567-569 | on exact reals, an order's price is in whole cents, within half a cent of the discounted line price, and not negative for a discount of at most 100% |
| Checkout.DiscountedNonNegative | src/main/java/com/example/mobilcoffeebookingappmidterm2025/data/MainRepository.kt:567 | a price that is not negative stays so under a discount of at most 100% |
| Checkout.PointsEarned | src/main/java/com/example/mobilcoffeebookingappmidterm2025/data/MainRepository.kt:531 | a non-negative payment earns the whole number of cents it holds, rounded down |
| Checkout.PointsOfCents | src/main/java/com/example/mobilcoffeebookingappmidterm2025/data/MainRepository.kt:531 | on exact reals, a payment in whole cents earns exactly one point per cent |
| Checkout.DoublePointsEarned | src/main/java/com/example/mobilcoffeebookingappmidterm2025/data/MainRepository.kt:531 | `(price * 100).toInt()` as written on `Double`s: the product is first rounded to a `Double`, and the points are that `Double` rounded down, never negative |
| Checkout.WholeCentOrderLosesAPoint | src/main/java/com/example/mobilcoffeebookingappmidterm2025/data/MainRepository.kt:531 | a small single cappuccino at 5% off is an order of 2.28, which earns 228 points on exact reals but 227 as written, because the `Double` nearest 2.28 times 100 is just below 228 |
| Checkout.LargeFlatWhiteRoundsUp | src/main/java/com/example/mobilcoffeebookingappmidterm2025/data/MainRepository.kt:567-569 | a large single flat white is 4.225 on exact reals, a tie that rounds to 4.22, but on `Double`s it is just above 4.225 and rounds to 4.23 |
| Checkout.StampAfterCheckout | src/main/java/com/example/mobilcoffeebookingappmidterm2025/data/MainRepository.kt:587-596 | a checkout adds one stamp below 8, and a count at or above 8 becomes 8 |
| Checkout.StampsAfterCheckouts | src/main/java/com/example/mobilcoffeebookingappmidterm2025/data/MainRepository.kt:586-596 | n checkouts from no stamps leave min(n, 8) |
| Checkout.CheckoutStep | src/main/java/com/example/mobilcoffeebookingappmidterm2025/data/MainRepository.kt:566-584 | each further cart line extends the orders by its own order and the points entries and points by its own entry, whose datetime is that line's own clock reading |
| Checkout.Orders | src/main/java/com/example/mobilcoffeebookingappmidterm2025/data/MainRepository.kt:566-584 | a checkout creates one order per cart line |
| Checkout.Rewards | src/main/java/com/example/mobilcoffeebookingappmidterm2025/data/MainRepository.kt:566-572 | a checkout records one points entry per cart line |
| Checkout.OrdersShape | src/main/java/com/example/mobilcoffeebookingappmidterm2025/data/MainRepository.kt:566-584 | N cart lines become N orders in cart order, order i carrying line i's product and option, its rounded discounted price, the percent, the checkout's one datetime reading, the address, the payment method and the i-th order id |
| Checkout.OrdersOngoing | src/main/java/com/example/mobilcoffeebookingappmidterm2025/data/MainRepository.kt:574-583 | every order a checkout creates is ONGOING, priced in whole cents and carries the coupon percent |
| Checkout.RewardsShape | src/main/java/com/example/mobilcoffeebookingappmidterm2025/data/MainRepository.kt:566-572 | N cart lines give N points entries in cart order, entry i earning the points of line i's rounded discounted price and carrying the clock reading of its own `addPoints` call |
| Checkout.PointsAreCentsOfOrders | src/main/java/com/example/mobilcoffeebookingappmidterm2025/data/MainRepository.kt:566-584 | on exact reals, the points a checkout earns are exactly 100 times the total of the orders it creates |
| Checkout.PointsNonNegative | src/main/java/com/example/mobilcoffeebookingappmidterm2025/data/MainRepository.kt:530-532 | with non-negative line prices and a percent of at most 100, a checkout's points entries and their sum are not negative |
| Checkout.Subtotal | src/main/java/com/example/mobilcoffeebookingappmidterm2025/ui/payment/PaymentViewModel.kt:66-73 | the subtotal of an empty cart is 0, and of a cart of non-negative line prices not negative |
| Checkout.OrdersTotalNearDiscounted | src/main/java/com/example/mobilcoffeebookingappmidterm2025/data/MainRepository.kt:567-569 | the orders' total differs from the unrounded discounted line prices by at most half a cent per line |
| Checkout.DiscountedSubtotalIsDiscount | src/main/java/com/example/mobilcoffeebookingappmidterm2025/ui/payment/PaymentViewModel.kt:67-69 | discounting each line and summing is discounting the subtotal |
| Checkout.OrdersTotalNearDiscountedSubtotal | src/main/java/com/example/mobilcoffeebookingappmidterm2025/data/MainRepository.kt:566-584 | the orders' total is the discounted subtotal up to half a cent per line |
| Codec.WrapToInt | src/main/java/com/example/mobilcoffeebookingappmidterm2025/data/MainRepository.kt:669 | `Long.toInt` keeps the low 32 bits: the result is an `Int` congruent to the input modulo 2^32, and an `Int` is kept |
| Codec.SaturateToInt | src/main/java/com/example/mobilcoffeebookingappmidterm2025/data/MainRepository.kt:716 | a truncated double out of the `Int` range is clamped to its nearer end, and one inside is kept |
| Codec.SaturateToLong | src/main/java/com/example/mobilcoffeebookingappmidterm2025/data/MainRepository.kt:669 | a truncated double is clamped to the `Long` range |
| Codec.NumberToInt | src/main/java/com/example/mobilcoffeebookingappmidterm2025/data/MainRepository.kt:716 | `(x as? Number)?.toInt()` gives an `Int` whenever it gives anything |
| Codec.GetString | src/main/java/com/example/mobilcoffeebookingappmidterm2025/data/MainRepository.kt:713-715 | `getString` reports a missing field exactly when the key is absent and a value exactly when the field holds a string |
| Codec.GetLongToInt | src/main/java/com/example/mobilcoffeebookingappmidterm2025/data/MainRepository.kt:669-671 | `getLong(..)?.toInt()` gives an `Int` whenever it gives anything |
| Codec.ShotFromName | src/main/java/com/example/mobilcoffeebookingappmidterm2025/data/MainRepository.kt:771 | `valueOf` finds the constant of that name, and only it |
| Codec.TemperatureFromName | src/main/java/com/example/mobilcoffeebookingappmidterm2025/data/MainRepository.kt:772-774 | `valueOf` finds the constant of that name, and only it |
| Codec.SizeFromName | src/main/java/com/example/mobilcoffeebookingappmidterm2025/data/MainRepository.kt:775 | `valueOf` finds the constant of that name, and only it |
| Codec.IceFromName | src/main/java/com/example/mobilcoffeebookingappmidterm2025/data/MainRepository.kt:776-778 | `valueOf` finds the constant of that name, and only it |
| Codec.StatusFromName | src/main/java/com/example/mobilcoffeebookingappmidterm2025/data/MainRepository.kt:798-803 | `valueOf` finds the status of that name, and only it |
| Codec.EncodeCartDoc | src/main/java/com/example/mobilcoffeebookingappmidterm2025/data/MainRepository.kt:937-954 | the cart document has exactly the keys id, items and updatedAt, the id `cart_doc`, and one stored item per cart line, in cart order |
| Codec.EncodeReward | src/main/java/com/example/mobilcoffeebookingappmidterm2025/data/MainRepository.kt:903-908 | a points-history document has exactly the keys id, product, datetime and points |
| Codec.EncodeVoucher | src/main/java/com/example/mobilcoffeebookingappmidterm2025/data/MainRepository.kt:919-924 | an owned-voucher document has exactly the keys voucherId, label, percentOff and quantity |
| Codec.EncodeOrder | src/main/java/com/example/mobilcoffeebookingappmidterm2025/data/MainRepository.kt:1007-1025 | an order document has exactly the nine keys of `orderToMap`, its option map exactly size, shot, temperature, ice and quantity |
| Codec.EncodeUserDoc | src/main/java/com/example/mobilcoffeebookingappmidterm2025/data/MainRepository.kt:880-891 | the user document has exactly the nine keys of the sync, and every key but stamps, points and updatedAt holds a string |
| Codec.RewardWrites | src/main/java/com/example/mobilcoffeebookingappmidterm2025/data/MainRepository.kt:902-912 | the sync puts one document per points entry, under the entry's id, in history order |
| Codec.VoucherWrites | src/main/java/com/example/mobilcoffeebookingappmidterm2025/data/MainRepository.kt:914-934 | every owned entry of positive quantity is put and every entry of quantity 0 is deleted, under its voucher id, and every write is for an owned entry of quantity 0 or more |
| Codec.OrderWrites | src/main/java/com/example/mobilcoffeebookingappmidterm2025/data/MainRepository.kt:963-981 | the sync puts one document per order under the order's id, the ongoing orders first and then the history |
| Codec.DecodeOption | src/main/java/com/example/mobilcoffeebookingappmidterm2025/data/MainRepository.kt:769-779 | a decoded option has each enum field named by the stored string or, when that is absent or not a string, by its default, and the stored quantity or 1; a name that no constant has drops the record |
| Codec.DecodeCartItem | src/main/java/com/example/mobilcoffeebookingappmidterm2025/data/MainRepository.kt:760-785 | a stored item that is not a map is dropped, and a decoded item has the stored id and product strings and the option decoded from the stored option map |
| Codec.LoadCart | src/main/java/com/example/mobilcoffeebookingappmidterm2025/data/MainRepository.kt:755-791 | no cart document leaves the cart; a missing or non-list items field gives the empty cart; otherwise at most one line per stored item |
| Codec.DecodeReward | src/main/java/com/example/mobilcoffeebookingappmidterm2025/data/MainRepository.kt:710-722 | a document without a string id is dropped, and a decoded entry has the stored id, product and datetime strings and an `Int` of points |
| Codec.LoadRewards | src/main/java/com/example/mobilcoffeebookingappmidterm2025/data/MainRepository.kt:706-723 | at most one entry per document, and exactly one when every document decodes |
| Codec.DecodeVoucher | src/main/java/com/example/mobilcoffeebookingappmidterm2025/data/MainRepository.kt:735-746 | a document without a string voucher id is dropped, and a decoded voucher has the stored id and label strings and `Int` percent and quantity |
| Codec.DecodeUserDoc | src/main/java/com/example/mobilcoffeebookingappmidterm2025/data/MainRepository.kt:664-671 | the user document is read completely exactly when no field has the wrong type; the name is taken whenever its own read does not throw, every later field when no read throws, and the points only then |
| Codec.LoadVouchers | src/main/java/com/example/mobilcoffeebookingappmidterm2025/data/MainRepository.kt:735-748 | the loaded owned vouchers all have positive quantity |
| Codec.DecodeOrder | src/main/java/com/example/mobilcoffeebookingappmidterm2025/data/MainRepository.kt:795-830 | a decoded order is COMPLETED exactly when its stored status is the string COMPLETED, so a missing or unknown status reads as ONGOING; a non-string status drops the order |
| Codec.LoadOrders | src/main/java/com/example/mobilcoffeebookingappmidterm2025/data/MainRepository.kt:833-837 | the loaded ongoing list holds only ONGOING orders and the history only COMPLETED ones |
| Codec.DecodeEncodeOption | src/main/java/com/example/mobilcoffeebookingappmidterm2025/data/MainRepository.kt:944-950 | an option stored with an `Int` quantity reads back unchanged |
| Codec.DecodeOptionDefaults | src/main/java/com/example/mobilcoffeebookingappmidterm2025/data/MainRepository.kt:769-779 | all option fields missing read as one single-shot hot medium drink with full ice |
| Codec.DecodeEncodeCartItem | src/main/java/com/example/mobilcoffeebookingappmidterm2025/data/MainRepository.kt:939-951 | a stored cart item reads back unchanged |
| Codec.LoadStoredCart | src/main/java/com/example/mobilcoffeebookingappmidterm2025/data/MainRepository.kt:937-954 | loading the cart document a sync writes gives back the cart |
| Codec.DecodeEncodeReward | src/main/java/com/example/mobilcoffeebookingappmidterm2025/data/MainRepository.kt:903-910 | a stored points entry reads back unchanged |
| Codec.LoadStoredRewards | src/main/java/com/example/mobilcoffeebookingappmidterm2025/data/MainRepository.kt:710-723 | the documents a sync writes into the points history, decoded in write order, load back as the same history |
| Codec.DecodeEncodeVoucher | src/main/java/com/example/mobilcoffeebookingappmidterm2025/data/MainRepository.kt:919-926 | a stored owned voucher reads back unchanged |
| Codec.LoadStoredVouchers | src/main/java/com/example/mobilcoffeebookingappmidterm2025/data/MainRepository.kt:914-934 | the documents a sync writes for owned vouchers, decoded in write order, load back as exactly the entries of positive quantity, in order |
| Codec.DecodeEncodeOrder | src/main/java/com/example/mobilcoffeebookingappmidterm2025/data/MainRepository.kt:1007-1025 | a stored order reads back unchanged except that a missing payment method comes back as "" |
| Codec.EncodedOrderFields | src/main/java/com/example/mobilcoffeebookingappmidterm2025/data/MainRepository.kt:1007-1025 | each key of a stored order document holds the matching field, with a missing payment method stored as "" |
| Codec.DecodeOrderFields | src/main/java/com/example/mobilcoffeebookingappmidterm2025/data/MainRepository.kt:795-830 | any document whose keys hold an order's fields decodes to that order as stored |
| Codec.LoadStoredOrders | src/main/java/com/example/mobilcoffeebookingappmidterm2025/data/MainRepository.kt:963-981 | the orders a sync writes, decoded in write order, load back into the same ongoing and history lists, each with a missing payment method read as "" |
| Codec.SplitStored | src/main/java/com/example/mobilcoffeebookingappmidterm2025/data/MainRepository.kt:833-834 | splitting stored ongoing-then-history orders by status separates the two lists again |
| Codec.DecodeEncodeUserDoc | src/main/java/com/example/mobilcoffeebookingappmidterm2025/data/MainRepository.kt:880-891 | the user document a sync writes restores name, phone, location, photo URL (a missing one as ""), stamps and points |
| Store.ApplyPuts | src/main/java/com/example/mobilcoffeebookingappmidterm2025/data/MainRepository.kt:919-928 | putting documents of distinct ids adds or replaces exactly those documents and keeps every other one |
| Store.ApplyDeletes | src/main/java/com/example/mobilcoffeebookingappmidterm2025/data/MainRepository.kt:931-934 | deleting ids removes exactly those documents and keeps the rest unchanged |
| Store.SyncWritesMirror | src/main/java/com/example/mobilcoffeebookingappmidterm2025/data/MainRepository.kt:914-934 | a collection that held the previous list holds exactly the current list after putting every current element and deleting the elements that are gone |
| Store.FixedVoucherSyncMirrors | src/main/java/com/example/mobilcoffeebookingappmidterm2025/data/MainRepository.kt:914-934 | with deletion of vouchers no longer held, the owned-vouchers collection holds exactly the held vouchers after each sync |
| Store.FixedUseVoucherSync | src/main/java/com/example/mobilcoffeebookingappmidterm2025/data/MainRepository.kt:501-516 | after a voucher is used, the corrected sync leaves exactly the vouchers still held in the store |
| Store.UsedUpVoucherStaysStored | src/main/java/com/example/mobilcoffeebookingappmidterm2025/data/MainRepository.kt:914-934 | as written, for any voucher held once, using it drops its entry, so the zero-quantity delete never fires, the stored document keeps quantity 1 and a reload returns the voucher |
| Store.StoreOneVoucher | src/main/java/com/example/mobilcoffeebookingappmidterm2025/data/MainRepository.kt:914-928 | syncing one held voucher into an empty collection stores its document alone |
| Store.UseLastCopy | src/main/java/com/example/mobilcoffeebookingappmidterm2025/data/MainRepository.kt:501-516 | using the last copy of the only owned voucher leaves nothing owned |
| Store.LoadOneVoucher | src/main/java/com/example/mobilcoffeebookingappmidterm2025/data/MainRepository.kt:731-748 | the document of one held voucher loads back as that voucher |
| Store.FixedOrderSyncMirrors | src/main/java/com/example/mobilcoffeebookingappmidterm2025/data/MainRepository.kt:963-981 | with deletion of orders that are gone, and orders of distinct ids, the orders collection holds exactly the ongoing and history orders after each sync |
| Store.RemovedHistoryOrderStaysStored | src/main/java/com/example/mobilcoffeebookingappmidterm2025/data/MainRepository.kt:634-640 | as written, the sync only puts orders, so the document of a removed history order stays stored and a reload puts the order back into the history |
| Store.StoreOneOrder | src/main/java/com/example/mobilcoffeebookingappmidterm2025/data/MainRepository.kt:963-981 | syncing one order into an empty collection stores its document alone |
| Store.LoadOneCompletedOrder | src/main/java/com/example/mobilcoffeebookingappmidterm2025/data/MainRepository.kt:791-837 | the document of one completed order loads into the history alone |
| Store.SnapshotOfMirror | src/main/java/com/example/mobilcoffeebookingappmidterm2025/data/MainRepository.kt:706-710 | reading a whole collection that holds exactly one encoded document per element, in whatever order the store lists it, gives those documents, each once |
| Store.RewardSyncMirrors | src/main/java/com/example/mobilcoffeebookingappmidterm2025/data/MainRepository.kt:902-912 | a points-history collection that held the previous history holds exactly the current history after the sync, provided no entry left the history |
| Store.LoadRewardsFromStore | src/main/java/com/example/mobilcoffeebookingappmidterm2025/data/MainRepository.kt:706-723 | loading the whole points-history collection after a sync gives back the history as a multiset, whatever order the store lists the documents in |
| Store.LoadVouchersFromStore | src/main/java/com/example/mobilcoffeebookingappmidterm2025/data/MainRepository.kt:731-748 | loading a collection that holds exactly the held vouchers gives them back as a multiset, in any listing order |
| Store.LoadOrdersFromStore | src/main/java/com/example/mobilcoffeebookingappmidterm2025/data/MainRepository.kt:791-837 | loading a collection that holds exactly the ongoing and history orders gives the two lists back as multisets, in any listing order, with a missing payment method read as "" |
| Repository.FoundOrderRemoval | src/main/java/com/example/mobilcoffeebookingappmidterm2025/data/MainRepository.kt:613-616 | `list - order` after `find` by id fails exactly when no order has the id, and otherwise removes exactly the first order with it, keeping a single-status list single-status |
| Repository.FoundLineRemoval | src/main/java/com/example/mobilcoffeebookingappmidterm2025/data/MainRepository.kt:330-331 | `cart - item` after `find` by id fails exactly when no line has the id, and otherwise is the cart without its first line with it |
| Repository.CheckoutKeepsInvariant | src/main/java/com/example/mobilcoffeebookingappmidterm2025/data/MainRepository.kt:566-599 | a checkout appends only ONGOING orders and, for a percent of at most 100, earns no negative points and keeps the repository invariant |
| Repository.MainRepository.constructor | src/main/java/com/example/mobilcoffeebookingappmidterm2025/data/MainRepository.kt:40-69 | the starting state: no user, no stamps or points, the two redeemables, the two purchasable vouchers, the two coupons, the mock phone and location, and an empty cart and order lists |
| Repository.MainRepository.ResetStampCount | src/main/java/com/example/mobilcoffeebookingappmidterm2025/data/MainRepository.kt:276-283 | the stamp count becomes 0 whatever it was |
| Repository.MainRepository.AddToCart | src/main/java/com/example/mobilcoffeebookingappmidterm2025/data/MainRepository.kt:285-327 | the cart becomes the merge-or-append of the addition, and a non-negative quantity keeps the repository invariant |
| Repository.MainRepository.RemoveFromCart | src/main/java/com/example/mobilcoffeebookingappmidterm2025/data/MainRepository.kt:329-336 | returns false with the cart unchanged exactly when no line has the id, otherwise removes exactly the first line with it |
| Repository.MainRepository.RedeemDrink | src/main/java/com/example/mobilcoffeebookingappmidterm2025/data/MainRepository.kt:374-424 | succeeds exactly for a known redeemable and enough points; then points drop by its cost, one entry of minus the cost is recorded and one free ONGOING order with the redemption option to the delivery location is appended; otherwise nothing changes; points never go negative |
| Repository.MainRepository.PurchaseVoucher | src/main/java/com/example/mobilcoffeebookingappmidterm2025/data/MainRepository.kt:432-495 | succeeds exactly for a known voucher and at least 300 points; then points drop by 300, the held count of the voucher rises by exactly one, the coupon list gains it if new and one entry of -300 is recorded; otherwise nothing changes |
| Repository.MainRepository.PayForVoucher | src/main/java/com/example/mobilcoffeebookingappmidterm2025/data/MainRepository.kt:442-480 | from at least 300 points: points drop by 300, owned vouchers, coupons and points history become their purchase updates, and a repository that met its invariant still does, holding one more copy of the voucher |
| Repository.PurchaseKeepsConsistent | src/main/java/com/example/mobilcoffeebookingappmidterm2025/data/MainRepository.kt:445-468 | a purchase from at least 300 points keeps the invariant (points not negative, stamps in 0..8, held vouchers positive with distinct ids, cart lines well-formed, each order list at its status) and raises the voucher's held count by exactly one |
| Repository.MainRepository.UseVoucher | src/main/java/com/example/mobilcoffeebookingappmidterm2025/data/MainRepository.kt:501-524 | fails with no change when the voucher's first entry is missing or not positive; otherwise its held count drops by exactly one and entries reaching 0 are removed; the entries then stay one per id and positive |
| Repository.MainRepository.AddPoints | src/main/java/com/example/mobilcoffeebookingappmidterm2025/data/MainRepository.kt:530-545 | points rise by the whole cents of the price and one entry with those points is recorded |
| Repository.MainRepository.CheckOut | src/main/java/com/example/mobilcoffeebookingappmidterm2025/data/MainRepository.kt:560-610 | fails with no change on an empty cart; otherwise appends the cart's orders at the override or default address, records their points entries and points, awards one stamp up to 8 and empties the cart |
| Repository.MainRepository.PlaceOrders | src/main/java/com/example/mobilcoffeebookingappmidterm2025/data/MainRepository.kt:566-584 | the loop over the cart lines yields exactly the checkout's orders and records exactly its points entries and points |
| Repository.MainRepository.PlaceLine | src/main/java/com/example/mobilcoffeebookingappmidterm2025/data/MainRepository.kt:566-583 | one cart line adds one points entry for its rounded discounted price, with the clock reading of its own `addPoints` call, raises the points by that entry's points, and becomes the order of that line with the checkout's datetime |
| Repository.MainRepository.MoveToHistory | src/main/java/com/example/mobilcoffeebookingappmidterm2025/data/MainRepository.kt:612-621 | the ongoing and history lists become `MoveBetween` of the old ones: the first ongoing order with the id leaves the ongoing list and is appended to the history as COMPLETED, an unknown id changes nothing; the repository invariant is kept |
| Repository.MainRepository.MoveToOngoing | src/main/java/com/example/mobilcoffeebookingappmidterm2025/data/MainRepository.kt:623-632 | the history and ongoing lists become `MoveBetween` of the old ones: the first history order with the id leaves the history and is appended to the ongoing list as ONGOING, an unknown id changes nothing; the repository invariant is kept |
| Repository.MoveBetween | src/main/java/com/example/mobilcoffeebookingappmidterm2025/data/MainRepository.kt:612-632 | with k the index of the first order with the id in the source list: no such order leaves both lists as they are; otherwise the source loses exactly its element k and the target gains that order, with the new status, at its end, so no order is lost or duplicated |
| Repository.MoveKeepsStatus | src/main/java/com/example/mobilcoffeebookingappmidterm2025/data/MainRepository.kt:612-632 | moving keeps every order of the source list at the source's status and every order of the target list at the new status |
| Repository.MainRepository.RemoveHistoryOrder | src/main/java/com/example/mobilcoffeebookingappmidterm2025/data/MainRepository.kt:634-640 | the first history order with the id is deleted and nothing else changes; an unknown id changes nothing |
| Repository.MainRepository.ResetForNewUser | src/main/java/com/example/mobilcoffeebookingappmidterm2025/data/MainRepository.kt:677-688 | a new user gets the account's name and email, the mock contact details and no stamps, points, history, vouchers, cart or orders |
| Repository.MainRepository.ResetProfile | src/main/java/com/example/mobilcoffeebookingappmidterm2025/data/MainRepository.kt:677-681 | the name and email become the account's, or empty when it has none; phone and location become the mock defaults and the photo URL is cleared |
| Repository.MainRepository.ResetProgress | src/main/java/com/example/mobilcoffeebookingappmidterm2025/data/MainRepository.kt:682-688 | stamps and points become 0 and points history, owned vouchers, cart and both order lists become empty, which meets the repository invariant |
| Repository.EmptyStateParts | src/main/java/com/example/mobilcoffeebookingappmidterm2025/data/MainRepository.kt:682-688 | empty lists meet each list part of the repository invariant |
| Repository.MainRepository.Logout | src/main/java/com/example/mobilcoffeebookingappmidterm2025/data/MainRepository.kt:1223-1235 | logging out clears remember-me, the cart, both order lists and the stamps and ends the session, keeping points and vouchers |
| Repository.MainRepository.UpdateUserInfo | src/main/java/com/example/mobilcoffeebookingappmidterm2025/data/MainRepository.kt:1259-1262 | each given value replaces its field and every other field is kept |
| Repository.MainRepository.ApplyUserDoc | src/main/java/com/example/mobilcoffeebookingappmidterm2025/data/MainRepository.kt:664-671 | each field read from the user document replaces its local value and a field not read leaves it |
| Repository.MainRepository.LoadFromStore | src/main/java/com/example/mobilcoffeebookingappmidterm2025/data/MainRepository.kt:649-855 | with no user document the new-user defaults; otherwise the document's fields, then, when none of them had the wrong type, the loaded history, the held vouchers, the cart if it has a document and the orders split by status |
| Repository.MainRepository.LoadExistingUser | src/main/java/com/example/mobilcoffeebookingappmidterm2025/data/MainRepository.kt:662-855 | an existing user document's fields replace the local values they were read into; when none had the wrong type the collections are loaded, with held vouchers only and orders split by status, and otherwise they stay |
| Repository.MainRepository.LoadCollections | src/main/java/com/example/mobilcoffeebookingappmidterm2025/data/MainRepository.kt:706-837 | points history, owned vouchers, cart and the two order lists become the decodings of the loaded documents; held vouchers are positive and each order list holds only orders of its status |
| Payment.CouponPercent | src/main/java/com/example/mobilcoffeebookingappmidterm2025/ui/payment/PaymentViewModel.kt:93-99 | no selection gives 0, and a non-zero percent is the percentOff of an owned entry of the selected id with positive quantity |
| Payment.CouponPercentOfHeld | src/main/java/com/example/mobilcoffeebookingappmidterm2025/ui/payment/PaymentViewModel.kt:78-83 | with held vouchers of distinct ids, the percent is the selected voucher's percentOff, or 0 when it is not held |
| Payment.FinalPrice | src/main/java/com/example/mobilcoffeebookingappmidterm2025/ui/payment/PaymentViewModel.kt:77-89 | with no percent the final price is the subtotal, and for non-negative prices and a percent from 0 to 100 it lies between 0 and the subtotal |
| Payment.FinalPriceMatchesOrders | src/main/java/com/example/mobilcoffeebookingappmidterm2025/ui/payment/PaymentViewModel.kt:77-89 | the shown final price and the total of the orders the checkout then creates differ by at most half a cent per line |
| Payment.PaymentViewModel.constructor | src/main/java/com/example/mobilcoffeebookingappmidterm2025/ui/payment/PaymentViewModel.kt:60-64 | the edited address starts as the repository's delivery location, the method as CASH and no voucher is selected |
| Payment.PaymentViewModel.ConfirmPayment | src/main/java/com/example/mobilcoffeebookingappmidterm2025/ui/payment/PaymentViewModel.kt:91-110 | uses the selected voucher once exactly when its percent is positive, whatever the checkout then does, and returns the checkout at the edited address with that percent and the method's name |
| Details.DetailsViewModel.Price | src/main/java/com/example/mobilcoffeebookingappmidterm2025/ui/details/DetailsViewModel.kt:37-43 | the shown price is `getPrice` of the current option and at least 2.00 while the quantity is at least 1 |
| Details.DetailsViewModel.constructor | src/main/java/com/example/mobilcoffeebookingappmidterm2025/ui/details/DetailsViewModel.kt:25-33 | the editor opens on one single-shot iced medium drink with full ice |
| Details.DetailsViewModel.IncQuantity | src/main/java/com/example/mobilcoffeebookingappmidterm2025/ui/details/DetailsViewModel.kt:49-51 | the quantity grows by one, nothing else changes, and the price grows by one drink's price |
| Details.DetailsViewModel.DecQuantity | src/main/java/com/example/mobilcoffeebookingappmidterm2025/ui/details/DetailsViewModel.kt:53-55 | the quantity drops by one but never below 1, nothing else changes, and above 1 the price drops by one drink's price |
| Details.DetailsViewModel.SetShot | src/main/java/com/example/mobilcoffeebookingappmidterm2025/ui/details/DetailsViewModel.kt:57-59 | only the shot changes |
| Details.DetailsViewModel.SetTemperature | src/main/java/com/example/mobilcoffeebookingappmidterm2025/ui/details/DetailsViewModel.kt:61-63 | only the temperature changes, and the price stays |
| Details.DetailsViewModel.SetSize | src/main/java/com/example/mobilcoffeebookingappmidterm2025/ui/details/DetailsViewModel.kt:65-67 | only the size changes |
| Details.DetailsViewModel.SetIce | src/main/java/com/example/mobilcoffeebookingappmidterm2025/ui/details/DetailsViewModel.kt:69-71 | only the ice changes, and the price stays |
| Details.DetailsViewModel.Reset | src/main/java/com/example/mobilcoffeebookingappmidterm2025/ui/details/DetailsViewModel.kt:82-90 | the option is back to the opening one |
| Details.DetailsViewModel.AddToCart | src/main/java/com/example/mobilcoffeebookingappmidterm2025/ui/details/DetailsViewModel.kt:73-75 | the current option goes to the repository's cart unchanged |
| SignUp.SignUpErrorCases | src/main/java/com/example/mobilcoffeebookingappmidterm2025/ui/auth/SignUpViewModel.kt:75-100 | each failed check is reported exactly when it is the first to fail in the order empty email, no '@', empty username, empty password, password shorter than 6 UTF-16 code units (Kotlin's `length`), confirmation different; none exactly when all pass |
| SignUp.AstralPasswordAccepted | src/main/java/com/example/mobilcoffeebookingappmidterm2025/ui/auth/SignUpViewModel.kt:92 | a password of three emoji outside the Basic Multilingual Plane passes the length check, as its Kotlin length is 6 |
| SignUp.SignUpViewModel.constructor | src/main/java/com/example/mobilcoffeebookingappmidterm2025/ui/auth/SignUpViewModel.kt:13-38 | every field starts empty or false |
| SignUp.SignUpViewModel.SetEmail | src/main/java/com/example/mobilcoffeebookingappmidterm2025/ui/auth/SignUpViewModel.kt:40-43 | stores the value and clears the error |
| SignUp.SignUpViewModel.SetUsername | src/main/java/com/example/mobilcoffeebookingappmidterm2025/ui/auth/SignUpViewModel.kt:45-48 | stores the value and clears the error |
| SignUp.SignUpViewModel.SetPassword | src/main/java/com/example/mobilcoffeebookingappmidterm2025/ui/auth/SignUpViewModel.kt:50-53 | stores the value and clears the error |
| SignUp.SignUpViewModel.SetConfirmPassword | src/main/java/com/example/mobilcoffeebookingappmidterm2025/ui/auth/SignUpViewModel.kt:55-58 | stores the value and clears the error |
| SignUp.SignUpViewModel.TogglePasswordVisibility | src/main/java/com/example/mobilcoffeebookingappmidterm2025/ui/auth/SignUpViewModel.kt:60-62 | negates the flag |
| SignUp.SignUpViewModel.ToggleConfirmVisibility | src/main/java/com/example/mobilcoffeebookingappmidterm2025/ui/auth/SignUpViewModel.kt:64-66 | negates the flag |
| SignUp.SignUpViewModel.SignUp | src/main/java/com/example/mobilcoffeebookingappmidterm2025/ui/auth/SignUpViewModel.kt:68-104 | validates the trimmed email and username and the raw passwords, the password's length counted in UTF-16 code units; on failure sets the message and starts nothing with loading unchanged, on success starts the registration with the trimmed values and sets loading |
| SignUp.SignUpViewModel.OnRegisterSuccess | src/main/java/com/example/mobilcoffeebookingappmidterm2025/ui/auth/SignUpViewModel.kt:108-112 | loading ends, success is set and the error is cleared |
| SignUp.SignUpViewModel.OnRegisterFailure | src/main/java/com/example/mobilcoffeebookingappmidterm2025/ui/auth/SignUpViewModel.kt:113-116 | loading ends and the error becomes the message |
| Login.LoginErrorCases | src/main/java/com/example/mobilcoffeebookingappmidterm2025/ui/auth/LoginViewModel.kt:64-80 | each failed check is reported exactly when it is the first to fail in the order empty email, empty password, no '@'; none exactly when all pass |
| Login.CheckOrderDiffersFromSignUp | src/main/java/com/example/mobilcoffeebookingappmidterm2025/ui/auth/LoginViewModel.kt:64-80 | for an email without '@' and an empty password, login reports the empty password while sign-up reports the bad email, and the two messages differ |
| Login.LoginViewModel.constructor | src/main/java/com/example/mobilcoffeebookingappmidterm2025/ui/auth/LoginViewModel.kt:13-33 | every field starts empty or false except remember-me, which starts from the stored choice |
| Login.LoginViewModel.SetEmail | src/main/java/com/example/mobilcoffeebookingappmidterm2025/ui/auth/LoginViewModel.kt:35-38 | stores the value and clears the error |
| Login.LoginViewModel.SetPassword | src/main/java/com/example/mobilcoffeebookingappmidterm2025/ui/auth/LoginViewModel.kt:40-43 | stores the value and clears the error |
| Login.LoginViewModel.TogglePasswordVisibility | src/main/java/com/example/mobilcoffeebookingappmidterm2025/ui/auth/LoginViewModel.kt:45-47 | negates the flag |
| Login.LoginViewModel.SetRememberMe | src/main/java/com/example/mobilcoffeebookingappmidterm2025/ui/auth/LoginViewModel.kt:49-52 | stores the value |
| Login.LoginViewModel.Login | src/main/java/com/example/mobilcoffeebookingappmidterm2025/ui/auth/LoginViewModel.kt:54-89 | validates the trimmed email and the raw password; on failure sets the message and starts nothing with loading unchanged, on success starts the login with the trimmed email and the remember-me choice as is and sets loading |
| Login.LoginViewModel.OnLoginSuccess | src/main/java/com/example/mobilcoffeebookingappmidterm2025/ui/auth/LoginViewModel.kt:90-95 | loading ends, success is set and the error is cleared |
| Login.LoginViewModel.OnLoginFailure | src/main/java/com/example/mobilcoffeebookingappmidterm2025/ui/auth/LoginViewModel.kt:96-100 | loading ends and the error becomes the message |
| Recommendation.TrimmedLines | src/main/java/com/example/mobilcoffeebookingappmidterm2025/ui/recommendation/RecommendationViewModel.kt:134-136 | every line of the reply comes out trimmed |
| Recommendation.ReplyLines | src/main/java/com/example/mobilcoffeebookingappmidterm2025/ui/recommendation/RecommendationViewModel.kt:134-137 | the kept lines are exactly the non-empty trimmed lines of the reply: each kept line is one, and each one is kept |
| Recommendation.ValidDrinks | src/main/java/com/example/mobilcoffeebookingappmidterm2025/ui/recommendation/RecommendationViewModel.kt:140-142 | the valid drinks are exactly the kept lines that equal some catalog name ignoring case, spelled as in the reply: each valid drink is such a line, and each such line is a valid drink |
| Recommendation.ParseReply | src/main/java/com/example/mobilcoffeebookingappmidterm2025/ui/recommendation/RecommendationViewModel.kt:133-151 | an error exactly when no line names a catalog drink; otherwise the first min(n, 20) valid lines in reply order, each non-empty, trimmed, from the reply and in the catalog ignoring case |
| Recommendation.ParseReplyFailsExactly | src/main/java/com/example/mobilcoffeebookingappmidterm2025/ui/recommendation/RecommendationViewModel.kt:134-148 | a reply is rejected exactly when none of its non-empty trimmed lines equals a catalog name ignoring case |
| Recommendation.RecommendationViewModel.constructor | src/main/java/com/example/mobilcoffeebookingappmidterm2025/ui/recommendation/RecommendationViewModel.kt:25-35 | no recommendations, not loading, no error, and the catalog names as the product list |
| Recommendation.RecommendationViewModel.GetRecommendations | src/main/java/com/example/mobilcoffeebookingappmidterm2025/ui/recommendation/RecommendationViewModel.kt:41-56 | a parsed reply becomes the recommendations with no error; any failure empties them and sets the prefixed message; loading has ended either way and at most 20 names are shown |
| Avatar.DropNonAlnum | src/main/java/com/example/mobilcoffeebookingappmidterm2025/ui/Utils.kt:37 | the suffix of the input left after its leading characters outside [a-z0-9]: everything dropped is outside [a-z0-9], and what is left starts with one of [a-z0-9] unless empty |
| Avatar.ReplaceRuns | src/main/java/com/example/mobilcoffeebookingappmidterm2025/ui/Utils.kt:37 | the result holds only [a-z0-9_] and never two `_` in a row; its exact value is `ReplaceRunsByPieces`, its contents `ReplaceRunsKeepsAlnum` |
| Avatar.ReplaceRunsByPieces | src/main/java/com/example/mobilcoffeebookingappmidterm2025/ui/Utils.kt:37 | run replacement equals the character-by-character reference: each character of [a-z0-9] is kept in place, the first character of each maximal run outside it becomes one `_`, and the rest of the run vanishes |
| Avatar.ReplaceRunsKeepsAlnum | src/main/java/com/example/mobilcoffeebookingappmidterm2025/ui/Utils.kt:37 | removing the `_` from the result gives exactly the [a-z0-9] characters of the input, in order |
| Avatar.TrimUnderscores | src/main/java/com/example/mobilcoffeebookingappmidterm2025/ui/Utils.kt:38 | `trim('_')` gives the slice between the leading and trailing underscores, neither end an underscore |
| Avatar.TrimUnderscoresKeeps | src/main/java/com/example/mobilcoffeebookingappmidterm2025/ui/Utils.kt:38 | `trim('_')` removes only underscores |
| Avatar.Normalize | src/main/java/com/example/mobilcoffeebookingappmidterm2025/ui/Utils.kt:35-38 | the resource name holds only [a-z0-9_], has no `_` at either end and no `__`, and removing its `_` gives exactly the [a-z0-9] characters of the trimmed, lower-cased name, in order |
| Avatar.TrimUnderscoresGivesName | src/main/java/com/example/mobilcoffeebookingappmidterm2025/ui/Utils.kt:38 | trimming `_` off a string of [a-z0-9_] without `__` leaves a resource name |
| Avatar.ReplaceRunsOfName | src/main/java/com/example/mobilcoffeebookingappmidterm2025/ui/Utils.kt:37 | a string of [a-z0-9_] without `__` is left unchanged by run replacement |
| Avatar.NormalizeOfName | src/main/java/com/example/mobilcoffeebookingappmidterm2025/ui/Utils.kt:35-38 | a resource name normalises to itself |
| Avatar.NormalizeIdempotent | src/main/java/com/example/mobilcoffeebookingappmidterm2025/ui/Utils.kt:35-38 | normalising twice is normalising once |
| Avatar.ReplaceChar | src/main/java/com/example/mobilcoffeebookingappmidterm2025/ui/Utils.kt:46 | `replace('_', "-")` keeps the length and swaps exactly the underscores |
| Avatar.RemoveChar | src/main/java/com/example/mobilcoffeebookingappmidterm2025/ui/Utils.kt:44 | `replace("_", "")` keeps exactly the characters other than the underscore; `RemoveCharAppend` and `RemoveCharOne` pin the result down to order and multiplicity |
| Avatar.RemoveCharAppend | src/main/java/com/example/mobilcoffeebookingappmidterm2025/ui/Utils.kt:44 | removal distributes over concatenation |
| Avatar.RemoveCharOne | src/main/java/com/example/mobilcoffeebookingappmidterm2025/ui/Utils.kt:44 | a single character is removed exactly when it is the underscore, and kept otherwise |
| Avatar.RemoveCharNone | src/main/java/com/example/mobilcoffeebookingappmidterm2025/ui/Utils.kt:44 | a string of underscores only is removed entirely |
| Avatar.Candidates | src/main/java/com/example/mobilcoffeebookingappmidterm2025/ui/Utils.kt:41-47 | one to three distinct candidates, the resource name first, drawn exactly from the name, the name without underscores and the name with dashes |
| Avatar.CandidatesWithoutUnderscore | src/main/java/com/example/mobilcoffeebookingappmidterm2025/ui/Utils.kt:41-47 | a name without `_` is its only candidate |
| Avatar.CandidatesWithUnderscore | src/main/java/com/example/mobilcoffeebookingappmidterm2025/ui/Utils.kt:41-47 | a name with `_` has exactly three candidates: itself, without underscores, with dashes |
| Avatar.SpellingsDiffer | src/main/java/com/example/mobilcoffeebookingappmidterm2025/ui/Utils.kt:41-47 | with a `_` in the name, the name, the name without underscores and the name with dashes are pairwise different |
| Avatar.ReplaceRunsTwoWords | src/main/java/com/example/mobilcoffeebookingappmidterm2025/ui/Utils.kt:37 | two words of [a-z0-9] joined by a space come out joined by one `_` |
| Avatar.ReplaceRunsSpaceWord | src/main/java/com/example/mobilcoffeebookingappmidterm2025/ui/Utils.kt:37 | a space before a word starting with [a-z0-9] that run replacement keeps becomes one `_` |
| Avatar.ReplaceRunsPrefix | src/main/java/com/example/mobilcoffeebookingappmidterm2025/ui/Utils.kt:37 | a prefix of [a-z0-9] passes through run replacement unchanged |
| Avatar.FlatWhiteName | src/main/java/com/example/mobilcoffeebookingappmidterm2025/ui/Utils.kt:35-38 | "Flat White" normalises to flat_white |
| Avatar.FlatWhiteCandidates | src/main/java/com/example/mobilcoffeebookingappmidterm2025/ui/Utils.kt:41-47 | flat_white has the three candidates flat_white, without underscores and with dashes |

## Left out

- Remote I/O, authentication and callback chaining are not modelled. This
  covers sign-in, registration, the store's get and set calls, and their
  success and failure listeners. `LoadFromStore` models the case where every
  read succeeds. The sync is modelled as the writes it issues (`Codec.*Writes`,
  `Store.Apply`), not as the asynchronous tasks.
- A write with `SetOptions.merge` is modelled as replacing the document. Every
  write of a given collection carries the same fields, so the two agree.
- The `updatedAt` server timestamp, UUIDs and the clock are parameters.
- Coroutines, `delay(500)` and StateFlow reactivity are not modelled. In
  particular, `confirmPayment` reads the repository's owned vouchers directly,
  not through the view model's `stateIn` copy, which may lag behind.
- The `isLoading = true` that `getRecommendations` shows while the request
  runs is not modelled, because the method models the call once the request
  has finished.
- The HTTP request to the language model is not modelled: building it,
  sending it, the response codes, and the exception for a reply without
  choices. Its outcome is the `reply` parameter.
- SharedPreferences, the remember-me flag kept in the store, and reading
  secrets from assets are not modelled.
- The drawable lookup loop over the candidates is resource resolution and is
  not modelled. The other Compose screens are not modelled either.
- Floating point is modelled as exact reals, so binary rounding artefacts of
  `Double` are not reproduced, except by `Pricing.RoundToDouble` in the two
  lemmas `Checkout.WholeCentOrderLosesAPoint` and
  `Checkout.LargeFlatWhiteRoundsUp`.
- Checkout.PointsOfCents: holds on exact reals only. As written, a small
  single cappuccino at 5% off is an order of 2.28 and earns 227 points, not
  228 (`Checkout.WholeCentOrderLosesAPoint`).
- Checkout.PointsAreCentsOfOrders: holds on exact reals only. The same 2.28
  order makes the app's points one less than 100 times the order total.
- Checkout.LinePrice: rounds the exact discounted price. As written, a large
  single flat white costs 3.25 * 1.3 = 4.2250000000000005 as a `Double` and
  is recorded at 4.23, where the model's exact 4.225 is a tie that gives 4.22
  (`Checkout.LargeFlatWhiteRoundsUp`).
- Pricing.GetPrice: models the price on exact reals, not on `Double`.
- Text.ToLower: lower-cases ASCII letters only. Kotlin's `lowercase()` and
  `equals(ignoreCase = true)` also fold non-ASCII letters.
- Repository.MainRepository.AddPoints: `points` is a Kotlin `Int` and
  overflows past 2^31 - 1. The model's integer is unbounded.
- Repository.MainRepository.CheckOut: the points it adds are unbounded in the
  same way.
- Repository.MainRepository.RedeemDrink: the points it subtracts are
  unbounded in the same way.
- Checkout.PointsEarned: `(price * 100).toInt()` saturates at the `Int` range
  for huge prices. The model truncates without clamping.
- The store lists a collection's documents by document id, and those ids are
  UUIDs. The model does not fix that order. The load round trips that read a
  whole collection (`Store.LoadRewardsFromStore`, `Store.LoadVouchersFromStore`,
  `Store.LoadOrdersFromStore`) hold for any listing order, so they are stated
  as multisets. The `Codec.LoadStored*` lemmas decode the documents in write
  order.
- The avatar resource id (`_avatarResId`) and the product category queries
  are not modelled. Nothing in the modelled code depends on them.

## Findings

| source | as written | input that shows it | evidently intended | confidence | as-written member | corrected member |
|---|---|---|---|---|---|---|
| src/main/java/com/example/mobilcoffeebookingappmidterm2025/data/MainRepository.kt:914-934 | The sync deletes only owned-voucher entries whose quantity is exactly 0. `useVoucher` (501-516) already removes such entries, so the delete never fires. | Hold one voucher v1 with quantity 1, sync, use it, sync. The store still holds v1 with quantity 1, and a reload gives it back. | The sync also deletes the documents of vouchers that are no longer held, so the store holds exactly the held vouchers. | not executed | Store.UsedUpVoucherStaysStored | Store.FixedUseVoucherSync |
| src/main/java/com/example/mobilcoffeebookingappmidterm2025/data/MainRepository.kt:963-981 | The order sync only puts documents. `removeHistoryOrder` (634-640) removes the order from the local list only. | Sync a completed order, then remove it from the history and sync again. Its document stays, and a reload puts the order back into the history. | The sync deletes the documents of orders that are no longer in either list. | not executed | Store.RemovedHistoryOrderStaysStored | Store.FixedOrderSyncMirrors |
| src/main/java/com/example/mobilcoffeebookingappmidterm2025/data/MainRepository.kt:531 | `addPoints` computes `(price * 100).toInt()` on a `Double`. A whole-cent price such as 2.28 is stored as a `Double` just below it, so the product lies just below the whole number and `toInt` cuts off a point. | A small single cappuccino with the 5% voucher: the order is 2.28, and 2.28 * 100 is 227.99999999999997, so the line earns 227 points. | One point per cent of the order price, i.e. rounding `price * 100` to the nearest integer before converting. | not executed | Checkout.WholeCentOrderLosesAPoint | Checkout.PointsOfCents |
