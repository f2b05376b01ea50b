/** Line pricing and the money arithmetic used at checkout. Prices are exact
    reals: the Kotlin code computes them in `Double`. */
module Pricing {
  import opened Model
  import opened Text

  /** The base price `getPrice` uses: its own four-entry table keyed by the
      lower-cased product name, 3.00 for every other name. */
  function BasePrice(product: string): real {
    var key := ToLower(product);
    if key == "americano" then 2.50
    else if key == "cappuccino" then 3.00
    else if key == "latte" then 3.50
    else if key == "flat white" then 3.25
    else 3.00
  }

  function SizeMultiplier(size: SizeType): real {
    match size
    case Small => 0.8
    case Medium => 1.0
    case Large => 1.3
  }

  function ShotExtra(shot: ShotType): real {
    match shot
    case Single => 0.0
    case Double => 0.50
  }

  /** `getPrice`: the price of a line of `option.quantity` drinks. */
  function GetPrice(product: string, option: ProductOption): (r: real)
    ensures option.quantity >= 0 ==> r >= 0.0
    ensures option.quantity >= 1 ==> r >= 2.0
  {
    (BasePrice(product) * SizeMultiplier(option.size) + ShotExtra(option.shot)) * option.quantity as real
  }

  /** The price is the price of one drink times the quantity. */
  lemma GetPriceLinear(product: string, option: ProductOption)
    ensures GetPrice(product, option) == option.quantity as real * GetPrice(product, option.(quantity := 1))
  {
  }

  /** Merging two lines of the same shape costs what the two lines cost. */
  lemma GetPriceAdditive(product: string, option: ProductOption, q1: int, q2: int)
    ensures GetPrice(product, option.(quantity := q1 + q2))
         == GetPrice(product, option.(quantity := q1)) + GetPrice(product, option.(quantity := q2))
  {
    PriceOfMerge(product, option.(quantity := q1), option.(quantity := q2));
    assert option.(quantity := q1).(quantity := q1 + q2) == option.(quantity := q1 + q2);
  }

  /** Adding the quantity of an option of the same shot and size to another
      costs what the two options cost. */
  lemma PriceOfMerge(product: string, a: ProductOption, b: ProductOption)
    requires a.shot == b.shot && a.size == b.size
    ensures GetPrice(product, a.(quantity := a.quantity + b.quantity)) == GetPrice(product, a) + GetPrice(product, b)
  {
    var u := BasePrice(product) * SizeMultiplier(a.size) + ShotExtra(a.shot);
    assert u * (a.quantity + b.quantity) as real == u * a.quantity as real + u * b.quantity as real;
  }

  /** Temperature and ice do not enter the price. */
  lemma GetPriceIgnoresTemperatureAndIce(product: string, option: ProductOption, t: TemperatureType, i: IceType)
    ensures GetPrice(product, option.(temperature := t, ice := i)) == GetPrice(product, option)
  {
  }

  /** The name is matched without regard to ASCII case. */
  lemma GetPriceIgnoresCase(product: string, option: ProductOption)
    ensures GetPrice(ToLower(product), option) == GetPrice(product, option)
  {
    ToLowerIdempotent(product);
  }

  /** Names outside the table are priced from a base of 3.00. */
  lemma GetPriceDefaultBase(product: string, option: ProductOption)
    requires ToLower(product) !in {"americano", "cappuccino", "latte", "flat white"}
    ensures GetPrice(product, option) == (3.00 * SizeMultiplier(option.size) + ShotExtra(option.shot)) * option.quantity as real
  {
  }

  /** One medium single-shot iced latte costs 3.50. */
  lemma LattePrice()
    ensures GetPrice("Latte", ProductOption(1, Single, Iced, Medium, Full)) == 3.50
  {
    assert ToLower("Latte") == "latte";
  }

  /** One small single-shot cappuccino costs 3.00 * 0.8 = 2.40. */
  lemma SmallCappuccinoPrice()
    ensures GetPrice("cappuccino", ProductOption(1, Single, Hot, Small, Full)) == 2.4
  {
    assert ToLower("cappuccino") == "cappuccino";
  }

  /** One large single-shot flat white costs 3.25 * 1.3 = 4.225. */
  lemma LargeFlatWhitePrice()
    ensures GetPrice("flat white", ProductOption(1, Single, Hot, Large, Full)) == 4.225
  {
    assert ToLower("flat white") == "flat white";
  }

  /** Kotlin `round` on a number: the nearest integer, ties to the even one. */
  function RoundHalfEven(x: real): (n: int)
    ensures x - 0.5 <= n as real <= x + 0.5
    ensures (n as real - x == 0.5 || x - n as real == 0.5) ==> n % 2 == 0
  {
    var f := x.Floor;
    var d := x - f as real;
    if d < 0.5 then f
    else if d > 0.5 then f + 1
    else if f % 2 == 0 then f
    else f + 1
  }

  /** The two properties of `RoundHalfEven` determine it. */
  lemma RoundHalfEvenUnique(x: real, n: int)
    requires x - 0.5 <= n as real <= x + 0.5
    requires (n as real - x == 0.5 || x - n as real == 0.5) ==> n % 2 == 0
    ensures n == RoundHalfEven(x)
  {
  }

  /** A whole number of cents. */
  predicate IsCents(r: real) {
    (r * 100.0).Floor as real == r * 100.0
  }

  /** `round(x * 100.0) / 100.0`: rounding to two decimals. */
  function Round2(x: real): (r: real)
    ensures IsCents(r)
    ensures x - 0.005 <= r <= x + 0.005
    ensures x >= 0.0 ==> r >= 0.0
  {
    RoundHalfEven(x * 100.0) as real / 100.0
  }

  /** Rounding leaves an amount in whole cents unchanged. */
  lemma Round2OfCents(x: real)
    requires IsCents(x)
    ensures Round2(x) == x
  {
    assert RoundHalfEven(x * 100.0) == (x * 100.0).Floor;
  }

  /** Kotlin `Double.toInt()`: truncation toward zero. */
  function TruncToInt(x: real): (n: int)
    ensures 0.0 <= x ==> n as real <= x < n as real + 1.0
    ensures x < 0.0 ==> n as real - 1.0 < x <= n as real
  {
    if x >= 0.0 then x.Floor else -((-x).Floor)
  }

  // --- Binary64 arithmetic ---

  function Pow2(n: nat): (r: nat)
    ensures r >= 1
  {
    if n == 0 then 1 else 2 * Pow2(n - 1)
  }

  /** 2^e for any integer exponent. */
  function Pow2Real(e: int): (r: real)
    ensures r > 0.0
  {
    if e >= 0 then Pow2(e) as real else 1.0 / Pow2(-e) as real
  }

  /** The gap between neighbouring `Double` values in the binade
      `[2^e, 2^(e + 1))`: 53 significant bits. */
  function Ulp(e: int): real {
    Pow2Real(e - 52)
  }

  /** Exponents add. */
  lemma {:induction false} Pow2Add(a: nat, b: nat)
    ensures Pow2(a + b) == Pow2(a) * Pow2(b)
  {
    if a > 0 {
      Pow2Add(a - 1, b);
    }
  }

  /** The powers of two the binades below are built from. */
  lemma Pow2Values()
    ensures Pow2(8) == 256 && Pow2(9) == 512
    ensures Pow2(44) == 17592186044416 && Pow2(45) == 35184372088832
    ensures Pow2(50) == 1125899906842624 && Pow2(51) == 2251799813685248
    ensures Pow2(52) == 4503599627370496
  {
    assert Pow2(4) == 16;
    Pow2Add(4, 4);
    Pow2Add(8, 1);
    Pow2Add(8, 8);
    Pow2Add(16, 16);
    Pow2Add(32, 8);
    Pow2Add(40, 4);
    Pow2Add(44, 1);
    Pow2Add(44, 6);
    Pow2Add(50, 1);
    Pow2Add(50, 2);
  }

  /** The gaps between `Double` values in the binades `[1, 2)`, `[2, 4)`,
      `[4, 8)`, `[128, 256)` and `[256, 512)`, and the binades' bounds. */
  lemma UlpValues()
    ensures Ulp(0) == 1.0 / 4503599627370496.0
    ensures Ulp(1) == 1.0 / 2251799813685248.0
    ensures Ulp(2) == 1.0 / 1125899906842624.0
    ensures Ulp(7) == 1.0 / 35184372088832.0
    ensures Ulp(8) == 1.0 / 17592186044416.0
    ensures Pow2Real(0) == 1.0 && Pow2Real(1) == 2.0 && Pow2Real(2) == 4.0 && Pow2Real(3) == 8.0
    ensures Pow2Real(7) == 128.0 && Pow2Real(8) == 256.0 && Pow2Real(9) == 512.0
  {
    Pow2Values();
    assert Pow2(7) == 128 by { Pow2Add(7, 1); }
  }

  /** A positive real in the binade `[2^e, 2^(e + 1))` rounded to the
      nearest `Double`, ties to even: the result of a Kotlin `Double`
      operation whose exact value is `x`. */
  function RoundToDouble(x: real, e: int): (r: real)
    requires -1022 <= e <= 1023 && Pow2Real(e) <= x < Pow2Real(e + 1)
    ensures x - Ulp(e) / 2.0 <= r <= x + Ulp(e) / 2.0
    ensures r >= 0.0
  {
    RoundToGap(x, Ulp(e))
  }

  /** `x` rounded to the nearest multiple of `u`, ties to an even multiple. */
  function RoundToGap(x: real, u: real): (r: real)
    requires u > 0.0
    ensures x - u / 2.0 <= r <= x + u / 2.0
    ensures x >= 0.0 ==> r >= 0.0
  {
    var n := RoundHalfEven(x / u);
    HalfGapApart(x, u, n);
    NonNegativeRounding(x, u);
    n as real * u
  }

  /** A non-negative `x` rounds to a non-negative multiple. */
  lemma NonNegativeRounding(x: real, u: real)
    requires u > 0.0
    ensures x >= 0.0 ==> RoundHalfEven(x / u) as real * u >= 0.0
  {
    if x >= 0.0 {
      assert x / u >= 0.0;
      ScaledLe(0.0, RoundHalfEven(x / u) as real, u);
    }
  }

  /** The multiple `n` of `u` nearest `x / u` lies within `u / 2` of `x`. */
  lemma HalfGapApart(x: real, u: real, n: int)
    requires u > 0.0 && x / u - 0.5 <= n as real <= x / u + 0.5
    ensures x - u / 2.0 <= n as real * u <= x + u / 2.0
  {
    var y := x / u;
    assert y * u == x;
    ScaledLe(y - 0.5, n as real, u);
    ScaledLe(n as real, y + 0.5, u);
    assert (y - 0.5) * u == x - u / 2.0;
    assert (y + 0.5) * u == x + u / 2.0;
  }

  lemma ScaledLe(a: real, b: real, u: real)
    requires u > 0.0 && a <= b
    ensures a * u <= b * u
  {
  }
}
