/** The static product catalog of the repository, `getProducts` and
    `getProductPrice`. */
module Catalog {
  import opened Lists
  import opened Wrappers

  datatype Product = Product(name: string, category: string, basePrice: real)

  /** The catalog, section by section. */
  const Products: seq<Product> := CoffeeProducts + MilkProducts + SmoothieProducts + AlcoholicProducts

  const CoffeeProducts: seq<Product> := [
    Product("Americano", "Coffee", 2.50),
    Product("Cappuccino", "Coffee", 3.50),
    Product("Latte", "Coffee", 3.50),
    Product("Flat White", "Coffee", 3.75),
    Product("Macchiato", "Coffee", 3.00),
    Product("Mocha", "Coffee", 4.00),
    Product("Cortado", "Coffee", 3.25),
    Product("Doppio", "Coffee", 2.75),
    Product("Affogato", "Coffee", 4.50),
    Product("Irish Coffee", "Coffee", 5.50),
    Product("Nitro Cold Brew", "Coffee", 4.25),
    Product("Bulletproof Coffee", "Coffee", 4.75),
    Product("Butter Coffee", "Coffee", 4.50),
    Product("Chemex", "Coffee", 3.80),
    Product("French Press", "Coffee", 3.60),
    Product("Moka Pot", "Coffee", 3.40)
  ]

  const MilkProducts: seq<Product> := [
    Product("Chocolate Milk", "Milk", 3.00),
    Product("Oat Milk", "Milk", 2.80),
    Product("Almond Milk", "Milk", 2.80),
    Product("Soy Milk", "Milk", 2.80),
    Product("Coconut Milk", "Milk", 3.00),
    Product("Malted Milkshake", "Milk", 4.50),
    Product("Banana Milkshake", "Milk", 4.25),
    Product("Steamer", "Milk", 2.50),
    Product("Hot Milk", "Milk", 2.00),
    Product("Maple Milk", "Milk", 3.20)
  ]

  const SmoothieProducts: seq<Product> := [
    Product("Mango Smoothie", "Smoothie", 5.00),
    Product("Strawberry Smoothie", "Smoothie", 4.75),
    Product("Berry Blast Smoothie", "Smoothie", 5.25),
    Product("Tropical Smoothie", "Smoothie", 5.50),
    Product("Protein Smoothie", "Smoothie", 6.00),
    Product("Mixed Berry Smoothie", "Smoothie", 5.00),
    Product("Blueberry Smoothie", "Smoothie", 4.75),
    Product("Raspberry Smoothie", "Smoothie", 4.75),
    Product("Peanut Butter Banana Smoothie", "Smoothie", 5.50),
    Product("Pomegranate Smoothie", "Smoothie", 5.25),
    Product("Coconut Smoothie", "Smoothie", 5.00),
    Product("Oat Smoothie", "Smoothie", 4.50)
  ]

  const AlcoholicProducts: seq<Product> := [
    Product("Beer Lager", "Alcoholic", 5.00),
    Product("Stout", "Alcoholic", 5.50),
    Product("Old Fashioned", "Alcoholic", 8.00),
    Product("Manhattan", "Alcoholic", 8.50),
    Product("Rum Punch", "Alcoholic", 7.00),
    Product("Tequila Sunrise", "Alcoholic", 7.50),
    Product("Bellini", "Alcoholic", 7.00)
  ]

  /** `getProducts`: the catalog's names, in catalog order. */
  function ProductNames(): (r: seq<string>)
    ensures |r| == |Products|
    ensures forall i :: 0 <= i < |r| ==> r[i] == Products[i].name
  {
    seq(|Products|, i requires 0 <= i < |Products| => Products[i].name)
  }

  /** `getProductPrice`: the catalog base price of an exactly matching name,
      3.50 for a name not in the catalog. */
  function ProductPrice(name: string): (r: real)
    ensures (forall i :: 0 <= i < |Products| ==> Products[i].name != name) ==> r == 3.50
    ensures forall i :: 0 <= i < |Products| && Products[i].name == name ==>
              exists j :: 0 <= j <= i && Products[j].name == name && r == Products[j].basePrice
  {
    var k := IndexOfFirst(Products, (p: Product) => p.name == name);
    if k < 0 then 3.50 else Products[k].basePrice
  }
}

/** The two base-price tables of the repository side by side. */
module PriceTables {
  import opened Catalog
  import opened Lists
  import Pricing
  import Text

  lemma CatalogHead()
    ensures Products[..6] == CoffeeProducts[..6]
    ensures Products[0] == Product("Americano", "Coffee", 2.50)
    ensures Products[1] == Product("Cappuccino", "Coffee", 3.50)
    ensures Products[2] == Product("Latte", "Coffee", 3.50)
    ensures Products[3] == Product("Flat White", "Coffee", 3.75)
    ensures Products[4] == Product("Macchiato", "Coffee", 3.00)
    ensures Products[5] == Product("Mocha", "Coffee", 4.00)
  {
    assert Products[..6] == CoffeeProducts[..6];
  }

  /** `getPrice` prices a cappuccino from 3.00 while the catalog lists it at
      3.50. */
  lemma CappuccinoTablesDiffer()
    ensures Pricing.BasePrice("Cappuccino") == 3.00 && ProductPrice("Cappuccino") == 3.50
  {
    CappuccinoPriced();
    CappuccinoListed();
  }

  lemma CappuccinoPriced()
    ensures Pricing.BasePrice("Cappuccino") == 3.00
  {
    assert Text.ToLower("Cappuccino") == "cappuccino";
  }

  lemma CappuccinoListed()
    ensures ProductPrice("Cappuccino") == 3.50
  {
    CatalogHead();
    var p := (q: Product) => q.name == "Cappuccino";
    assert IndexOfFirst(Products[1..], p) == 0;
    assert IndexOfFirst(Products, p) == 1;
  }

  /** A catalog product missing from the pricing table is priced from 3.00 by
      `getPrice` while the catalog lists it at 4.00. */
  lemma MochaPricedFromDefault()
    ensures Pricing.BasePrice("Mocha") == 3.00 && ProductPrice("Mocha") == 4.00
  {
    MochaUnpriced();
    MochaListed();
  }

  lemma MochaUnpriced()
    ensures Pricing.BasePrice("Mocha") == 3.00
  {
    var key := Text.ToLower("Mocha");
    assert key == "mocha";
    assert key[0] == 'm' && |key| == 5;
  }

  lemma MochaListed()
    ensures ProductPrice("Mocha") == 4.00
  {
    CatalogHead();
    var p := (q: Product) => q.name == "Mocha";
    assert IndexOfFirst(Products[5..], p) == 0;
    assert IndexOfFirst(Products, p) == 5;
  }
}
