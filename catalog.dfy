/** The fixed product catalog of the store and the constants of the stock policy. */
module Catalog {

  /** A catalog product. Its name is also its stock key, its cart key and its inventory key. */
  datatype Product = Product(name: string, price: int)

  /** The four products the shop sells, in catalog order (prices in won). */
  const Products: seq<Product> := [
    Product("노트북", 2300000),
    Product("모니터", 700000),
    Product("로벅스150000", 150000),
    Product("에어컨", 3700000)
  ]

  /** The names of the catalog products: the keys of a freshly reset stock map. */
  const Names: set<string> := set p | p in Products :: p.name

  /** Units every catalog product is restocked to when the stock is reset. */
  const ResetQuantity: int := 2000

  /** The reset window, seven days, in seconds: time is an integer count of seconds. */
  const Week: int := 7 * 24 * 60 * 60

  /**
   * Units of product `name` in a name-to-units map (`.get(name, 0)`): the stored count, 0 for a
   * name the map lacks. Both the stock map and an inventory are such maps.
   */
  function UnitsOf(m: map<string, int>, name: string): (r: int)
    ensures name in m ==> r == m[name]
    ensures name !in m ==> r == 0
  {
    if name in m then m[name] else 0
  }

  /** Every catalog product has a positive price. */
  lemma PricesPositive()
    ensures forall p :: p in Products ==> p.price > 0
  {
  }

  /** Catalog names are distinct, so a name identifies one product. */
  lemma NamesUnique()
    ensures forall i, j :: 0 <= i < j < |Products| ==> Products[i].name != Products[j].name
  {
  }
}
