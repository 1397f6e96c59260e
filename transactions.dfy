/**
 * The transaction engine: the purchase log, the cart, and the effects of a purchase on the
 * stock map, on the buyer's inventory and on the log.
 */
module Transactions {

  import opened Wrappers
  import opened Catalog
  import opened StockLedger

  /** A document of the purchases table. `time` is the instant of recording, in seconds. */
  datatype Purchase = Purchase(buyer: string, product: string, qty: int, time: int)

  /** A cart entry: the product and the number of units chosen. Its key is the product name. */
  datatype CartLine = CartLine(product: Product, count: int)

  /** What a purchase touches besides the wallet: stock map, buyer inventory, purchase log. */
  datatype Effects = Effects(stocks: map<string, int>, inv: map<string, int>, log: seq<Purchase>)

  /** No inventory entry is negative. */
  ghost predicate NonNegative(inv: map<string, int>)
  {
    forall n :: n in inv ==> inv[n] >= 0
  }

  /** A cart as the shop page builds it: distinct keys, catalog products, at least one unit per line. */
  ghost predicate CartValid(cart: seq<CartLine>)
  {
    (forall i, j :: 0 <= i < j < |cart| ==> cart[i].product.name != cart[j].product.name) &&
    (forall i :: 0 <= i < |cart| ==> cart[i].product in Products && cart[i].count >= 1)
  }

  /** Every line asks for at least one unit. */
  ghost predicate AllPositive(lines: seq<CartLine>)
  {
    forall i :: 0 <= i < |lines| ==> lines[i].count >= 1
  }

  /** The price of a line: unit price times units. */
  function LineValue(l: CartLine): int
  {
    l.product.price * l.count
  }

  /** The cart total: the sum of the line values. */
  function Total(lines: seq<CartLine>): int
  {
    if |lines| == 0 then 0 else Total(lines[..|lines| - 1]) + LineValue(lines[|lines| - 1])
  }

  /** The position of the line keyed `name`, or None. */
  function CartFind(cart: seq<CartLine>, name: string): (r: Option<nat>)
    ensures r.None? <==> forall i :: 0 <= i < |cart| ==> cart[i].product.name != name
    ensures r.Some? ==> r.value < |cart| && cart[r.value].product.name == name
    ensures r.Some? ==> forall j :: 0 <= j < r.value ==> cart[j].product.name != name
  {
    if |cart| == 0 then None
    else if cart[0].product.name == name then Some(0)
    else match CartFind(cart[1..], name)
      case None => None
      case Some(i) => Some(i + 1)
  }

  /**
   * The cart after `cart[p.name] = {product, count}`: a line with that key is overwritten in place,
   * keeping its position; otherwise the line is appended.
   */
  function Put(cart: seq<CartLine>, line: CartLine): (r: seq<CartLine>)
    ensures CartFind(r, line.product.name).Some? && r[CartFind(r, line.product.name).value] == line
    ensures CartFind(cart, line.product.name).Some? ==> |r| == |cart|
    ensures CartFind(cart, line.product.name).None? ==> r == cart + [line]
    ensures forall i :: 0 <= i < |cart| && cart[i].product.name != line.product.name ==> r[i] == cart[i]
  {
    match CartFind(cart, line.product.name)
    case Some(i) =>
      var r := cart[i := line];
      assert forall j :: 0 <= j < |cart| && j != i ==> r[j] == cart[j];
      assert r[i] == line;
      assert CartFind(r, line.product.name) == Some(i);
      r
    case None =>
      var r := cart + [line];
      assert r[|cart|] == line;
      assert forall i :: 0 <= i < |cart| ==> r[i] == cart[i];
      r
  }

  /** Putting a catalog product with at least one unit into a well-formed cart keeps it well formed. */
  lemma PutKeepsCartValid(cart: seq<CartLine>, line: CartLine)
    requires CartValid(cart) && line.product in Products && line.count >= 1
    ensures CartValid(Put(cart, line))
  {
    var r := Put(cart, line);
    if CartFind(cart, line.product.name).Some? {
      var k := CartFind(cart, line.product.name).value;
      assert r == cart[k := line];
    }
  }

  /** The record a purchase of `qty` units of `label` by `buyer` at `now` appends. */
  function Record(buyer: string, item: string, qty: int, now: int): Purchase
  {
    Purchase(buyer, item, qty, now)
  }

  /** One record per line, in line order. */
  function Records(lines: seq<CartLine>, buyer: string, now: int): (r: seq<Purchase>)
    ensures |r| == |lines|
    ensures forall i :: 0 <= i < |lines| ==>
              r[i] == Record(buyer, lines[i].product.name, lines[i].count, now)
  {
    if |lines| == 0 then []
    else Records(lines[..|lines| - 1], buyer, now) + [Record(buyer, lines[|lines| - 1].product.name, lines[|lines| - 1].count, now)]
  }

  /**
   * A completed purchase of `qty` units of `name`: stock decremented (clamped), inventory
   * credited, one record appended.
   */
  function Credit(e: Effects, name: string, qty: int, buyer: string, now: int): (r: Effects)
    requires name in e.stocks
    ensures r.stocks.Keys == e.stocks.Keys
    ensures qty <= UnitsOf(e.stocks, name) ==> UnitsOf(r.stocks, name) == UnitsOf(e.stocks, name) - qty
    ensures UnitsOf(r.inv, name) == UnitsOf(e.inv, name) + qty
    ensures forall n :: n != name ==> UnitsOf(r.stocks, n) == UnitsOf(e.stocks, n) && UnitsOf(r.inv, n) == UnitsOf(e.inv, n)
    ensures r.log == e.log + [Record(buyer, name, qty, now)]
  {
    Effects(Decrement(e.stocks, name, qty), e.inv[name := UnitsOf(e.inv, name) + qty],
            e.log + [Record(buyer, name, qty, now)])
  }

  /** A checkout line goes through when its count does not exceed the stock left at that moment. */
  predicate Fits(e: Effects, line: CartLine)
  {
    line.count <= UnitsOf(e.stocks, line.product.name)
  }

  /** One checkout line: credited when it fits, skipped with no effect otherwise. */
  function Step(e: Effects, line: CartLine, buyer: string, now: int): Effects
    requires line.count >= 1
  {
    if Fits(e, line) then Credit(e, line.product.name, line.count, buyer, now) else e
  }

  /** The effects of the checkout loop over `lines`, processed in cart order. */
  function ApplyLines(e: Effects, lines: seq<CartLine>, buyer: string, now: int): Effects
    requires AllPositive(lines)
  {
    if |lines| == 0 then e
    else Step(ApplyLines(e, lines[..|lines| - 1], buyer, now), lines[|lines| - 1], buyer, now)
  }

  /** The lines the checkout loop credits, in cart order. */
  function Taken(e: Effects, lines: seq<CartLine>, buyer: string, now: int): seq<CartLine>
    requires AllPositive(lines)
  {
    if |lines| == 0 then []
    else
      var init := lines[..|lines| - 1];
      Taken(e, init, buyer, now) +
        (if Fits(ApplyLines(e, init, buyer, now), lines[|lines| - 1]) then [lines[|lines| - 1]] else [])
  }

  /** The lines whose count does not exceed the stock in `stocks`, in order. */
  function InStock(lines: seq<CartLine>, stocks: map<string, int>): (r: seq<CartLine>)
    ensures |r| <= |lines|
    ensures forall l :: l in r ==> l in lines && l.count <= UnitsOf(stocks, l.product.name)
    ensures forall i :: 0 <= i < |lines| && lines[i].count <= UnitsOf(stocks, lines[i].product.name) ==> lines[i] in r
  {
    if |lines| == 0 then []
    else
      var last := lines[|lines| - 1];
      InStock(lines[..|lines| - 1], stocks) + (if last.count <= UnitsOf(stocks, last.product.name) then [last] else [])
  }

  /**
   * The checkout loop: walk the cart in order, and for each line whose count does not exceed
   * the stock left, credit the inventory, decrement the stock and append a record.
   */
  method CheckoutLines(e0: Effects, lines: seq<CartLine>, buyer: string, now: int) returns (e: Effects)
    requires AllPositive(lines)
    ensures e == ApplyLines(e0, lines, buyer, now)
  {
    var stocks, inv, log := e0.stocks, e0.inv, e0.log;
    var k := 0;
    while k < |lines|
      invariant 0 <= k <= |lines|
      invariant AllPositive(lines[..k])
      invariant Effects(stocks, inv, log) == ApplyLines(e0, lines[..k], buyer, now)
    {
      var line := lines[k];
      assert lines[..k + 1][..k] == lines[..k];
      if line.count <= UnitsOf(stocks, line.product.name) {
        inv := inv[line.product.name := UnitsOf(inv, line.product.name) + line.count];
        stocks := Decrement(stocks, line.product.name, line.count);
        log := log + [Record(buyer, line.product.name, line.count, now)];
      }
      k := k + 1;
    }
    assert lines[..k] == lines;
    e := Effects(stocks, inv, log);
  }

  lemma PrefixPositive(lines: seq<CartLine>, k: nat)
    requires AllPositive(lines) && k <= |lines|
    ensures AllPositive(lines[..k])
  {
  }

  /** The checkout loop keeps the stock keys, and keeps stock and inventory non-negative. */
  lemma {:induction false} ApplyLinesKeepsValid(e: Effects, lines: seq<CartLine>, buyer: string, now: int)
    requires AllPositive(lines)
    ensures ApplyLines(e, lines, buyer, now).stocks.Keys == e.stocks.Keys
    ensures StockValid(e.stocks) ==> StockValid(ApplyLines(e, lines, buyer, now).stocks)
    ensures NonNegative(e.inv) ==> NonNegative(ApplyLines(e, lines, buyer, now).inv)
  {
    if |lines| > 0 {
      var init := lines[..|lines| - 1];
      PrefixPositive(lines, |lines| - 1);
      ApplyLinesKeepsValid(e, init, buyer, now);
      var m := ApplyLines(e, init, buyer, now);
      var last := lines[|lines| - 1];
      if Fits(m, last) {
        if StockValid(e.stocks) {
          DecrementKeepsValid(m.stocks, last.product.name, last.count);
        }
      }
    }
  }

  /**
   * Units move, they are not created: for every label, stock left plus units owned is the same
   * after the checkout loop as before.
   */
  lemma {:induction false} ApplyLinesConserves(e: Effects, lines: seq<CartLine>, buyer: string, now: int, n: string)
    requires AllPositive(lines)
    ensures UnitsOf(ApplyLines(e, lines, buyer, now).stocks, n) + UnitsOf(ApplyLines(e, lines, buyer, now).inv, n)
              == UnitsOf(e.stocks, n) + UnitsOf(e.inv, n)
  {
    if |lines| > 0 {
      PrefixPositive(lines, |lines| - 1);
      ApplyLinesConserves(e, lines[..|lines| - 1], buyer, now, n);
    }
  }

  /** A label no cart line names keeps its stock and its inventory count through the checkout loop. */
  lemma {:induction false} ApplyLinesFrame(e: Effects, lines: seq<CartLine>, buyer: string, now: int, n: string)
    requires AllPositive(lines)
    requires forall i :: 0 <= i < |lines| ==> lines[i].product.name != n
    ensures UnitsOf(ApplyLines(e, lines, buyer, now).stocks, n) == UnitsOf(e.stocks, n)
    ensures UnitsOf(ApplyLines(e, lines, buyer, now).inv, n) == UnitsOf(e.inv, n)
  {
    if |lines| > 0 {
      PrefixPositive(lines, |lines| - 1);
      ApplyLinesFrame(e, lines[..|lines| - 1], buyer, now, n);
    }
  }

  /** The log after the checkout loop is the old log plus one record per credited line, in cart order. */
  lemma {:induction false} ApplyLinesLog(e: Effects, lines: seq<CartLine>, buyer: string, now: int)
    requires AllPositive(lines)
    ensures ApplyLines(e, lines, buyer, now).log == e.log + Records(Taken(e, lines, buyer, now), buyer, now)
  {
    if |lines| > 0 {
      var init := lines[..|lines| - 1];
      var last := lines[|lines| - 1];
      PrefixPositive(lines, |lines| - 1);
      ApplyLinesLog(e, init, buyer, now);
      StepLog(ApplyLines(e, init, buyer, now), last, buyer, now);
      var t := Taken(e, init, buyer, now);
      if Fits(ApplyLines(e, init, buyer, now), last) {
        RecordsAppend(t, last, buyer, now);
      } else {
        assert t + [] == t;
      }
    }
  }

  /** One step appends a record exactly when the line fits. */
  lemma StepLog(m: Effects, line: CartLine, buyer: string, now: int)
    requires line.count >= 1
    ensures Step(m, line, buyer, now).log
              == m.log + (if Fits(m, line) then [Record(buyer, line.product.name, line.count, now)] else [])
  {
  }

  /** Records of one more line: one more record at the end. */
  lemma RecordsAppend(lines: seq<CartLine>, l: CartLine, buyer: string, now: int)
    ensures Records(lines + [l], buyer, now) == Records(lines, buyer, now) + [Record(buyer, l.product.name, l.count, now)]
  {
    assert (lines + [l])[..|lines|] == lines;
  }

  /**
   * With distinct cart keys, a line is credited exactly when its count does not exceed the stock
   * at the start of checkout: no earlier line touches its stock.
   */
  lemma {:induction false} TakenIsInStock(e: Effects, lines: seq<CartLine>, buyer: string, now: int)
    requires AllPositive(lines)
    requires forall i, j :: 0 <= i < j < |lines| ==> lines[i].product.name != lines[j].product.name
    ensures Taken(e, lines, buyer, now) == InStock(lines, e.stocks)
  {
    if |lines| > 0 {
      var init := lines[..|lines| - 1];
      var last := lines[|lines| - 1];
      PrefixPositive(lines, |lines| - 1);
      TakenIsInStock(e, init, buyer, now);
      ApplyLinesFrame(e, init, buyer, now, last.product.name);
    }
  }

  /** The filter keeps order: filtering a concatenation concatenates the filtered parts. */
  lemma {:induction false} InStockConcat(a: seq<CartLine>, b: seq<CartLine>, stocks: map<string, int>)
    ensures InStock(a + b, stocks) == InStock(a, stocks) + InStock(b, stocks)
  {
    if |b| == 0 {
      assert a + b == a;
    } else {
      var init := b[..|b| - 1];
      assert (a + b)[..|a + b| - 1] == a + init;
      assert (a + b)[|a + b| - 1] == b[|b| - 1];
      InStockConcat(a, init, stocks);
    }
  }

  /**
   * What checkout does to one cart line's product, in closed form: with distinct cart keys, when the
   * line's count does not exceed the stock at the start, the stock drops and the inventory rises by
   * that count; otherwise both stay as they were.
   */
  lemma {:induction false} ApplyLinesAt(e: Effects, lines: seq<CartLine>, buyer: string, now: int, i: nat)
    requires AllPositive(lines)
    requires forall a, b :: 0 <= a < b < |lines| ==> lines[a].product.name != lines[b].product.name
    requires i < |lines|
    ensures var n := lines[i].product.name;
            var r := ApplyLines(e, lines, buyer, now);
            if lines[i].count <= UnitsOf(e.stocks, n) then
              UnitsOf(r.stocks, n) == UnitsOf(e.stocks, n) - lines[i].count &&
              UnitsOf(r.inv, n) == UnitsOf(e.inv, n) + lines[i].count
            else
              UnitsOf(r.stocks, n) == UnitsOf(e.stocks, n) && UnitsOf(r.inv, n) == UnitsOf(e.inv, n)
  {
    var init := lines[..|lines| - 1];
    var last := lines[|lines| - 1];
    var n := lines[i].product.name;
    PrefixPositive(lines, |lines| - 1);
    if i < |lines| - 1 {
      assert init[i] == lines[i];
      ApplyLinesAt(e, init, buyer, now, i);
      assert last.product.name != n;
    } else {
      ApplyLinesFrame(e, init, buyer, now, n);
    }
  }

  /** Appending a line adds its value to the total. */
  lemma TotalAppend(lines: seq<CartLine>, l: CartLine)
    ensures Total(lines + [l]) == Total(lines) + LineValue(l)
  {
    assert (lines + [l])[..|lines|] == lines;
  }

  /** Every cart line has a positive value: catalog prices and counts are positive. */
  lemma CartLinesPositive(cart: seq<CartLine>)
    requires CartValid(cart)
    ensures forall i :: 0 <= i < |cart| ==> LineValue(cart[i]) > 0
  {
    PricesPositive();
    forall i | 0 <= i < |cart| ensures LineValue(cart[i]) > 0 {
      assert cart[i].product.price > 0 && cart[i].count >= 1;
    }
  }

  /**
   * The checkout charges the whole cart total while crediting only the lines that fit: the value
   * of the goods credited never exceeds the amount charged, falls strictly short as soon as a line
   * is skipped, and equals it only when every line is credited.
   */
  lemma {:induction false} ChargeCoversCredited(e: Effects, lines: seq<CartLine>, buyer: string, now: int)
    requires AllPositive(lines)
    requires forall i :: 0 <= i < |lines| ==> LineValue(lines[i]) > 0
    ensures |Taken(e, lines, buyer, now)| <= |lines|
    ensures Total(Taken(e, lines, buyer, now)) <= Total(lines)
    ensures |Taken(e, lines, buyer, now)| < |lines| ==> Total(Taken(e, lines, buyer, now)) < Total(lines)
    ensures |Taken(e, lines, buyer, now)| == |lines| ==> Taken(e, lines, buyer, now) == lines
  {
    if |lines| > 0 {
      var init := lines[..|lines| - 1];
      var last := lines[|lines| - 1];
      PrefixPositive(lines, |lines| - 1);
      ChargeCoversCredited(e, init, buyer, now);
      var t := Taken(e, init, buyer, now);
      assert Total(lines) == Total(init) + LineValue(last);
      if Fits(ApplyLines(e, init, buyer, now), last) {
        TotalAppend(t, last);
        assert lines == init + [last];
      } else {
        assert Taken(e, lines, buyer, now) == t;
      }
    }
  }

  /** The cart total of valid lines is never negative, so a funded checkout leaves the wallet non-negative. */
  lemma {:induction false} TotalNonNegative(lines: seq<CartLine>)
    requires forall i :: 0 <= i < |lines| ==> LineValue(lines[i]) > 0
    ensures Total(lines) >= 0
    ensures |lines| > 0 ==> Total(lines) > 0
  {
    if |lines| > 0 {
      TotalNonNegative(lines[..|lines| - 1]);
    }
  }
}
