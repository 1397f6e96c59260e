/** The stock ledger: the single document of the stocks table, its time-gated reset and its clamped decrement. */
module StockLedger {

  import opened Wrappers
  import opened Catalog

  /** Document 1 of the stocks table: when it was last reset, and units left per product name. */
  datatype StockDoc = StockDoc(lastReset: int, stocks: map<string, int>)

  /** A stock map as the ledger keeps it: no count is negative. */
  ghost predicate StockValid(stocks: map<string, int>)
  {
    forall n :: n in stocks ==> stocks[n] >= 0
  }

  /** The stock map right after a reset: every catalog product at the reset quantity. */
  function FullStock(): (m: map<string, int>)
    ensures m.Keys == Names
    ensures forall n :: n in m ==> m[n] == ResetQuantity
  {
    map n | n in Names :: ResetQuantity
  }

  /** The stocks document after `reset_stocks` runs at time `now`; `doc` is the document before. */
  function Reset(doc: Option<StockDoc>, now: int): (r: StockDoc)
    ensures doc.None? || now - doc.value.lastReset >= Week ==>
              r.lastReset == now && r.stocks.Keys == Names &&
              forall n :: n in r.stocks ==> r.stocks[n] == ResetQuantity
    ensures doc.Some? && now - doc.value.lastReset < Week ==> r == doc.value
    ensures StockValid(r.stocks) || (doc.Some? && r == doc.value)
  {
    if doc.None? || now - doc.value.lastReset >= Week then StockDoc(now, FullStock())
    else doc.value
  }

  /** The stock map after `update_stock(name, qty)`: that product drops by `qty`, clamped at zero. */
  function Decrement(stocks: map<string, int>, name: string, qty: int): (r: map<string, int>)
    requires name in stocks
    ensures r.Keys == stocks.Keys
    ensures r[name] >= 0
    ensures stocks[name] - qty >= 0 ==> r[name] == stocks[name] - qty
    ensures stocks[name] - qty < 0 ==> r[name] == 0
    ensures forall n :: n in stocks && n != name ==> r[n] == stocks[n]
  {
    stocks[name := if stocks[name] - qty < 0 then 0 else stocks[name] - qty]
  }

  /** A freshly reset stock map holds exactly one entry per catalog product. */
  lemma FullStockPerProduct()
    ensures |FullStock().Keys| == |Products|
  {
    NamesUnique();
    assert Names == {Products[0].name, Products[1].name, Products[2].name, Products[3].name};
  }

  /** With no stocks document yet, a reset stocks every catalog product at 2000 and stamps `now`. */
  lemma ResetFromNothing(now: int)
    ensures Reset(None, now).lastReset == now
    ensures forall p :: p in Products ==> UnitsOf(Reset(None, now).stocks, p.name) == ResetQuantity
  {
  }

  /** Once reset at `t`, every further reset before seven days have passed is a no-op. */
  lemma ResetWithinWindow(doc: Option<StockDoc>, t: int, later: int)
    requires doc.None? || t - doc.value.lastReset >= Week
    requires later - t < Week
    ensures Reset(Some(Reset(doc, t)), later) == Reset(doc, t)
  {
  }

  /** Seven days or more after the last reset, a reset restocks everything and stamps `now`. */
  lemma ResetWhenDue(doc: StockDoc, now: int)
    requires now - doc.lastReset >= Week
    ensures Reset(Some(doc), now) == StockDoc(now, FullStock())
  {
  }

  /** Resetting twice at the same instant is the same as resetting once. */
  lemma ResetIdempotent(doc: Option<StockDoc>, now: int)
    ensures Reset(Some(Reset(doc, now)), now) == Reset(doc, now)
  {
  }

  /** A reset of a valid (or absent) stocks document leaves a valid one. */
  lemma ResetKeepsValid(doc: Option<StockDoc>, now: int)
    requires doc.Some? ==> StockValid(doc.value.stocks)
    ensures StockValid(Reset(doc, now).stocks)
  {
  }


  /** A decrement of a valid stock map leaves a valid one: stock is never negative. */
  lemma DecrementKeepsValid(stocks: map<string, int>, name: string, qty: int)
    requires StockValid(stocks) && name in stocks
    ensures StockValid(Decrement(stocks, name, qty))
  {
  }
}
