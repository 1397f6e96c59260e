/**
 * The shop as one stateful object: the users, purchases, giftcards and stocks tables, and the
 * page session's signed-in name and cart. Each method is one handler of the shop page.
 */
module Shop {

  import opened Wrappers
  import opened Catalog
  import opened StockLedger
  import opened Accounts
  import opened GiftCards
  import opened Transactions

  /** The invariant of the store, over the values of its fields. */
  ghost predicate StoreValid(stock: Option<StockDoc>, users: seq<Account>, cart: seq<CartLine>,
                             giftcards: seq<GiftCard>, session: Option<string>)
  {
    && UsersValid(users)
    && (stock.Some? ==> StockValid(stock.value.stocks))
    && CartValid(cart)
    && (forall g :: g in giftcards ==> IssuedCard(g))
    && (session.Some? ==> Find(users, session.value).Some?)
  }

  /**
   * A purchase keeps the invariant: it puts a valid stock map and one account updated in place,
   * name kept and nothing negative, and at most empties the cart.
   */
  lemma PurchaseKeepsValid(stock: Option<StockDoc>, users: seq<Account>, cart: seq<CartLine>,
                           giftcards: seq<GiftCard>, session: Option<string>,
                           stocks': map<string, int>, i: nat, a: Account, cart': seq<CartLine>)
    requires StoreValid(stock, users, cart, giftcards, session)
    requires StockValid(stocks') && stock.Some?
    requires i < |users| && a.name == users[i].name
    requires a.wallet >= 0 && forall n :: n in a.inventory ==> a.inventory[n] >= 0
    requires cart' == cart || cart' == []
    ensures StoreValid(Some(stock.value.(stocks := stocks')), users[i := a], cart', giftcards, session)
  {
    UpdateKeepsUsersValid(users, i, a);
  }

  /** Updating one account in place, name kept and nothing negative, keeps the invariant. */
  lemma AccountKeepsValid(stock: Option<StockDoc>, users: seq<Account>, cart: seq<CartLine>,
                          giftcards: seq<GiftCard>, session: Option<string>, i: nat, a: Account)
    requires StoreValid(stock, users, cart, giftcards, session)
    requires i < |users| && a.name == users[i].name
    requires a.wallet >= 0 && forall n :: n in a.inventory ==> a.inventory[n] >= 0
    ensures StoreValid(stock, users[i := a], cart, giftcards, session)
  {
    UpdateKeepsUsersValid(users, i, a);
  }

  /** A funded checkout keeps the invariant. */
  lemma CheckoutKeepsValid(stock: Option<StockDoc>, users: seq<Account>, cart: seq<CartLine>,
                           giftcards: seq<GiftCard>, session: Option<string>, i: nat,
                           log: seq<Purchase>, now: int)
    requires StoreValid(stock, users, cart, giftcards, session) && stock.Some?
    requires i < |users| && users[i].wallet >= Total(cart)
    ensures var u := users[i];
            var e := ApplyLines(Effects(stock.value.stocks, u.inventory, log), cart, u.name, now);
            StoreValid(Some(stock.value.(stocks := e.stocks)),
                       users[i := u.(wallet := u.wallet - Total(cart), inventory := e.inv)], [], giftcards, session)
  {
    var u := users[i];
    var e0 := Effects(stock.value.stocks, u.inventory, log);
    ApplyLinesKeepsValid(e0, cart, u.name, now);
    CartLinesPositive(cart);
    TotalNonNegative(cart);
    var e := ApplyLines(e0, cart, u.name, now);
    PurchaseKeepsValid(stock, users, cart, giftcards, session, e.stocks, i,
                       u.(wallet := u.wallet - Total(cart), inventory := e.inv), []);
  }

  class Store {
    /** Document 1 of the stocks table; None until the first reset creates it. */
    var stock: Option<StockDoc>
    /** The users table, in insertion order. */
    var users: seq<Account>
    /** The purchases table, append-only. */
    var purchases: seq<Purchase>
    /** The giftcards table. */
    var giftcards: seq<GiftCard>
    /** The signed-in name of the page session. */
    var session: Option<string>
    /** The page session's cart, in insertion order. */
    var cart: seq<CartLine>

    /** What every handler keeps: unique names, no negative wallet, inventory or stock, a sane cart. */
    ghost predicate Valid()
      reads this
    {
      StoreValid(stock, users, cart, giftcards, session)
    }

    /** The page shows the shop exactly when the session name is truthy: present and not empty. */
    predicate SignedIn()
      reads this
    {
      session.Some? && session.value != ""
    }

    /** Position of the signed-in account in the users table. */
    function Current(): (i: nat)
      reads this
      requires Valid() && SignedIn()
      ensures i < |users| && users[i].name == session.value
    {
      Find(users, session.value).value
    }

    /** Units left of `name`, read from the stocks document. */
    function GetStock(name: string): int
      reads this
      requires stock.Some?
    {
      UnitsOf(stock.value.stocks, name)
    }

    /** An empty database and a fresh page session. */
    constructor ()
      ensures Valid()
      ensures stock.None? && users == [] && purchases == [] && giftcards == []
      ensures session.None? && cart == []
    {
      stock := None;
      users := [];
      purchases := [];
      giftcards := [];
      session := None;
      cart := [];
    }

    /** `reset_stocks`: create the stocks document, or restock everything once a week has passed. */
    method ResetStocks(now: int)
      requires Valid()
      modifies this`stock
      ensures Valid()
      ensures stock == Some(Reset(old(stock), now))
      ensures old(stock).None? ==> stock.value.lastReset == now && stock.value.stocks == FullStock()
      ensures old(stock).Some? && now - old(stock).value.lastReset < Week ==> stock == old(stock)
    {
      ResetKeepsValid(stock, now);
      if stock.None? {
        stock := Some(StockDoc(now, FullStock()));
      } else if now - stock.value.lastReset >= Week {
        stock := Some(StockDoc(now, FullStock()));
      }
    }

    /** `update_stock`: decrement one product's stock, clamped at zero; the name must be stocked. */
    method UpdateStock(name: string, qty: int)
      requires Valid() && stock.Some? && name in stock.value.stocks
      modifies this`stock
      ensures Valid()
      ensures stock == Some(StockDoc(old(stock.value.lastReset), Decrement(old(stock.value.stocks), name, qty)))
    {
      DecrementKeepsValid(stock.value.stocks, name, qty);
      var stocks := stock.value.stocks;
      var left := stocks[name] - qty;
      stocks := stocks[name := if left < 0 then 0 else left];
      stock := Some(stock.value.(stocks := stocks));
    }

    /**
     * `update_user` with a wallet and an inventory: the document with that name gets both. Names
     * are unique under the invariant, so that document is the only match.
     */
    method UpdateUser(name: string, wallet: int, inventory: map<string, int>)
      requires Valid()
      requires wallet >= 0 && forall n :: n in inventory ==> inventory[n] >= 0
      modifies this`users
      ensures Valid()
      ensures Find(old(users), name).None? ==> users == old(users)
      ensures Find(old(users), name).Some? ==>
                var i := Find(old(users), name).value;
                users == old(users)[i := old(users)[i].(wallet := wallet, inventory := inventory)]
    {
      match Find(users, name)
      case None =>
      case Some(i) =>
        AccountKeepsValid(stock, users, cart, giftcards, session, i, users[i].(wallet := wallet, inventory := inventory));
        users := users[i := users[i].(wallet := wallet, inventory := inventory)];
    }

    /** `set_logged_in` (flag true) and `set_logged_out` (flag false). */
    method SetLoggedIn(name: string, flag: bool)
      requires Valid()
      modifies this`users
      ensures Valid()
      ensures Find(old(users), name).None? ==> users == old(users)
      ensures Find(old(users), name).Some? ==> users == WithFlag(old(users), Find(old(users), name).value, flag)
    {
      match Find(users, name)
      case None =>
      case Some(i) =>
        AccountKeepsValid(stock, users, cart, giftcards, session, i, users[i].(loggedIn := flag));
        users := WithFlag(users, i, flag);
    }

    /** `record_purchase`: append one record to the purchases table. */
    method RecordPurchase(buyer: string, item: string, qty: int, now: int)
      requires Valid()
      modifies this`purchases
      ensures Valid()
      ensures purchases == old(purchases) + [Record(buyer, item, qty, now)]
    {
      purchases := purchases + [Record(buyer, item, qty, now)];
    }

    /** The signup handler: insert a new account unless the name is taken. */
    method Signup(name: string, email: string, password: string) returns (created: bool)
      requires Valid()
      modifies this`users
      ensures Valid()
      ensures created == Find(old(users), name).None?
      ensures created ==> users == old(users) + [NewAccount(name, email, password)]
      ensures !created ==> users == old(users)
    {
      if Find(users, name).Some? {
        created := false;
      } else {
        var a := NewAccount(name, email, password);
        SignupKeepsDistinct(users, a);
        if session.Some? {
          FindAfterSignup(users, a, session.value);
        }
        users := users + [a];
        created := true;
      }
    }

    /** The login handler: on an exact password match, flag the account and sign the session in. */
    method Login(name: string, password: string) returns (ok: bool)
      requires Valid()
      modifies this`users, this`session
      ensures Valid()
      ensures ok == Authenticate(old(users), name, password).Some?
      ensures ok ==> users == WithFlag(old(users), Find(old(users), name).value, true) && session == Some(name)
      ensures !ok ==> users == old(users) && session == old(session)
    {
      if Authenticate(users, name, password).Some? {
        SetLoggedIn(name, true);
        session := Some(name);
        ok := true;
      } else {
        ok := false;
      }
    }

    /** `logout_user`: when the session is signed in, clear the account's flag and the session. */
    method Logout()
      requires Valid()
      modifies this`users, this`session
      ensures Valid()
      ensures old(SignedIn()) ==> users == WithFlag(old(users), old(Current()), false) && session.None?
      ensures !old(SignedIn()) ==> users == old(users) && session == old(session)
    {
      if SignedIn() {
        SetLoggedIn(session.value, false);
        session := None;
      }
    }

    /** Start of every page run: a session that is not signed in adopts the first logged-in account. */
    method RestoreSession()
      requires Valid()
      modifies this`session
      ensures Valid()
      ensures old(SignedIn()) || FirstLoggedIn(users).None? ==> session == old(session)
      ensures !old(SignedIn()) && FirstLoggedIn(users).Some? ==> session == Some(users[FirstLoggedIn(users).value].name)
    {
      if !SignedIn() {
        match FirstLoggedIn(users)
        case None =>
        case Some(i) =>
          session := Some(users[i].name);
      }
    }

    /** The wallet top-up handler: add a non-negative amount to the signed-in account's wallet. */
    method TopUp(add: int)
      requires Valid() && SignedIn() && add >= 0
      modifies this`users
      ensures Valid()
      ensures var i := old(Current());
              users == old(users)[i := old(users)[i].(wallet := old(users)[i].wallet + add)]
    {
      var i := Current();
      var user := users[i];
      UpdateUser(user.name, user.wallet + add, user.inventory);
    }

    /** The add-to-cart button: the cart entry for the product now holds the chosen count. */
    method AddToCart(p: Product, qty: int)
      requires Valid() && SignedIn() && stock.Some?
      requires p in Products && 1 <= qty <= GetStock(p.name)
      modifies this`cart
      ensures Valid()
      ensures cart == Put(old(cart), CartLine(p, qty))
    {
      PutKeepsCartValid(cart, CartLine(p, qty));
      cart := Put(cart, CartLine(p, qty));
    }

    /**
     * The buy-now button: when the wallet covers price times quantity, decrement the stock, credit
     * the inventory, debit the wallet and append one record; otherwise change nothing.
     */
    method DirectBuy(p: Product, qty: int, now: int) returns (ok: bool)
      requires Valid() && SignedIn() && stock.Some?
      requires p in Products && 1 <= qty <= GetStock(p.name)
      modifies this`stock, this`users, this`purchases
      ensures Valid()
      ensures ok == (old(users[Current()].wallet) >= p.price * qty)
      ensures ok ==>
                var i := old(Current());
                var u := old(users)[i];
                var e := Credit(Effects(old(stock.value.stocks), u.inventory, old(purchases)), p.name, qty, u.name, now);
                && stock == Some(StockDoc(old(stock.value.lastReset), e.stocks))
                && users == old(users)[i := u.(wallet := u.wallet - p.price * qty, inventory := e.inv)]
                && purchases == e.log
      ensures !ok ==> stock == old(stock) && users == old(users) && purchases == old(purchases)
    {
      var i := Current();
      if users[i].wallet >= p.price * qty {
        Buy(i, p, qty, now);
        ok := true;
      } else {
        ok := false;
      }
    }

    /** The funded branch of the buy-now button, for the account at position `i`. */
    method Buy(i: nat, p: Product, qty: int, now: int)
      requires Valid() && stock.Some? && i < |users|
      requires p in Products && 1 <= qty <= GetStock(p.name) && users[i].wallet >= p.price * qty
      modifies this`stock, this`users, this`purchases
      ensures Valid()
      ensures var u := old(users)[i];
              var e := Credit(Effects(old(stock.value.stocks), u.inventory, old(purchases)), p.name, qty, u.name, now);
              && stock == Some(StockDoc(old(stock.value.lastReset), e.stocks))
              && users == old(users)[i := u.(wallet := u.wallet - p.price * qty, inventory := e.inv)]
              && purchases == e.log
    {
      var user := users[i];
      var cost := p.price * qty;
      var e := Credit(Effects(stock.value.stocks, user.inventory, purchases), p.name, qty, user.name, now);
      DecrementKeepsValid(stock.value.stocks, p.name, qty);
      PurchaseKeepsValid(stock, users, cart, giftcards, session, e.stocks, i,
                         user.(wallet := user.wallet - cost, inventory := e.inv), cart);
      stock := Some(StockDoc(stock.value.lastReset, e.stocks));
      users := users[i := user.(wallet := user.wallet - cost, inventory := e.inv)];
      purchases := e.log;
    }

    /**
     * The checkout button. When the wallet covers the cart total, every line in cart order is
     * credited if its count does not exceed the stock left and skipped otherwise; then the full
     * total is debited and the cart emptied. When it does not, nothing changes.
     */
    method Checkout(now: int) returns (ok: bool)
      requires Valid() && SignedIn() && stock.Some?
      modifies this`stock, this`users, this`purchases, this`cart
      ensures Valid()
      ensures ok == (old(users[Current()].wallet) >= Total(old(cart)))
      ensures ok ==>
                var i := old(Current());
                var u := old(users)[i];
                var e := ApplyLines(Effects(old(stock.value.stocks), u.inventory, old(purchases)), old(cart), u.name, now);
                && stock == Some(StockDoc(old(stock.value.lastReset), e.stocks))
                && users == old(users)[i := u.(wallet := u.wallet - Total(old(cart)), inventory := e.inv)]
                && purchases == e.log
                && cart == []
      ensures !ok ==> stock == old(stock) && users == old(users) && purchases == old(purchases) && cart == old(cart)
    {
      var i := Current();
      if users[i].wallet >= Total(cart) {
        Pay(i, now);
        ok := true;
      } else {
        ok := false;
      }
    }

    /** The funded branch of the checkout, for the account at position `i`. */
    method Pay(i: nat, now: int)
      requires Valid() && stock.Some? && i < |users| && users[i].wallet >= Total(cart)
      modifies this`stock, this`users, this`purchases, this`cart
      ensures Valid()
      ensures var u := old(users)[i];
              var e := ApplyLines(Effects(old(stock.value.stocks), u.inventory, old(purchases)), old(cart), u.name, now);
              && stock == Some(StockDoc(old(stock.value.lastReset), e.stocks))
              && users == old(users)[i := u.(wallet := u.wallet - Total(old(cart)), inventory := e.inv)]
              && purchases == e.log
              && cart == []
    {
      var user := users[i];
      var total := Total(cart);
      var e := CheckoutLines(Effects(stock.value.stocks, user.inventory, purchases), cart, user.name, now);
      CheckoutKeepsValid(stock, users, cart, giftcards, session, i, purchases, now);
      stock := Some(StockDoc(stock.value.lastReset, e.stocks));
      users := users[i := user.(wallet := user.wallet - total, inventory := e.inv)];
      purchases := e.log;
      cart := [];
    }

    /** The gift-card button: store an unused card whose code is built from twelve drawn characters. */
    method IssueGiftCard(chars: string, amount: int) returns (code: string)
      requires Valid()
      requires DrawnChars(chars)
      requires amount >= MinAmount
      modifies this`giftcards
      ensures Valid()
      ensures code == GiftCode(chars) && WellFormedCode(code)
      ensures giftcards == old(giftcards) + [GiftCard(code, amount, false)]
    {
      var card := Issue(chars, amount);
      code := card.code;
      giftcards := giftcards + [card];
    }
  }
}
