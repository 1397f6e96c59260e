# Shop state machine of `shopstrem.py`

`shopstrem.py` is a one-page Streamlit shop. It sells a fixed catalog of four products. Its data lives in
four TinyDB tables (users, purchases, giftcards, stocks), plus a per-session signed-in name and cart.
This project lifts the commerce logic out of the page handlers and proves its behaviour in Dafny.

The model has these parts:

- `Catalog`: the four products, their prices in won, and the stock-policy constants. Each reset restocks
  2000 units, and the reset window is seven days, written in seconds.
- `StockLedger`: document 1 of the stocks table (`last_reset` plus a name-to-units map).
  - It covers the time-gated `reset_stocks` and `update_stock`, whose decrement is clamped at zero.
    `get_stock` reads the map through `Catalog.UnitsOf`, which gives 0 for an unknown name.
- `Accounts`: the users table as a sequence of documents in insertion order. This is TinyDB's order, so
  "first match" means what `get` returns. It covers:
  - lookup by name (`get_user`), the first logged-in document (`get_logged_in_user`) and the online list;
  - the exact-string password check, the new-account document, and the login flag.
- `Transactions`: the purchase record, the cart as an insertion-ordered sequence of lines (a dict keyed by
  product name), and the cart total.
  - It also covers the effect of one purchase on stock, inventory and log (`Credit`).
  - The checkout loop is `CheckoutLines`, a `while` loop proved against the recursive specification
    `ApplyLines`.
- `GiftCards`: the gift-card code format, three hyphen-joined blocks of four characters from `A-Z0-9`, and
  the stored card.
- `Shop.Store`: a class whose fields are the four tables and the session state. Each handler is a method
  with a `modifies` frame and keeps the invariant `Valid()`. The handlers are signup, login, logout,
  session restore, top-up, add-to-cart, buy-now, checkout and gift-card issue.

A checkout never fails because a line cannot be served (`shopstrem.py:157-173`). It does three things:

- It skips, silently, any cart line whose count exceeds the stock remaining at that moment.
- It debits the full total computed before the loop.
- It empties the cart.

`Transactions.ChargeCoversCredited` proves the consequence. The value of the goods credited is never more
than the amount charged. It is strictly less as soon as one line is skipped.

Time is an integer number of seconds, passed in as `now`. The twelve random characters of a gift code are
passed in as `chars`.

## Model

| member | source | states |
|---|---|---|
| Catalog.PricesPositive | shopstrem.py:22-27 | every catalog price is positive |
| Catalog.NamesUnique | shopstrem.py:22-27 | catalog product names are pairwise distinct |
| StockLedger.FullStockPerProduct | shopstrem.py:37 | a freshly reset stock map holds exactly one entry per catalog product |
| StockLedger.FullStock | shopstrem.py:37 | the freshly reset map has exactly the catalog names as keys, each at 2000 units |
| StockLedger.Reset | shopstrem.py:32-42 | with no document, or at least seven days after the last reset, the document becomes `(now, full stock)`; inside the window it is returned unchanged; the result is a non-negative map unless it is the old document |
| Catalog.UnitsOf | shopstrem.py:44-45 | the stored count for a name in the map, 0 for any other name; it reads both the stock map (`get_stock`) and an inventory (`inv.get(name, 0)` at line 140) |
| StockLedger.Decrement | shopstrem.py:47-51 | same keys; that product drops by exactly `qty` when that stays non-negative, and becomes 0 otherwise; never negative; every other product unchanged |
| StockLedger.ResetFromNothing | shopstrem.py:35-37 | the first reset stamps `now` and puts every catalog product at 2000 |
| StockLedger.ResetWithinWindow | shopstrem.py:38-40 | after a reset at `t`, any reset at a time less than seven days later is a no-op |
| StockLedger.ResetWhenDue | shopstrem.py:40-42 | seven days or more after the last reset, the document becomes `(now, full stock)` |
| StockLedger.ResetIdempotent | shopstrem.py:32-42 | two resets at the same instant equal one |
| StockLedger.ResetKeepsValid | shopstrem.py:32-42 | a reset leaves no negative count |
| StockLedger.DecrementKeepsValid | shopstrem.py:50 | the clamped decrement keeps every count non-negative |
| Accounts.Find | shopstrem.py:56 | None exactly when no document has the name; otherwise the position of the first document with that name |
| Accounts.FirstLoggedIn | shopstrem.py:58 | None exactly when nobody is logged in; otherwise the position of the first logged-in document |
| Accounts.OnlineNames | shopstrem.py:61 | a name is listed exactly when some logged-in document carries it; no longer than the table |
| Accounts.Authenticate | shopstrem.py:96-97 | a result names an account with that name and exactly that password; a refusal of an existing name means its stored password differs |
| Accounts.AuthenticateExact | shopstrem.py:96-97 | with distinct names, authentication succeeds exactly when an account has that name and that password |
| Accounts.NewAccount | shopstrem.py:87-88 | the inserted document carries the given name, email and password, wallet 10000, empty inventory, and is logged out |
| Accounts.WithFlag | shopstrem.py:59-60 | that document's flag is set and its name, email, password, wallet and inventory are kept; every other document is unchanged |
| Accounts.FindAfterSignup | shopstrem.py:84-88 | after appending a free name, looking it up finds the new document, and every other name is found where it was |
| Accounts.SignupKeepsDistinct | shopstrem.py:84-88 | appending a free name keeps names distinct |
| Accounts.UpdateKeepsNames | shopstrem.py:57 | replacing a document by one with the same name changes no lookup and keeps names distinct |
| Accounts.UpdateKeepsUsersValid | shopstrem.py:57 | replacing a document by one with the same name and no negative wallet or inventory keeps the table valid and changes no lookup |
| Accounts.OnlineAfterLogin | shopstrem.py:59-61 | after a login the online names are the old ones plus the account's name |
| Accounts.OnlineAfterLogout | shopstrem.py:60-61 | after a logout that name is offline and every other name keeps its status |
| Accounts.OnlineNamesAppend | shopstrem.py:61 | the online list follows table order: an appended document adds its name at the end when logged in, and nothing otherwise |
| Accounts.SignupKeepsOnline | shopstrem.py:87-88 | a signup leaves the online list exactly as it was |
| GiftCards.AlphabetIsCodeChars | shopstrem.py:193 | a character is in the drawing alphabet exactly when it is an upper-case letter or a digit |
| GiftCards.GiftCode | shopstrem.py:193 | joining twelve drawn characters in blocks of four gives a well-formed code: length 14, `-` at positions 4 and 9, letters or digits elsewhere |
| GiftCards.CodeChars | shopstrem.py:193 | dropping the hyphens of a well-formed code leaves twelve letters or digits |
| GiftCards.CodeCharsOfGiftCode | shopstrem.py:193 | dropping the hyphens of a built code gives back the drawn characters |
| GiftCards.GiftCodeOfCodeChars | shopstrem.py:193 | every well-formed code is the code built from its own characters |
| GiftCards.Issue | shopstrem.py:191-194 | the stored card has a well-formed code made of the drawn characters, the requested amount (at least 1000) and `used = false` |
| Transactions.CartFind | shopstrem.py:133 | None exactly when no line has that product name; otherwise the first line with that name |
| Transactions.Put | shopstrem.py:133 | afterwards the line for the name is the new line; an existing key keeps its position and the length; a new key is appended; lines with other keys do not move |
| Transactions.PutKeepsCartValid | shopstrem.py:128-133 | putting a catalog product with at least one unit keeps cart keys distinct and every line well formed |
| Transactions.LineValue | shopstrem.py:158 | a line's value, unit price times count (no contract of its own; `CartLinesPositive` proves it positive for a valid cart) |
| Transactions.Total | shopstrem.py:158 | the cart total, the sum of line values (no contract of its own; `TotalAppend`, `TotalNonNegative` and `ChargeCoversCredited` state its properties) |
| Transactions.Record | shopstrem.py:67-68 | the purchase document for the buyer, product, quantity and time (no contract of its own) |
| Transactions.Fits | shopstrem.py:166 | the loop's guard: the count does not exceed the stock left (no contract of its own) |
| Transactions.Step | shopstrem.py:166-169 | one loop iteration: `Credit` when the line fits, no effect otherwise (no contract of its own) |
| Transactions.ApplyLines | shopstrem.py:165-169 | the reference for the checkout loop, line by line in cart order; `CheckoutLines` meets it and the `ApplyLines…` lemmas state its properties (no contract of its own) |
| Transactions.Records | shopstrem.py:169 | one record per line, in line order, each naming the buyer, product, count and time |
| Transactions.Credit | shopstrem.py:138-143 | stock keys kept; that stock drops by exactly `qty` when it was at least `qty`; the inventory rises by exactly `qty`; other labels unchanged; exactly one record appended |
| Transactions.InStock | shopstrem.py:166 | every listed line comes from the input and fits the given stock, and every fitting input line is listed |
| Transactions.InStockConcat | shopstrem.py:165-166 | the filter keeps order: filtering a concatenation concatenates the filtered parts |
| Transactions.CheckoutLines | shopstrem.py:164-169 | the checkout loop over the cart, in order, yields exactly the effects of the specification `ApplyLines` |
| Transactions.ApplyLinesKeepsValid | shopstrem.py:165-168 | the loop keeps the stock keys and leaves no negative stock and no negative inventory |
| Transactions.ApplyLinesConserves | shopstrem.py:165-168 | for every label, stock plus owned units is the same before and after the loop |
| Transactions.ApplyLinesFrame | shopstrem.py:165-169 | a label that no cart line names keeps its stock and its inventory count |
| Transactions.ApplyLinesLog | shopstrem.py:169 | the log after the loop is the old log plus one record per credited line, in cart order |
| Transactions.ApplyLinesAt | shopstrem.py:165-168 | with distinct cart keys, a line that fits the stock at the start of checkout lowers that product's stock and raises its inventory by its count; a line that does not fit leaves both unchanged |
| Transactions.TakenIsInStock | shopstrem.py:165-166 | with distinct cart keys, a line is credited exactly when its count does not exceed the stock at the start of checkout |
| Transactions.TotalAppend | shopstrem.py:158 | appending a line adds its value to the total |
| Transactions.TotalNonNegative | shopstrem.py:158 | a cart of positive lines has a non-negative total |
| Transactions.CartLinesPositive | shopstrem.py:158 | every line of a well-formed cart has a positive value |
| Transactions.ChargeCoversCredited | shopstrem.py:158-170 | the value of the lines credited is at most the total charged, strictly less when any line is skipped, and the credited lines are the whole cart when none is skipped |
| Shop.PurchaseKeepsValid | shopstrem.py:136-145 | a valid stock map, one account updated in place and a kept or emptied cart keep the store invariant |
| Shop.AccountKeepsValid | shopstrem.py:57 | updating one account in place with its name kept and nothing negative keeps the store invariant |
| Shop.CheckoutKeepsValid | shopstrem.py:163-171 | a funded checkout keeps the store invariant, so the wallet stays non-negative |
| Shop.Store.constructor | shopstrem.py:13-17 | empty tables and a signed-out session with an empty cart, satisfying the invariant |
| Shop.Store.SignedIn | shopstrem.py:206-210 | the session name is truthy: present and not empty (no contract of its own) |
| Shop.Store.GetStock | shopstrem.py:44-45 | `get_stock` on the stocks document, through `UnitsOf` (no contract of its own) |
| Shop.Store.Current | shopstrem.py:113 | the signed-in account exists and carries the session name |
| Shop.Store.ResetStocks | shopstrem.py:32-42 | the stocks document becomes `Reset(old, now)`: created full if absent, restocked if due, untouched within the window |
| Shop.Store.UpdateStock | shopstrem.py:47-51 | only that product's stock changes, to the clamped decrement; `last_reset` is kept; the invariant is kept |
| Shop.Store.UpdateUser | shopstrem.py:57 | under the invariant (unique names), the one document with that name gets the wallet and inventory; a missing name changes nothing; a non-negative wallet and inventory keep the invariant |
| Shop.Store.SetLoggedIn | shopstrem.py:59-60 | the flag of the named document is set; a missing name changes nothing; the invariant is kept |
| Shop.Store.RecordPurchase | shopstrem.py:66-68 | appends exactly one record; the invariant is kept |
| Shop.Store.Signup | shopstrem.py:84-88 | a taken name changes nothing; a free name appends exactly the new account |
| Shop.Store.Login | shopstrem.py:95-101 | succeeds exactly when the name exists with that exact password, and then flags the account and signs the session in; otherwise nothing changes |
| Shop.Store.Logout | shopstrem.py:103-107 | for a signed-in session, clears that account's flag and the session; otherwise nothing changes |
| Shop.Store.RestoreSession | shopstrem.py:206-208 | a session that is not signed in adopts the name of the first logged-in account, if any |
| Shop.Store.TopUp | shopstrem.py:150-153 | the signed-in wallet rises by exactly `add`; nothing else changes |
| Shop.Store.AddToCart | shopstrem.py:133 | the cart becomes `Put(cart, line)`: that product's entry holds the chosen count |
| Shop.Store.DirectBuy | shopstrem.py:136-145 | succeeds exactly when the wallet covers price times quantity; then stock, inventory, log and wallet are those of `Credit` with the cost debited; otherwise nothing changes |
| Shop.Store.Buy | shopstrem.py:137-143 | the funded branch of buy-now: effects of `Credit`, wallet debited by price times quantity, invariant kept |
| Shop.Store.Checkout | shopstrem.py:157-173 | succeeds exactly when the wallet covers the cart total; then stock, inventory and log are those of the checkout loop, the wallet drops by the full total and the cart is emptied; otherwise nothing changes |
| Shop.Store.Pay | shopstrem.py:163-171 | the funded branch of checkout: loop effects, full total debited, cart emptied, invariant kept |
| Shop.Store.IssueGiftCard | shopstrem.py:191-194 | appends exactly one unused card with the well-formed code built from the drawn characters and the requested amount |

## Left out

- Streamlit rendering, widgets, reruns and page configuration (`shopstrem.py:1`, `79-83`, `112-128`,
  `203-214`) are left out as UI. The widget bounds become preconditions:
  - the buy-now and cart quantity is between 1 and the current stock;
  - a top-up is not negative;
  - a gift-card amount is at least 1000.
- TinyDB and the resource cache (`shopstrem.py:9-17`) are a foreign persistence library. The tables are
  in-memory sequences, and the stocks table is its single document.
- `datetime.now()` and the ISO timestamp strings (`shopstrem.py:34`, `39`, `68`) are replaced by an
  integer number of seconds passed as `now`.
- `random.choices` (`shopstrem.py:193`) is randomness. The twelve drawn characters are an input.
- The inventory and purchase-history listings (`shopstrem.py:177-187`) and all amount formatting are
  output only.
- Shop.StoreValid: the invariant does not require the stock keys to be exactly the catalog names. That
  fact is stated about each operation instead: `FullStock`, `Decrement`, `Credit` and
  `ApplyLinesKeepsValid` each keep or establish the key set.
- Shop.Store.UpdateUser: updates the first document with the name, while `update_user` updates every
  matching document. The method requires the invariant, whose names are unique, so there is exactly one
  match and the two agree.
- Shop.Store.UpdateStock: requires the stocks document and a stocked name. `update_stock` reads the
  document at line 48 and indexes `stocks[name]` at line 50, and raises when either is missing.
  `get_stock` (line 45) likewise raises without the document. The page never reaches those failures,
  because line 204 runs `reset_stocks` first. The model does not represent the exceptions.
- Shop.Store.Checkout: stamps every record of one checkout with the same `now`. Each `record_purchase`
  call (line 68) reads the clock again, so the source's records may carry slightly different times.
- Shop.Store.Checkout: accepts an empty cart, which charges 0 and changes nothing. On the page the
  checkout button exists only when the cart is not empty (line 157).
- Shop.Store.DirectBuy: computes the new state through `Credit`, a function, instead of calling the
  `UpdateStock`, `UpdateUser` and `RecordPurchase` methods. The composed effect is the same, and each of
  those methods is modelled separately.
- Shop.Store.Checkout: same as DirectBuy. The checkout loop runs on values in `CheckoutLines`, and the
  store's fields are assigned once afterwards.
- Concurrent sessions sharing the tables are not modelled. Each handler runs to completion on one
  `Store`.
