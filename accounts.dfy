/** The account store: the users table as a sequence of documents in insertion order. */
module Accounts {

  import opened Wrappers

  /** One document of the users table. `inventory` maps an item label to the units owned. */
  datatype Account = Account(
    name: string,
    email: string,
    password: string,
    wallet: int,
    inventory: map<string, int>,
    loggedIn: bool)

  /** Balance a new account starts with. */
  const StartingWallet: int := 10000

  /** No two documents share a name: signup refuses a name that is taken. */
  ghost predicate DistinctNames(users: seq<Account>)
  {
    forall i, j :: 0 <= i < j < |users| ==> users[i].name != users[j].name
  }

  /** The users table as the handlers keep it: unique names, no negative wallet or inventory count. */
  ghost predicate UsersValid(users: seq<Account>)
  {
    DistinctNames(users) &&
    forall i :: 0 <= i < |users| ==> users[i].wallet >= 0 && forall n :: n in users[i].inventory ==> users[i].inventory[n] >= 0
  }

  /** Updating one account in place, name kept, with a non-negative wallet and inventory keeps the table valid. */
  lemma UpdateKeepsUsersValid(users: seq<Account>, i: nat, a: Account)
    requires UsersValid(users) && i < |users| && a.name == users[i].name
    requires a.wallet >= 0 && forall n :: n in a.inventory ==> a.inventory[n] >= 0
    ensures UsersValid(users[i := a])
    ensures forall n :: Find(users[i := a], n) == Find(users, n)
  {
    forall n ensures Find(users[i := a], n) == Find(users, n) {
      UpdateKeepsNames(users, i, a, n);
    }
  }

  /** Position of the first document named `name` (`get_user`), or None when there is none. */
  function Find(users: seq<Account>, name: string): (r: Option<nat>)
    ensures r.None? <==> forall i :: 0 <= i < |users| ==> users[i].name != name
    ensures r.Some? ==> r.value < |users| && users[r.value].name == name
    ensures r.Some? ==> forall j :: 0 <= j < r.value ==> users[j].name != name
  {
    if |users| == 0 then None
    else if users[0].name == name then Some(0)
    else match Find(users[1..], name)
      case None => None
      case Some(i) => Some(i + 1)
  }

  /** Position of the first logged-in document (`get_logged_in_user`), or None when nobody is. */
  function FirstLoggedIn(users: seq<Account>): (r: Option<nat>)
    ensures r.None? <==> forall i :: 0 <= i < |users| ==> !users[i].loggedIn
    ensures r.Some? ==> r.value < |users| && users[r.value].loggedIn
    ensures r.Some? ==> forall j :: 0 <= j < r.value ==> !users[j].loggedIn
  {
    if |users| == 0 then None
    else if users[0].loggedIn then Some(0)
    else match FirstLoggedIn(users[1..])
      case None => None
      case Some(i) => Some(i + 1)
  }

  /** Names of the logged-in documents, in table order (`get_online_users`). */
  function OnlineNames(users: seq<Account>): (r: seq<string>)
    ensures |r| <= |users|
    ensures forall n :: n in r <==> exists i :: 0 <= i < |users| && users[i].loggedIn && users[i].name == n
  {
    if |users| == 0 then []
    else
      var rest := OnlineNames(users[1..]);
      assert forall i :: 1 <= i < |users| ==> users[i] == users[1..][i - 1];
      (if users[0].loggedIn then [users[0].name] else []) + rest
  }

  /**
   * The login check: the position of the account named `name` when its stored password
   * equals `password` exactly, None otherwise.
   */
  function Authenticate(users: seq<Account>, name: string, password: string): (r: Option<nat>)
    ensures r.Some? ==> r.value < |users| && users[r.value].name == name && users[r.value].password == password
    ensures r.None? && Find(users, name).Some? ==> users[Find(users, name).value].password != password
  {
    match Find(users, name)
    case None => None
    case Some(i) => if users[i].password == password then Some(i) else None
  }

  /** With distinct names, login succeeds exactly when some account has that name and that password. */
  lemma AuthenticateExact(users: seq<Account>, name: string, password: string)
    requires DistinctNames(users)
    ensures Authenticate(users, name, password).Some? <==>
              exists i :: 0 <= i < |users| && users[i].name == name && users[i].password == password
  {
    if i :| 0 <= i < |users| && users[i].name == name && users[i].password == password {
      var k := Find(users, name).value;
      assert k == i;
    }
  }

  /** The account a signup inserts. */
  function NewAccount(name: string, email: string, password: string): (a: Account)
    ensures a.name == name && a.email == email && a.password == password
    ensures a.wallet == StartingWallet && a.inventory == map[] && !a.loggedIn
  {
    Account(name, email, password, StartingWallet, map[], false)
  }

  /** The users table with the session flag of document `i` set to `flag`. */
  function WithFlag(users: seq<Account>, i: nat, flag: bool): (r: seq<Account>)
    requires i < |users|
    ensures |r| == |users| && r[i].loggedIn == flag
    ensures forall j :: 0 <= j < |users| ==> r[j].name == users[j].name
    ensures r[i].email == users[i].email && r[i].password == users[i].password
    ensures r[i].wallet == users[i].wallet && r[i].inventory == users[i].inventory
    ensures forall j :: 0 <= j < |users| && j != i ==> r[j] == users[j]
  {
    users[i := users[i].(loggedIn := flag)]
  }

  /**
   * Signing up a new name and looking it up again gives back the account just inserted;
   * every other name is found where it was before.
   */
  lemma {:induction false} FindAfterSignup(users: seq<Account>, a: Account, n: string)
    requires Find(users, a.name).None?
    ensures Find(users + [a], a.name) == Some(|users|)
    ensures n != a.name ==> Find(users + [a], n) == Find(users, n)
  {
    if |users| > 0 {
      assert (users + [a])[1..] == users[1..] + [a];
      FindAfterSignup(users[1..], a, n);
    }
  }

  /** A signup of a free name keeps the names distinct. */
  lemma SignupKeepsDistinct(users: seq<Account>, a: Account)
    requires DistinctNames(users) && Find(users, a.name).None?
    ensures DistinctNames(users + [a])
  {
    var u := users + [a];
    forall i, j | 0 <= i < j < |u| ensures u[i].name != u[j].name {
      if j == |users| {
        assert u[i] == users[i];
      } else {
        assert u[i] == users[i] && u[j] == users[j];
      }
    }
  }

  /** Changing the fields other than the name of document `i` moves no name. */
  lemma {:induction false} UpdateKeepsNames(users: seq<Account>, i: nat, a: Account, n: string)
    requires i < |users| && a.name == users[i].name
    ensures Find(users[i := a], n) == Find(users, n)
    ensures DistinctNames(users) ==> DistinctNames(users[i := a])
  {
    var u := users[i := a];
    assert forall j :: 0 <= j < |users| ==> u[j].name == users[j].name;
    if i > 0 {
      assert u[1..] == users[1..][i - 1 := a];
      UpdateKeepsNames(users[1..], i - 1, a, n);
    }
  }

  /** After a login of the account at `i`, the online names are the old ones plus that name. */
  lemma {:induction false} OnlineAfterLogin(users: seq<Account>, i: nat, n: string)
    requires i < |users|
    ensures n in OnlineNames(WithFlag(users, i, true)) <==> n == users[i].name || n in OnlineNames(users)
  {
    var u := WithFlag(users, i, true);
    if n in OnlineNames(users) {
      var k :| 0 <= k < |users| && users[k].loggedIn && users[k].name == n;
      assert u[k].loggedIn && u[k].name == n;
    }
    if n == users[i].name {
      assert u[i].loggedIn && u[i].name == n;
    }
  }

  /** After a logout of the account at `i`, that name is offline and the others keep their state. */
  lemma {:induction false} OnlineAfterLogout(users: seq<Account>, i: nat, n: string)
    requires i < |users| && DistinctNames(users)
    ensures n in OnlineNames(WithFlag(users, i, false)) <==> n != users[i].name && n in OnlineNames(users)
  {
    var u := WithFlag(users, i, false);
    if n in OnlineNames(u) {
      var k :| 0 <= k < |u| && u[k].loggedIn && u[k].name == n;
      assert k != i && users[k] == u[k];
    }
    if n != users[i].name && n in OnlineNames(users) {
      var k :| 0 <= k < |users| && users[k].loggedIn && users[k].name == n;
      assert k != i && users[k] == u[k];
    }
  }

  /**
   * The online list follows table order: a document appended to the table adds its name at the
   * end of the list when it is logged in, and adds nothing otherwise.
   */
  lemma {:induction false} OnlineNamesAppend(users: seq<Account>, a: Account)
    ensures OnlineNames(users + [a]) == OnlineNames(users) + (if a.loggedIn then [a.name] else [])
  {
    if |users| > 0 {
      assert (users + [a])[1..] == users[1..] + [a];
      OnlineNamesAppend(users[1..], a);
    }
  }

  /** The account inserted by a signup is offline, so the online list is unchanged. */
  lemma SignupKeepsOnline(users: seq<Account>, a: Account)
    requires !a.loggedIn
    ensures OnlineNames(users + [a]) == OnlineNames(users)
  {
    OnlineNamesAppend(users, a);
  }
}
