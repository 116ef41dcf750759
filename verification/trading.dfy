/**
 * The ledger state of the trades app and the operations that change it:
 * user sign-up (which creates the account), order submission (validate,
 * create, settle), and the delete rules of the schema.
 */
module Trading {
  import opened Wrappers
  import opened Accounts
  import opened TradeModels
  import opened Validation
  import opened Settlement

  /**
   * An order submission after request parsing: the codes of the stock and the
   * order type, the quantity, and the optional columns. A client-sent total
   * value or status is accepted by the parser and then ignored.
   */
  datatype Proposal = Proposal(
    stock: string,
    orderType: string,
    quantity: real,
    price: Option<real>,
    totalValue: Option<real>,
    status: Option<string>)

  /** Reference rows are looked up by their code. */
  ghost predicate KeyedByCode(stocks: map<string, Stock>, orderTypes: map<string, OrderType>, statuses: map<string, OrderStatus>)
  {
    && (forall c :: c in stocks ==> stocks[c].code == c)
    && (forall c :: c in orderTypes ==> orderTypes[c].code == c)
    && (forall c :: c in statuses ==> statuses[c].code == c)
  }

  /** Order `o` references an existing account and the current rows of its stock, status and type. */
  ghost predicate RefersTo(o: Order, accountIds: set<AccountId>, stocks: map<string, Stock>,
                           statuses: map<string, OrderStatus>, orderTypes: map<string, OrderType>)
  {
    && o.account in accountIds
    && o.stock.code in stocks && stocks[o.stock.code] == o.stock
    && o.status.code in statuses && statuses[o.status.code] == o.status
    && o.orderType.code in orderTypes && orderTypes[o.orderType.code] == o.orderType
  }

  /** Account ids and user ids are below their counters, and no two accounts share a user. */
  ghost predicate Linked(accounts: map<AccountId, Account>, nextAccount: AccountId, nextUser: UserId)
  {
    && (forall id :: id in accounts ==> id < nextAccount && accounts[id].user < nextUser)
    && (forall i, j :: i in accounts && j in accounts && accounts[i].user == accounts[j].user ==> i == j)
  }

  /** Every position row belongs to an existing account and an existing stock. */
  ghost predicate SharesRefer(shares: map<ShareKey, Share>, accountIds: set<AccountId>, stocks: map<string, Stock>)
  {
    forall k :: k in shares ==> k.account in accountIds && k.stock in stocks
  }

  /** Every order of the history references existing rows. */
  ghost predicate OrdersRefer(orders: seq<Order>, accountIds: set<AccountId>, stocks: map<string, Stock>,
                              statuses: map<string, OrderStatus>, orderTypes: map<string, OrderType>)
  {
    forall o :: o in orders ==> RefersTo(o, accountIds, stocks, statuses, orderTypes)
  }

  /** The orders that survive deleting account `a` still reference existing rows. */
  lemma OrdersReferAfterDelete(orders: seq<Order>, accountIds: set<AccountId>, a: AccountId, stocks: map<string, Stock>,
                               statuses: map<string, OrderStatus>, orderTypes: map<string, OrderType>)
    requires OrdersRefer(orders, accountIds, stocks, statuses, orderTypes)
    ensures OrdersRefer(OtherAccounts(orders, a), accountIds - {a}, stocks, statuses, orderTypes)
  {
  }

  /**
   * Deleting account `a` with its orders and share rows keeps every
   * referencing invariant and the agreement between positions and history.
   */
  lemma DeleteAccountKeepsInvariants(accounts: map<AccountId, Account>, shares: map<ShareKey, Share>, orders: seq<Order>,
                                     a: AccountId, stocks: map<string, Stock>, statuses: map<string, OrderStatus>,
                                     orderTypes: map<string, OrderType>, nextAccount: AccountId, nextUser: UserId)
    requires Linked(accounts, nextAccount, nextUser)
    requires SharesRefer(shares, accounts.Keys, stocks)
    requires OrdersRefer(orders, accounts.Keys, stocks, statuses, orderTypes)
    ensures Linked(accounts - {a}, nextAccount, nextUser)
    ensures SharesRefer(SharesOfOthers(shares, a), (accounts - {a}).Keys, stocks)
    ensures OrdersRefer(OtherAccounts(orders, a), (accounts - {a}).Keys, stocks, statuses, orderTypes)
    ensures Tracked(shares, orders) ==> Tracked(SharesOfOthers(shares, a), OtherAccounts(orders, a))
  {
    assert (accounts - {a}).Keys == accounts.Keys - {a};
    OrdersReferAfterDelete(orders, accounts.Keys, a, stocks, statuses, orderTypes);
    if Tracked(shares, orders) {
      TrackedAfterDeleteAccount(shares, orders, a);
    }
  }

  /** Rewriting an account's balances keeps the user links. */
  lemma LinkedAfterUpdate(accounts: map<AccountId, Account>, id: AccountId, acc: Account, nextAccount: AccountId, nextUser: UserId)
    requires Linked(accounts, nextAccount, nextUser) && id in accounts && acc.user == accounts[id].user
    ensures Linked(accounts[id := acc], nextAccount, nextUser)
  {
  }

  class Ledger {
    var stocks: map<string, Stock>
    var orderTypes: map<string, OrderType>
    var statuses: map<string, OrderStatus>
    var accounts: map<AccountId, Account>
    var shares: map<ShareKey, Share>
    var orders: seq<Order>
    var nextUser: UserId
    var nextAccount: AccountId

    /** Referential integrity and the one-to-one link between users and accounts. */
    ghost predicate Valid()
      reads this
    {
      && KeyedByCode(stocks, orderTypes, statuses)
      && Linked(accounts, nextAccount, nextUser)
      && SharesRefer(shares, accounts.Keys, stocks)
      && OrdersRefer(orders, accounts.Keys, stocks, statuses, orderTypes)
    }

    /**
     * Every position equals the net effect of the order history on it, and
     * every order has its position row.
     */
    ghost predicate Tracks()
      reads this
    {
      Tracked(shares, orders)
    }

    ghost function CurrentBooks(): Books
      reads this
    {
      Books(accounts, shares)
    }

    /** An empty ledger over the given reference rows (the loaded fixtures). */
    constructor (stocks0: map<string, Stock>, orderTypes0: map<string, OrderType>, statuses0: map<string, OrderStatus>)
      requires KeyedByCode(stocks0, orderTypes0, statuses0)
      ensures Valid() && Tracks()
      ensures stocks == stocks0 && orderTypes == orderTypes0 && statuses == statuses0
      ensures accounts == map[] && shares == map[] && orders == []
    {
      stocks, orderTypes, statuses := stocks0, orderTypes0, statuses0;
      accounts, shares, orders := map[], map[], [];
      nextUser, nextAccount := 0, 0;
    }

    /** Creating a user creates its account, with both buying-power columns at 0.0. */
    method CreateUser() returns (u: UserId, a: AccountId)
      requires Valid()
      modifies this`accounts, this`nextUser, this`nextAccount
      ensures Valid() && (old(Tracks()) ==> Tracks())
      ensures forall id :: id in old(accounts) ==> old(accounts)[id].user != u
      ensures a !in old(accounts)
      ensures accounts == old(accounts)[a := Account(0.0, 0.0, u)]
    {
      u, a := nextUser, nextAccount;
      accounts := accounts[a := NewAccount(u)];
      nextUser, nextAccount := nextUser + 1, nextAccount + 1;
    }

    /** Writing the account's available buying power directly, as an administrator or a test does. */
    method SetAvailableBp(a: AccountId, bp: real)
      requires Valid() && a in accounts
      modifies this`accounts
      ensures Valid() && (old(Tracks()) ==> Tracks())
      ensures accounts == old(accounts)[a := old(accounts)[a].(availableBp := bp)]
    {
      LinkedAfterUpdate(accounts, a, accounts[a].(availableBp := bp), nextAccount, nextUser);
      accounts := accounts[a := accounts[a].(availableBp := bp)];
      assert accounts.Keys == old(accounts).Keys;
    }

    /**
     * `OrderSerializer.validate`: computes the total value, lazily creates the
     * share row, then applies the guard. Rejection leaves every balance as it
     * was; only the lazy zero row may have appeared.
     */
    method Validate(a: AccountId, stock: Stock, orderType: OrderType, quantity: real, price: Option<real>)
      returns (r: Result<real, Rejection>)
      requires Valid() && a in accounts && stock.code in stocks && stocks[stock.code] == stock
      modifies this`shares
      ensures Valid() && (old(Tracks()) ==> Tracks())
      ensures price.None? ==> r == Failure(PriceMissing) && shares == old(shares)
      ensures price.Some? ==>
        && shares == GetOrCreate(old(shares), ShareKey(a, stock.code))
        && r == Check(accounts[a], Held(old(shares), ShareKey(a, stock.code)), orderType, quantity, price.value)
    {
      if price.None? {
        return Failure(PriceMissing);
      }
      var key := ShareKey(a, stock.code);
      r := Check(accounts[a], Held(shares, key), orderType, quantity, price.value);
      if Tracks() {
        TrackedAfterGetOrCreate(shares, orders, key);
      }
      shares := GetOrCreate(shares, key);
    }

    /**
     * The post-save handler `update_account_balance`, run for order `o` right
     * after it is stored.
     */
    method Settle(o: Order, created: bool)
      requires Valid() && RefersTo(o, accounts.Keys, stocks, statuses, orderTypes)
      modifies this`accounts, this`shares
      ensures Valid()
      ensures CurrentBooks() == Settlement.Settle(old(CurrentBooks()), o, created)
    {
      if Fires(o, created) {
        var key := KeyOf(o);
        var held := GetOrCreate(shares, key);
        var account := accounts[o.account];
        var updated := account.(availableBp := ApplyToBalance(account.availableBp, o));
        LinkedAfterUpdate(accounts, o.account, updated, nextAccount, nextUser);
        assert accounts[o.account := updated].Keys == accounts.Keys;
        accounts, shares := accounts[o.account := updated], held[key := ApplyToShare(held[key], o)];
      }
    }

    /**
     * `OrderSerializer.create` followed by its post-save handler: the order is
     * stamped FILLED and given the requesting account, stored, and settled.
     */
    method Create(a: AccountId, stock: Stock, orderType: OrderType, quantity: real, price: real, total: real)
      returns (r: Result<Order, Rejection>)
      requires Valid() && a in accounts
      requires stock.code in stocks && stocks[stock.code] == stock
      requires orderType.code in orderTypes && orderTypes[orderType.code] == orderType
      modifies this`orders, this`accounts, this`shares
      ensures Valid() && (old(Tracks()) ==> Tracks())
      ensures FILLED !in statuses ==>
        r == Failure(FilledStatusMissing) && orders == old(orders) && CurrentBooks() == old(CurrentBooks())
      ensures FILLED in statuses ==>
        && r == Success(NewOrder(a, stock, quantity, Some(price), Some(total), statuses[FILLED], orderType))
        && orders == old(orders) + [r.value]
        && CurrentBooks() == Settlement.Settle(old(CurrentBooks()), r.value, true)
    {
      if FILLED !in statuses {
        return Failure(FilledStatusMissing);
      }
      var o := NewOrder(a, stock, quantity, Some(price), Some(total), statuses[FILLED], orderType);
      ghost var before := orders;
      orders := orders + [o];
      Settle(o, true);
      if old(Tracks()) {
        TrackedAfterSettle(old(CurrentBooks()), before, o);
      }
      r := Success(o);
    }

    /**
     * Submitting an order: the stock and order-type codes are resolved, the
     * order is validated, and an accepted order is stored and settled.
     */
    method Submit(a: AccountId, p: Proposal) returns (r: Result<Order, Rejection>)
      requires Valid() && a in accounts
      modifies this`orders, this`accounts, this`shares
      ensures Valid() && (old(Tracks()) ==> Tracks())
      ensures (r, CurrentBooks()) == Submission(stocks, orderTypes, statuses, old(CurrentBooks()), a, p)
      ensures orders == if r.Success? then old(orders) + [r.value] else old(orders)
    {
      if p.stock !in stocks || p.orderType !in orderTypes {
        return Failure(UnknownReferences(if p.stock in stocks then None else Some(p.stock),
                                         if p.orderType in orderTypes then None else Some(p.orderType)));
      }
      var stock, orderType := stocks[p.stock], orderTypes[p.orderType];
      var v := Validate(a, stock, orderType, p.quantity, p.price);
      if v.Failure? {
        return Failure(v.error);
      }
      r := Create(a, stock, orderType, p.quantity, p.price.value, v.value);
    }

    /** Deleting a stock is refused while an order or a share row references it. */
    method DeleteStock(code: string) returns (deleted: bool)
      requires Valid() && code in stocks
      modifies this`stocks
      ensures Valid() && (old(Tracks()) ==> Tracks())
      ensures deleted <==>
        && (forall i :: 0 <= i < |orders| ==> orders[i].stock.code != code)
        && (forall k :: k in shares ==> k.stock != code)
      ensures stocks == if deleted then old(stocks) - {code} else old(stocks)
    {
      deleted := !StockInUse(orders, shares, code);
      if deleted {
        stocks := stocks - {code};
      }
    }

    /** Deleting an order type is refused while an order references it. */
    method DeleteOrderType(code: string) returns (deleted: bool)
      requires Valid() && code in orderTypes
      modifies this`orderTypes
      ensures Valid() && (old(Tracks()) ==> Tracks())
      ensures deleted <==> forall i :: 0 <= i < |orders| ==> orders[i].orderType.code != code
      ensures orderTypes == if deleted then old(orderTypes) - {code} else old(orderTypes)
    {
      deleted := !OrderTypeInUse(orders, code);
      if deleted {
        orderTypes := orderTypes - {code};
      }
    }

    /** Deleting an order status is refused while an order references it. */
    method DeleteOrderStatus(code: string) returns (deleted: bool)
      requires Valid() && code in statuses
      modifies this`statuses
      ensures Valid() && (old(Tracks()) ==> Tracks())
      ensures deleted <==> forall i :: 0 <= i < |orders| ==> orders[i].status.code != code
      ensures statuses == if deleted then old(statuses) - {code} else old(statuses)
    {
      deleted := !OrderStatusInUse(orders, code);
      if deleted {
        statuses := statuses - {code};
      }
    }

    /** Deleting an account deletes its orders and its share rows with it. */
    method DeleteAccount(a: AccountId)
      requires Valid() && a in accounts
      modifies this`accounts, this`orders, this`shares
      ensures Valid() && (old(Tracks()) ==> Tracks())
      ensures accounts == old(accounts) - {a}
      ensures orders == OtherAccounts(old(orders), a)
      ensures shares == SharesOfOthers(old(shares), a)
    {
      var remaining := accounts - {a};
      var kept := OtherAccounts(orders, a);
      var others := SharesOfOthers(shares, a);
      DeleteAccountKeepsInvariants(accounts, shares, orders, a, stocks, statuses, orderTypes, nextAccount, nextUser);
      accounts, orders, shares := remaining, kept, others;
    }

    /** Deleting a user deletes its account, and with it the account's orders and share rows. */
    method DeleteUser(u: UserId)
      requires Valid()
      modifies this`accounts, this`orders, this`shares
      ensures Valid() && (old(Tracks()) ==> Tracks())
      ensures forall id :: id in accounts ==> accounts[id].user != u
      ensures forall id :: id in old(accounts) && old(accounts)[id].user == u ==>
        && accounts == old(accounts) - {id}
        && orders == OtherAccounts(old(orders), id)
        && shares == SharesOfOthers(old(shares), id)
      ensures (forall id :: id in old(accounts) ==> old(accounts)[id].user != u) ==>
        accounts == old(accounts) && orders == old(orders) && shares == old(shares)
    {
      if a :| a in accounts && accounts[a].user == u {
        DeleteAccount(a);
      }
    }
  }

  /**
   * What a submission by account `a` returns, and the balances afterwards.
   * Unknown codes and a missing price are rejected before anything is
   * touched; from the guard on, the lazy share row stays even on rejection;
   * an accepted order is stamped FILLED, given the account and the computed
   * total value, and settled.
   */
  function Submission(stocks: map<string, Stock>, orderTypes: map<string, OrderType>, statuses: map<string, OrderStatus>,
                      b: Books, a: AccountId, p: Proposal): (r: (Result<Order, Rejection>, Books))
    requires a in b.accounts
    ensures r.0.Success? ==> FILLED in statuses && r.0.value.status == statuses[FILLED] && r.0.value.account == a
    ensures r.1.accounts.Keys == b.accounts.Keys
    ensures forall id :: id in b.accounts && id != a ==> r.1.accounts[id] == b.accounts[id]
  {
    if p.stock !in stocks || p.orderType !in orderTypes then
      (Failure(UnknownReferences(if p.stock in stocks then None else Some(p.stock),
                                 if p.orderType in orderTypes then None else Some(p.orderType))), b)
    else if p.price.None? then (Failure(PriceMissing), b)
    else
      var key := ShareKey(a, p.stock);
      var touched := Books(b.accounts, GetOrCreate(b.shares, key));
      var check := Check(b.accounts[a], Held(b.shares, key), orderTypes[p.orderType], p.quantity, p.price.value);
      if check.Failure? then (Failure(check.error), touched)
      else if FILLED !in statuses then (Failure(FilledStatusMissing), touched)
      else
        var o := NewOrder(a, stocks[p.stock], p.quantity, p.price, Some(check.value), statuses[FILLED], orderTypes[p.orderType]);
        (Success(o), Settlement.Settle(touched, o, true))
  }

  /**
   * A rejected submission changes no buying power; the only change it can
   * leave behind is the lazily created zero row for the ordered position.
   */
  lemma RejectionKeepsBalances(stocks: map<string, Stock>, orderTypes: map<string, OrderType>, statuses: map<string, OrderStatus>,
                               b: Books, a: AccountId, p: Proposal)
    requires a in b.accounts
    ensures var (r, after) := Submission(stocks, orderTypes, statuses, b, a, p);
      r.Failure? ==>
        && after.accounts == b.accounts
        && (after.shares == b.shares || after.shares == GetOrCreate(b.shares, ShareKey(a, p.stock)))
  {
  }

  /**
   * The guard as seen by a client: a resolvable, priced BUY is refused for
   * buying power exactly when its value exceeds the available buying power,
   * and a SELL is refused for shares exactly when it exceeds the held quantity
   * (no row counts as zero held).
   */
  lemma GuardDecides(stocks: map<string, Stock>, orderTypes: map<string, OrderType>, statuses: map<string, OrderStatus>,
                     b: Books, a: AccountId, p: Proposal)
    requires a in b.accounts
    requires p.stock in stocks && p.orderType in orderTypes && p.price.Some?
    ensures var r := Submission(stocks, orderTypes, statuses, b, a, p).0;
      && (r == Failure(NotEnoughBuyingPower) <==>
            orderTypes[p.orderType].code == BUY && p.quantity * p.price.value > b.accounts[a].availableBp)
      && (r == Failure(NotEnoughShares) <==>
            orderTypes[p.orderType].code == SELL && p.quantity > Held(b.shares, ShareKey(a, p.stock)).quantity)
  {
  }

  /**
   * Every created order belongs to the requesting account, carries status
   * FILLED and the total value quantity times price, whatever total value or
   * status the client sent.
   */
  lemma CreatedOrderIsStamped(stocks: map<string, Stock>, orderTypes: map<string, OrderType>, statuses: map<string, OrderStatus>,
                              b: Books, a: AccountId, p: Proposal, clientTotal: Option<real>, clientStatus: Option<string>)
    requires KeyedByCode(stocks, orderTypes, statuses) && a in b.accounts
    ensures Submission(stocks, orderTypes, statuses, b, a, p) ==
            Submission(stocks, orderTypes, statuses, b, a, p.(totalValue := clientTotal, status := clientStatus))
    ensures var r := Submission(stocks, orderTypes, statuses, b, a, p).0;
      r.Success? ==>
        && r.value.account == a && r.value.status.code == FILLED
        && r.value.stock.code == p.stock && r.value.orderType.code == p.orderType
        && r.value.quantity == p.quantity && p.price == Some(r.value.price)
        && r.value.totalValue == r.value.quantity * r.value.price
  {
  }

  /**
   * After an accepted BUY the account's buying power is not negative, and
   * after an accepted SELL its position quantity is not negative.
   */
  lemma AcceptedSubmissionKeepsBalances(stocks: map<string, Stock>, orderTypes: map<string, OrderType>, statuses: map<string, OrderStatus>,
                                        b: Books, a: AccountId, p: Proposal)
    requires KeyedByCode(stocks, orderTypes, statuses) && a in b.accounts
    ensures var (r, after) := Submission(stocks, orderTypes, statuses, b, a, p);
      && (r.Success? && r.value.orderType.code == BUY ==> after.accounts[a].availableBp >= 0.0)
      && (r.Success? && r.value.orderType.code == SELL ==> after.shares[ShareKey(a, p.stock)].quantity >= 0.0)
  {
  }

  /** A submission keeps the share table in agreement with the order history. */
  lemma SubmissionKeepsTracked(stocks: map<string, Stock>, orderTypes: map<string, OrderType>, statuses: map<string, OrderStatus>,
                               b: Books, orders: seq<Order>, a: AccountId, p: Proposal)
    requires KeyedByCode(stocks, orderTypes, statuses) && a in b.accounts
    requires Tracked(b.shares, orders)
    ensures var (r, after) := Submission(stocks, orderTypes, statuses, b, a, p);
      Tracked(after.shares, if r.Success? then orders + [r.value] else orders)
  {
    if p.stock in stocks && p.orderType in orderTypes && p.price.Some? {
      var key := ShareKey(a, p.stock);
      TrackedAfterGetOrCreate(b.shares, orders, key);
      var r := Submission(stocks, orderTypes, statuses, b, a, p).0;
      if r.Success? {
        TrackedAfterSettle(Books(b.accounts, GetOrCreate(b.shares, key)), orders, r.value);
      }
    }
  }

  /**
   * Test scenario, end to end: buying power 1000 and no GOOG position, BUY 15
   * GOOG at 1.25 is accepted, leaving 981.25 and a 15 / 18.75 position.
   */
  lemma BuyOrderScenario(stocks: map<string, Stock>, orderTypes: map<string, OrderType>, statuses: map<string, OrderStatus>,
                         b: Books, a: AccountId)
    requires KeyedByCode(stocks, orderTypes, statuses)
    requires "GOOG" in stocks && BUY in orderTypes && FILLED in statuses
    requires a in b.accounts && b.accounts[a].availableBp == 1000.0 && ShareKey(a, "GOOG") !in b.shares
    ensures var (r, after) := Submission(stocks, orderTypes, statuses, b, a, Proposal("GOOG", BUY, 15.0, Some(1.25), None, None));
      && r.Success? && r.value.totalValue == 18.75
      && after.accounts[a].availableBp == 981.25
      && after.shares[ShareKey(a, "GOOG")] == Share(15.0, 18.75)
  {
  }

  /**
   * Test scenario, end to end: a fresh account's SELL of 15 GOOG is refused
   * with "Not enough shares.", its buying power is untouched, and a zero GOOG
   * row has appeared.
   */
  lemma InvalidSellScenario(stocks: map<string, Stock>, orderTypes: map<string, OrderType>, statuses: map<string, OrderStatus>,
                            b: Books, a: AccountId)
    requires KeyedByCode(stocks, orderTypes, statuses)
    requires "GOOG" in stocks && SELL in orderTypes
    requires a in b.accounts && b.accounts[a] == NewAccount(b.accounts[a].user) && ShareKey(a, "GOOG") !in b.shares
    ensures var (r, after) := Submission(stocks, orderTypes, statuses, b, a, Proposal("GOOG", SELL, 15.0, Some(1.25), None, None));
      && r == Failure(NotEnoughShares) && Details(r.error) == "Not enough shares."
      && after.accounts == b.accounts
      && after.shares == b.shares[ShareKey(a, "GOOG") := Share(0.0, 0.0)]
  {
  }

  /**
   * An accepted order never overdraws: after settling an accepted BUY the
   * buying power is not negative, and after an accepted SELL the held quantity
   * is not negative, whatever the earlier balances were.
   */
  lemma AcceptedOrderKeepsBalances(b: Books, o: Order)
    requires o.account in b.accounts && Fires(o, true)
    requires Check(b.accounts[o.account], Held(b.shares, KeyOf(o)), o.orderType, o.quantity, o.price) == Success(o.totalValue)
    ensures o.orderType.code == BUY ==> Settlement.Settle(b, o, true).accounts[o.account].availableBp >= 0.0
    ensures o.orderType.code == SELL ==> Settlement.Settle(b, o, true).shares[KeyOf(o)].quantity >= 0.0
  {
  }

  /**
   * No sign check guards quantity or price: a BUY of -5 at -1.0 has a
   * positive total value, passes the guard, and leaves a negative position.
   */
  lemma UncheckedSignsCanShortPosition(b: Books, o: Order)
    requires o.account in b.accounts && b.accounts[o.account].availableBp == 5.0
    requires KeyOf(o) !in b.shares
    requires o.orderType.code == BUY && o.status.code == FILLED
    requires o.quantity == -5.0 && o.price == -1.0 && o.totalValue == 5.0
    ensures Check(b.accounts[o.account], Held(b.shares, KeyOf(o)), o.orderType, o.quantity, o.price) == Success(5.0)
    ensures Settlement.Settle(b, o, true).shares[KeyOf(o)].quantity == -5.0
  {
  }
}
