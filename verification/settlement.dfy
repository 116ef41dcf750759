/**
 * Settlement (trades/signals.py, update_account_balance): once a new order
 * is stored, the ordering account's buying power and its position in the
 * ordered stock are updated in place.
 */
module Settlement {
  import opened Accounts
  import opened TradeModels

  /** The balances settlement reads and writes: the account table and the share table. */
  datatype Books = Books(accounts: map<AccountId, Account>, shares: map<ShareKey, Share>)

  /** Settlement runs only for a newly created order whose status is not FAILED. */
  predicate Fires(o: Order, created: bool)
  {
    created && o.status.code != FAILED
  }

  /** Buying power after the order: a BUY spends its value, a SELL earns it, other types leave it. */
  function ApplyToBalance(bp: real, o: Order): real
  {
    if o.orderType.code == BUY then bp - o.totalValue
    else if o.orderType.code == SELL then bp + o.totalValue
    else bp
  }

  /** Position after the order: a BUY adds its quantity and value, a SELL removes them, other types leave it. */
  function ApplyToShare(s: Share, o: Order): Share
  {
    if o.orderType.code == BUY then Share(s.quantity + o.quantity, s.totalValue + o.totalValue)
    else if o.orderType.code == SELL then Share(s.quantity - o.quantity, s.totalValue - o.totalValue)
    else s
  }

  /**
   * The effect of the post-save handler for order `o`. Only the ordering
   * account's buying power and its share row for the ordered stock change;
   * that share row is created first when it does not exist.
   */
  function Settle(b: Books, o: Order, created: bool): (r: Books)
    requires o.account in b.accounts
    ensures !Fires(o, created) ==> r == b
    ensures Fires(o, created) ==>
      && r.accounts.Keys == b.accounts.Keys
      && r.shares.Keys == b.shares.Keys + {KeyOf(o)}
      && (forall a :: a in b.accounts && a != o.account ==> r.accounts[a] == b.accounts[a])
      && (forall k :: k in b.shares && k != KeyOf(o) ==> r.shares[k] == b.shares[k])
      && r.accounts[o.account].allotedBp == b.accounts[o.account].allotedBp
      && r.accounts[o.account].user == b.accounts[o.account].user
    ensures Fires(o, created) && o.orderType.code == BUY ==>
      && r.accounts[o.account].availableBp == b.accounts[o.account].availableBp - o.totalValue
      && r.shares[KeyOf(o)].quantity == Held(b.shares, KeyOf(o)).quantity + o.quantity
      && r.shares[KeyOf(o)].totalValue == Held(b.shares, KeyOf(o)).totalValue + o.totalValue
    ensures Fires(o, created) && o.orderType.code == SELL ==>
      && r.accounts[o.account].availableBp == b.accounts[o.account].availableBp + o.totalValue
      && r.shares[KeyOf(o)].quantity == Held(b.shares, KeyOf(o)).quantity - o.quantity
      && r.shares[KeyOf(o)].totalValue == Held(b.shares, KeyOf(o)).totalValue - o.totalValue
    ensures Fires(o, created) && o.orderType.code != BUY && o.orderType.code != SELL ==>
      && r.accounts == b.accounts
      && r.shares[KeyOf(o)] == Held(b.shares, KeyOf(o))
  {
    if !Fires(o, created) then b
    else
      var key := KeyOf(o);
      var shares := GetOrCreate(b.shares, key);
      var account := b.accounts[o.account];
      Books(b.accounts[o.account := account.(availableBp := ApplyToBalance(account.availableBp, o))],
            shares[key := ApplyToShare(shares[key], o)])
  }

  /**
   * A BUY followed by a SELL of the same quantity and value on the same
   * existing position restores the account and the position exactly.
   */
  lemma BuyThenSellRestores(b: Books, buy: Order, sell: Order)
    requires buy.account in b.accounts && KeyOf(buy) in b.shares
    requires buy.orderType.code == BUY && sell.orderType.code == SELL
    requires buy.status.code != FAILED && sell.status.code != FAILED
    requires KeyOf(sell) == KeyOf(buy)
    requires sell.quantity == buy.quantity && sell.totalValue == buy.totalValue
    ensures Settle(Settle(b, buy, true), sell, true) == b
  {
  }

  /** Test scenario: buying power 1000, BUY 15 at 1.25 leaves 981.25 and a 15 / 18.75 position. */
  lemma BuyScenario(b: Books, a: AccountId, goog: Stock, filled: OrderStatus)
    requires a in b.accounts && b.accounts[a].availableBp == 1000.0
    requires ShareKey(a, goog.code) !in b.shares
    requires filled.code == FILLED
    ensures var o := Order(a, goog, 15.0, 1.25, 18.75, filled, OrderType("Buy", BUY));
            var r := Settle(b, o, true);
            r.accounts[a].availableBp == 981.25 && r.shares[KeyOf(o)] == Share(15.0, 18.75)
  {
  }

  /** Test scenario: buying power 0 and a 15 / 18.75 position, SELL 10 at 1.25 leaves 12.5 and 5 / 6.25. */
  lemma SellScenario(b: Books, a: AccountId, goog: Stock, filled: OrderStatus)
    requires a in b.accounts && b.accounts[a].availableBp == 0.0
    requires ShareKey(a, goog.code) in b.shares && b.shares[ShareKey(a, goog.code)] == Share(15.0, 18.75)
    requires filled.code == FILLED
    ensures var o := Order(a, goog, 10.0, 1.25, 12.5, filled, OrderType("Sell", SELL));
            var r := Settle(b, o, true);
            r.accounts[a].availableBp == 12.5 && r.shares[KeyOf(o)] == Share(5.0, 6.25)
  {
  }

  /**
   * The net effect on position `key` of settling each order of `orders` once,
   * starting from the default zero row.
   */
  function Net(orders: seq<Order>, key: ShareKey): Share
  {
    if orders == [] then NewShare()
    else if KeyOf(orders[0]) == key && Fires(orders[0], true) then ApplyToShare(Net(orders[1..], key), orders[0])
    else Net(orders[1..], key)
  }

  /** Settling two orders against one position gives the same row in either order. */
  lemma ApplyCommutes(s: Share, o1: Order, o2: Order)
    ensures ApplyToShare(ApplyToShare(s, o1), o2) == ApplyToShare(ApplyToShare(s, o2), o1)
  {
  }

  /** Appending an order to the history changes the net position exactly as settling it does. */
  lemma {:induction false} NetAppend(orders: seq<Order>, o: Order, key: ShareKey)
    ensures Net(orders + [o], key) ==
      if KeyOf(o) == key && Fires(o, true) then ApplyToShare(Net(orders, key), o) else Net(orders, key)
  {
    if orders != [] {
      assert (orders + [o])[1..] == orders[1..] + [o];
      NetAppend(orders[1..], o, key);
      if KeyOf(o) == key && Fires(o, true) {
        ApplyCommutes(Net(orders[1..], key), o, orders[0]);
      }
    }
  }

  /** A position that no order of the history settles against is the zero row. */
  lemma {:induction false} NetUntouched(orders: seq<Order>, key: ShareKey)
    requires forall i :: 0 <= i < |orders| ==> KeyOf(orders[i]) != key
    ensures Net(orders, key) == NewShare()
  {
    if orders != [] {
      NetUntouched(orders[1..], key);
    }
  }

  /** Removing another account's orders from the history leaves the net position unchanged. */
  lemma {:induction false} NetOtherAccounts(orders: seq<Order>, a: AccountId, key: ShareKey)
    requires key.account != a
    ensures Net(OtherAccounts(orders, a), key) == Net(orders, key)
  {
    if orders != [] {
      NetOtherAccounts(orders[1..], a, key);
      if orders[0].account != a {
        assert OtherAccounts(orders, a) == [orders[0]] + OtherAccounts(orders[1..], a);
        assert ([orders[0]] + OtherAccounts(orders[1..], a))[1..] == OtherAccounts(orders[1..], a);
      }
    }
  }

  /**
   * The share table agrees with the order history: every row is the net
   * effect of the history on it, and every order has its row.
   */
  ghost predicate Tracked(shares: map<ShareKey, Share>, orders: seq<Order>)
  {
    && (forall k :: k in shares ==> shares[k] == Net(orders, k))
    && (forall i :: 0 <= i < |orders| ==> KeyOf(orders[i]) in shares)
  }

  /** The lazy zero row that validation may add keeps the table in agreement with the history. */
  lemma TrackedAfterGetOrCreate(shares: map<ShareKey, Share>, orders: seq<Order>, key: ShareKey)
    requires Tracked(shares, orders)
    ensures Tracked(GetOrCreate(shares, key), orders)
  {
    if key !in shares {
      NetUntouched(orders, key);
    }
  }

  /** Storing an order that settles, and settling it, keeps the table in agreement with the history. */
  lemma TrackedAfterSettle(b: Books, orders: seq<Order>, o: Order)
    requires o.account in b.accounts && Fires(o, true)
    requires Tracked(b.shares, orders)
    ensures Tracked(Settle(b, o, true).shares, orders + [o])
  {
    var after := Settle(b, o, true).shares;
    forall k | k in after
      ensures after[k] == Net(orders + [o], k)
    {
      NetAppend(orders, o, k);
      if k == KeyOf(o) && k !in b.shares {
        NetUntouched(orders, k);
      }
    }
    forall i | 0 <= i < |orders + [o]|
      ensures KeyOf((orders + [o])[i]) in after
    {
      if i < |orders| {
        assert (orders + [o])[i] == orders[i];
      }
    }
  }

  /** Deleting an account's orders and rows keeps the table in agreement with the history. */
  lemma TrackedAfterDeleteAccount(shares: map<ShareKey, Share>, orders: seq<Order>, a: AccountId)
    requires Tracked(shares, orders)
    ensures Tracked(SharesOfOthers(shares, a), OtherAccounts(orders, a))
  {
    var rest := OtherAccounts(orders, a);
    forall k | k in SharesOfOthers(shares, a)
      ensures SharesOfOthers(shares, a)[k] == Net(rest, k)
    {
      NetOtherAccounts(orders, a, k);
    }
    forall i | 0 <= i < |rest|
      ensures KeyOf(rest[i]) in SharesOfOthers(shares, a)
    {
      assert rest[i] in orders;
    }
  }
}
