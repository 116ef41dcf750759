/**
 * Record shapes of the trades app (trades/models.py): reference rows for
 * stocks, order types and order statuses, the order row and the per
 * (account, stock) share position.
 */
module TradeModels {
  import opened Wrappers
  import opened Accounts

  /** Codes of the reference rows the ledger logic compares against. */
  const BUY: string := "BUY"
  const SELL: string := "SELL"
  const FILLED: string := "FILLED"
  const FAILED: string := "FAILED"

  datatype Stock = Stock(name: string, code: string)

  datatype OrderType = OrderType(action: string, code: string)

  datatype OrderStatus = OrderStatus(code: string, description: string)

  /**
   * An order row. It references exactly one account (by key) and exactly one
   * stock, status and order type (the referenced reference rows themselves,
   * which never change). The creation timestamp is not modelled.
   */
  datatype Order = Order(
    account: AccountId,
    stock: Stock,
    quantity: real,
    price: real,
    totalValue: real,
    status: OrderStatus,
    orderType: OrderType)

  /** A share position is identified by its account and the code of its stock. */
  datatype ShareKey = ShareKey(account: AccountId, stock: string)

  datatype Share = Share(quantity: real, totalValue: real)

  /** The row that `get_or_create` inserts: quantity and total value take their 0.0 default. */
  function NewShare(): Share
  {
    Share(0.0, 0.0)
  }

  /** The position an order settles against. */
  function KeyOf(o: Order): ShareKey
  {
    ShareKey(o.account, o.stock.code)
  }

  /** The position stored under `key`, or the default row when there is none yet. */
  function Held(shares: map<ShareKey, Share>, key: ShareKey): (s: Share)
    ensures key !in shares ==> s.quantity == 0.0 && s.totalValue == 0.0
    ensures key in shares ==> s == shares[key]
  {
    if key in shares then shares[key] else NewShare()
  }

  /**
   * `account.shares.get_or_create(stock=...)`: the table afterwards holds a row
   * for `key` (the old one, or a fresh zero row) and every other row unchanged.
   */
  function GetOrCreate(shares: map<ShareKey, Share>, key: ShareKey): (r: map<ShareKey, Share>)
    ensures r.Keys == shares.Keys + {key}
    ensures r[key] == Held(shares, key)
    ensures forall k :: k in shares ==> r[k] == shares[k]
  {
    if key in shares then shares else shares[key := NewShare()]
  }

  /**
   * Builds an order row from the supplied columns; `price` and `totalValue`
   * fall back to their 0.0 column defaults when not supplied.
   */
  function NewOrder(account: AccountId, stock: Stock, quantity: real, price: Option<real>,
                    totalValue: Option<real>, status: OrderStatus, orderType: OrderType): (o: Order)
    ensures price.None? ==> o.price == 0.0
    ensures totalValue.None? ==> o.totalValue == 0.0
    ensures price.Some? ==> o.price == price.value
    ensures totalValue.Some? ==> o.totalValue == totalValue.value
    ensures o.account == account && o.stock == stock && o.quantity == quantity
    ensures o.status == status && o.orderType == orderType
  {
    Order(account, stock, quantity,
          if price.Some? then price.value else 0.0,
          if totalValue.Some? then totalValue.value else 0.0,
          status, orderType)
  }

  /** The orders that survive deleting account `a`: deletion cascades to its orders. */
  function OtherAccounts(orders: seq<Order>, a: AccountId): (r: seq<Order>)
    ensures forall o :: o in r <==> o in orders && o.account != a
    ensures |r| <= |orders|
  {
    if orders == [] then []
    else if orders[0].account == a then OtherAccounts(orders[1..], a)
    else [orders[0]] + OtherAccounts(orders[1..], a)
  }

  /** Each surviving order is kept as many times as it occurs in the history. */
  lemma {:induction false} OtherAccountsCounts(orders: seq<Order>, a: AccountId)
    ensures forall o :: multiset(OtherAccounts(orders, a))[o] == if o.account != a then multiset(orders)[o] else 0
  {
    if orders != [] {
      OtherAccountsCounts(orders[1..], a);
      assert orders == [orders[0]] + orders[1..];
    }
  }

  /** The share rows that survive deleting account `a`: deletion cascades to its shares. */
  function SharesOfOthers(shares: map<ShareKey, Share>, a: AccountId): (r: map<ShareKey, Share>)
    ensures forall k :: k in r <==> k in shares && k.account != a
    ensures forall k :: k in r ==> r[k] == shares[k]
  {
    map k | k in shares && k.account != a :: shares[k]
  }

  /** Some order or share row references the stock with this code (PROTECT blocks its deletion). */
  predicate StockInUse(orders: seq<Order>, shares: map<ShareKey, Share>, code: string)
  {
    (exists i | 0 <= i < |orders| :: orders[i].stock.code == code)
    || (exists k | k in shares :: k.stock == code)
  }

  /** Some order references the order type with this code (PROTECT blocks its deletion). */
  predicate OrderTypeInUse(orders: seq<Order>, code: string)
  {
    exists i | 0 <= i < |orders| :: orders[i].orderType.code == code
  }

  /** Some order references the order status with this code (PROTECT blocks its deletion). */
  predicate OrderStatusInUse(orders: seq<Order>, code: string)
  {
    exists i | 0 <= i < |orders| :: orders[i].status.code == code
  }
}
