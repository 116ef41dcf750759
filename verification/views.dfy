/**
 * Read-only queries of the trades API (trades/views.py): the requesting
 * account's order list, the invested-value summary, and the list and total
 * of the account's current positions.
 */
module Views {
  import opened Wrappers
  import opened Accounts
  import opened TradeModels
  import opened Filters

  /** The queryset of the order list: the orders of account `a`, in their original order. */
  function AccountOrders(orders: seq<Order>, a: AccountId): (r: seq<Order>)
    ensures forall o :: o in r <==> o in orders && o.account == a
    ensures forall o :: multiset(r)[o] == if o.account == a then multiset(orders)[o] else 0
    ensures |r| <= |orders|
  {
    if orders == [] then []
    else
      assert orders == [orders[0]] + orders[1..];
      if orders[0].account == a then [orders[0]] + AccountOrders(orders[1..], a)
    else AccountOrders(orders[1..], a)
  }

  /** The order list endpoint: the account's orders narrowed by the query parameters. */
  function ListOrders(orders: seq<Order>, a: AccountId, f: OrderFilter): (r: seq<Order>)
    ensures forall o :: o in r <==> o in orders && o.account == a && Keep(o, f)
    ensures forall o :: multiset(r)[o] == if o.account == a && Keep(o, f) then multiset(orders)[o] else 0
    ensures |r| <= |AccountOrders(orders, a)|
  {
    FilterOrders(AccountOrders(orders, a), f)
  }

  /** Which serializer an action of the order endpoint uses. */
  datatype Schema = ListSchema | CreateSchema

  function SerializerFor(action: string): (s: Schema)
    ensures s == ListSchema <==> action == "list" || action == "retrieve"
    ensures s == CreateSchema <==> action != "list" && action != "retrieve"
  {
    if action in ["list", "retrieve"] then ListSchema else CreateSchema
  }

  /** A stock query parameter narrows the summary only when it is present and not empty. */
  predicate StockGiven(stock: Option<string>)
  {
    stock.Some? && stock.value != ""
  }

  /** An order counted by the summary: the account's, of the given type, FILLED, and of the stock if one is given. */
  predicate Summarized(o: Order, a: AccountId, orderType: string, stock: Option<string>)
  {
    && o.account == a
    && o.orderType.code == orderType
    && o.status.code == FILLED
    && (StockGiven(stock) ==> o.stock.code == stock.value)
  }

  /** Sum of `total_value` over the summarized orders; 0.0 when none matches. */
  function OrderSummary(orders: seq<Order>, a: AccountId, orderType: string, stock: Option<string>): (r: real)
    ensures (forall o :: o in orders && Summarized(o, a, orderType, stock) ==> o.totalValue >= 0.0) ==> r >= 0.0
  {
    if orders == [] then 0.0
    else (if Summarized(orders[0], a, orderType, stock) then orders[0].totalValue else 0.0)
         + OrderSummary(orders[1..], a, orderType, stock)
  }

  /** The summary endpoint always aggregates BUY orders. */
  function SummaryEndpoint(orders: seq<Order>, a: AccountId, stock: Option<string>): (r: real)
    ensures (forall o :: o in orders && o.account == a && o.orderType.code == BUY ==> o.totalValue >= 0.0) ==> r >= 0.0
  {
    OrderSummary(orders, a, BUY, stock)
  }

  /** The summary of a concatenated history is the sum of the summaries of its parts. */
  lemma {:induction false} SummaryAppend(xs: seq<Order>, ys: seq<Order>, a: AccountId, orderType: string, stock: Option<string>)
    ensures OrderSummary(xs + ys, a, orderType, stock) == OrderSummary(xs, a, orderType, stock) + OrderSummary(ys, a, orderType, stock)
  {
    if xs != [] {
      assert (xs + ys)[1..] == xs[1..] + ys;
      SummaryAppend(xs[1..], ys, a, orderType, stock);
    } else {
      assert xs + ys == ys;
    }
  }

  /** With no matching order the summary is 0.0. */
  lemma {:induction false} SummaryEmpty(orders: seq<Order>, a: AccountId, orderType: string, stock: Option<string>)
    requires forall i :: 0 <= i < |orders| ==> !Summarized(orders[i], a, orderType, stock)
    ensures OrderSummary(orders, a, orderType, stock) == 0.0
  {
    if orders != [] {
      SummaryEmpty(orders[1..], a, orderType, stock);
    }
  }

  /** The summary depends on the account's own orders only: other accounts' orders never leak in. */
  lemma {:induction false} SummaryScoped(orders: seq<Order>, a: AccountId, orderType: string, stock: Option<string>)
    ensures OrderSummary(orders, a, orderType, stock) == OrderSummary(AccountOrders(orders, a), a, orderType, stock)
  {
    if orders != [] {
      SummaryScoped(orders[1..], a, orderType, stock);
      if orders[0].account == a {
        assert ([orders[0]] + AccountOrders(orders[1..], a))[1..] == AccountOrders(orders[1..], a);
      }
    }
  }

  /** A SELL order (indeed any non-BUY order) added to the history never changes the summary endpoint. */
  lemma SellsNeverCount(orders: seq<Order>, o: Order, a: AccountId, stock: Option<string>)
    requires o.orderType.code != BUY
    ensures SummaryEndpoint(orders + [o], a, stock) == SummaryEndpoint(orders, a, stock)
  {
    SummaryAppend(orders, [o], a, BUY, stock);
  }

  /** A FILLED BUY order of the account added to the history raises the summary by its value. */
  lemma FilledBuyCounts(orders: seq<Order>, o: Order, stock: Option<string>)
    requires o.orderType.code == BUY && o.status.code == FILLED
    requires StockGiven(stock) ==> o.stock.code == stock.value
    ensures SummaryEndpoint(orders + [o], o.account, stock) == SummaryEndpoint(orders, o.account, stock) + o.totalValue
  {
    SummaryAppend(orders, [o], o.account, BUY, stock);
  }

  /** Test scenario: two FILLED BUYs (AAPL and GOOG, 18.75 each) sum to 37.5, and to 18.75 for GOOG alone. */
  lemma SummaryScenario(aapl: Order, goog: Order, a: AccountId)
    requires aapl.account == a && goog.account == a
    requires aapl.stock.code == "AAPL" && goog.stock.code == "GOOG"
    requires aapl.orderType.code == BUY && goog.orderType.code == BUY
    requires aapl.status.code == FILLED && goog.status.code == FILLED
    requires aapl.totalValue == 18.75 && goog.totalValue == 18.75
    ensures SummaryEndpoint([aapl, goog], a, None) == 37.5
    ensures SummaryEndpoint([aapl, goog], a, Some("GOOG")) == 18.75
    ensures SummaryEndpoint([aapl, goog], a, Some("")) == 37.5
  {
    assert [aapl, goog][1..] == [goog];
    assert [goog][1..] == [];
    assert "AAPL" != "GOOG";
    assert OrderSummary([goog], a, BUY, None) == 18.75;
    assert OrderSummary([goog], a, BUY, Some("GOOG")) == 18.75;
    assert OrderSummary([goog], a, BUY, Some("")) == 18.75;
  }

  /** The share list: the account's positions whose value is positive; zero-value rows are hidden. */
  function ShareList(shares: map<ShareKey, Share>, a: AccountId): (r: map<ShareKey, Share>)
    ensures forall k :: k in r <==> k in shares && k.account == a && shares[k].totalValue > 0.0
    ensures forall k :: k in r ==> r[k] == shares[k]
  {
    map k | k in shares && k.account == a && shares[k].totalValue > 0.0 :: shares[k]
  }

  /** Sum of `total_value` over the rows of `m` named in `ks`. */
  ghost function SumValues(m: map<ShareKey, Share>, ks: set<ShareKey>): (r: real)
    requires ks <= m.Keys
    ensures (forall k :: k in ks ==> m[k].totalValue > 0.0) ==> r >= 0.0 && (r == 0.0 <==> ks == {})
    decreases ks
  {
    if ks == {} then 0.0
    else
      var k :| k in ks;
      m[k].totalValue + SumValues(m, ks - {k})
  }

  /** The sum does not depend on the order in which the rows are picked: any row can be taken out first. */
  lemma {:induction false} SumValuesRemove(m: map<ShareKey, Share>, ks: set<ShareKey>, k: ShareKey)
    requires ks <= m.Keys && k in ks
    ensures SumValues(m, ks) == m[k].totalValue + SumValues(m, ks - {k})
    decreases ks
  {
    var j :| j in ks && SumValues(m, ks) == m[j].totalValue + SumValues(m, ks - {j});
    if j != k {
      SumValuesRemove(m, ks - {j}, k);
      SumValuesRemove(m, ks - {k}, j);
      assert ks - {j} - {k} == ks - {k} - {j};
    }
  }

  /** Two tables whose rows in `ks` have the same values give the same sum over `ks`. */
  lemma {:induction false} SumValuesAgree(m1: map<ShareKey, Share>, m2: map<ShareKey, Share>, ks: set<ShareKey>)
    requires ks <= m1.Keys && ks <= m2.Keys
    requires forall k :: k in ks ==> m1[k].totalValue == m2[k].totalValue
    ensures SumValues(m1, ks) == SumValues(m2, ks)
    decreases ks
  {
    if ks != {} {
      var k :| k in ks;
      SumValuesRemove(m1, ks, k);
      SumValuesRemove(m2, ks, k);
      SumValuesAgree(m1, m2, ks - {k});
    }
  }

  /** The portfolio total: the sum over the visible positions, 0.0 exactly when none is visible. */
  ghost function PortfolioTotal(shares: map<ShareKey, Share>, a: AccountId): (r: real)
    ensures r >= 0.0
    ensures r == 0.0 <==> ShareList(shares, a) == map[]
  {
    var visible := ShareList(shares, a);
    assert visible == map[] <==> visible.Keys == {};
    SumValues(visible, visible.Keys)
  }

  /** A new position of account `a` with a positive value raises its portfolio total by that value. */
  lemma PortfolioGrows(shares: map<ShareKey, Share>, k: ShareKey, s: Share)
    requires k !in shares && s.totalValue > 0.0
    ensures PortfolioTotal(shares[k := s], k.account) == PortfolioTotal(shares, k.account) + s.totalValue
  {
    var before := ShareList(shares, k.account);
    var after := ShareList(shares[k := s], k.account);
    assert after.Keys == before.Keys + {k};
    SumValuesRemove(after, after.Keys, k);
    assert after.Keys - {k} == before.Keys;
    SumValuesAgree(after, before, before.Keys);
  }

  /** A position of another account, or one not above zero, leaves the portfolio total of `a` unchanged. */
  lemma PortfolioIgnores(shares: map<ShareKey, Share>, a: AccountId, k: ShareKey, s: Share)
    requires k !in shares && (k.account != a || s.totalValue <= 0.0)
    ensures PortfolioTotal(shares[k := s], a) == PortfolioTotal(shares, a)
  {
    assert ShareList(shares[k := s], a) == ShareList(shares, a);
  }

  /** What the share endpoint answers: a total for the "summary" scope, the list for any other scope. */
  datatype ShareResponse = TotalInvestment(total: real) | Rows(rows: map<ShareKey, Share>)

  ghost function ShareEndpoint(shares: map<ShareKey, Share>, a: AccountId, scope: Option<string>): (r: ShareResponse)
    ensures r.TotalInvestment? <==> scope == Some("summary")
    ensures r.TotalInvestment? ==> r.total == PortfolioTotal(shares, a)
    ensures r.TotalInvestment? ==> r.total >= 0.0 && (r.total == 0.0 <==> ShareList(shares, a) == map[])
    ensures r.Rows? ==> r.rows == ShareList(shares, a)
    ensures r.Rows? ==> forall k :: k in r.rows <==> k in shares && k.account == a && shares[k].totalValue > 0.0
  {
    if scope == Some("summary") then TotalInvestment(PortfolioTotal(shares, a)) else Rows(ShareList(shares, a))
  }
}
