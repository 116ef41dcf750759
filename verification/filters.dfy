/**
 * The order-list filter (trades/filters.py, OrderFilter): case-insensitive
 * exact match on the stock code and the order-type code, case-insensitive
 * substring match on the stock name.
 */
module Filters {
  import opened Wrappers
  import opened TradeModels

  /** ASCII lower-casing of one character. */
  function Lower(c: char): char
  {
    if 'A' <= c <= 'Z' then (c as int + 32) as char else c
  }

  /** ASCII lower-casing of a string, character by character. */
  function Fold(s: string): (r: string)
    ensures |r| == |s|
    ensures forall i :: 0 <= i < |s| ==> r[i] == Lower(s[i])
  {
    seq(|s|, i requires 0 <= i < |s| => Lower(s[i]))
  }

  /** The `iexact` lookup: equal once case is ignored. */
  predicate IExact(value: string, arg: string)
    ensures IExact(value, arg) ==> |value| == |arg|
    ensures value == arg ==> IExact(value, arg)
  {
    Fold(value) == Fold(arg)
  }

  /** `arg` occurs in `value` at position `i` once case is ignored. */
  predicate OccursAt(value: string, arg: string, i: int)
  {
    0 <= i && i + |arg| <= |value| && Fold(value)[i..i + |arg|] == Fold(arg)
  }

  /** The `icontains` lookup: `arg` occurs somewhere in `value` once case is ignored. */
  predicate IContains(value: string, arg: string)
    ensures IContains(value, arg) ==> |arg| <= |value|
    ensures arg == [] ==> IContains(value, arg)
  {
    assert arg == [] ==> OccursAt(value, arg, 0);
    exists i | 0 <= i <= |value| - |arg| :: OccursAt(value, arg, i)
  }

  /** Folding twice is folding once. */
  lemma FoldIdempotent(s: string)
    ensures Fold(Fold(s)) == Fold(s)
  {
  }

  /** Both lookups ignore the case of the argument. */
  lemma LookupsIgnoreCase(value: string, arg: string)
    ensures IExact(value, arg) <==> IExact(value, Fold(arg))
    ensures IContains(value, arg) <==> IContains(value, Fold(arg))
  {
    FoldIdempotent(arg);
    if IContains(value, arg) {
      var i :| 0 <= i <= |value| - |arg| && OccursAt(value, arg, i);
      assert OccursAt(value, Fold(arg), i);
    }
    if IContains(value, Fold(arg)) {
      var i :| 0 <= i <= |value| - |Fold(arg)| && OccursAt(value, Fold(arg), i);
      assert OccursAt(value, arg, i);
    }
  }

  /** An exact case-insensitive match is also a case-insensitive substring match. */
  lemma IExactImpliesIContains(value: string, arg: string)
    requires IExact(value, arg)
    ensures IContains(value, arg)
  {
    assert OccursAt(value, arg, 0);
  }

  /** The query parameters of the order list; each one is optional. */
  datatype OrderFilter = OrderFilter(stock: Option<string>, stockName: Option<string>, orderType: Option<string>)

  /** The characters Python's `str.strip` removes, restricted to the first 128 code points. */
  predicate IsSpace(c: char)
  {
    c == ' ' || '\t' <= c <= '\r' || '\U{1C}' <= c <= '\U{1F}'
  }

  /** Every character of `s` is whitespace. */
  predicate AllSpace(s: string)
  {
    forall i :: 0 <= i < |s| ==> IsSpace(s[i])
  }

  /** `r` is the slice of `s` that starts at `i`. */
  predicate SliceAt(s: string, r: string, i: int)
  {
    0 <= i && i + |r| <= |s| && s[i..i + |r|] == r
  }

  /** The first position at or after `i` that does not hold whitespace, or `|s|`. */
  function SkipSpaces(s: string, i: nat): (n: nat)
    requires i <= |s|
    ensures i <= n <= |s|
    ensures forall j :: i <= j < n ==> IsSpace(s[j])
    ensures n == |s| || !IsSpace(s[n])
    decreases |s| - i
  {
    if i == |s| || !IsSpace(s[i]) then i else SkipSpaces(s, i + 1)
  }

  /** The end of `s[lo..hi]` once its trailing whitespace is dropped. */
  function SkipSpacesBack(s: string, lo: nat, hi: nat): (m: nat)
    requires lo <= hi <= |s|
    ensures lo <= m <= hi
    ensures forall j :: m <= j < hi ==> IsSpace(s[j])
    ensures m == lo || !IsSpace(s[m - 1])
    decreases hi - lo
  {
    if hi == lo || !IsSpace(s[hi - 1]) then hi else SkipSpacesBack(s, lo, hi - 1)
  }

  /**
   * The cleaning a filter's form field applies before the lookup: surrounding
   * whitespace is removed, inner characters are kept.
   */
  function Strip(s: string): (r: string)
    ensures r == [] || (!IsSpace(r[0]) && !IsSpace(r[|r| - 1]))
    ensures r == [] <==> AllSpace(s)
    ensures (s == [] || (!IsSpace(s[0]) && !IsSpace(s[|s| - 1]))) ==> r == s
    ensures exists i | 0 <= i <= |s| - |r| :: SliceAt(s, r, i) && AllSpace(s[..i]) && AllSpace(s[i + |r|..])
  {
    var start := SkipSpaces(s, 0);
    var end := SkipSpacesBack(s, start, |s|);
    assert SliceAt(s, s[start..end], start);
    assert AllSpace(s[..start]);
    assert AllSpace(s[end..]);
    s[start..end]
  }

  /** Stripping twice is stripping once. */
  lemma StripIdempotent(s: string)
    ensures Strip(Strip(s)) == Strip(s)
  {
  }

  /**
   * A parameter takes part only when it is present and something is left of
   * it after stripping; a blank value filters nothing.
   */
  predicate Given(v: Option<string>)
  {
    v.Some? && Strip(v.value) != ""
  }

  /** An order passes the filter when it satisfies every given parameter, each compared after stripping. */
  predicate Keep(o: Order, f: OrderFilter)
    ensures !Given(f.stock) && !Given(f.stockName) && !Given(f.orderType) ==> Keep(o, f)
    ensures Keep(o, f) && Given(f.stock) ==> |o.stock.code| == |Strip(f.stock.value)|
  {
    && (Given(f.stock) ==> IExact(o.stock.code, Strip(f.stock.value)))
    && (Given(f.stockName) ==> IContains(o.stock.name, Strip(f.stockName.value)))
    && (Given(f.orderType) ==> IExact(o.orderType.code, Strip(f.orderType.value)))
  }

  /** The orders that pass the filter, in their original order. */
  function FilterOrders(orders: seq<Order>, f: OrderFilter): (r: seq<Order>)
    ensures forall o :: o in r <==> o in orders && Keep(o, f)
    ensures forall o :: multiset(r)[o] == if Keep(o, f) then multiset(orders)[o] else 0
    ensures |r| <= |orders|
  {
    if orders == [] then []
    else
      assert orders == [orders[0]] + orders[1..];
      if Keep(orders[0], f) then [orders[0]] + FilterOrders(orders[1..], f)
    else FilterOrders(orders[1..], f)
  }

  /** With no parameter given the filter keeps every order. */
  lemma {:induction false} NoFilterKeepsAll(orders: seq<Order>, f: OrderFilter)
    requires !Given(f.stock) && !Given(f.stockName) && !Given(f.orderType)
    ensures FilterOrders(orders, f) == orders
  {
    if orders != [] {
      assert Keep(orders[0], f);
      NoFilterKeepsAll(orders[1..], f);
      assert orders == [orders[0]] + orders[1..];
    }
  }

  /** Filtering two orders by stock alone, when only the first one's code matches, keeps the first one. */
  lemma FilterFirstOfTwo(first: Order, second: Order, arg: string)
    requires Strip(arg) != ""
    requires IExact(first.stock.code, Strip(arg)) && !IExact(second.stock.code, Strip(arg))
    ensures FilterOrders([first, second], OrderFilter(Some(arg), None, None)) == [first]
  {
    assert [first, second][1..] == [second];
  }

  /** The codes of the filter tests: both spellings of AAPL are clean, match AAPL and not GOOG. */
  lemma TestCodes()
    ensures Strip("AAPL") == "AAPL" && Strip("aapl") == "aapl"
    ensures IExact("AAPL", "AAPL") && IExact("AAPL", "aapl")
    ensures !IExact("GOOG", "AAPL") && !IExact("GOOG", "aapl")
  {
    assert Fold("AAPL") == "aapl";
    assert Fold("GOOG")[0] == 'g';
  }

  /** Stripping removes the blanks around a code. */
  lemma PaddedCode()
    ensures Strip(" AAPL ") == "AAPL"
  {
    assert SkipSpaces(" AAPL ", 0) == 1;
    assert SkipSpacesBack(" AAPL ", 1, 6) == 5;
    assert " AAPL "[1..5] == "AAPL";
  }

  /** Test scenario: an AAPL order and a GOOG order filtered by stock "AAPL" leave the AAPL order alone. */
  lemma FilterByStockScenario(aapl: Order, goog: Order)
    requires aapl.stock.code == "AAPL" && goog.stock.code == "GOOG"
    ensures FilterOrders([aapl, goog], OrderFilter(Some("AAPL"), None, None)) == [aapl]
    ensures FilterOrders([aapl, goog], OrderFilter(Some("aapl"), None, None)) == [aapl]
  {
    TestCodes();
    FilterFirstOfTwo(aapl, goog, "AAPL");
    FilterFirstOfTwo(aapl, goog, "aapl");
  }

  /** A stock parameter made of blanks is dropped by the form's stripping and filters nothing. */
  lemma BlankStockKeepsAll(orders: seq<Order>)
    ensures FilterOrders(orders, OrderFilter(Some(" "), None, None)) == orders
  {
    NoFilterKeepsAll(orders, OrderFilter(Some(" "), None, None));
  }

  /** A stock parameter with surrounding blanks matches as its stripped value does. */
  lemma PaddedStockScenario(aapl: Order, goog: Order)
    requires aapl.stock.code == "AAPL" && goog.stock.code == "GOOG"
    ensures FilterOrders([aapl, goog], OrderFilter(Some(" AAPL "), None, None)) == [aapl]
  {
    TestCodes();
    PaddedCode();
    FilterFirstOfTwo(aapl, goog, " AAPL ");
  }
}
