/**
 * Order validation (trades/serializers.py, OrderSerializer): the total value
 * of an order and the buying-power / held-shares guard applied before an
 * order is stored.
 */
module Validation {
  import opened Wrappers
  import opened Accounts
  import opened TradeModels

  /** Why a submission produced no order. */
  datatype Rejection =
    /** A stock or order-type code that names no row; each field reports its own error. */
    | UnknownReferences(stock: Option<string>, orderType: Option<string>)
    | NotEnoughBuyingPower
    | NotEnoughShares
    /** No price was supplied, so computing the total value fails with a server error. */
    | PriceMissing
    /** No FILLED status row exists, so stamping the order fails with a server error. */
    | FilledStatusMissing

  /** The `details` message of a guard rejection. */
  function Details(r: Rejection): string
    requires r.NotEnoughBuyingPower? || r.NotEnoughShares?
  {
    if r.NotEnoughBuyingPower? then "Not enough buying power." else "Not enough shares."
  }

  /** The value of an order, assuming it is executed in full at its own price. */
  function TotalValue(quantity: real, price: real): real
  {
    quantity * price
  }

  /**
   * The guard of `validate`: a BUY worth more than the available buying power
   * and a SELL of more than the held quantity are rejected; anything else is
   * accepted with its total value. Both comparisons are strict.
   */
  function Check(account: Account, held: Share, orderType: OrderType, quantity: real, price: real): (r: Result<real, Rejection>)
    ensures r == Failure(NotEnoughBuyingPower) <==> orderType.code == BUY && quantity * price > account.availableBp
    ensures r == Failure(NotEnoughShares) <==> orderType.code == SELL && quantity > held.quantity
    ensures r.Failure? ==> r.error == NotEnoughBuyingPower || r.error == NotEnoughShares
    ensures r.Success? ==> r.value == quantity * price
  {
    var total := TotalValue(quantity, price);
    if orderType.code == BUY && total > account.availableBp then Failure(NotEnoughBuyingPower)
    else if orderType.code == SELL && quantity > held.quantity then Failure(NotEnoughShares)
    else Success(total)
  }

  /** Test scenario: a BUY of 15 at 1.25 by a fresh account (no buying power) is rejected. */
  lemma RejectedBuyScenario(user: UserId)
    ensures var r := Check(NewAccount(user), NewShare(), OrderType("Buy", BUY), 15.0, 1.25);
            r == Failure(NotEnoughBuyingPower) && Details(r.error) == "Not enough buying power."
  {
  }

  /** Test scenario: a SELL of 15 with no holding is rejected. */
  lemma RejectedSellScenario(user: UserId)
    ensures var r := Check(NewAccount(user), NewShare(), OrderType("Sell", SELL), 15.0, 1.25);
            r == Failure(NotEnoughShares) && Details(r.error) == "Not enough shares."
  {
  }
}
