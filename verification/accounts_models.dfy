/**
 * The account row (accounts/models.py): a one-to-one extension of a user
 * that carries the user's buying power.
 */
module Accounts {
  /** Identity of a user of the authentication framework. */
  type UserId = nat

  /** Primary key of an account row. */
  type AccountId = nat

  /**
   * `availableBp` funds BUY orders and receives SELL proceeds; `allotedBp` is
   * stored but no ledger operation reads or writes it.
   */
  datatype Account = Account(availableBp: real, allotedBp: real, user: UserId)

  /** The row created for a new user: both buying-power columns take their 0.0 default. */
  function NewAccount(user: UserId): Account
  {
    Account(0.0, 0.0, user)
  }
}
