/**
 * The records exchanged between the services and the stores
 * (DemoBank.Account.Infrastructure.Data.Models and the TransactionTypes
 * enumeration; those source files are not part of this model, so only the
 * fields the services read or write are kept).
 *
 * Amounts are whole numbers of the smallest currency unit: the source keeps
 * them in `double`, but the services only compare, add and subtract them.
 */
module Models {
  import opened Wrappers

  datatype CustomerModel = CustomerModel(id: int, firstName: string, lastName: string)

  datatype AccountModel = AccountModel(accountNumber: int, owner: CustomerModel, balance: int)

  /** A C# enumeration can hold any integer, so a request may carry a type outside the three known ones. */
  datatype TransactionType = Deposit | Withdraw | Transfer | Unrecognized(code: int)

  /**
   * A transaction request as submitted by a caller, and the ledger record it
   * becomes. The caller's account references may be null and may carry stale
   * balances; `id` is assigned by the transaction store, `when` by the engine.
   */
  datatype TransactionModel = TransactionModel(
    id: int,
    transactionType: TransactionType,
    originAccount: Option<AccountModel>,
    destinationAccount: Option<AccountModel>,
    value: int,
    when: int)

  /** The account-creation request. */
  datatype NewAccount = NewAccount(customerId: int, initialCredit: int)

  /** Holds when `account` is present and carries the account number `accountNumber`. */
  predicate Names(account: Option<AccountModel>, accountNumber: int)
  {
    account.Some? && account.value.accountNumber == accountNumber
  }

  /** A transaction references an account when it names it as origin or destination. */
  predicate References(t: TransactionModel, accountNumber: int)
  {
    Names(t.originAccount, accountNumber) || Names(t.destinationAccount, accountNumber)
  }
}
