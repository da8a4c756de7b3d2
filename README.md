# DemoBank transaction engine, modelled in Dafny

DemoBank is a small banking back end. This project models its two domain
services:

- `TransactionServices` validates and carries out deposits, withdrawals and
  transfers against two stores and answers history queries. The stores are
  an account store (account number → account with balance) and an
  append-only ledger of transaction records.
- `AccountService` opens zero-balance accounts for known customers and looks
  accounts up.

Layout, one module per file:

- `wrappers.dfy`: `Option`, which stands for a nullable reference.
- `models.dfy`: the records the services exchange with the stores.
- `repositories.dfy`: in-memory account, ledger and customer stores, each a
  class. The account and ledger stores have a `Save` that updates their fields
  and hands out a fresh positive account number or id. The customer store is
  only read and has no `Save`.
- `rules.dfy`: the engine's decision (`Decide`, with a rejection reason behind
  the legacy `0`) and its effect on the account store (`Settle`) as functions.
  Also the sum of all balances (`Total`) and the lemmas about them.
- `transactions.dfy`: the `TransactionServices` class. Its methods update the
  two stores step by step, as the source does: stamp the request, append it,
  re-read the account, update its balance and write it back.
  `CreateTransaction` is proved to decide and update exactly as `Decide` and
  `Settle` say. The three methods it dispatches to are proved against explicit
  conditions and explicit new account maps of their own, and from those the
  dispatcher's contract follows.
- `accounts.dfy`: the `AccountService` class.
- `scenarios.dfy`: the repository's unit-test scenarios, written as client
  methods over fresh stores, and further worked examples (boundary withdrawal,
  transfer, self-transfer, unknown type).

The model keeps these behaviours of the code as they are:

- Only a deposit requires a positive value (TransactionServices.cs:52). A
  withdrawal or transfer is not rejected for its sign (TransactionServices.cs:70-71,
  89-91). It still needs a stored balance strictly above its value. A transfer with a
  negative value can leave the destination negative
  (`Rules.NegativeTransferOverdrawsDestination`).
- An initial credit on account creation is ignored (AccountService.cs:35-42).
  The account opens at 0 and no deposit is recorded.
- A transfer from an account to itself is accepted (TransactionServices.cs:89-91).
  It appends a record and leaves the balance unchanged.

## Model

| member | source | states |
|---|---|---|
| `Rules.Decide` | DemoBank.Account.Domain/Services/TransactionServices.cs:29-39 | Gives each rejection its reason, both ways. `UnsupportedOperation` is given exactly for an unrecognised type. `AccountNotFound` is given exactly when the destination, or a transfer's origin, does not exist. `InvalidAmount` is given exactly for a deposit to an existing account with a value of 0 or less. `InsufficientBalance` is given exactly for a withdrawal or transfer whose accounts exist but whose debited account's stored balance is not strictly above the value. Acceptance implies an existing destination, an existing origin for a transfer, a positive value for a deposit, and a stored balance strictly above the value for the debited account |
| `Rules.Settle` | DemoBank.Account.Domain/Services/TransactionServices.cs:55-104 | After an accepted request, the store holds the same accounts with the same numbers and owners. Each balance changes by exactly its net credit minus debit. Accounts the request does not name stay untouched. An account that is debited and not credited ends strictly positive |
| `Rules.DecisionUsesOnlyAccountNumbers` | DemoBank.Account.Domain/Services/TransactionServices.cs:111-133 | Requests that agree on type, value and account numbers get the same verdict and the same effect. The balances and owners embedded in the request are never consulted |
| `Rules.SettleTotal` | DemoBank.Account.Domain/Services/TransactionServices.cs:50-109 | An accepted deposit raises the sum of all balances by its value. A withdrawal lowers it by its value. A transfer, including one to the same account, leaves it unchanged |
| `Rules.SelfTransferChangesNoBalance` | DemoBank.Account.Domain/Services/TransactionServices.cs:87-104 | An accepted transfer whose origin and destination are the same account leaves the whole account store unchanged |
| `Rules.SettleKeepsNonNegative` | DemoBank.Account.Domain/Services/TransactionServices.cs:127-133 | If all balances are non-negative and the value is not negative, an accepted request keeps all balances non-negative |
| `Rules.NegativeTransferOverdrawsDestination` | DemoBank.Account.Domain/Services/TransactionServices.cs:89-91 | A transfer of -30 from 1101 (100) to 1202 (0) is accepted and leaves 1202 at -30, because transfers do not check the value's sign |
| `Repositories.Involving` | DemoBank.Account.Domain/Services/TransactionServices.cs:46 | The history of an account holds only ledger records that name it as origin or destination, and holds no more records than the ledger |
| `Repositories.InvolvingComplete` | DemoBank.Account.Domain/Services/TransactionServices.cs:46 | No ledger record that names the account is missing from its history |
| `Repositories.InvolvingAppend` | DemoBank.Account.Domain/Services/TransactionServices.cs:43-48 | Appending a record extends an account's history by exactly that record when the record names the account, and otherwise leaves the history as it was |
| `Transactions.TransactionServices.CreateTransaction` | DemoBank.Account.Domain/Services/TransactionServices.cs:27-41 | Returns 0 exactly when `Decide` rejects the request, and then neither the ledger nor any balance changes, so repeating the request changes nothing either. Otherwise it returns a fresh positive id, appends exactly the stamped request under that id, leaves the store as `Settle` says, and changes the sum of balances by the request's inflow |
| `Transactions.TransactionServices.CreateDepositTransaction` | DemoBank.Account.Domain/Services/TransactionServices.cs:50-66 | Accepted exactly when the destination exists and the value is positive. On acceptance one record is appended and the stored destination balance becomes the old one plus the value. On rejection it returns 0 and nothing changes |
| `Transactions.TransactionServices.CreateWithdrawTransaction` | DemoBank.Account.Domain/Services/TransactionServices.cs:68-85 | Accepted exactly when the destination exists and its stored balance is strictly greater than the value, so withdrawing the whole balance is rejected. On acceptance one record is appended and the balance becomes old minus value, which is strictly positive |
| `Transactions.TransactionServices.CreateTransferTransaction` | DemoBank.Account.Domain/Services/TransactionServices.cs:87-109 | Accepted exactly when both accounts exist and the origin's stored balance strictly exceeds the value. Origin and destination may be the same account. On acceptance one record is appended, the origin is debited and written back, then the destination is re-read and credited |
| `Transactions.TransactionServices.TransactionsByAccountNumber` | DemoBank.Account.Domain/Services/TransactionServices.cs:43-48 | Returns None exactly when the number is not positive or not stored. Otherwise it returns the store's history unchanged, which holds exactly the ledger records naming the account. Nothing changes |
| `Transactions.TransactionServices.ChecksReadOnlyAccountNumber` | DemoBank.Account.Domain/Services/TransactionServices.cs:111-133 | For any store state, two account references with the same number pass or fail the existence check and the balance check alike, whatever balance and owner they carry. A null reference never exists. A reference exists exactly when its bare number does. Only the number and a fresh store lookup decide these checks |
| `Accounts.AccountService.CreateNewAccountForExistingUser` | DemoBank.Account.Domain/Services/AccountService.cs:30-52 | For an unknown customer it returns 0 and stores nothing. Otherwise it stores exactly one new account under a fresh store-assigned number, owned by that customer, with balance 0, and the store's next number moves past it. The initial credit plays no part in the result or the new state |
| `Accounts.AccountService.GetAccountById` | DemoBank.Account.Domain/Services/AccountService.cs:59-62 | Returns the stored account under that number, or None for an unknown number. Changes nothing |
| `Scenarios.CreateAccountForKnownAndUnknownCustomer` | DemoBank.Test/DemoBankAPITest.cs:67-102 | Customer 1010 gets an account with a positive number. An unknown customer gets 0 |
| `Scenarios.InitialCreditIsIgnored` | DemoBank.Account.Domain/Services/AccountService.cs:35-49 | Opening with any initial credit returns the same number and leaves the same store as opening with none. The new balance is 0 |
| `Scenarios.LookUpAccounts` | DemoBank.Test/DemoBankAPITest.cs:107-131 | Account 1101 is found under its own number. 1100 is not found |
| `Scenarios.DepositToKnownAccount` | DemoBank.Test/DemoBankAPITest.cs:136-152 | A deposit of 100 to 1101, which holds 100, gets a positive id and leaves 200. The history of 1101 is that one record |
| `Scenarios.DepositToUnknownAccount` | DemoBank.Test/DemoBankAPITest.cs:157-172 | A deposit to an account the store lacks returns 0 and records nothing. The account has no history (None) |
| `Scenarios.WithdrawBoundary` | DemoBank.Account.Domain/Services/TransactionServices.cs:127-133 | Withdrawing all 100 from 1101 is rejected twice in a row and the balance stays 100. Withdrawing 50 is accepted and leaves 50 |
| `Scenarios.TransferBetweenAccounts` | DemoBank.Account.Domain/Services/TransactionServices.cs:87-109 | A transfer of 30 from 1101 (100) to 1202 (0) leaves 70 and 30. It writes one ledger record, which names both accounts |
| `Scenarios.TransferToSameAccount` | DemoBank.Account.Domain/Services/TransactionServices.cs:98-104 | A transfer of 30 from 1101 to itself is accepted and recorded, and the balance stays 100 |
| `Scenarios.UnrecognizedType` | DemoBank.Account.Domain/Services/TransactionServices.cs:37-38 | A request of an unknown type returns 0, records nothing and leaves the balance at 100 |

The `throw` after the `switch` (TransactionServices.cs:40) cannot be reached: `CreateTransaction`
matches every request type and each case returns.

## Left out

- Concurrency, locking and atomicity. The services run one call at a time and the model has one sequential caller. Nothing is serialised per account. A half-applied operation cannot be observed because a method is one step of the model.
- Time: `DateTime.Now` is the `now` parameter of `CreateTransaction`.
- Amounts are unbounded integers (smallest currency unit) instead of `double`, and ids and numbers are unbounded instead of `long`. Rounding and overflow are not modelled.
- Aliasing: in C# the account object embedded in a request can be the store's own object. In the model, requests and ledger records hold value copies, so a later balance update does not show through them.
- A null request: the source throws on it. The model's request is always present. Null account references inside a request are modelled (`Option`).
- Store failures and timeouts: store calls always succeed.
- Concrete repositories and persistence are not part of this model. The in-memory stores number ledger records 1, 2, … and new accounts from a counter. The history query returns the records naming the account as origin or destination, in ledger order. That is an assumption about the store, which the source does not show.
- Controllers, HTTP result types, logging and dependency-injection wiring (Bootstrapper.cs). The interface ITransactionServices.cs holds signatures only.
- DemoBankAPITest.cs:174-178, `TestGetTransactionsByAccountNumber`, has an empty body and contributes no scenario.
- Rules.Settle: the strictly positive balance after a debit is stated for the final balance of an account that is debited and not credited. For a transfer from an account to itself, only the intermediate state after the debit (TransactionServices.cs:99-100) is positive, and the model does not expose that state. The final balance equals the old one.
