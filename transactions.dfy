/**
 * The transaction engine: validates deposit, withdrawal and transfer
 * requests against the account store and, when a request is accepted,
 * appends it to the ledger and then rewrites the balances it moves.
 * A rejection is reported as the id 0 and changes nothing.
 */
module Transactions {
  import opened Wrappers
  import opened Models
  import opened Rules
  import opened Repositories

  class TransactionServices {
    const transactionRepository: TransactionRepository
    const accountRepository: AccountRepository

    ghost predicate Valid()
      reads transactionRepository, accountRepository
    {
      transactionRepository.Valid() && accountRepository.Valid()
    }

    constructor (transactionRepository: TransactionRepository, accountRepository: AccountRepository)
      ensures this.transactionRepository == transactionRepository
      ensures this.accountRepository == accountRepository
    {
      this.transactionRepository := transactionRepository;
      this.accountRepository := accountRepository;
    }

    /**
     * Dispatches on the request's type; an unrecognised type is rejected.
     * On acceptance the stamped request is the one new ledger record, its
     * store-assigned id is returned and the store holds Settle's balances.
     */
    method CreateTransaction(transaction: TransactionModel, now: int) returns (id: int)
      requires Valid()
      modifies transactionRepository, accountRepository
      ensures Valid()
      ensures id == 0 <==> Decide(old(accountRepository.accounts), transaction).Rejected?
      ensures id != 0 ==>
        0 < id && (forall t :: t in old(transactionRepository.records) ==> t.id != id) &&
        transactionRepository.records == old(transactionRepository.records) + [transaction.(when := now, id := id)] &&
        accountRepository.accounts == Settle(old(accountRepository.accounts), transaction) &&
        Total(accountRepository.accounts) == Total(old(accountRepository.accounts)) + Inflow(transaction)
      ensures id == 0 ==>
        transactionRepository.records == old(transactionRepository.records) &&
        accountRepository.accounts == old(accountRepository.accounts)
      ensures accountRepository.nextNumber == old(accountRepository.nextNumber)
    {
      match transaction.transactionType {
        case Deposit =>
          id := CreateDepositTransaction(transaction, now);
        case Withdraw =>
          id := CreateWithdrawTransaction(transaction, now);
        case Transfer =>
          id := CreateTransferTransaction(transaction, now);
        case Unrecognized(_) =>
          id := 0;
      }
      if id != 0 {
        SettleTotal(old(accountRepository.accounts), transaction);
      }
    }

    /**
     * The ledger records that reference the account, or None when the
     * number is not positive or no such account is stored (None is distinct
     * from an empty history).
     */
    method TransactionsByAccountNumber(accountNumber: int) returns (r: Option<seq<TransactionModel>>)
      ensures r.None? <==> !IsOpen(accountRepository.accounts, accountNumber)
      ensures r.Some? ==> r.value == transactionRepository.GetTransactionsByAccountNumber(accountNumber)
      ensures r.Some? ==> forall t :: t in r.value <==> t in transactionRepository.records && References(t, accountNumber)
    {
      if AccountNumberExists(accountNumber) {
        r := Some(transactionRepository.GetTransactionsByAccountNumber(accountNumber));
        forall t | t in transactionRepository.records && References(t, accountNumber)
          ensures t in r.value
        {
          InvolvingComplete(transactionRepository.records, accountNumber, t);
        }
      } else {
        r := None;
      }
    }

    method CreateDepositTransaction(transaction: TransactionModel, now: int) returns (id: int)
      requires Valid()
      modifies transactionRepository, accountRepository
      ensures Valid()
      ensures id != 0 <==> Exists(old(accountRepository.accounts), transaction.destinationAccount) && transaction.value > 0
      ensures id != 0 ==>
        var d := transaction.destinationAccount.value.accountNumber;
        0 < id && (forall t :: t in old(transactionRepository.records) ==> t.id != id) &&
        transactionRepository.records == old(transactionRepository.records) + [transaction.(when := now, id := id)] &&
        accountRepository.accounts == old(accountRepository.accounts)[d := Credit(old(accountRepository.accounts)[d], transaction.value)]
      ensures id == 0 ==>
        transactionRepository.records == old(transactionRepository.records) &&
        accountRepository.accounts == old(accountRepository.accounts)
      ensures accountRepository.nextNumber == old(accountRepository.nextNumber)
    {
      if AccountExists(transaction.destinationAccount) && transaction.value > 0 {
        // The ledger append comes first, then the store's copy of the account is updated.
        var stamped := transaction.(when := now);
        id := transactionRepository.Save(stamped);
        var account := accountRepository.GetById(transaction.destinationAccount.value.accountNumber).value;
        account := account.(balance := account.balance + transaction.value);
        var _ := accountRepository.Save(account);
      } else {
        id := 0;
      }
    }

    method CreateWithdrawTransaction(transaction: TransactionModel, now: int) returns (id: int)
      requires Valid()
      modifies transactionRepository, accountRepository
      ensures Valid()
      ensures id != 0 <==>
        Exists(old(accountRepository.accounts), transaction.destinationAccount) &&
        Covers(old(accountRepository.accounts), transaction.destinationAccount.value, transaction.value)
      ensures id != 0 ==>
        var d := transaction.destinationAccount.value.accountNumber;
        0 < id && (forall t :: t in old(transactionRepository.records) ==> t.id != id) &&
        transactionRepository.records == old(transactionRepository.records) + [transaction.(when := now, id := id)] &&
        accountRepository.accounts == old(accountRepository.accounts)[d := Debit(old(accountRepository.accounts)[d], transaction.value)] &&
        accountRepository.accounts[d].balance > 0
      ensures id == 0 ==>
        transactionRepository.records == old(transactionRepository.records) &&
        accountRepository.accounts == old(accountRepository.accounts)
      ensures accountRepository.nextNumber == old(accountRepository.nextNumber)
    {
      if AccountExists(transaction.destinationAccount)
        && AccountEnoughBalance(transaction.destinationAccount.value, transaction.value)
      {
        var stamped := transaction.(when := now);
        id := transactionRepository.Save(stamped);
        var account := accountRepository.GetById(transaction.destinationAccount.value.accountNumber).value;
        account := account.(balance := account.balance - transaction.value);
        var _ := accountRepository.Save(account);
      } else {
        id := 0;
      }
    }

    method CreateTransferTransaction(transaction: TransactionModel, now: int) returns (id: int)
      requires Valid()
      modifies transactionRepository, accountRepository
      ensures Valid()
      ensures id != 0 <==>
        Exists(old(accountRepository.accounts), transaction.destinationAccount) &&
        Exists(old(accountRepository.accounts), transaction.originAccount) &&
        Covers(old(accountRepository.accounts), transaction.originAccount.value, transaction.value)
      ensures id != 0 ==>
        var o := transaction.originAccount.value.accountNumber;
        var d := transaction.destinationAccount.value.accountNumber;
        var debited := old(accountRepository.accounts)[o := Debit(old(accountRepository.accounts)[o], transaction.value)];
        0 < id && (forall t :: t in old(transactionRepository.records) ==> t.id != id) &&
        transactionRepository.records == old(transactionRepository.records) + [transaction.(when := now, id := id)] &&
        accountRepository.accounts == debited[d := Credit(debited[d], transaction.value)]
      ensures id == 0 ==>
        transactionRepository.records == old(transactionRepository.records) &&
        accountRepository.accounts == old(accountRepository.accounts)
      ensures accountRepository.nextNumber == old(accountRepository.nextNumber)
    {
      if AccountExists(transaction.destinationAccount)
        && AccountExists(transaction.originAccount)
        && AccountEnoughBalance(transaction.originAccount.value, transaction.value)
      {
        var stamped := transaction.(when := now);
        id := transactionRepository.Save(stamped);
        // Debit the origin and write it back before the destination is read,
        // so a transfer to the same account sees its own debit.
        var origin := accountRepository.GetById(transaction.originAccount.value.accountNumber).value;
        origin := origin.(balance := origin.balance - transaction.value);
        var _ := accountRepository.Save(origin);
        var destination := accountRepository.GetById(transaction.destinationAccount.value.accountNumber).value;
        destination := destination.(balance := destination.balance + transaction.value);
        var _ := accountRepository.Save(destination);
      } else {
        id := 0;
      }
    }

    /** A request's account reference exists when it is non-null, positive and a fresh lookup of its number succeeds. */
    predicate AccountExists(account: Option<AccountModel>)
      reads accountRepository
      ensures AccountExists(account) <==> Exists(accountRepository.accounts, account)
    {
      account.Some? && account.value.accountNumber > 0
      && accountRepository.GetById(account.value.accountNumber) != None
    }

    /** A bare account number exists when it is positive and a lookup of it succeeds. */
    predicate AccountNumberExists(accountNumber: int)
      reads accountRepository
      ensures AccountNumberExists(accountNumber) <==> IsOpen(accountRepository.accounts, accountNumber)
    {
      accountNumber > 0 && accountRepository.GetById(accountNumber) != None
    }

    /** The balance found by a fresh lookup strictly exceeds `value`; the balance carried by `account` is ignored. */
    predicate AccountEnoughBalance(account: AccountModel, value: int)
      reads accountRepository
      ensures AccountEnoughBalance(account, value) <==> Covers(accountRepository.accounts, account, value)
    {
      var found := accountRepository.GetById(account.accountNumber);
      found.Some? && found.value.balance > value
    }

    /**
     * The existence and balance checks read nothing of a request's account
     * reference but its number: two references with the same number (whatever
     * balance and owner they carry) pass or fail alike, a null reference never
     * exists, and a reference exists exactly when its bare number does.
     */
    lemma ChecksReadOnlyAccountNumber(a: AccountModel, b: AccountModel, value: int)
      requires a.accountNumber == b.accountNumber
      ensures AccountExists(Some(a)) == AccountExists(Some(b))
      ensures AccountEnoughBalance(a, value) == AccountEnoughBalance(b, value)
      ensures AccountExists(Some(a)) <==> AccountNumberExists(a.accountNumber)
      ensures !AccountExists(None)
    {
    }
  }
}
