/**
 * The validation and settlement rules of the transaction engine, stated as
 * functions of the account store's contents. The engine's methods
 * (module Transactions) are proved to decide and update exactly as these
 * functions say; the lemmas here state what the rules promise.
 */
module Rules {
  import opened Wrappers
  import opened Models

  type Accounts = map<int, AccountModel>

  /** An account number names an open account when it is positive and the store holds it. */
  predicate IsOpen(accounts: Accounts, accountNumber: int)
  {
    0 < accountNumber && accountNumber in accounts
  }

  /**
   * A (possibly null) account reference carried by a request exists when it
   * is present and its number is open; nothing else in it is looked at.
   */
  predicate Exists(accounts: Accounts, account: Option<AccountModel>)
  {
    account.Some? && IsOpen(accounts, account.value.accountNumber)
  }

  /** The STORED balance of the account strictly exceeds `value`; false for an account the store lacks. */
  predicate Covers(accounts: Accounts, account: AccountModel, value: int)
  {
    account.accountNumber in accounts && accounts[account.accountNumber].balance > value
  }

  /** Why a request is rejected. The engine reports every one of them as the id 0. */
  datatype Rejection = AccountNotFound | InvalidAmount | InsufficientBalance | UnsupportedOperation

  datatype Verdict = Accepted | Rejected(reason: Rejection)

  /**
   * The engine's decision. Only a deposit checks that the value is positive;
   * a withdrawal checks its DESTINATION account; a transfer does not require
   * origin and destination to differ.
   */
  function Decide(accounts: Accounts, t: TransactionModel): (r: Verdict)
    ensures r == Rejected(UnsupportedOperation) <==> t.transactionType.Unrecognized?
    ensures r == Rejected(AccountNotFound) <==>
      !t.transactionType.Unrecognized? &&
      (!Exists(accounts, t.destinationAccount) || (t.transactionType.Transfer? && !Exists(accounts, t.originAccount)))
    ensures r == Rejected(InvalidAmount) <==>
      t.transactionType.Deposit? && Exists(accounts, t.destinationAccount) && t.value <= 0
    ensures r == Rejected(InsufficientBalance) <==>
      (t.transactionType.Withdraw? && Exists(accounts, t.destinationAccount) &&
       !Covers(accounts, t.destinationAccount.value, t.value)) ||
      (t.transactionType.Transfer? && Exists(accounts, t.destinationAccount) && Exists(accounts, t.originAccount) &&
       !Covers(accounts, t.originAccount.value, t.value))
    ensures r.Accepted? ==> Exists(accounts, t.destinationAccount)
    ensures r.Accepted? && t.transactionType.Transfer? ==> Exists(accounts, t.originAccount)
    ensures r.Accepted? && t.transactionType.Deposit? ==> t.value > 0
    ensures r.Accepted? ==> forall n :: Debits(t, n) ==> n in accounts && accounts[n].balance > t.value
  {
    match t.transactionType
    case Deposit =>
      if !Exists(accounts, t.destinationAccount) then Rejected(AccountNotFound)
      else if !(t.value > 0) then Rejected(InvalidAmount)
      else Accepted
    case Withdraw =>
      if !Exists(accounts, t.destinationAccount) then Rejected(AccountNotFound)
      else if !Covers(accounts, t.destinationAccount.value, t.value) then Rejected(InsufficientBalance)
      else Accepted
    case Transfer =>
      if !Exists(accounts, t.destinationAccount) || !Exists(accounts, t.originAccount) then Rejected(AccountNotFound)
      else if !Covers(accounts, t.originAccount.value, t.value) then Rejected(InsufficientBalance)
      else Accepted
    case Unrecognized(_) => Rejected(UnsupportedOperation)
  }

  /** The account the request adds its value to. */
  predicate Credits(t: TransactionModel, accountNumber: int)
  {
    (t.transactionType.Deposit? || t.transactionType.Transfer?) && Names(t.destinationAccount, accountNumber)
  }

  /** The account the request takes its value from. */
  predicate Debits(t: TransactionModel, accountNumber: int)
  {
    (t.transactionType.Withdraw? && Names(t.destinationAccount, accountNumber)) ||
    (t.transactionType.Transfer? && Names(t.originAccount, accountNumber))
  }

  /** Net change an accepted request makes to one account's balance. */
  function Change(t: TransactionModel, accountNumber: int): int
  {
    (if Credits(t, accountNumber) then t.value else 0) - (if Debits(t, accountNumber) then t.value else 0)
  }

  /** Net change an accepted request makes to the sum of all balances. */
  function Inflow(t: TransactionModel): int
  {
    match t.transactionType
    case Deposit => t.value
    case Withdraw => -t.value
    case _ => 0
  }

  function Credit(account: AccountModel, value: int): AccountModel
  {
    account.(balance := account.balance + value)
  }

  function Debit(account: AccountModel, value: int): AccountModel
  {
    account.(balance := account.balance - value)
  }

  /**
   * The store after an accepted request: the re-read account is updated and
   * written back; a transfer debits the origin first and then re-reads and
   * credits the destination.
   */
  function Settle(accounts: Accounts, t: TransactionModel): (r: Accounts)
    requires Decide(accounts, t).Accepted?
    ensures r.Keys == accounts.Keys
    ensures forall n :: n in accounts ==>
      r[n].accountNumber == accounts[n].accountNumber && r[n].owner == accounts[n].owner &&
      r[n].balance == accounts[n].balance + Change(t, n)
    ensures forall n :: n in accounts && !References(t, n) ==> r[n] == accounts[n]
    ensures forall n :: n in accounts && Debits(t, n) && !Credits(t, n) ==> r[n].balance > 0
  {
    var d := t.destinationAccount.value.accountNumber;
    match t.transactionType
    case Deposit => accounts[d := Credit(accounts[d], t.value)]
    case Withdraw => accounts[d := Debit(accounts[d], t.value)]
    case Transfer =>
      var o := t.originAccount.value.accountNumber;
      var debited := accounts[o := Debit(accounts[o], t.value)];
      debited[d := Credit(debited[d], t.value)]
  }

  /** Only the account numbers of a request's account references decide its fate and its effect. */
  lemma DecisionUsesOnlyAccountNumbers(accounts: Accounts, t: TransactionModel, u: TransactionModel)
    requires t.transactionType == u.transactionType && t.value == u.value
    requires forall n :: Names(t.originAccount, n) <==> Names(u.originAccount, n)
    requires forall n :: Names(t.destinationAccount, n) <==> Names(u.destinationAccount, n)
    ensures Decide(accounts, t) == Decide(accounts, u)
    ensures Decide(accounts, t).Accepted? ==> Settle(accounts, t) == Settle(accounts, u)
  {
    if t.originAccount.Some? {
      assert Names(u.originAccount, t.originAccount.value.accountNumber);
    }
    if t.destinationAccount.Some? {
      assert Names(u.destinationAccount, t.destinationAccount.value.accountNumber);
    }
    if u.originAccount.Some? {
      assert Names(t.originAccount, u.originAccount.value.accountNumber);
    }
    if u.destinationAccount.Some? {
      assert Names(t.destinationAccount, u.destinationAccount.value.accountNumber);
    }
  }

  // ---------------------------------------------------------------------------
  // The sum of all balances

  /** Some stored account number; which one is left open. */
  ghost function Pick(accounts: Accounts): (n: int)
    requires exists n :: n in accounts
    ensures n in accounts
  {
    var n :| n in accounts; n
  }

  /** The sum of the balances of all stored accounts. */
  ghost function Total(accounts: Accounts): int
    decreases accounts.Keys
  {
    if forall n :: n !in accounts then 0
    else
      var n := Pick(accounts);
      accounts[n].balance + Total(accounts - {n})
  }

  /** Any account, not only the one Total happens to pick first, can be split off the sum. */
  lemma {:induction false} TotalRemove(accounts: Accounts, n: int)
    requires n in accounts
    ensures Total(accounts) == accounts[n].balance + Total(accounts - {n})
    decreases accounts.Keys
  {
    var p := Pick(accounts);
    if p != n {
      TotalRemove(accounts - {p}, n);
      TotalRemove(accounts - {n}, p);
      assert accounts - {p} - {n} == accounts - {n} - {p};
    }
  }

  /** Replacing one stored account changes the sum by the difference of the two balances. */
  lemma TotalUpdate(accounts: Accounts, n: int, a: AccountModel)
    requires n in accounts
    ensures Total(accounts[n := a]) == Total(accounts) - accounts[n].balance + a.balance
  {
    TotalRemove(accounts, n);
    TotalRemove(accounts[n := a], n);
    assert accounts[n := a] - {n} == accounts - {n};
  }

  /**
   * An accepted deposit adds its value to the sum of all balances, a
   * withdrawal removes it, and a transfer (also one from an account to
   * itself) leaves the sum unchanged.
   */
  lemma SettleTotal(accounts: Accounts, t: TransactionModel)
    requires Decide(accounts, t).Accepted?
    ensures Total(Settle(accounts, t)) == Total(accounts) + Inflow(t)
  {
    var d := t.destinationAccount.value.accountNumber;
    match t.transactionType
    case Deposit => TotalUpdate(accounts, d, Credit(accounts[d], t.value));
    case Withdraw => TotalUpdate(accounts, d, Debit(accounts[d], t.value));
    case Transfer =>
      var o := t.originAccount.value.accountNumber;
      var debited := accounts[o := Debit(accounts[o], t.value)];
      TotalUpdate(accounts, o, Debit(accounts[o], t.value));
      TotalUpdate(debited, d, Credit(debited[d], t.value));
  }

  /** A transfer from an account to itself is accepted like any other but leaves every balance as it was. */
  lemma SelfTransferChangesNoBalance(accounts: Accounts, t: TransactionModel)
    requires t.transactionType.Transfer? && Decide(accounts, t).Accepted?
    requires t.originAccount.value.accountNumber == t.destinationAccount.value.accountNumber
    ensures Settle(accounts, t) == accounts
  {
  }

  // ---------------------------------------------------------------------------
  // Non-negative balances

  ghost predicate NonNegative(accounts: Accounts)
  {
    forall n :: n in accounts ==> accounts[n].balance >= 0
  }

  /** Accepted requests whose value is not negative keep every balance non-negative. */
  lemma SettleKeepsNonNegative(accounts: Accounts, t: TransactionModel)
    requires NonNegative(accounts) && Decide(accounts, t).Accepted? && t.value >= 0
    ensures NonNegative(Settle(accounts, t))
  {
  }

  /**
   * Withdrawals and transfers do not check that the value is positive: a
   * transfer of -30 from an account holding 100 to one holding 0 is accepted
   * and leaves the destination at -30.
   */
  lemma NegativeTransferOverdrawsDestination()
    ensures
      var owner := CustomerModel(1010, "John", "Doe");
      var accounts := map[1101 := AccountModel(1101, owner, 100), 1202 := AccountModel(1202, owner, 0)];
      var t := TransactionModel(0, Transfer, Some(accounts[1101]), Some(accounts[1202]), -30, 0);
      Decide(accounts, t).Accepted? && Settle(accounts, t)[1202].balance == -30 && !NonNegative(Settle(accounts, t))
  {
  }
}
