/**
 * The repository's unit-test scenarios and further worked examples (the
 * withdrawal boundary, transfers, an unknown type), run as clients of the
 * services: each sets up fresh stores, makes the calls and states the
 * outcome the services' contracts guarantee.
 */
module Scenarios {
  import opened Wrappers
  import opened Models
  import opened Rules
  import opened Repositories
  import opened Transactions
  import opened Accounts

  const John := CustomerModel(1010, "John", "Doe")
  const Account1101 := AccountModel(1101, John, 100)
  const Account1202 := AccountModel(1202, John, 0)

  /** A known customer gets an account with a store-assigned number; an unknown one gets 0. */
  method CreateAccountForKnownAndUnknownCustomer() returns (known: int, unknown: int)
    ensures known > 0 && unknown == 0
  {
    var accounts := new AccountRepository(map[], 1001);
    var customers := new CustomerRepository(map[1010 := John]);
    var service := new AccountService(accounts, customers);
    known := service.CreateNewAccountForExistingUser(NewAccount(1010, 0));
    var nobody := new CustomerRepository(map[]);
    var strangers := new AccountService(accounts, nobody);
    unknown := strangers.CreateNewAccountForExistingUser(NewAccount(1010, 0));
  }

  /**
   * Opening an account with an initial credit leaves exactly the store, and
   * returns exactly the number, that opening it without one does: the new
   * account holds 0.
   */
  method InitialCreditIsIgnored(credit: int) returns (withCredit: int, withoutCredit: int, same: bool, balance: int)
    ensures withCredit == withoutCredit && same && balance == 0
  {
    var customers := new CustomerRepository(map[1010 := John]);
    var first := new AccountRepository(map[1101 := Account1101], 1102);
    var second := new AccountRepository(map[1101 := Account1101], 1102);
    var credited := new AccountService(first, customers);
    var plain := new AccountService(second, customers);
    withCredit := credited.CreateNewAccountForExistingUser(NewAccount(1010, credit));
    withoutCredit := plain.CreateNewAccountForExistingUser(NewAccount(1010, 0));
    same := first.accounts == second.accounts;
    balance := first.accounts[withCredit].balance;
  }

  /** Account 1101 is found under its own number; 1100 is not found. */
  method LookUpAccounts() returns (found: Option<AccountModel>, missing: Option<AccountModel>)
    ensures found.Some? && found.value.accountNumber == 1101 && missing.None?
  {
    var accounts := new AccountRepository(map[1101 := Account1101], 1102);
    var customers := new CustomerRepository(map[1010 := John]);
    var service := new AccountService(accounts, customers);
    found := service.GetAccountById(1101);
    missing := service.GetAccountById(1100);
  }

  /** A deposit of 100 to account 1101 holding 100 is recorded and leaves 200. */
  method DepositToKnownAccount() returns (id: int, balance: int, history: Option<seq<TransactionModel>>)
    ensures id > 0 && balance == 200
    ensures history.Some? && |history.value| == 1 && history.value[0].id == id
  {
    var accounts := new AccountRepository(map[1101 := Account1101], 1102);
    var transactions := new TransactionRepository();
    var engine := new TransactionServices(transactions, accounts);
    var deposit := TransactionModel(0, Deposit, None, Some(Account1101), 100, 0);
    id := engine.CreateTransaction(deposit, 1);
    balance := accounts.accounts[1101].balance;
    history := engine.TransactionsByAccountNumber(1101);
    InvolvingAppend([], deposit.(when := 1, id := id), 1101);
  }

  /** A deposit to an account the store does not hold is rejected and records nothing. */
  method DepositToUnknownAccount() returns (id: int, ledger: seq<TransactionModel>, history: Option<seq<TransactionModel>>)
    ensures id == 0 && ledger == [] && history.None?
  {
    var accounts := new AccountRepository(map[], 1001);
    var transactions := new TransactionRepository();
    var engine := new TransactionServices(transactions, accounts);
    id := engine.CreateTransaction(TransactionModel(0, Deposit, None, Some(Account1101), 100, 0), 1);
    ledger := transactions.records;
    history := engine.TransactionsByAccountNumber(1101);
  }

  /**
   * Withdrawing the whole balance of 100 is rejected, and rejected again when
   * repeated, with nothing changed; withdrawing 50 is accepted and leaves 50.
   */
  method WithdrawBoundary() returns (first: int, second: int, afterRejections: int, accepted: int, balance: int)
    ensures first == 0 && second == 0 && afterRejections == 100
    ensures accepted > 0 && balance == 50
  {
    var accounts := new AccountRepository(map[1101 := Account1101], 1102);
    var transactions := new TransactionRepository();
    var engine := new TransactionServices(transactions, accounts);
    var drain := TransactionModel(0, Withdraw, None, Some(Account1101), 100, 0);
    first := engine.CreateTransaction(drain, 1);
    second := engine.CreateTransaction(drain, 2);
    afterRejections := accounts.accounts[1101].balance;
    assert transactions.records == [];
    accepted := engine.CreateTransaction(TransactionModel(0, Withdraw, None, Some(Account1101), 50, 0), 3);
    balance := accounts.accounts[1101].balance;
  }

  /**
   * A transfer of 30 from 1101 (holding 100) to 1202 (holding 0) leaves 70
   * and 30, and its single ledger record is in both accounts' histories.
   */
  method TransferBetweenAccounts() returns (id: int, origin: int, destination: int, ledger: seq<TransactionModel>)
    ensures id > 0 && origin == 70 && destination == 30
    ensures |ledger| == 1 && References(ledger[0], 1101) && References(ledger[0], 1202)
  {
    var accounts := new AccountRepository(map[1101 := Account1101, 1202 := Account1202], 1203);
    var transactions := new TransactionRepository();
    var engine := new TransactionServices(transactions, accounts);
    id := engine.CreateTransaction(TransactionModel(0, Transfer, Some(Account1101), Some(Account1202), 30, 0), 1);
    origin := accounts.accounts[1101].balance;
    destination := accounts.accounts[1202].balance;
    ledger := transactions.records;
  }

  /** A transfer from 1101 to itself is accepted and recorded but leaves the balance at 100. */
  method TransferToSameAccount() returns (id: int, balance: int, ledger: seq<TransactionModel>)
    ensures id > 0 && balance == 100 && |ledger| == 1
  {
    var accounts := new AccountRepository(map[1101 := Account1101], 1102);
    var transactions := new TransactionRepository();
    var engine := new TransactionServices(transactions, accounts);
    id := engine.CreateTransaction(TransactionModel(0, Transfer, Some(Account1101), Some(Account1101), 30, 0), 1);
    balance := accounts.accounts[1101].balance;
    ledger := transactions.records;
  }

  /** A request whose type is none of the three known ones is rejected. */
  method UnrecognizedType() returns (id: int, balance: int, ledger: seq<TransactionModel>)
    ensures id == 0 && balance == 100 && ledger == []
  {
    var accounts := new AccountRepository(map[1101 := Account1101], 1102);
    var transactions := new TransactionRepository();
    var engine := new TransactionServices(transactions, accounts);
    id := engine.CreateTransaction(TransactionModel(0, Unrecognized(7), None, Some(Account1101), 100, 0), 1);
    balance := accounts.accounts[1101].balance;
    ledger := transactions.records;
  }
}
