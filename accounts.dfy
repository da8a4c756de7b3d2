/**
 * Account creation and lookup. It shares the account store with the
 * transaction engine and reads the customer store.
 */
module Accounts {
  import opened Wrappers
  import opened Models
  import opened Repositories

  class AccountService {
    const accountRepository: AccountRepository
    const customerRepository: CustomerRepository

    constructor (accountRepository: AccountRepository, customerRepository: CustomerRepository)
      ensures this.accountRepository == accountRepository
      ensures this.customerRepository == customerRepository
    {
      this.accountRepository := accountRepository;
      this.customerRepository := customerRepository;
    }

    /**
     * Opens a zero-balance account for a known customer and returns the
     * number the store assigned; returns 0 and stores nothing for an unknown
     * customer. The initial credit is read but has no effect: its branch
     * leaves the deposit it announces unwritten.
     */
    method CreateNewAccountForExistingUser(account: NewAccount) returns (accountNumber: int)
      requires accountRepository.Valid()
      modifies accountRepository
      ensures accountRepository.Valid()
      ensures account.customerId !in customerRepository.customers ==>
        accountNumber == 0 &&
        accountRepository.accounts == old(accountRepository.accounts) &&
        accountRepository.nextNumber == old(accountRepository.nextNumber)
      ensures account.customerId in customerRepository.customers ==>
        accountNumber == old(accountRepository.nextNumber) &&
        accountRepository.nextNumber == accountNumber + 1 &&
        0 < accountNumber && accountNumber !in old(accountRepository.accounts) &&
        accountRepository.accounts == old(accountRepository.accounts)[accountNumber :=
          AccountModel(accountNumber, customerRepository.customers[account.customerId], 0)]
    {
      var customer := customerRepository.GetById(account.customerId);
      if customer != None {
        if account.initialCredit > 0 {
          var newAccount := AccountModel(0, customer.value, 0);
          accountNumber := accountRepository.Save(newAccount);
          // The source announces a deposit of the initial credit here and writes none.
        } else {
          var newAccount := AccountModel(0, customer.value, 0);
          accountNumber := accountRepository.Save(newAccount);
        }
      } else {
        accountNumber := 0;
      }
    }

    /** The store's account with that number, or None; nothing changes. */
    method GetAccountById(accountId: int) returns (r: Option<AccountModel>)
      requires accountRepository.Valid()
      ensures r.Some? <==> accountId in accountRepository.accounts
      ensures r.Some? ==> r.value == accountRepository.accounts[accountId] && r.value.accountNumber == accountId
    {
      r := accountRepository.GetById(accountId);
    }
  }
}
