/**
 * In-memory stand-ins for the three stores the services are given by
 * dependency injection. The concrete repositories are not part of this
 * model; these keep only what the services rely on: point lookup, save that
 * is visible to the next lookup, and store-assigned fresh identifiers.
 */
module Repositories {
  import opened Wrappers
  import opened Models

  /** Account number -> account. New accounts get the next unused positive number. */
  class AccountRepository {
    var accounts: map<int, AccountModel>
    var nextNumber: int

    ghost predicate Valid()
      reads this
    {
      0 < nextNumber &&
      forall n :: n in accounts ==> 0 < n < nextNumber && accounts[n].accountNumber == n
    }

    constructor (initial: map<int, AccountModel>, nextNumber: int)
      requires 0 < nextNumber
      requires forall n :: n in initial ==> 0 < n < nextNumber && initial[n].accountNumber == n
      ensures Valid()
      ensures accounts == initial && this.nextNumber == nextNumber
    {
      accounts := initial;
      this.nextNumber := nextNumber;
    }

    /** Point lookup; None for an unknown number. */
    function GetById(accountNumber: int): Option<AccountModel>
      reads this
    {
      if accountNumber in accounts then Some(accounts[accountNumber]) else None
    }

    /**
     * Replaces the stored account with the same number; an account whose
     * number is not stored (a new account carries 0) is inserted under a
     * fresh positive number, which is returned.
     */
    method Save(account: AccountModel) returns (accountNumber: int)
      requires Valid()
      modifies this
      ensures Valid()
      ensures account.accountNumber in old(accounts) ==>
        accountNumber == account.accountNumber &&
        accounts == old(accounts)[accountNumber := account] &&
        nextNumber == old(nextNumber)
      ensures account.accountNumber !in old(accounts) ==>
        accountNumber == old(nextNumber) && 0 < accountNumber && accountNumber !in old(accounts) &&
        accounts == old(accounts)[accountNumber := account.(accountNumber := accountNumber)] &&
        nextNumber == accountNumber + 1
    {
      if account.accountNumber in accounts {
        accountNumber := account.accountNumber;
        accounts := accounts[accountNumber := account];
      } else {
        accountNumber := nextNumber;
        accounts := accounts[accountNumber := account.(accountNumber := accountNumber)];
        nextNumber := nextNumber + 1;
      }
    }
  }

  /** The append-only ledger. The record saved i-th (from 0) gets id i + 1. */
  class TransactionRepository {
    var records: seq<TransactionModel>

    ghost predicate Valid()
      reads this
    {
      forall i :: 0 <= i < |records| ==> records[i].id == i + 1
    }

    constructor ()
      ensures Valid() && records == []
    {
      records := [];
    }

    /** Appends the transaction under a fresh positive id and returns that id. */
    method Save(transaction: TransactionModel) returns (id: int)
      requires Valid()
      modifies this
      ensures Valid()
      ensures 0 < id && forall t :: t in old(records) ==> t.id != id
      ensures records == old(records) + [transaction.(id := id)]
    {
      id := |records| + 1;
      records := records + [transaction.(id := id)];
    }

    /** The records that reference the account, in the order they were saved. */
    function GetTransactionsByAccountNumber(accountNumber: int): seq<TransactionModel>
      reads this
    {
      Involving(records, accountNumber)
    }
  }

  /** Filters the ledger down to the records that reference the account. */
  function Involving(records: seq<TransactionModel>, accountNumber: int): (r: seq<TransactionModel>)
    ensures |r| <= |records|
    ensures forall t :: t in r ==> t in records && References(t, accountNumber)
  {
    if records == [] then []
    else
      (if References(records[0], accountNumber) then [records[0]] else [])
      + Involving(records[1..], accountNumber)
  }

  /** No record that references the account is dropped by the filter. */
  lemma {:induction false} InvolvingComplete(records: seq<TransactionModel>, accountNumber: int, t: TransactionModel)
    requires t in records && References(t, accountNumber)
    ensures t in Involving(records, accountNumber)
  {
    if records[0] != t {
      assert t in records[1..];
      InvolvingComplete(records[1..], accountNumber, t);
    }
  }

  /** Appending a record extends the history of an account by that record exactly when it references the account. */
  lemma {:induction false} InvolvingAppend(records: seq<TransactionModel>, t: TransactionModel, accountNumber: int)
    ensures Involving(records + [t], accountNumber)
         == Involving(records, accountNumber) + (if References(t, accountNumber) then [t] else [])
  {
    if records != [] {
      assert (records + [t])[1..] == records[1..] + [t];
      InvolvingAppend(records[1..], t, accountNumber);
    } else {
      assert records + [t] == [t];
    }
  }

  /** Customer id -> customer. Only read by the services. */
  class CustomerRepository {
    var customers: map<int, CustomerModel>

    constructor (customers: map<int, CustomerModel>)
      ensures this.customers == customers
    {
      this.customers := customers;
    }

    function GetById(id: int): Option<CustomerModel>
      reads this
    {
      if id in customers then Some(customers[id]) else None
    }
  }
}
