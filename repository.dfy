/**
 * com.bankledger.repository: the in-memory account store (a HashMap keyed by
 * account number) and the append-only transaction list.
 */
module Repository {
  import opened JavaString
  import opened Model

  /** What the validators see of the store: each stored number with its balance. */
  type Balances = map<string, real>

  class AccountRepository {
    /** The stored Account objects; the store holds references, not copies. */
    var accounts: map<string, Account>

    constructor ()
      ensures accounts == map[]
    {
      accounts := map[];
    }

    /** HashMap.put: insert, or replace the entry under the same number. */
    method Save(account: Account)
      modifies this
      ensures accounts == old(accounts)[account.accountNumber := account]
      ensures account.accountNumber in accounts && accounts[account.accountNumber] == account
      ensures forall k :: k in old(accounts) && k != account.accountNumber ==>
                k in accounts && accounts[k] == old(accounts)[k]
      ensures |accounts| == |old(accounts)| + if account.accountNumber in old(accounts) then 0 else 1
    {
      accounts := accounts[account.accountNumber := account];
    }

    /** HashMap.get: null for a number that was never saved (and for a null number). */
    method FindByAccountNumber(accountNumber: Option<string>) returns (account: Account?)
      ensures account != null <==> accountNumber.Some? && accountNumber.value in accounts
      ensures account != null ==> account == accounts[accountNumber.value]
    {
      if accountNumber.Some? && accountNumber.value in accounts {
        account := accounts[accountNumber.value];
      } else {
        account := null;
      }
    }

    /** The balance of every stored account, by number. */
    function Balances(): (b: Balances)
      reads this, accounts.Values
      ensures b.Keys == accounts.Keys
      ensures forall k :: k in accounts ==> b[k] == accounts[k].balance
    {
      map k | k in accounts :: accounts[k].balance
    }

    /** The amount field of every stored account, by number. */
    ghost function Amounts(): (a: map<string, real>)
      reads this, accounts.Values
    {
      map k | k in accounts :: accounts[k].amount
    }
  }

  class TransactionRepository {
    /** The saved transactions, oldest first. */
    var transactions: seq<Transaction>

    constructor ()
      ensures transactions == []
    {
      transactions := [];
    }

    /** ArrayList.add: append at the end; earlier entries keep their values and order. */
    method Save(transaction: Transaction)
      modifies this
      ensures transactions == old(transactions) + [transaction]
    {
      transactions := transactions + [transaction];
    }

    method FindAll() returns (all: seq<Transaction>)
      ensures all == transactions
    {
      all := transactions;
    }
  }
}
