/**
 * The single-account ledger (src/components/Transactions.tsx): the fetched
 * transactions of one account, the add form, and the delete action. Every
 * mutation it completes is reported to the parent through
 * `onTransactionAdded`, returned here as `notified`.
 */
module Ledger {
  import opened Types

  /** What the ledger shows after a `select`: the rows on success with data, the old list otherwise. */
  function ListAfterFetch(previous: seq<Transaction>, reply: Fetched<Transaction>): (r: seq<Transaction>)
    ensures reply.Data? ==> r == reply.rows
    ensures !reply.Data? ==> r == previous
  {
    match reply
    case Data(rows) => rows
    case _ => previous
  }

  /** The record the add form inserts, if the amount is set. */
  function FormRecord(accountId: string, amount: Option<int>, txType: TxType, description: string, date: string)
    : (r: Option<TransactionInsert>)
    ensures r.None? <==> amount.None?
    ensures r.Some? ==>
      && r.value.accountId == accountId && r.value.amount == amount.value
      && r.value.txType == txType && r.value.description == description
      && r.value.transactionDate == date
  {
    match amount
    case None => None
    case Some(a) => Some(TransactionInsert(accountId, a, txType, description, date))
  }

  /** The state of one mounted ledger. */
  class Transactions {
    var account: AccountRef
    var transactions: seq<Transaction>
    var amount: Option<int>
    var txType: TxType
    var description: string
    var transactionDate: string

    /** First render: nothing fetched, an empty form dated `today`, a debit by default. */
    constructor (account: AccountRef, today: string)
      ensures this.account == account && transactions == []
      ensures amount == None && txType == Debit && description == "" && transactionDate == today
    {
      this.account := account;
      transactions := [];
      amount := None;
      txType := Debit;
      description := "";
      transactionDate := today;
    }

    /** The backend filters by account and orders by date; the list is replaced only on data. */
    method FetchTransactions(reply: Fetched<Transaction>)
      modifies this`transactions
      ensures transactions == ListAfterFetch(old(transactions), reply)
    {
      if reply.Data? {
        transactions := reply.rows;
      }
    }

    /**
     * A new `account` prop. The fetch effect is keyed by `account.id`, so
     * it runs only when the id differs; the old list stays until it succeeds.
     */
    method ReceiveAccount(next: AccountRef, reply: Fetched<Transaction>)
      modifies this`account, this`transactions
      ensures account == next
      ensures transactions ==
        if next.id != old(account).id then ListAfterFetch(old(transactions), reply)
        else old(transactions)
    {
      var changed := next.id != account.id;
      account := next;
      if changed {
        FetchTransactions(reply);
      }
    }

    method SetAmount(value: int)
      modifies this`amount
      ensures amount == Some(value)
    {
      amount := Some(value);
    }

    method SetType(value: TxType)
      modifies this`txType
      ensures txType == value
    {
      txType := value;
    }

    method SetDescription(value: string)
      modifies this`description
      ensures description == value
    {
      description := value;
    }

    method SetTransactionDate(value: string)
      modifies this`transactionDate
      ensures transactionDate == value
    {
      transactionDate := value;
    }

    /**
     * Submits the form. With no amount nothing happens. Otherwise one
     * record is inserted and, whatever the backend answers, amount and
     * description are cleared (type and date are kept), the list is
     * re-fetched and the parent is notified.
     */
    method AddTransaction(refetched: Fetched<Transaction>)
      returns (issued: Option<TransactionInsert>, notified: bool)
      modifies this`transactions, this`amount, this`description
      ensures issued == FormRecord(account.id, old(amount), txType, old(description), transactionDate)
      ensures notified <==> old(amount).Some?
      ensures txType == old(txType) && transactionDate == old(transactionDate)
      ensures notified ==>
        && amount == None && description == ""
        && transactions == ListAfterFetch(old(transactions), refetched)
      ensures !notified ==>
        && amount == old(amount) && description == old(description)
        && transactions == old(transactions)
    {
      if amount.None? {
        return None, false;
      }
      issued := Some(TransactionInsert(account.id, amount.value, txType, description, transactionDate));
      amount := None;
      description := "";
      FetchTransactions(refetched);
      notified := true;
    }

    /**
     * Deletes one transaction after confirmation. `issuedDelete` is the id
     * handed to the backend, `deleted` its reply. Without confirmation or on
     * a failed delete nothing changes and the parent is not notified; on
     * success the list is re-fetched and the parent notified once.
     */
    method DeleteTransaction(transactionId: string, confirmed: bool, deleted: WriteResult,
                             refetched: Fetched<Transaction>)
      returns (issuedDelete: Option<string>, notified: bool)
      modifies this`transactions
      ensures issuedDelete == if confirmed then Some(transactionId) else None
      ensures notified <==> confirmed && deleted.Written?
      ensures transactions ==
        if notified then ListAfterFetch(old(transactions), refetched) else old(transactions)
    {
      if !confirmed {
        return None, false;
      }
      issuedDelete := Some(transactionId);
      if deleted.WriteError? {
        return issuedDelete, false;
      }
      FetchTransactions(refetched);
      notified := true;
    }
  }
}
