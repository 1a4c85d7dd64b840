/**
 * The account directory (src/components/Accounts.tsx): the balance list,
 * the current selection, the new-account form, and the wiring that makes
 * every completed mutation in the ledger or in bulk entry refresh the
 * balances.
 */
module Directory {
  import opened Types
  import Ledger
  import Bulk

  /** `rows.find(a => a.id === id)`: the first row carrying that id. */
  function FindById(rows: seq<AccountBalance>, id: string): (r: Option<AccountBalance>)
    ensures r.None? <==> forall a :: a in rows ==> a.id != id
    ensures r.Some? ==> r.value.id == id
    ensures r.Some? ==>
      exists k :: 0 <= k < |rows| && rows[k] == r.value && forall j :: 0 <= j < k ==> rows[j].id != id
    decreases |rows|
  {
    if rows == [] then None
    else if rows[0].id == id then Some(rows[0])
    else
      var r := FindById(rows[1..], id);
      assert r.Some? ==>
        exists k :: 1 <= k < |rows| && rows[k] == r.value && forall j :: 0 <= j < k ==> rows[j].id != id
      by {
        if r.Some? {
          var k :| 0 <= k < |rows[1..]| && rows[1..][k] == r.value &&
            forall j :: 0 <= j < k ==> rows[1..][j].id != id;
          assert rows[k + 1] == r.value;
          forall j | 0 <= j < k + 1
            ensures rows[j].id != id
          {
            if j > 0 {
              assert rows[j] == rows[1..][j - 1];
            }
          }
        }
      }
      assert r.None? ==> forall a :: a in rows ==> a.id != id by {
        if r.None? {
          forall a | a in rows
            ensures a.id != id
          {
            if a != rows[0] {
              assert a in rows[1..];
            }
          }
        }
      }
      r
  }

  /**
   * The selection after a refresh with `rows`: the row with the selected id
   * when there is one, the old selection otherwise. The selection never
   * appears, never disappears and never moves to another id.
   */
  function Reselect(selected: Option<AccountBalance>, rows: seq<AccountBalance>): (r: Option<AccountBalance>)
    ensures r.None? <==> selected.None?
    ensures r.Some? ==> r.value.id == selected.value.id
    ensures selected.Some? && (exists a :: a in rows && a.id == selected.value.id) ==>
      r.value in rows
    ensures selected.Some? && (forall a :: a in rows ==> a.id != selected.value.id) ==>
      r == selected
  {
    match selected
    case None => None
    case Some(s) =>
      match FindById(rows, s.id)
      case Some(updated) => Some(updated)
      case None => selected
  }

  /** The balance list after `fetchAccounts`: kept on error, emptied on null data. */
  function ListAfterFetch(previous: seq<AccountBalance>, reply: Fetched<AccountBalance>)
    : (r: seq<AccountBalance>)
    ensures reply.FetchError? ==> r == previous
    ensures reply.NullData? ==> r == []
    ensures reply.Data? ==> r == reply.rows
  {
    match reply
    case Data(rows) => rows
    case NullData => []
    case FetchError(_) => previous
  }

  /** The state of the directory component. */
  class Accounts {
    var accounts: seq<AccountBalance>
    var selectedAccount: Option<AccountBalance>
    var showAddAccount: bool
    var newAccountName: string
    var newAccountNumber: string

    constructor ()
      ensures accounts == [] && selectedAccount == None && !showAddAccount
      ensures newAccountName == "" && newAccountNumber == ""
    {
      accounts := [];
      selectedAccount := None;
      showAddAccount := false;
      newAccountName := "";
      newAccountNumber := "";
    }

    /** Stale-tolerant list refresh; the selection is not touched. */
    method FetchAccounts(reply: Fetched<AccountBalance>)
      modifies this`accounts
      ensures accounts == ListAfterFetch(old(accounts), reply)
    {
      if reply.FetchError? {
        return;
      }
      accounts := if reply.Data? then reply.rows else [];
    }

    /**
     * Submits the new-account form. With an empty name or number nothing
     * happens. Otherwise the form's name and number are inserted; a failed
     * insert keeps the form as it is, a successful one clears and closes it
     * and refreshes the list with `refreshed`.
     */
    method AddAccount(inserted: WriteResult, refreshed: Fetched<AccountBalance>)
      returns (issued: Option<AccountInsert>)
      modifies this`accounts, this`showAddAccount, this`newAccountName, this`newAccountNumber
      ensures issued.None? <==> old(newAccountName) == "" || old(newAccountNumber) == ""
      ensures issued.Some? ==> issued.value == AccountInsert(old(newAccountName), old(newAccountNumber))
      ensures issued.Some? && inserted.Written? ==>
        newAccountName == "" && newAccountNumber == "" && !showAddAccount &&
        accounts == ListAfterFetch(old(accounts), refreshed)
      ensures issued.None? || inserted.WriteError? ==>
        newAccountName == old(newAccountName) && newAccountNumber == old(newAccountNumber) &&
        showAddAccount == old(showAddAccount) && accounts == old(accounts)
    {
      if newAccountName == "" || newAccountNumber == "" {
        return None;
      }
      issued := Some(AccountInsert(newAccountName, newAccountNumber));
      if inserted.WriteError? {
        return;
      }
      newAccountName := "";
      newAccountNumber := "";
      showAddAccount := false;
      FetchAccounts(refreshed);
    }

    /**
     * The balance refresh every mutation triggers. On data, the list is
     * replaced and a selection is re-resolved by id; on an error or null
     * data nothing changes.
     */
    method RefreshBalances(reply: Fetched<AccountBalance>)
      modifies this`accounts, this`selectedAccount
      ensures accounts == if reply.Data? then reply.rows else old(accounts)
      ensures selectedAccount ==
        if reply.Data? then Reselect(old(selectedAccount), reply.rows) else old(selectedAccount)
      ensures selectedAccount.None? <==> old(selectedAccount).None?
      ensures selectedAccount.Some? ==> selectedAccount.value.id == old(selectedAccount).value.id
    {
      if reply.Data? {
        var data := reply.rows;
        accounts := data;
        if selectedAccount.Some? {
          var updated := FindById(data, selectedAccount.value.id);
          if updated.Some? {
            selectedAccount := updated;
          }
        }
      }
    }

    /** A click on an account row; the selection is not validated. */
    method SelectAccount(account: AccountBalance)
      modifies this`selectedAccount
      ensures selectedAccount == Some(account)
    {
      selectedAccount := Some(account);
    }

    /** The "Add Account" button flips the form open or closed. */
    method ToggleAddAccount()
      modifies this`showAddAccount
      ensures showAddAccount == !old(showAddAccount)
    {
      showAddAccount := !showAddAccount;
    }

    /** The form's Cancel button closes it and keeps what was typed. */
    method CancelAddAccount()
      modifies this`showAddAccount
      ensures !showAddAccount
    {
      showAddAccount := false;
    }

    method SetNewAccountName(value: string)
      modifies this`newAccountName
      ensures newAccountName == value
    {
      newAccountName := value;
    }

    method SetNewAccountNumber(value: string)
      modifies this`newAccountNumber
      ensures newAccountNumber == value
    {
      newAccountNumber := value;
    }

    /**
     * An add in the ledger, which is rendered only for the selection
     * (`account={selectedAccount}`) and whose `onTransactionAdded` is bound
     * to `refreshBalances`. The ledger inserts a record for the selected
     * account, resets its form and re-fetches; a completed add then
     * refreshes the balances and re-resolves the selection.
     */
    method AddInLedger(ledger: Ledger.Transactions, refetched: Fetched<Transaction>,
                       refreshed: Fetched<AccountBalance>)
      returns (issued: Option<TransactionInsert>)
      requires selectedAccount.Some? && ledger.account == RefOf(selectedAccount.value)
      modifies ledger`transactions, ledger`amount, ledger`description
      modifies this`accounts, this`selectedAccount
      ensures issued == Ledger.FormRecord(old(selectedAccount).value.id, old(ledger.amount),
                                          ledger.txType, old(ledger.description), ledger.transactionDate)
      ensures ledger.txType == old(ledger.txType) && ledger.transactionDate == old(ledger.transactionDate)
      ensures issued.Some? ==>
        && ledger.amount == None && ledger.description == ""
        && ledger.transactions == Ledger.ListAfterFetch(old(ledger.transactions), refetched)
      ensures issued.None? ==>
        && ledger.amount == old(ledger.amount) && ledger.description == old(ledger.description)
        && ledger.transactions == old(ledger.transactions)
      ensures accounts == if issued.Some? && refreshed.Data? then refreshed.rows else old(accounts)
      ensures selectedAccount ==
        if issued.Some? && refreshed.Data? then Reselect(old(selectedAccount), refreshed.rows)
        else old(selectedAccount)
      ensures selectedAccount.Some? && selectedAccount.value.id == old(selectedAccount).value.id
    {
      var notified;
      issued, notified := ledger.AddTransaction(refetched);
      if notified {
        RefreshBalances(refreshed);
      }
    }

    /**
     * A delete in the ledger of the selection, wired the same way: a
     * confirmed, successful delete re-fetches the ledger, refreshes the
     * balances and re-resolves the selection; anything else changes nothing.
     */
    method DeleteInLedger(ledger: Ledger.Transactions, transactionId: string, confirmed: bool,
                          deleted: WriteResult, refetched: Fetched<Transaction>,
                          refreshed: Fetched<AccountBalance>)
      returns (issuedDelete: Option<string>)
      requires selectedAccount.Some? && ledger.account == RefOf(selectedAccount.value)
      modifies ledger`transactions, this`accounts, this`selectedAccount
      ensures issuedDelete == if confirmed then Some(transactionId) else None
      ensures ledger.transactions ==
        if confirmed && deleted.Written? then Ledger.ListAfterFetch(old(ledger.transactions), refetched)
        else old(ledger.transactions)
      ensures accounts ==
        if confirmed && deleted.Written? && refreshed.Data? then refreshed.rows else old(accounts)
      ensures selectedAccount ==
        if confirmed && deleted.Written? && refreshed.Data? then Reselect(old(selectedAccount), refreshed.rows)
        else old(selectedAccount)
      ensures selectedAccount.Some? && selectedAccount.value.id == old(selectedAccount).value.id
    {
      var notified;
      issuedDelete, notified := ledger.DeleteTransaction(transactionId, confirmed, deleted, refetched);
      if notified {
        RefreshBalances(refreshed);
      }
    }

    /**
     * A bulk submit, wired the same way: the payload is inserted if there is
     * one; a successful insert reseeds the drafts, refreshes the balances
     * and re-resolves the selection; anything else changes nothing.
     */
    method SaveInBulk(bulk: Bulk.BulkTransactions, inserted: WriteResult, today: string,
                      refreshed: Fetched<AccountBalance>)
      returns (issued: Option<seq<TransactionInsert>>)
      modifies bulk`multiTxs, this`accounts, this`selectedAccount
      ensures issued.Some? <==>
        exists i :: 0 <= i < |old(bulk.multiTxs)| && Bulk.Submittable(old(bulk.multiTxs)[i])
      ensures issued.Some? ==> issued.value == Bulk.Payload(old(bulk.multiTxs))
      ensures bulk.multiTxs ==
        if issued.Some? && inserted.Written? then [Bulk.DefaultRow(today, Bulk.FirstAccountId(bulk.accountsList))]
        else old(bulk.multiTxs)
      ensures accounts ==
        if issued.Some? && inserted.Written? && refreshed.Data? then refreshed.rows else old(accounts)
      ensures selectedAccount ==
        if issued.Some? && inserted.Written? && refreshed.Data? then Reselect(old(selectedAccount), refreshed.rows)
        else old(selectedAccount)
      ensures selectedAccount.None? <==> old(selectedAccount).None?
      ensures selectedAccount.Some? ==> selectedAccount.value.id == old(selectedAccount).value.id
    {
      var notified;
      issued, notified := bulk.SaveMultiTransactions(inserted, today);
      if notified {
        RefreshBalances(refreshed);
      }
    }
  }
}
