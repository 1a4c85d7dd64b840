# Accounting app: a Dafny model of its three components

The application is a small bookkeeping UI. It lists accounts with balances computed by the
backend, shows and edits the ledger of one account, and enters several transactions at once.
Storage, filtering, ordering and the balance aggregation all happen in the hosted backend.
What the code itself decides is how each component's state changes in response to the user
and to the backend's replies. That is what this project models.

Each component is a class whose fields are its state cells. The one exception is the
ledger's `account` field, which holds the `account` prop that the directory passes down,
not a state cell of the ledger. Each handler is a method. The
backend's reply to a call is a parameter of the handler (`Fetched<T>`: rows, null data or an
error; `WriteResult`: written or an error). What the handler hands to the backend is an
out-parameter (`issued`). Whether the parent's `onTransactionAdded` fired is the
out-parameter `notified`.

- `types.dfy` (module `Types`): the records of `src/types.ts`, the insert records and the
  reply shapes. A transaction `type` is the enum `TxType = Debit | Credit`.
- `bulk.dfy` (module `Bulk`, `src/components/BulkTransactions.tsx`): the draft rows
  (`MultiTx`, amount `None` for the empty input), field update, append, remove, the insert
  payload and the submit handler. The payload is characterised independently of its
  definition. `Kept(rows)` gives the positions of the rows it keeps. The lemmas prove that
  those positions ascend, that the payload copies exactly those rows, and that no
  submittable row is missed.
- `ledger.dfy` (module `Ledger`, `src/components/Transactions.tsx`): the ledger of one
  account: fetch, the add form and its partial reset, and delete behind a confirmation.
- `directory.dfy` (module `Directory`, `src/components/Accounts.tsx`): the balance list,
  the selection, the new-account form, `refreshBalances` with its re-resolution of the
  selection by id, and the wiring that binds the children's `onTransactionAdded` to
  `refreshBalances`.

Where the documented intent and the code differ, the model follows the code:

- When the ledger's account changes, the old transaction list is not discarded. It stays
  until a fetch returns data (`Ledger.Transactions.ReceiveAccount`).
- The ledger's add does not look at the insert's result. The form is reset and the parent
  notified even when the insert fails (`Ledger.Transactions.AddTransaction`).
- After a successful bulk submit, the single remaining row is not blank. It carries the
  first known account's id (`Bulk.BulkTransactions.SaveMultiTransactions`).
- A reply whose data is an empty list counts as data. `refreshBalances` and the bulk
  account fetch then store the empty list.

## Model

| member | source | states |
|---|---|---|
| `Bulk.DefaultRow` | src/components/BulkTransactions.tsx:21-27 | `emptyTx` with the given account id: dated today, debit, no amount, empty description, and so never submittable |
| `Bulk.FirstAccountId` | src/components/BulkTransactions.tsx:59 | the first-account fallback: `""` for no accounts, the first account's id otherwise, never an id absent from the list |
| `Bulk.Submittable` | src/components/BulkTransactions.tsx:68 | a row passes the filter exactly when its amount field is not `""` and its account field is not empty |
| `Bulk.ToInsert` | src/components/BulkTransactions.tsx:69-75 | the inserted record copies account, amount, type, description and date from the row |
| `Bulk.FilterOutIndex` | src/components/BulkTransactions.tsx:63 | filtering by index drops one element when the index is in range and none otherwise, and keeps only elements of the list |
| `Bulk.WithField` | src/components/BulkTransactions.tsx:52-56 | the named field of the row takes the given value; every other field keeps its value |
| `Bulk.Payload` | src/components/BulkTransactions.tsx:67-75 | the payload has no more records than there are rows |
| `Bulk.KeptFromMatchesPayload` | src/components/BulkTransactions.tsx:67-75 | each kept position names a submittable row; the payload record at the same index is that row's five fields |
| `Bulk.KeptFromAscends` | src/components/BulkTransactions.tsx:67-75 | the kept positions strictly ascend, so the payload keeps the rows' order |
| `Bulk.KeptFromComplete` | src/components/BulkTransactions.tsx:68 | every row with an amount and a non-empty account is kept |
| `Bulk.PayloadSelectsSubmittable` | src/components/BulkTransactions.tsx:67-75 | the payload is exactly the rows with an amount and an account, in their original order, copied field for field |
| `Bulk.PayloadEmptyIff` | src/components/BulkTransactions.tsx:67-77 | the payload is empty, so nothing is inserted, exactly when no row has both an amount and an account |
| `Bulk.PayloadAppend` | src/components/BulkTransactions.tsx:67-75 | the payload of two row lists joined is the two payloads joined |
| `Bulk.AddRowKeepsPayload` | src/components/BulkTransactions.tsx:58-60 | appending a default row (no amount) does not change the payload |
| `Bulk.FilterOutIndexRemovesOne` | src/components/BulkTransactions.tsx:62-64 | filtering out an index removes exactly that position when it is in range and nothing otherwise |
| `Bulk.BulkTransactions.constructor` | src/components/BulkTransactions.tsx:18-29 | initially no accounts and exactly one row: no account, dated today, debit, no amount, empty description |
| `Bulk.BulkTransactions.FetchAccounts` | src/components/BulkTransactions.tsx:31-46 | on data, the list is stored and the rows become one default row for the first account (or `""`); otherwise nothing changes |
| `Bulk.BulkTransactions.UpdateTx` | src/components/BulkTransactions.tsx:52-56 | field `k` of row `i` becomes `v`; the row's other fields, the other rows and the length are unchanged |
| `Bulk.BulkTransactions.AddRow` | src/components/BulkTransactions.tsx:58-60 | exactly one default row for the first account (or `""`) is appended after the unchanged rows; the payload is unchanged |
| `Bulk.BulkTransactions.RemoveRow` | src/components/BulkTransactions.tsx:62-64 | an in-range index removes that row only, the length drops by one and order is kept; any other index changes nothing |
| `Bulk.BulkTransactions.SaveMultiTransactions` | src/components/BulkTransactions.tsx:66-87 | an insert is issued exactly when some row is submittable, and it carries the payload; on failure the rows stay and nothing is notified; on success one default row remains and the parent is notified once |
| `Ledger.ListAfterFetch` | src/components/Transactions.tsx:31-33 | the list is replaced by the rows on a reply with data and kept otherwise |
| `Ledger.FormRecord` | src/components/Transactions.tsx:39-47 | no record without an amount; otherwise the record carries the account's id and the form's amount, type, description and date |
| `Ledger.Transactions.constructor` | src/components/Transactions.tsx:12-17 | initially no transactions, no amount, debit, empty description, dated today |
| `Ledger.Transactions.FetchTransactions` | src/components/Transactions.tsx:24-34 | the list changes only on a reply with data, to exactly those rows |
| `Ledger.Transactions.ReceiveAccount` | src/components/Transactions.tsx:20-22 | a new account prop is stored; the list is re-fetched only when the id differs |
| `Ledger.Transactions.SetAmount` | src/components/Transactions.tsx:88 | typing an amount sets it |
| `Ledger.Transactions.SetType` | src/components/Transactions.tsx:94 | choosing a type sets it |
| `Ledger.Transactions.SetDescription` | src/components/Transactions.tsx:103 | typing a description sets it |
| `Ledger.Transactions.SetTransactionDate` | src/components/Transactions.tsx:109 | choosing a date sets it |
| `Ledger.Transactions.AddTransaction` | src/components/Transactions.tsx:36-54 | without an amount nothing is inserted, reset or notified; otherwise the form's record is inserted, amount and description are cleared, type and date are kept, the list is re-fetched and the parent is notified whatever the insert returned |
| `Ledger.Transactions.DeleteTransaction` | src/components/Transactions.tsx:56-75 | a delete is issued only when confirmed; when unconfirmed or failed the list is unchanged and nothing is notified; on success the list is re-fetched and the parent is notified once |
| `Directory.FindById` | src/components/Accounts.tsx:66 | the result is the first row with the id, and there is none exactly when no row has that id |
| `Directory.Reselect` | src/components/Accounts.tsx:64-68 | a selection is never created or dropped and never changes id; it becomes the matching row when one exists and is kept as it was when none does |
| `Directory.ListAfterFetch` | src/components/Accounts.tsx:25-30 | the list is kept on an error, emptied on null data and replaced by the rows otherwise |
| `Directory.Accounts.constructor` | src/components/Accounts.tsx:8-13 | initially no accounts, no selection, the form closed and both fields empty |
| `Directory.Accounts.FetchAccounts` | src/components/Accounts.tsx:20-31 | the list follows the reply as `ListAfterFetch` says; nothing else changes |
| `Directory.Accounts.AddAccount` | src/components/Accounts.tsx:33-53 | nothing is inserted when the name or the number is empty; the insert carries exactly the form's name and number; a failure changes nothing; a success clears both fields, closes the form and refreshes the list |
| `Directory.Accounts.RefreshBalances` | src/components/Accounts.tsx:56-70 | on data the list is replaced and the selection re-resolved by id; on an error or null data nothing changes; the selection never changes id |
| `Directory.Accounts.SelectAccount` | src/components/Accounts.tsx:117 | clicking an account selects it |
| `Directory.Accounts.ToggleAddAccount` | src/components/Accounts.tsx:80 | the add button flips the form open or closed |
| `Directory.Accounts.CancelAddAccount` | src/components/Accounts.tsx:105 | cancel closes the form |
| `Directory.Accounts.SetNewAccountName` | src/components/Accounts.tsx:90 | typing a name sets it |
| `Directory.Accounts.SetNewAccountNumber` | src/components/Accounts.tsx:97 | typing a number sets it |
| `Directory.Accounts.AddInLedger` | src/components/Accounts.tsx:150-154 | for the ledger of the selection: the inserted record is the selected account's id with the form's fields; amount and description reset and the ledger re-fetches exactly when a record was inserted; type and date stay; the balances are then refreshed and the selection re-resolved by `Reselect`, keeping its id |
| `Directory.Accounts.DeleteInLedger` | src/components/Accounts.tsx:150-154 | for the ledger of the selection: a delete is issued only when confirmed; a confirmed, successful delete re-fetches the ledger, refreshes the balances and re-resolves the selection; anything else changes neither |
| `Directory.Accounts.SaveInBulk` | src/components/Accounts.tsx:161 | the insert, issued exactly when some row is submittable, carries the payload; a successful insert reseeds one default row, refreshes the balances and re-resolves the selection; anything else changes neither |

## Left out

- Backend calls (`select`, `insert`, `delete`, `eq`, `order`) are not modelled. The fetch
  replies and write results are parameters, and what is sent is returned as `issued`. The
  filter by `account_id` and the descending date order of the ledger's fetch happen in the
  backend, so no property is stated about them.
- Balances are computed by the backend's `account_balances` view. Nothing here sums
  transactions, and no balance property is stated.
- Rendering is left out: markup, styling, the colour by sign and the two-decimal formatting
  of amounts and balances.
- React scheduling is left out. Effects become explicit calls: the mount fetches follow the
  constructor, and `ReceiveAccount` stands for the account-id effect. Handlers are
  sequential. A fetch that a handler starts without awaiting (`fetchAccounts` after an
  account insert, `fetchTransactions` after a ledger mutation) is modelled as completing
  before the handler returns. Interleavings and races between overlapping fetches are not
  modelled.
- `Bulk.BulkTransactions.UpdateTx` does not model aliasing. The source mutates the row
  object it shares with the previous state; the model treats this as a plain field update.
  It requires an in-range index because the source's `copy[index][key]` throws on any other
  index.
- Browser inputs are parameters: `window.confirm` is `confirmed`, and today's date is
  `today`. Amount conversion is not modelled: `Number(e.target.value)` arrives as an
  integer, and NaN or fractional amounts are not represented. No arithmetic is done on
  amounts.
- Logging to the console and `preventDefault` on form submission have no effect on state
  and are left out.
- The `Account` record of `src/types.ts` is declared in `Types` but is not used by any
  component.
- The bulk component's account list is fetched only at mount. An account created later in
  the directory does not reach it; the model keeps this behaviour.
