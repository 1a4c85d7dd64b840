/**
 * The records the bookkeeping UI exchanges with its backend (src/types.ts),
 * and the shapes of the backend's replies, which every handler of the
 * components receives as a parameter.
 */
module Types {

  datatype Option<T> = None | Some(value: T)

  /** The `type` column of a transaction: "debit" | "credit". */
  datatype TxType = Debit | Credit

  /** A row of the `accounts` table. */
  datatype Account = Account(
    id: string,
    name: string,
    accountNumber: string,
    description: Option<string>,
    createdAt: string)

  /** A row of the `transactions` table. */
  datatype Transaction = Transaction(
    id: string,
    accountId: string,
    amount: int,
    txType: TxType,
    description: Option<string>,
    transactionDate: string,
    createdAt: string)

  /** A row of the `account_balances` view; `balance` is computed by the backend. */
  datatype AccountBalance = AccountBalance(
    id: string,
    name: string,
    description: Option<string>,
    balance: int,
    accountNumber: string)

  /** The identity projection of an account handed to the ledger. */
  datatype AccountRef = AccountRef(id: string, name: string, accountNumber: string)

  /** The record inserted into `transactions`, by the ledger and by bulk entry. */
  datatype TransactionInsert = TransactionInsert(
    accountId: string,
    amount: int,
    txType: TxType,
    description: string,
    transactionDate: string)

  /** The record inserted into `accounts` by the account form. */
  datatype AccountInsert = AccountInsert(name: string, accountNumber: string)

  /**
   * The reply to a `select`: rows (possibly none), a null `data` with no
   * error, or an error.
   */
  datatype Fetched<T> = Data(rows: seq<T>) | NullData | FetchError(message: string)

  /** The reply to an `insert` or a `delete`: only its `error` is looked at. */
  datatype WriteResult = Written | WriteError(message: string)

  /** An `AccountBalance` seen through the `AccountRef` type the ledger expects. */
  function RefOf(a: AccountBalance): AccountRef
  {
    AccountRef(a.id, a.name, a.accountNumber)
  }
}
