/**
 * Bulk entry (src/components/BulkTransactions.tsx): an ordered list of draft
 * transaction rows that is edited row by row and submitted as one insert.
 */
module Bulk {
  import opened Types

  /** One draft row; an `amount` of `None` is the empty input `""`. */
  datatype MultiTx = MultiTx(
    accountId: string,
    transactionDate: string,
    txType: TxType,
    amount: Option<int>,
    description: string)

  /** The names of the fields of a draft row (`keyof MultiTx`). */
  datatype Key = AccountIdKey | TransactionDateKey | TypeKey | AmountKey | DescriptionKey

  /** A field name together with a value of that field's type (`key` and `value: MultiTx[K]`). */
  datatype FieldValue =
    | AccountIdField(accountId: string)
    | TransactionDateField(transactionDate: string)
    | TypeField(txType: TxType)
    | AmountField(amount: Option<int>)
    | DescriptionField(description: string)

  function KeyOf(v: FieldValue): Key
  {
    match v
    case AccountIdField(_) => AccountIdKey
    case TransactionDateField(_) => TransactionDateKey
    case TypeField(_) => TypeKey
    case AmountField(_) => AmountKey
    case DescriptionField(_) => DescriptionKey
  }

  /** Reads field `k` of a draft row: `tx[k]`. */
  function Get(tx: MultiTx, k: Key): FieldValue
  {
    match k
    case AccountIdKey => AccountIdField(tx.accountId)
    case TransactionDateKey => TransactionDateField(tx.transactionDate)
    case TypeKey => TypeField(tx.txType)
    case AmountKey => AmountField(tx.amount)
    case DescriptionKey => DescriptionField(tx.description)
  }

  /** The assignment `tx[key] = value`: the named field takes the value, the others keep theirs. */
  function WithField(tx: MultiTx, v: FieldValue): (r: MultiTx)
    ensures Get(r, KeyOf(v)) == v
    ensures forall k :: k != KeyOf(v) ==> Get(r, k) == Get(tx, k)
  {
    match v
    case AccountIdField(a) => tx.(accountId := a)
    case TransactionDateField(d) => tx.(transactionDate := d)
    case TypeField(t) => tx.(txType := t)
    case AmountField(m) => tx.(amount := m)
    case DescriptionField(s) => tx.(description := s)
  }

  /**
   * `emptyTx` with its `account_id` replaced: dated today, a debit, no
   * amount, no description. Until an amount is typed it is never submitted.
   */
  function DefaultRow(today: string, accountId: string): (r: MultiTx)
    ensures r.accountId == accountId && r.transactionDate == today
    ensures r.txType == Debit && r.amount == None && r.description == ""
    ensures !Submittable(r)
  {
    MultiTx(accountId, today, Debit, None, "")
  }

  /** `accountsList[0]?.id || ""`: the first account's id, or no account at all. */
  function FirstAccountId(accounts: seq<AccountBalance>): (r: string)
    ensures accounts == [] ==> r == ""
    ensures accounts != [] ==> r == accounts[0].id
    ensures r != "" ==> exists a :: a in accounts && a.id == r
  {
    if accounts == [] then "" else accounts[0].id
  }

  /** The filter of the submit handler: `tx.amount !== ""` and a non-empty `tx.account_id`. */
  predicate Submittable(tx: MultiTx)
    ensures Submittable(tx) <==>
      Get(tx, AmountKey) != AmountField(None) && Get(tx, AccountIdKey) != AccountIdField("")
  {
    tx.amount.Some? && tx.accountId != ""
  }

  /** The map of the submit handler: the inserted record copies the five fields. */
  function ToInsert(tx: MultiTx): (r: TransactionInsert)
    requires Submittable(tx)
    ensures Some(r.amount) == tx.amount
    ensures r.accountId == tx.accountId && r.txType == tx.txType
    ensures r.description == tx.description && r.transactionDate == tx.transactionDate
  {
    TransactionInsert(tx.accountId, tx.amount.value, tx.txType, tx.description, tx.transactionDate)
  }

  /** The insert payload: the submittable rows, in order, each mapped to its record. */
  function Payload(rows: seq<MultiTx>): (r: seq<TransactionInsert>)
    ensures |r| <= |rows|
    decreases |rows|
  {
    if rows == [] then []
    else if Submittable(rows[0]) then [ToInsert(rows[0])] + Payload(rows[1..])
    else Payload(rows[1..])
  }

  /** The ascending positions, counted from `base`, of the submittable rows. */
  ghost function KeptFrom(rows: seq<MultiTx>, base: nat): seq<nat>
    decreases |rows|
  {
    if rows == [] then []
    else if Submittable(rows[0]) then [base] + KeptFrom(rows[1..], base + 1)
    else KeptFrom(rows[1..], base + 1)
  }

  /** The positions of the rows the payload keeps. */
  ghost function Kept(rows: seq<MultiTx>): seq<nat>
  {
    KeptFrom(rows, 0)
  }

  /** Each kept position names a submittable row, whose record stands at the same place in the payload. */
  lemma {:induction false} KeptFromMatchesPayload(rows: seq<MultiTx>, base: nat)
    ensures |KeptFrom(rows, base)| == |Payload(rows)|
    ensures forall k :: 0 <= k < |KeptFrom(rows, base)| ==>
      var i := KeptFrom(rows, base)[k] - base;
      0 <= i < |rows| && Submittable(rows[i]) && Payload(rows)[k] == ToInsert(rows[i])
    decreases |rows|
  {
    if rows != [] {
      var tail := rows[1..];
      KeptFromMatchesPayload(tail, base + 1);
      var idx, rest := KeptFrom(rows, base), KeptFrom(tail, base + 1);
      var p, prest := Payload(rows), Payload(tail);
      if Submittable(rows[0]) {
        assert idx == [base] + rest && p == [ToInsert(rows[0])] + prest;
        forall k | 1 <= k < |idx|
          ensures 0 <= idx[k] - base < |rows| && Submittable(rows[idx[k] - base])
          ensures p[k] == ToInsert(rows[idx[k] - base])
        {
          assert idx[k] == rest[k - 1] && p[k] == prest[k - 1];
          assert rows[idx[k] - base] == tail[rest[k - 1] - (base + 1)];
        }
      } else {
        assert idx == rest && p == prest;
        forall k | 0 <= k < |idx|
          ensures 0 <= idx[k] - base < |rows| && Submittable(rows[idx[k] - base])
          ensures p[k] == ToInsert(rows[idx[k] - base])
        {
          assert rows[idx[k] - base] == tail[rest[k] - (base + 1)];
        }
      }
    }
  }

  /** The kept positions ascend strictly and start no lower than `base`. */
  lemma {:induction false} KeptFromAscends(rows: seq<MultiTx>, base: nat)
    ensures forall k :: 0 <= k < |KeptFrom(rows, base)| ==> base <= KeptFrom(rows, base)[k]
    ensures forall k, l :: 0 <= k < l < |KeptFrom(rows, base)| ==>
      KeptFrom(rows, base)[k] < KeptFrom(rows, base)[l]
    decreases |rows|
  {
    if rows != [] {
      KeptFromAscends(rows[1..], base + 1);
      var idx, rest := KeptFrom(rows, base), KeptFrom(rows[1..], base + 1);
      if Submittable(rows[0]) {
        assert idx == [base] + rest;
        forall k, l | 0 <= k < l < |idx|
          ensures idx[k] < idx[l]
        {
          assert idx[l] == rest[l - 1];
          if k >= 1 {
            assert idx[k] == rest[k - 1];
          }
        }
      } else {
        assert idx == rest;
      }
    }
  }

  /** Every submittable row is kept. */
  lemma {:induction false} KeptFromComplete(rows: seq<MultiTx>, base: nat)
    ensures forall i :: 0 <= i < |rows| && Submittable(rows[i]) ==> base + i in KeptFrom(rows, base)
    decreases |rows|
  {
    if rows != [] {
      var tail := rows[1..];
      KeptFromComplete(tail, base + 1);
      forall i | 0 <= i < |rows| && Submittable(rows[i])
        ensures base + i in KeptFrom(rows, base)
      {
        if i > 0 {
          assert tail[i - 1] == rows[i];
          assert base + 1 + (i - 1) in KeptFrom(tail, base + 1);
        }
      }
    }
  }

  /**
   * The payload is exactly the submittable rows, in their original order,
   * copied field for field: position `k` of the payload is the record of row
   * `Kept(rows)[k]`, those positions ascend, and every submittable row is
   * among them.
   */
  lemma {:induction false} PayloadSelectsSubmittable(rows: seq<MultiTx>)
    ensures var p, idx := Payload(rows), Kept(rows);
      && |idx| == |p|
      && (forall k :: 0 <= k < |idx| ==>
            idx[k] < |rows| && Submittable(rows[idx[k]]) && p[k] == ToInsert(rows[idx[k]]))
      && (forall k, l :: 0 <= k < l < |idx| ==> idx[k] < idx[l])
      && (forall i :: 0 <= i < |rows| && Submittable(rows[i]) ==> i in idx)
  {
    KeptFromMatchesPayload(rows, 0);
    KeptFromAscends(rows, 0);
    KeptFromComplete(rows, 0);
  }

  /** The submit handler issues no insert exactly when no row is submittable. */
  lemma {:induction false} PayloadEmptyIff(rows: seq<MultiTx>)
    ensures Payload(rows) == [] <==> forall i :: 0 <= i < |rows| ==> !Submittable(rows[i])
  {
    PayloadSelectsSubmittable(rows);
    if Payload(rows) != [] {
      assert Submittable(rows[Kept(rows)[0]]);
    }
  }

  /** Filtering and mapping distribute over concatenation. */
  lemma {:induction false} PayloadAppend(a: seq<MultiTx>, b: seq<MultiTx>)
    ensures Payload(a + b) == Payload(a) + Payload(b)
    decreases |a|
  {
    if a == [] {
      assert a + b == b;
    } else {
      assert (a + b)[0] == a[0];
      assert (a + b)[1..] == a[1..] + b;
      PayloadAppend(a[1..], b);
    }
  }

  /** A freshly appended row, having no amount, never changes what would be submitted. */
  lemma {:induction false} AddRowKeepsPayload(rows: seq<MultiTx>, today: string, accountId: string)
    ensures Payload(rows + [DefaultRow(today, accountId)]) == Payload(rows)
  {
    PayloadAppend(rows, [DefaultRow(today, accountId)]);
    assert Payload([DefaultRow(today, accountId)]) == [];
  }

  /** `rows.filter((_, i) => i !== index)`, the index of `rows[0]` being `start`. */
  function FilterOutIndex<T>(rows: seq<T>, index: int, start: int): (r: seq<T>)
    ensures |r| == if start <= index < start + |rows| then |rows| - 1 else |rows|
    ensures forall x :: x in r ==> x in rows
    decreases |rows|
  {
    if rows == [] then []
    else (if start == index then [] else [rows[0]]) + FilterOutIndex(rows[1..], index, start + 1)
  }

  /**
   * Filtering out one index removes exactly that position when it is in
   * range, and nothing otherwise.
   */
  lemma {:induction false} FilterOutIndexRemovesOne<T>(rows: seq<T>, index: int, start: int)
    ensures FilterOutIndex(rows, index, start) ==
      if start <= index < start + |rows| then rows[..index - start] + rows[index - start + 1..]
      else rows
    decreases |rows|
  {
    if rows != [] {
      FilterOutIndexRemovesOne(rows[1..], index, start + 1);
      if start < index < start + |rows| {
        assert rows[..index - start] == [rows[0]] + rows[1..][..index - start - 1];
        assert rows[index - start + 1..] == rows[1..][index - start..];
      } else if !(start <= index < start + |rows|) {
        assert rows == [rows[0]] + rows[1..];
      }
    }
  }

  /** The state of the bulk entry component. */
  class BulkTransactions {
    var accountsList: seq<AccountBalance>
    var multiTxs: seq<MultiTx>

    /** First render: no accounts yet and a single `emptyTx` row. */
    constructor (today: string)
      ensures accountsList == []
      ensures multiTxs == [DefaultRow(today, "")]
    {
      accountsList := [];
      multiTxs := [DefaultRow(today, "")];
    }

    /**
     * The mount-time account fetch: on a reply with data, keeps the list and
     * reseeds a single default row for the first account; otherwise nothing
     * changes.
     */
    method FetchAccounts(reply: Fetched<AccountBalance>, today: string)
      modifies this
      ensures reply.Data? ==> accountsList == reply.rows
      ensures reply.Data? ==> multiTxs == [DefaultRow(today, FirstAccountId(reply.rows))]
      ensures !reply.Data? ==> accountsList == old(accountsList) && multiTxs == old(multiTxs)
    {
      if reply.Data? {
        var data := reply.rows;
        accountsList := data;
        multiTxs := [DefaultRow(today, FirstAccountId(data))];
      }
    }

    /** Sets one field of one row; every other field, every other row and the length stay. */
    method UpdateTx(index: nat, v: FieldValue)
      requires index < |multiTxs|
      modifies this`multiTxs
      ensures |multiTxs| == |old(multiTxs)|
      ensures Get(multiTxs[index], KeyOf(v)) == v
      ensures forall k :: k != KeyOf(v) ==> Get(multiTxs[index], k) == Get(old(multiTxs)[index], k)
      ensures forall j :: 0 <= j < |multiTxs| && j != index ==> multiTxs[j] == old(multiTxs)[j]
    {
      var copy := multiTxs;
      copy := copy[index := WithField(copy[index], v)];
      multiTxs := copy;
    }

    /** Appends one default row for the first known account; existing rows stay in place. */
    method AddRow(today: string)
      modifies this`multiTxs
      ensures multiTxs == old(multiTxs) + [DefaultRow(today, FirstAccountId(accountsList))]
      ensures Payload(multiTxs) == Payload(old(multiTxs))
    {
      AddRowKeepsPayload(multiTxs, today, FirstAccountId(accountsList));
      multiTxs := multiTxs + [DefaultRow(today, FirstAccountId(accountsList))];
    }

    /** Removes the row at `index` when it is in range; otherwise changes nothing. */
    method RemoveRow(index: int)
      modifies this`multiTxs
      ensures 0 <= index < |old(multiTxs)| ==>
        multiTxs == old(multiTxs)[..index] + old(multiTxs)[index + 1..] &&
        |multiTxs| == |old(multiTxs)| - 1
      ensures !(0 <= index < |old(multiTxs)|) ==> multiTxs == old(multiTxs)
    {
      FilterOutIndexRemovesOne(multiTxs, index, 0);
      multiTxs := FilterOutIndex(multiTxs, index, 0);
    }

    /**
     * Submits the payload. `issued` is the batch handed to the backend, if
     * any; `inserted` is the backend's reply to it; `notified` says whether
     * `onTransactionAdded` fired (once). An empty payload issues nothing;
     * a failed insert keeps every row; a successful one leaves a single
     * default row for the first known account.
     */
    method SaveMultiTransactions(inserted: WriteResult, today: string)
      returns (issued: Option<seq<TransactionInsert>>, notified: bool)
      modifies this`multiTxs
      ensures issued.Some? <==> exists i :: 0 <= i < |old(multiTxs)| && Submittable(old(multiTxs)[i])
      ensures issued.Some? ==> issued.value == Payload(old(multiTxs))
      ensures notified <==> issued.Some? && inserted.Written?
      ensures notified ==> multiTxs == [DefaultRow(today, FirstAccountId(accountsList))]
      ensures !notified ==> multiTxs == old(multiTxs)
    {
      var payload := Payload(multiTxs);
      PayloadEmptyIff(multiTxs);
      if |payload| == 0 {
        return None, false;
      }
      issued := Some(payload);
      if inserted.WriteError? {
        return issued, false;
      }
      multiTxs := [DefaultRow(today, FirstAccountId(accountsList))];
      notified := true;
    }
  }
}
