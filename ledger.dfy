/** The transaction ledger's records and the pure computations behind its
    handlers: turning rows of the remote `transactions` table into list entries
    (App.js:103-108 and App.js:617-622) and building a manually entered expense
    (App.js:587-600). */
module Ledger {
  import opened Wrappers
  import opened JsText
  import opened JsNumbers

  /** One entry of the transaction list. Negative amounts are expenses. `title`
      is the source's `label` field (a reserved word in Dafny). */
  datatype Transaction = Transaction(id: string, icon: string, title: string, amount: real)

  /** A row as the remote store returns it. The id is the table's integer
      identity; an absent or empty icon is "", a null amount is None. */
  datatype Row = Row(id: int, title: string, amount: Option<real>, icon: string)

  const DefaultIcon: string := "shopping-bag"
  const DefaultLabel: string := "Transaction"

  /** The list the screen starts with before any cache or remote data arrives
      (App.js:49-54). */
  const InitialTransactions: seq<Transaction> := [
    Transaction("1", "shopping-bag", "Grocery Store", -75.3),
    Transaction("2", "home", "Rent Payment", -11200.0),
    Transaction("3", "coffee", "Café", -5.5),
    Transaction("4", "dollar-sign", "Salary", 3200.0)
  ]

  /** `Number(x)` for a numeric column value: null converts to 0. */
  function NumberOrNull(x: Option<real>): real {
    match x
    case Some(v) => v
    case None => 0.0
  }

  /** A row as a list entry: the id as its decimal text, a missing icon replaced
      by the default one, the label and amount carried over. */
  function RowToTransaction(row: Row): (t: Transaction)
    ensures t.id == IntToString(row.id) && t.title == row.title
    ensures t.icon != [] && (row.icon != [] ==> t.icon == row.icon)
    ensures row.icon == [] ==> t.icon == DefaultIcon
    ensures row.amount.Some? ==> t.amount == row.amount.value
    ensures row.amount.None? ==> t.amount == 0.0
  {
    Transaction(IntToString(row.id), if row.icon != "" then row.icon else DefaultIcon,
                row.title, NumberOrNull(row.amount))
  }

  /** `rows.map(...)`: one entry per row, in row order. */
  function RowsToTransactions(rows: seq<Row>): (ts: seq<Transaction>)
    ensures |ts| == |rows|
    ensures forall i :: 0 <= i < |rows| ==> ts[i] == RowToTransaction(rows[i])
  {
    seq(|rows|, i requires 0 <= i < |rows| => RowToTransaction(rows[i]))
  }

  /** Rows with pairwise distinct ids give entries with pairwise distinct ids,
      so the list's keys stay unique after a refresh. */
  lemma RefreshKeepsIdsDistinct(rows: seq<Row>)
    requires forall i, j :: 0 <= i < j < |rows| ==> rows[i].id != rows[j].id
    ensures var ts := RowsToTransactions(rows);
      forall i, j :: 0 <= i < j < |ts| ==> ts[i].id != ts[j].id
  {
    var ts := RowsToTransactions(rows);
    forall i, j | 0 <= i < j < |ts| ensures ts[i].id != ts[j].id {
      if ts[i].id == ts[j].id {
        IntToStringInjective(rows[i].id, rows[j].id);
      }
    }
  }

  /** `-Math.abs(x)`: the magnitude of what was typed, recorded as an expense. */
  function NormalizeAmount(x: real): (r: real)
    ensures r <= 0.0
    ensures r == x || r == -x
  {
    if x < 0.0 then x else -x
  }

  /** `(payee || description).trim() || 'Transaction'`: a non-empty payee is used
      even when it is only blanks, in which case the default label results. */
  function ManualLabel(payee: string, description: string): (r: string)
    ensures r != []
    ensures !IsJsWhitespace(r[0]) && !IsJsWhitespace(r[|r| - 1])
    ensures var chosen := if payee != [] then payee else description;
      if forall k :: 0 <= k < |chosen| ==> IsJsWhitespace(chosen[k]) then r == DefaultLabel
      else r == Trim(chosen)
  {
    var trimmed := Trim(if payee != "" then payee else description);
    if trimmed != "" then trimmed else DefaultLabel
  }

  /** The record sent to the remote store for a manual entry (App.js:606-612). */
  datatype InsertRequest = InsertRequest(title: string, amount: real, icon: string,
                                         categoryId: Option<string>, transactionAt: nat)

  function ManualRequest(payee: string, description: string, amount: real,
                         categoryId: Option<string>, date: nat): (q: InsertRequest)
    ensures q.amount <= 0.0 && (q.amount == amount || q.amount == -amount)
    ensures q.title == ManualLabel(payee, description) && q.icon == DefaultIcon
    ensures q.categoryId == categoryId && q.transactionAt == date
  {
    InsertRequest(ManualLabel(payee, description), NormalizeAmount(amount), DefaultIcon, categoryId, date)
  }

  /** The entry `fallbackInsert` prepends when the remote store is unavailable or
      rejected the insert: a timestamp id, the default icon, and the label and
      amount the remote insert would have carried. */
  function FallbackTransaction(now: nat, payee: string, description: string, amount: real): (t: Transaction)
    ensures t.id == NatToString(now) && t.icon == DefaultIcon
    ensures t.amount <= 0.0 && (t.amount == amount || t.amount == -amount)
    ensures t.title == ManualLabel(payee, description)
  {
    Transaction(NatToString(now), DefaultIcon, ManualLabel(payee, description), NormalizeAmount(amount))
  }

  /** Whatever sign is typed in front of a literal, the entry records minus its
      value: "42.50", "-42.50" and "-042.5" all give -42.5. */
  lemma TypedAmountRecordedAsExpense(d: Decimal, now: nat, payee: string, description: string)
    requires ValidDecimal(d)
    ensures IsAmountText(Render(d)) && ParseNumber(Render(d)).Finite?
    ensures FallbackTransaction(now, payee, description, ParseNumber(Render(d)).value).amount
            == -Magnitude(d.digits)
  {
    ParseRender(d);
  }
}
