# Personal-finance screen: ledger and receipt-item state, in Dafny

This project models the state logic of a personal-finance mobile screen, which is
a single React Native component in `App.js`. The screen shows a list of
transactions and a list of items read off receipts. It keeps both lists in a
device cache and refreshes the transactions from a remote table. The user can
add an expense by hand or scan a receipt, review the items, edit them and
confirm them.

The component's state variables become the fields of the class `AppState.App`.
Each event handler and effect that changes them becomes a method of that class:
loading from the cache, the remote refresh, the scan, the pending-item editors,
Confirm, the dismiss buttons, the manual-entry form and Add Expense. Every
method states the whole new state through the snapshot function `State()`. The
expressions those handlers evaluate are pure functions in their own modules,
and the lemmas are proved about those functions:

- `JsText`: the JavaScript built-ins the handlers use. These are `String(n)` on
  an integer, `String.prototype.trim` and `replace(/[^…]/g, '')`.
- `JsNumbers`: `Number(text)` on the two kinds of text the app converts, and
  `n || 0`.
- `Ledger`: transactions, turning remote rows into list entries, and building a
  manual expense.
- `Ocr`: scanned and pending items, staging, price edits and confirmation.
- `Storage`: what reading a cache key can produce.
- `Wrappers`: `Option`, and the outcome of a remote call.

The model has no I/O. Each call into the remote store or the receipt scanner is
replaced by its outcome, passed in as a parameter:

- a remote call is `Unconfigured`, `Failed` or `Succeeded(value)`;
- a scan is `Scanned(items)`, `NotAnArray`, `Threw(message)` or `ModuleMissing`;
- a cache read is `Missing`, `Unparsable`, `NotAnArray` or `AnArray(items)`.

The clock (`Date.now()`, `new Date()`) is a `now: nat` parameter. The cache
write-through effects are two ghost fields. `Valid()` keeps them equal to the
lists they mirror.

Amounts and prices are exact `real`s. `Number()` is modelled for the text it
actually receives, which is text that has already passed the field's filter. The
empty string is 0. An optional leading `-` may be followed by digits with at most
one `.` and at least one digit. Everything else is NaN.

The transaction field the source calls `label` is `title` here, because `label`
is a reserved word in Dafny.

Some behaviour of the code is easy to misread. The model follows the code:

- A scan that returns an empty array sets no notice. Only a result without an
  array, or a failed scan, sets `ocrError`.
- A scanned price is only passed through `Number(...) || 0`. It can therefore be
  negative. Only a price the user types is non-negative.
- Closing the review sheet only hides it. The pending items remain until the
  next scan replaces them.
- A cached value is adopted whenever it is an array. Its elements are not
  checked.
- An empty amount is `Number('') == 0`, which is finite. Add Expense therefore
  accepts it and records a zero expense.

Two further consequences of the code are proved as lemmas:

- The amount filter keeps `,`, but `Number()` rejects any comma
  (`JsNumbers.CommaIsNotANumber`). So "4,50" is refused as invalid.
- Confirmed ids are `<now>-<description>`. Two pending items with the same
  description therefore receive the same id (`Ocr.ConfirmedIdsCoincide`).

`AppState.ManualAddScenario` and `AppState.ReceiptScenario` chain the handlers in
sequence for any typed literal, with the state each step leaves behind asserted.
The first covers an expense added by hand. The second covers a scanned item
whose price is corrected and then confirmed.

## Model

| member | source | states |
|---|---|---|
| `AppState.App.constructor` | App.js:67-80 | initial state: the four sample transactions, no OCR or pending items, no error, every sheet and menu closed, an empty form; the mount effects cache both lists |
| `AppState.App.LoadCachedTransactions` | App.js:115-127 | a cached array replaces the transaction list wholesale; a missing, unparsable or non-array value changes nothing; nothing else changes |
| `AppState.App.LoadCachedOcrItems` | App.js:129-141 | the same for the OCR item list |
| `AppState.App.LoadTransactions` | App.js:94-113 | a successful query replaces the list with the mapped rows (empty for null data) whatever it held before; unconfigured store or failed query leaves it unchanged; nothing else changes |
| `Ledger.RowToTransaction` | App.js:103-108 | entry id is `String(row.id)`, icon is the row's or `shopping-bag` when missing, label carried over, null amount becomes 0 |
| `Ledger.RowsToTransactions` | App.js:103-108 | one entry per row, in row order, each the mapped row |
| `Ledger.RefreshKeepsIdsDistinct` | App.js:104 | rows with distinct ids give entries with distinct ids |
| `JsText.IntToString` | App.js:104 | `String(i)`: starts with `-` exactly for negative `i`; the rest is digits, without a leading zero unless `i` is 0, that read back as the magnitude of `i` |
| `JsText.IntToStringInjective` | App.js:104 | distinct integers render to distinct strings |
| `JsText.NatToString` | App.js:595 | `String(n)` for `n >= 0`: digits only, one digit exactly when `n < 10`, no leading zero |
| `JsText.NatToStringInjective` | App.js:371 | distinct naturals render to distinct strings |
| `JsText.DigitsValueOfNatToString` | App.js:595 | reading back the digits of `String(n)` gives `n` |
| `AppState.App.StartScan` | App.js:359-362 | before the scanner is called: menu closed, error cleared, loading on, review sheet open; nothing else changes |
| `AppState.App.FinishScan` | App.js:363-386 | an array result stages its items one for one and keeps the current notice (which the preceding `StartScan` cleared); any other outcome empties the pending list and sets a non-empty notice; loading ends false in every case; nothing else changes |
| `Ocr.StageItem` | App.js:370-374 | staged id is the scanner's, or `ocr-<now>-<index>` when it has none; description is the scanner's, or `Item` when it is empty; price is the number, or 0 for NaN |
| `Ocr.StageItems` | App.js:369-375 | one pending item per scanned item, same order, each staged with its index |
| `Ocr.StagedIdsDistinct` | App.js:371 | two generated ids of one scan are equal exactly when their indices are |
| `Ocr.StagedItemsHaveDistinctIds` | App.js:369-375 | when the scanner supplies no ids, all staged ids are pairwise distinct |
| `Ocr.ScanError` | App.js:363-383 | notice after a failed scan: the fixed "No items detected" text when there is no array, the error's message when the call threw with one and "Unable to parse receipt." when it threw without, the module-unavailable text when the scanner is missing; never empty |
| `AppState.App.EditPendingDescription` | App.js:439-443 | only the edited slot's description changes, to the typed text |
| `AppState.App.EditPendingPrice` | App.js:448-452 | only the edited slot's price changes, to `PriceFromText(text)`, which is `>= 0`; list length unchanged |
| `Ocr.PriceFromText` | App.js:450 | price from typed text, after stripping all but digits and `.`, is never negative |
| `Ocr.PriceFromTextValue` | App.js:450 | the price typed text sets: everything but digits and `.` is dropped, and the rest gives its value when it is a literal and 0 otherwise |
| `Ocr.PriceFromLiteral` | App.js:450 | typing any unsigned literal (digits with at most one `.` and at least one digit, so `.5`, `007` and `4.` included) sets exactly the value it denotes |
| `AppState.App.ConfirmPending` | App.js:466-477 | new OCR list is the confirmed pending items followed by the old list (length is the sum); pending list emptied; sheet closed; nothing else changes |
| `Ocr.Confirmed` | App.js:467-474 | one confirmed item per pending item, same order, same description and price, id `<now>-<description>` |
| `Ocr.ConfirmedIdsCoincide` | App.js:469 | two confirmed ids of one confirmation are equal exactly when the descriptions are |
| `AppState.App.DismissOcrModal` | App.js:410-419 | closing the review sheet only hides it; pending items and everything else stay |
| `AppState.App.ToggleFabMenu` | App.js:400 | the floating button flips its menu and nothing else |
| `AppState.App.OpenManualModal` | App.js:345-348 | the Manual menu entry closes the menu and opens the form |
| `AppState.App.CloseManualModal` | App.js:490-499 | closing the form hides it and keeps what was typed |
| `AppState.App.EditManualAmount` | App.js:509 | the amount field becomes the typed text with all but digits, `.`, `,`, `-` removed |
| `AppState.App.EditManualPayee` | App.js:521 | the payee field becomes the typed text |
| `AppState.App.EditManualDescription` | App.js:562 | the description field becomes the typed text |
| `AppState.App.SelectCategory` | App.js:546-549 | the chosen category id is recorded |
| `AppState.App.AddManual` | App.js:586-639 | accepted exactly when the amount is a finite number; when refused, nothing changes; when accepted, exactly one entry is prepended to the unchanged old list (the stored row when the insert succeeds, the local entry otherwise), the insert request is sent exactly when a store is configured, and amount, payee, description and category are cleared, the date reset and the form hidden; a stored row that carries the amount sent is recorded as an expense |
| `AppState.App.FallbackInsert` | App.js:593-601 | `fallbackInsert` prepends the locally built entry and changes nothing else |
| `AppState.App.PrependTransaction` | App.js:616-624 | the given entry goes in front of the list, the old list is its tail |
| `AppState.App.ResetManualForm` | App.js:633-638 | amount, payee, description cleared, category null, date `now`, form hidden; nothing else changes |
| `Ledger.NormalizeAmount` | App.js:592 | `-Math.abs(x)`: never positive, same magnitude as `x` |
| `Ledger.ManualLabel` | App.js:597 | label is never empty or padded; it is the trimmed payee when one was typed, else the trimmed description, and `Transaction` when that choice is blank (so a blank-only payee hides the description) |
| `Ledger.ManualRequest` | App.js:604-614 | the insert carries the manual label, the `shopping-bag` icon, the form's category and date, and an amount that is never positive and of the typed magnitude |
| `Ledger.FallbackTransaction` | App.js:594-599 | the local entry has id `String(now)`, the `shopping-bag` icon, the manual label, and an amount that is never positive and of the typed magnitude |
| `Ledger.TypedAmountRecordedAsExpense` | App.js:587-598 | any literal (leading zeros, `.5` and `4.` included), with or without a minus sign, is accepted and recorded as minus its value |
| `JsNumbers.ParseNumber` | App.js:587 | `Number(text)` on filtered text: empty text is 0, a negative result only with a leading `-` |
| `JsNumbers.ParseUnsigned` | App.js:450 | an unsigned literal is never negative |
| `JsNumbers.ParseLiteral` | App.js:450 | an unsigned literal is price text and is read as the value it denotes |
| `JsNumbers.LiteralIsPriceText` | App.js:450 | a literal's text is made of digits and `.` only and does not start with `-` |
| `JsNumbers.LiteralOf` | App.js:450 | every text that is an unsigned literal is written by some literal, so the literal lemmas cover every such text |
| `JsNumbers.SplitAtPointWrites` | App.js:450 | splitting a literal text at its point gives the literal that writes it |
| `JsNumbers.ParseNegated` | App.js:587 | a leading `-` negates what the rest reads as |
| `JsNumbers.ParseRender` | App.js:587 | round trip: a written signed literal is read back as its value |
| `JsNumbers.UnsignedFiniteExactlyForLiterals` | App.js:587-588 | an unsigned reading is finite exactly for digits with at most one `.` and at least one digit |
| `JsNumbers.FiniteExactlyForLiterals` | App.js:587-588 | `Number()` of the amount text is finite exactly for the empty text or such a literal with an optional leading `-`, which is when Add Expense accepts |
| `JsNumbers.CommaIsNotANumber` | App.js:587-591 | any text containing a comma is NaN, so Add Expense refuses it |
| `JsNumbers.OrZero` | App.js:373 | falling back to 0 for a falsy number: a finite number is kept and NaN becomes 0 |
| `JsText.Trim` | App.js:597 | the result is the slice of the text with only whitespace before and after it, has no whitespace at either end, is empty exactly when the text is all whitespace, and is the text itself when neither end is whitespace |
| `JsText.TrimKeepsMiddle` | App.js:597 | trimming keeps the part between the leading and the trailing whitespace |
| `JsText.TrimStart` | App.js:597 | a suffix of the text, preceded only by whitespace, not starting with whitespace |
| `JsText.TrimEnd` | App.js:597 | a prefix of the text, followed only by whitespace, not ending with whitespace |
| `JsText.TrimEmptyExactlyWhenBlank` | App.js:597 | trimming yields nothing exactly when the text is all whitespace |
| `JsText.TrimIdempotent` | App.js:597 | trimming twice equals trimming once |
| `JsText.Filter` | App.js:509 | `replace(/[^C]/g, '')`: every kept character is in `C`, every character of `C` is kept as often as it occurs, text already over `C` is unchanged |
| `JsText.KeptFacts` | App.js:509 | the characters a class keeps: all in the class, each character of the class as often as in the text, the whole text when it is already over the class |
| `JsText.KeptInClass` | App.js:509 | what is kept is no longer than the text and lies in the class |
| `JsText.KeptCount` | App.js:509 | a character of the class is kept as often as it occurs |
| `JsText.KeptWhole` | App.js:509 | text already over the class is kept whole |
| `JsText.KeptAppend` | App.js:509 | keeping a class's characters of a concatenation is concatenating what is kept of each part |
| `JsText.FilterAppend` | App.js:509 | the filter keeps characters in order: filtering a concatenation concatenates the filtered parts |

## Left out

- The remote store client and its query builders (supabaseClient.js, App.js:97-101, App.js:604-614) are not modelled. A call is replaced by its outcome. The `limit(50)` and the descending date order are the store's concern.
- `handleConnectPress` (App.js:161-186) is left out. It is a connectivity probe that only shows alerts.
- AsyncStorage reads and writes, and `JSON.parse`/`stringify` (App.js:117-119, App.js:149-159), are left out because they are I/O. A read becomes a `Stored` value, and a write becomes the assignment of a ghost field.
- Concurrency is not modelled. This covers the three start-up loads racing each other and the user (App.js:143-147), and form edits made while an insert is awaited. Each handler runs atomically, except the scan, which is split at its `await`.
- Alerts, console logging and all rendering, styling and layout are left out.
- The donut geometry (App.js:28-32, App.js:237-248), `formatCurrency` and `formatChange` (App.js:58-64) are left out, because they are floating-point and locale rendering.
- `formatShortDate` and the date picker (App.js:83-92, App.js:570) are left out. The form's date is a timestamp that Add Expense resets to `now`.
- The category picker's open and closed flag (App.js:531, App.js:548) and the FAB backdrop presses (App.js:197, App.js:341) are UI flags unrelated to the lists, so they are left out.
- `Date.now()` is one `now` per handler. The source reads it once per item inside the scan and Confirm maps, so ids within one map could carry different timestamps there.
- Binary floating point is not modelled. Values are exact reals, so there is no rounding, no negative zero, and no overflow of a very long digit string to `Infinity`. That overflow would make `isFinite` fail in Add Expense.
- `Number()` of a value the scanner or the store returns is taken as already converted. A scanned price is a `JsNumber`, and a row amount is a real or null.
- Row ids are modelled as the table's integer identity.
- AppState.App.AddManual: the row the store returns after a successful insert is taken as returned. Its amount is non-positive only when the store gives back the amount that was sent.
- JsNumbers.ParseNumber: only covers text over digits, `.`, `,` and `-`, which is all its two callers can pass after their filters. Whitespace, `+`, exponents, `Infinity` and radix prefixes never reach it.
