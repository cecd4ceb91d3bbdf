/** The screen component's state (App.js:67-80) and the handlers and effects
    that change it. Each handler is a method; a handler that awaits a call into
    the remote store or the scanner takes that call's outcome as a parameter,
    and one that reads the clock takes the time as `now`. The cache
    write-through effects (App.js:149-159) are the ghost fields
    `cachedTransactions` and `cachedOcrItems`, assigned whenever the list they
    mirror is. */
module AppState {
  import opened Wrappers
  import opened JsText
  import opened JsNumbers
  import opened Storage
  import opened Ledger
  import opened Ocr

  /** A snapshot of every state field, so that a contract can say in one line
      what a handler changed and that nothing else moved. */
  datatype Screen = Screen(
    transactionsList: seq<Transaction>,
    ocrItems: seq<OcrItem>,
    pendingItems: seq<OcrItem>,
    ocrError: Option<string>,
    isOcrLoading: bool,
    isOcrModalVisible: bool,
    isManualModalVisible: bool,
    isFabMenuOpen: bool,
    manualDescription: string,
    manualAmount: string,
    manualPayee: string,
    manualCategoryId: Option<string>,
    manualDate: nat)

  class App {
    var transactionsList: seq<Transaction>
    var ocrItems: seq<OcrItem>
    var pendingItems: seq<OcrItem>
    var ocrError: Option<string>
    var isOcrLoading: bool
    var isOcrModalVisible: bool
    var isManualModalVisible: bool
    var isFabMenuOpen: bool
    var manualDescription: string
    var manualAmount: string
    var manualPayee: string
    var manualCategoryId: Option<string>
    var manualDate: nat

    ghost var cachedTransactions: seq<Transaction>
    ghost var cachedOcrItems: seq<OcrItem>

    /** The amount field only ever holds what its input filter lets through, and
        the cache holds the lists as they are shown. */
    ghost predicate Valid()
      reads this
    {
      IsAmountText(manualAmount) &&
      cachedTransactions == transactionsList &&
      cachedOcrItems == ocrItems
    }

    ghost function State(): Screen
      reads this
    {
      Screen(transactionsList, ocrItems, pendingItems, ocrError, isOcrLoading,
             isOcrModalVisible, isManualModalVisible, isFabMenuOpen,
             manualDescription, manualAmount, manualPayee, manualCategoryId, manualDate)
    }

    /** The first render: the sample transactions, no OCR items, everything
        closed, an empty form dated `today`; the mount effects write both lists
        to the cache. */
    constructor (today: nat)
      ensures Valid()
      ensures State() == Screen(InitialTransactions, [], [], None, false, false, false, false,
                                "", "", "", None, today)
    {
      transactionsList := InitialTransactions;
      ocrItems := [];
      pendingItems := [];
      ocrError := None;
      isOcrLoading := false;
      isOcrModalVisible := false;
      isManualModalVisible := false;
      isFabMenuOpen := false;
      manualDescription := "";
      manualAmount := "";
      manualPayee := "";
      manualCategoryId := None;
      manualDate := today;
      cachedTransactions := InitialTransactions;
      cachedOcrItems := [];
    }

    /** `loadCachedTransactions`: a cached array replaces the list; anything else
        leaves it as it is. */
    method LoadCachedTransactions(stored: Stored<Transaction>)
      requires Valid()
      modifies this
      ensures Valid()
      ensures State() == old(State()).(transactionsList :=
        if stored.AnArray? then stored.items else old(transactionsList))
    {
      if stored.AnArray? {
        transactionsList := stored.items;
        cachedTransactions := transactionsList;
      }
    }

    /** `loadCachedOcrItems`, the same for the confirmed OCR items. */
    method LoadCachedOcrItems(stored: Stored<OcrItem>)
      requires Valid()
      modifies this
      ensures Valid()
      ensures State() == old(State()).(ocrItems :=
        if stored.AnArray? then stored.items else old(ocrItems))
    {
      if stored.AnArray? {
        ocrItems := stored.items;
        cachedOcrItems := ocrItems;
      }
    }

    /** `loadTransactions`: a successful query replaces the whole list with its
        rows (no rows when the data is null), whatever the list held before;
        an unconfigured store or a failed query leaves the list alone. */
    method LoadTransactions(outcome: Remote<Option<seq<Row>>>)
      requires Valid()
      modifies this
      ensures Valid()
      ensures State() == old(State()).(transactionsList :=
        if outcome.Succeeded? then RowsToTransactions(outcome.value.GetOr([]))
        else old(transactionsList))
    {
      match outcome
      case Unconfigured =>
      case Failed =>
      case Succeeded(data) =>
        transactionsList := RowsToTransactions(data.GetOr([]));
        cachedTransactions := transactionsList;
    }

    /** The scan button, up to the call into the scanner (App.js:359-362). */
    method StartScan()
      requires Valid()
      modifies this
      ensures Valid()
      ensures State() == old(State()).(isFabMenuOpen := false, ocrError := None,
                                       isOcrLoading := true, isOcrModalVisible := true)
    {
      isFabMenuOpen := false;
      ocrError := None;
      isOcrLoading := true;
      isOcrModalVisible := true;
    }

    /** The scan button, after the scanner answered (App.js:368-386): an array
        of items is staged one for one and the current notice is kept (the
        preceding `StartScan` cleared it); any other outcome leaves
        no pending items and a notice. Loading ends in every case and the
        review sheet stays open. */
    method FinishScan(outcome: ScanOutcome, now: nat)
      requires Valid()
      modifies this
      ensures Valid()
      ensures State() == old(State()).(
        pendingItems := if outcome.Scanned? then StageItems(outcome.items, now) else [],
        ocrError := if outcome.Scanned? then old(ocrError) else Some(ScanError(outcome)),
        isOcrLoading := false)
    {
      if outcome.Scanned? {
        pendingItems := StageItems(outcome.items, now);
      } else {
        pendingItems := [];
        ocrError := Some(ScanError(outcome));
      }
      isOcrLoading := false;
    }

    /** A pending item's description field: the slot gets the text as typed. */
    method EditPendingDescription(index: nat, text: string)
      requires Valid()
      requires index < |pendingItems|
      modifies this
      ensures Valid()
      ensures State() == old(State()).(pendingItems :=
        old(pendingItems)[index := old(pendingItems)[index].(description := text)])
    {
      var updated := pendingItems;
      updated := updated[index := updated[index].(description := text)];
      pendingItems := updated;
    }

    /** A pending item's price field: only that slot's price changes, to the
        non-negative value the filtered text converts to. */
    method EditPendingPrice(index: nat, text: string)
      requires Valid()
      requires index < |pendingItems|
      modifies this
      ensures Valid()
      ensures |pendingItems| == |old(pendingItems)| && pendingItems[index].price >= 0.0
      ensures State() == old(State()).(pendingItems :=
        old(pendingItems)[index := old(pendingItems)[index].(price := PriceFromText(text))])
    {
      var updated := pendingItems;
      var numericValue := PriceFromText(text);
      updated := updated[index := updated[index].(price := numericValue)];
      pendingItems := updated;
    }

    /** Confirm Items: the pending items, renamed, go in front of the confirmed
        ones; the pending list empties and the sheet closes. */
    method ConfirmPending(now: nat)
      requires Valid()
      modifies this
      ensures Valid()
      ensures |ocrItems| == |old(pendingItems)| + |old(ocrItems)|
      ensures State() == old(State()).(
        ocrItems := Confirmed(old(pendingItems), now) + old(ocrItems),
        pendingItems := [],
        isOcrModalVisible := false)
    {
      ocrItems := Confirmed(pendingItems, now) + ocrItems;
      cachedOcrItems := ocrItems;
      pendingItems := [];
      isOcrModalVisible := false;
    }

    /** Closing the review sheet (App.js:410, App.js:419) only hides it: the
        pending items stay until the next scan replaces them. */
    method DismissOcrModal()
      requires Valid()
      modifies this
      ensures Valid()
      ensures State() == old(State()).(isOcrModalVisible := false)
    {
      isOcrModalVisible := false;
    }

    /** The floating button toggles its menu (App.js:400). */
    method ToggleFabMenu()
      requires Valid()
      modifies this
      ensures Valid()
      ensures State() == old(State()).(isFabMenuOpen := !old(isFabMenuOpen))
    {
      isFabMenuOpen := !isFabMenuOpen;
    }

    /** The menu's Manual entry (App.js:345-348). */
    method OpenManualModal()
      requires Valid()
      modifies this
      ensures Valid()
      ensures State() == old(State()).(isFabMenuOpen := false, isManualModalVisible := true)
    {
      isFabMenuOpen := false;
      isManualModalVisible := true;
    }

    /** Closing the manual sheet without adding (App.js:490, App.js:499): the
        form keeps what was typed. */
    method CloseManualModal()
      requires Valid()
      modifies this
      ensures Valid()
      ensures State() == old(State()).(isManualModalVisible := false)
    {
      isManualModalVisible := false;
    }

    /** The amount field keeps only digits, `.`, `,` and `-` of what is typed. */
    method EditManualAmount(text: string)
      requires Valid()
      modifies this
      ensures Valid()
      ensures State() == old(State()).(manualAmount := Filter(text, IsAmountChar))
    {
      manualAmount := Filter(text, IsAmountChar);
    }

    method EditManualPayee(text: string)
      requires Valid()
      modifies this
      ensures Valid()
      ensures State() == old(State()).(manualPayee := text)
    {
      manualPayee := text;
    }

    method EditManualDescription(text: string)
      requires Valid()
      modifies this
      ensures Valid()
      ensures State() == old(State()).(manualDescription := text)
    {
      manualDescription := text;
    }

    method SelectCategory(id: string)
      requires Valid()
      modifies this
      ensures Valid()
      ensures State() == old(State()).(manualCategoryId := Some(id))
    {
      manualCategoryId := Some(id);
    }

    /** Add Expense (App.js:586-638). An amount that is not a finite number is
        refused and nothing changes. Otherwise the amount is recorded as an
        expense of the same magnitude: with a configured store the insert is
        sent (returned as `request`) and, when it succeeds, the stored row is
        prepended; when it fails, or no store is configured, the local entry is
        prepended. Either way the form is cleared, re-dated `now`, and the sheet
        closes. */
    method AddManual(remote: Remote<Row>, now: nat) returns (accepted: bool, request: Option<InsertRequest>)
      requires Valid()
      modifies this
      ensures Valid()
      ensures accepted <==> ParseNumber(old(manualAmount)).Finite?
      ensures !accepted ==> State() == old(State()) && request == None
      ensures accepted ==>
        var amount := ParseNumber(old(manualAmount)).value;
        var entry := if remote.Succeeded? then RowToTransaction(remote.value)
                     else FallbackTransaction(now, old(manualPayee), old(manualDescription), amount);
        && State() == old(State()).(
             transactionsList := [entry] + old(transactionsList),
             manualDescription := "", manualAmount := "", manualPayee := "",
             manualCategoryId := None, manualDate := now, isManualModalVisible := false)
        && request == (if remote.Unconfigured? then None
                       else Some(ManualRequest(old(manualPayee), old(manualDescription), amount,
                                               old(manualCategoryId), old(manualDate))))
      ensures accepted && remote.Succeeded? && request.Some? && remote.value.amount == Some(request.value.amount)
              ==> transactionsList[0].amount <= 0.0
    {
      var amountNumber := ParseNumber(manualAmount);
      if amountNumber.NaN? {
        return false, None;
      }
      accepted := true;
      request := if remote.Unconfigured? then None
                 else Some(ManualRequest(manualPayee, manualDescription, amountNumber.value,
                                         manualCategoryId, manualDate));
      match remote {
        case Succeeded(row) =>
          PrependTransaction(RowToTransaction(row));
        case _ =>
          FallbackInsert(amountNumber.value, now);
      }
      ResetManualForm(now);
    }

    /** `fallbackInsert`: the locally built entry goes in front of the list. */
    method FallbackInsert(amount: real, now: nat)
      requires Valid()
      modifies this
      ensures Valid()
      ensures State() == old(State()).(transactionsList :=
        [FallbackTransaction(now, old(manualPayee), old(manualDescription), amount)] + old(transactionsList))
    {
      PrependTransaction(FallbackTransaction(now, manualPayee, manualDescription, amount));
    }

    /** `setTransactionsList((prev) => [entry, ...prev])`, with its cache write. */
    method PrependTransaction(entry: Transaction)
      requires Valid()
      modifies this
      ensures Valid()
      ensures State() == old(State()).(transactionsList := [entry] + old(transactionsList))
    {
      transactionsList := [entry] + transactionsList;
      cachedTransactions := transactionsList;
    }

    /** The form reset that ends every accepted Add Expense (App.js:633-638). */
    method ResetManualForm(now: nat)
      requires Valid()
      modifies this
      ensures Valid()
      ensures State() == old(State()).(
        manualDescription := "", manualAmount := "", manualPayee := "",
        manualCategoryId := None, manualDate := now, isManualModalVisible := false)
    {
      manualDescription := "";
      manualAmount := "";
      assert IsAmountText(manualAmount);
      manualPayee := "";
      manualCategoryId := None;
      manualDate := now;
      isManualModalVisible := false;
    }
  }

  /** Typing any literal, with either sign, and adding it while no
      store is configured puts an expense of that magnitude on top of the list
      and clears the form. */
  method ManualAddScenario(d: Decimal, today: nat, now: nat)
    requires ValidDecimal(d)
  {
    var app := new App(today);
    app.OpenManualModal();
    var typed := Render(d);
    ParseRender(d);
    app.EditManualAmount(typed);
    assert app.manualAmount == typed;
    var before := app.transactionsList;
    var accepted, request := app.AddManual(Unconfigured, now);
    TypedAmountRecordedAsExpense(d, now, "", "");
    assert accepted && request == None;
    assert app.transactionsList[1..] == before;
    assert app.transactionsList[0].amount == -Magnitude(d.digits);
    assert app.transactionsList[0].title == DefaultLabel;
    assert app.manualAmount == "" && !app.isManualModalVisible;
  }

  /** Scanning one item, correcting its price by typing a literal and
      confirming adds exactly one item, with the typed price, in front of the
      confirmed items, and empties the pending list. */
  method ReceiptScenario(item: ScannedItem, typed: string, now: nat)
    requires IsUnsignedLiteral(typed)
  {
    var app := new App(now);
    app.StartScan();
    app.FinishScan(Scanned([item]), now);
    assert |app.pendingItems| == 1 && app.ocrError == None && !app.isOcrLoading;
    app.EditPendingPrice(0, typed);
    PriceFromLiteral(typed);
    app.ConfirmPending(now);
    assert |app.ocrItems| == 1 && app.pendingItems == [] && !app.isOcrModalVisible;
    assert app.ocrItems[0].price == Magnitude(LiteralOf(typed));
  }
}
