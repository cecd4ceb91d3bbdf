/** The receipt-scanning items: staging what the scanner returned as pending
    items (App.js:368-379), editing a pending price (App.js:448-452) and copying
    the pending items into the confirmed list (App.js:467-474). */
module Ocr {
  import opened JsText
  import opened JsNumbers

  /** An item shown to the user, pending or confirmed. */
  datatype OcrItem = OcrItem(id: string, description: string, price: real)

  /** An item as the native scanner returns it. A missing or empty id or
      description is ""; `price` is what `Number()` makes of the scanner's price. */
  datatype ScannedItem = ScannedItem(id: string, description: string, price: JsNumber)

  /** What the scan call produced. `Scanned` is a result whose `items` is an array;
      `NotAnArray` is a result without one; `Threw` is a rejected call with the
      error's message ("" when it has none); `ModuleMissing` is a build without
      the native scanner, where the handler rejects with its own error. */
  datatype ScanOutcome = Scanned(items: seq<ScannedItem>) | NotAnArray | Threw(message: string) | ModuleMissing

  const DefaultDescription: string := "Item"
  const NoItemsMessage: string := "No items detected. Try rescanning your receipt."
  const ModuleMissingMessage: string := "VisionKitOcr native module unavailable. Ensure iOS build is configured."
  const ScanFailedMessage: string := "Unable to parse receipt."

  /** `ocr-<now>-<index>`, the id given to a scanned item that has none. */
  function StagedId(now: nat, index: nat): string {
    "ocr-" + NatToString(now) + "-" + NatToString(index)
  }

  function StageItem(item: ScannedItem, now: nat, index: nat): (p: OcrItem)
    ensures p.id != [] && p.description != []
    ensures item.id != [] ==> p.id == item.id
    ensures item.id == [] ==> p.id == StagedId(now, index)
    ensures item.description != [] ==> p.description == item.description
    ensures item.description == [] ==> p.description == DefaultDescription
    ensures item.price.Finite? ==> p.price == item.price.value
    ensures item.price.NaN? ==> p.price == 0.0
  {
    OcrItem(if item.id != "" then item.id else StagedId(now, index),
            if item.description != "" then item.description else DefaultDescription,
            OrZero(item.price))
  }

  /** `items.map((item, index) => ...)`: one pending item per scanned item, in
      the same order, each staged with its own index. */
  function StageItems(items: seq<ScannedItem>, now: nat): (ps: seq<OcrItem>)
    ensures |ps| == |items|
    ensures forall i :: 0 <= i < |items| ==> ps[i] == StageItem(items[i], now, i)
  {
    seq(|items|, i requires 0 <= i < |items| => StageItem(items[i], now, i))
  }

  /** The notice shown after a scan: none after an array of items (even an empty
      one), the fixed notice when the result has no array, and the error's own
      message, or a default one, when the scan failed. */
  function ScanError(outcome: ScanOutcome): (e: string)
    requires !outcome.Scanned?
    ensures e != []
    ensures outcome.NotAnArray? ==> e == NoItemsMessage
    ensures outcome.Threw? && outcome.message != [] ==> e == outcome.message
    ensures outcome.Threw? && outcome.message == [] ==> e == ScanFailedMessage
    ensures outcome.ModuleMissing? ==> e == ModuleMissingMessage
  {
    match outcome
    case NotAnArray => NoItemsMessage
    case Threw(m) => if m != "" then m else ScanFailedMessage
    case ModuleMissing => ModuleMissingMessage
  }

  /** Two staged ids in one scan are the same exactly when the indices are. */
  lemma StagedIdsDistinct(now: nat, i: nat, j: nat)
    ensures StagedId(now, i) == StagedId(now, j) <==> i == j
  {
    var prefix := "ocr-" + NatToString(now) + "-";
    assert StagedId(now, i) == prefix + NatToString(i);
    assert StagedId(now, j) == prefix + NatToString(j);
    if StagedId(now, i) == StagedId(now, j) {
      assert (prefix + NatToString(i))[|prefix|..] == NatToString(i);
      assert (prefix + NatToString(j))[|prefix|..] == NatToString(j);
      NatToStringInjective(i, j);
    }
  }

  /** When the scanner supplies no ids, every staged item has an id of its own. */
  lemma StagedItemsHaveDistinctIds(items: seq<ScannedItem>, now: nat)
    requires forall i :: 0 <= i < |items| ==> items[i].id == []
    ensures var ps := StageItems(items, now);
      forall i, j :: 0 <= i < j < |ps| ==> ps[i].id != ps[j].id
  {
    var ps := StageItems(items, now);
    forall i, j | 0 <= i < j < |ps| ensures ps[i].id != ps[j].id {
      StagedIdsDistinct(now, i, j);
    }
  }

  /** `Number(text.replace(/[^0-9.]/g, '')) || 0`: the price a pending item gets
      when the user types `text` into its price field. */
  function PriceFromText(text: string): (r: real)
    ensures r >= 0.0
  {
    var kept := Filter(text, IsPriceChar);
    assert IsAmountText(kept);
    OrZero(ParseNumber(kept))
  }

  /** The price a typed text sets: whatever is not a digit or `.` is dropped
      (`"€4.50"` and `"4.50 kr"` both give 4.5), and when what remains is not a
      literal (`"1.2.3"`, `"."`, nothing at all) the price is 0. */
  lemma PriceFromTextValue(text: string)
    ensures var k := Filter(text, IsPriceChar);
      PriceFromText(text) == if IsUnsignedLiteral(k) then Magnitude(LiteralOf(k)) else 0.0
  {
    var k := Filter(text, IsPriceChar);
    assert IsAmountText(k);
    UnsignedFiniteExactlyForLiterals(k);
    if IsUnsignedLiteral(k) {
      ParseLiteral(LiteralOf(k));
    }
  }

  /** Typing any unsigned literal sets exactly its value. */
  lemma PriceFromLiteral(u: string)
    requires IsUnsignedLiteral(u)
    ensures PriceFromText(u) == Magnitude(LiteralOf(u))
  {
    ParseLiteral(LiteralOf(u));
  }

  /** `${now}-${description}`, the id a confirmed item gets. */
  function ConfirmedId(now: nat, description: string): string {
    NatToString(now) + "-" + description
  }

  /** Confirmed ids from one confirmation coincide exactly when the
      descriptions do: two pending items with the same description end up with
      the same id. */
  lemma ConfirmedIdsCoincide(now: nat, d1: string, d2: string)
    ensures ConfirmedId(now, d1) == ConfirmedId(now, d2) <==> d1 == d2
  {
    var prefix := NatToString(now) + "-";
    assert ConfirmedId(now, d1) == prefix + d1;
    assert ConfirmedId(now, d2) == prefix + d2;
    if ConfirmedId(now, d1) == ConfirmedId(now, d2) {
      assert (prefix + d1)[|prefix|..] == d1;
      assert (prefix + d2)[|prefix|..] == d2;
    }
  }

  /** `pendingItems.map(...)` on Confirm: each pending item with a new id and the
      same description and price, in the same order. */
  function Confirmed(pending: seq<OcrItem>, now: nat): (cs: seq<OcrItem>)
    ensures |cs| == |pending|
    ensures forall i :: 0 <= i < |pending| ==>
      cs[i] == OcrItem(ConfirmedId(now, pending[i].description), pending[i].description, pending[i].price)
  {
    seq(|pending|, i requires 0 <= i < |pending| =>
      OcrItem(ConfirmedId(now, pending[i].description), pending[i].description, pending[i].price))
  }
}
