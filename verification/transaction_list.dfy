/** The watched-transactions list (components/TransactionList.tsx): the
    icon and text of each item, which item is selected, and which of the
    four panel contents is shown. */
module TransactionList {
  import opened Types
  import opened Text

  datatype Icon = Spinner | Clock | CheckCircle

  /** `statusIcon`: one icon per known status, nothing for any other text. */
  function StatusIcon(status: string): (icon: Option<Icon>)
    ensures icon == Some(Spinner) <==> status == PENDING
    ensures icon == Some(Clock) <==> status == UNCONFIRMED
    ensures icon == Some(CheckCircle) <==> status == CONFIRMED
    ensures icon.None? <==> status !in {PENDING, UNCONFIRMED, CONFIRMED}
  {
    if status == PENDING then Some(Spinner)
    else if status == UNCONFIRMED then Some(Clock)
    else if status == CONFIRMED then Some(CheckCircle)
    else None
  }

  const CONFIRMATION := " Confirmation"

  /** `statusText`: for a confirmed item the count and "Confirmation", plural
      above one; otherwise the status with its first letter upper-cased. */
  function StatusText(status: string, confirmations: int): (text: string)
    ensures status == CONFIRMED ==>
              StartsWith(text, IntText(confirmations) + CONFIRMATION)
              && (text[|text| - 1] == 's' <==> confirmations > 1)
              && |text| == |IntText(confirmations)| + |CONFIRMATION| + (if confirmations > 1 then 1 else 0)
    ensures status != CONFIRMED ==> text == Capitalize(status)
  {
    if status == CONFIRMED then
      var head := IntText(confirmations) + CONFIRMATION;
      var text := head + (if confirmations > 1 then "s" else "");
      assert text[..|head|] == head;
      text
    else Capitalize(status)
  }

  /** The two other statuses the hook stores read as words. */
  lemma OtherStatusTexts(n: int)
    ensures StatusText(PENDING, n) == "Pending"
    ensures StatusText(UNCONFIRMED, n) == "Unconfirmed"
  {
  }

  /** A confirmed item's text starts with the count it reports, in decimal. */
  lemma ConfirmedCountReadsBack(n: nat)
    ensures var t := StatusText(CONFIRMED, n);
            var k := |Decimal(n)|;
            k < |t| && t[..k] == Decimal(n) && t[k] == ' ' && DigitsValue(t[..k]) == n
  {
    var t := StatusText(CONFIRMED, n);
    var head := Decimal(n) + CONFIRMATION;
    assert t[..|head|] == head;
    assert t[..|Decimal(n)|] == head[..|Decimal(n)|] == Decimal(n);
    DecimalReadsBack(n);
  }

  /** One item of the list. */
  datatype Item = Item(id: string, icon: Option<Icon>, text: string, selected: bool)

  /** What `renderContent` shows. */
  datatype Content = Loading | LoginPrompt | Items(items: seq<Item>) | NothingWatched

  /** `isSelected={tx.id === selectedTxId}`, with the item's icon and text. */
  function ItemOf(tx: WatchedTx, selectedTxId: Option<string>): (item: Item)
    ensures item.selected <==> selectedTxId == Some(tx.id)
    ensures item.id == tx.id
  {
    var status := StatusName(tx.status);
    Item(tx.id, StatusIcon(status), StatusText(status, tx.confirmations), selectedTxId == Some(tx.id))
  }

  /** `renderContent`: loading first, then the login prompt, then the list
      when it has items, else the empty message. */
  function RenderContent(isLoading: bool, isLoggedIn: bool, transactions: seq<WatchedTx>,
                         selectedTxId: Option<string>): (c: Content)
    ensures c == Loading <==> isLoading
    ensures c == LoginPrompt <==> !isLoading && !isLoggedIn
    ensures c.Items? <==> !isLoading && isLoggedIn && |transactions| > 0
    ensures c == NothingWatched <==> !isLoading && isLoggedIn && |transactions| == 0
    ensures c.Items? ==> |c.items| == |transactions|
    ensures c.Items? ==> forall i :: 0 <= i < |c.items| ==> c.items[i] == ItemOf(transactions[i], selectedTxId)
  {
    if isLoading then Loading
    else if !isLoggedIn then LoginPrompt
    else if |transactions| > 0 then Items(seq(|transactions|, i requires 0 <= i < |transactions| => ItemOf(transactions[i], selectedTxId)))
    else NothingWatched
  }

  /** With distinct ids, at most one item is shown as selected. */
  lemma AtMostOneSelected(transactions: seq<WatchedTx>, selectedTxId: Option<string>, i: nat, j: nat)
    requires forall a, b :: 0 <= a < b < |transactions| ==> transactions[a].id != transactions[b].id
    requires |transactions| > 0
    requires i < |transactions| && j < |transactions|
    ensures var c := RenderContent(false, true, transactions, selectedTxId);
            c.items[i].selected && c.items[j].selected ==> i == j
  {
  }
}
