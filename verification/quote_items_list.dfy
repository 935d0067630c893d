/** The list of quote lines (src/components/quote/QuoteItemsList.tsx). The
    component keeps no state: each control computes the quantity it asks
    the editor for, from the line's current quantity. A typed value is
    given as what `parseInt` reads from it, `None` standing for NaN. */
module QuoteItemsList {
  import opened Wrappers
  import opened QuoteTypes
  import opened QuoteBuilder

  /** The minus button: `Math.max(1, quantity - 1)`. */
  function MinusRequest(quantity: real): (r: real)
    ensures r >= 1.0
    ensures quantity >= 2.0 ==> r == quantity - 1.0
    ensures quantity <= 2.0 ==> r == 1.0
  {
    if quantity - 1.0 >= 1.0 then quantity - 1.0 else 1.0
  }

  /** The plus button: one more than the current quantity. */
  function PlusRequest(quantity: real): (r: real)
    ensures r == quantity + 1.0
    ensures r > quantity
  {
    quantity + 1.0
  }

  /** The number field: `parseInt(value) || 1`, the read integer, or 1
      when it reads as NaN or 0. A negative value goes through as it is. */
  function TypedRequest(parsed: Option<int>): (r: real)
    ensures r != 0.0
    ensures parsed.Some? && parsed.value != 0 ==> r == parsed.value as real
    ensures parsed.None? ==> r == 1.0
    ensures parsed == Some(0) ==> r == 1.0
  {
    if parsed.Some? && parsed.value != 0 then parsed.value as real else 1.0
  }

  /** Minus undoes plus on any quantity of at least 1. */
  lemma MinusUndoesPlus(quantity: real)
    requires quantity >= 1.0
    ensures MinusRequest(PlusRequest(quantity)) == quantity
  {
  }

  /** Plus undoes minus when minus did not stop at the floor. */
  lemma PlusUndoesMinus(quantity: real)
    requires quantity >= 2.0
    ensures PlusRequest(MinusRequest(quantity)) == quantity
  {
  }

  /** Minus never raises a quantity of at least 1. */
  lemma MinusLowers(quantity: real)
    requires quantity >= 1.0
    ensures 1.0 <= MinusRequest(quantity) <= quantity
  {
  }

  /** The typed field has no floor: a negative number is requested. */
  lemma TypedRequestHasNoFloor(n: int)
    requires n < 0
    ensures TypedRequest(Some(n)) < 1.0
    ensures TypedRequest(Some(n)) == n as real
  {
  }

  /** One displayed line: the product's name, the line's unit price over
      the product's unit, the quantity, and the line's stored total. */
  datatype Row = Row(name: string, unitPrice: real, unit: string, quantity: real, total: real)

  function RowOf(item: QuoteItem): (r: Row)
    ensures r.name == item.product.name
    ensures r.total == item.total && r.quantity == item.quantity
    ensures r.unit == item.product.unit && r.unitPrice == item.unitPrice
  {
    Row(item.product.name, item.unitPrice, item.product.unit, item.quantity, item.total)
  }

  /** The rows, one per line, in the order of the lines. */
  function Rows(items: seq<QuoteItem>): (r: seq<Row>)
    ensures |r| == |items| && forall i :: 0 <= i < |items| ==> r[i] == RowOf(items[i])
  {
    seq(|items|, i requires 0 <= i < |items| => RowOf(items[i]))
  }

  /** The displayed total is the stored one; it is the unit price times the
      quantity only on a consistent line. */
  lemma RowTotalIsStored(item: QuoteItem)
    ensures RowOf(item).total == RowOf(item).unitPrice * RowOf(item).quantity <==> ItemConsistent(item)
  {
  }

  /** After the editor applies a minus request, the line has a quantity of
      at least 1 and a total that matches it. */
  lemma MinusThenUpdate(items: seq<QuoteItem>, k: nat)
    requires k < |items|
    ensures var r := UpdateQuantityItems(items, items[k].id, MinusRequest(items[k].quantity));
            r[k].quantity >= 1.0 && ItemConsistent(r[k])
  {
  }

  /** After the editor applies a plus request, the line's quantity is one
      more than before, and its total one unit price more. */
  lemma PlusThenUpdate(items: seq<QuoteItem>, k: nat)
    requires k < |items| && ItemConsistent(items[k])
    ensures var r := UpdateQuantityItems(items, items[k].id, PlusRequest(items[k].quantity));
            r[k].quantity == items[k].quantity + 1.0 && r[k].total == items[k].total + items[k].unitPrice
  {
  }
}
