/** The quote editor page (src/pages/QuoteBuilder.tsx). Each handler builds
    a new quote with `find`, `map`, `filter` or a spread (the pure transition
    functions below) and commits it with `setQuote`; the page state is the
    class `Builder`. */
module QuoteBuilder {
  import opened Wrappers
  import opened Seqs
  import opened QuoteTypes
  import opened QuoteUtils

  /** The fields the shown `handleAddProduct` leaves out of its new line
      (`sectionId`, `unit`, `included`): supplied by the caller, nothing is
      claimed about them. */
  datatype UnsetItemFields = UnsetItemFields(sectionId: string, unit: string, included: bool)

  /** `quote.items.find((item) => item.product.id === productId)`, as the
      position of that first match. */
  function FindByProduct(items: seq<QuoteItem>, productId: string): (r: Option<nat>)
    ensures r.Some? ==> r.value < |items| && items[r.value].product.id == productId
    ensures r.Some? ==> forall j :: 0 <= j < r.value ==> items[j].product.id != productId
    ensures r.None? <==> forall j :: 0 <= j < |items| ==> items[j].product.id != productId
  {
    FindIndex(items, (it: QuoteItem) => it.product.id == productId)
  }

  /** The first line holding `productId` is the one `find` returns. */
  lemma FindByProductAt(items: seq<QuoteItem>, productId: string, k: nat)
    requires k < |items| && items[k].product.id == productId
    requires forall j :: 0 <= j < k ==> items[j].product.id != productId
    ensures FindByProduct(items, productId) == Some(k)
  {
  }

  /** `{ ...item, quantity, total: item.unitPrice * quantity }`. */
  function WithQuantity(item: QuoteItem, quantity: real): (r: QuoteItem)
    ensures ItemConsistent(r)
    ensures r.quantity == quantity && r.unitPrice == item.unitPrice
    ensures r.(quantity := item.quantity, total := item.total) == item
  {
    item.(quantity := quantity, total := item.unitPrice * quantity)
  }

  /** The lines after `handleUpdateQuantity(itemId, quantity)`: every line
      whose id is `itemId` gets the quantity and a recomputed total; the
      other lines are unchanged. */
  function UpdateQuantityItems(items: seq<QuoteItem>, itemId: string, quantity: real): (r: seq<QuoteItem>)
    ensures |r| == |items|
    ensures forall i :: 0 <= i < |items| && items[i].id != itemId ==> r[i] == items[i]
    ensures forall i :: 0 <= i < |items| && items[i].id == itemId ==>
              r[i] == WithQuantity(items[i], quantity)
    ensures ItemsConsistent(items) ==> ItemsConsistent(r)
  {
    seq(|items|, i requires 0 <= i < |items| =>
      if items[i].id == itemId then WithQuantity(items[i], quantity) else items[i])
  }

  /** Updating the quantity of an id no line has changes nothing. */
  lemma UpdateQuantityUnknownId(items: seq<QuoteItem>, itemId: string, quantity: real)
    requires forall i :: 0 <= i < |items| ==> items[i].id != itemId
    ensures UpdateQuantityItems(items, itemId, quantity) == items
  {
    var r := UpdateQuantityItems(items, itemId, quantity);
    assert forall i :: 0 <= i < |items| ==> r[i] == items[i];
  }

  /** The new quote of `handleUpdateQuantity`: only the lines change. */
  function UpdateQuantity(q: Quote, itemId: string, quantity: real): (r: Quote)
    ensures r == q.(items := r.items)
    ensures ItemsConsistent(q.items) ==> ItemsConsistent(r.items)
  {
    q.(items := UpdateQuantityItems(q.items, itemId, quantity))
  }

  /** The line `handleAddProduct` appends for a product not yet in the
      quote: the catalog price snapshotted, total = price * quantity. */
  function NewItem(product: Product, quantity: real, id: string, unset: UnsetItemFields): (r: QuoteItem)
    ensures ItemConsistent(r)
  {
    QuoteItem(id, unset.sectionId, product, quantity, product.unitPrice, unset.unit,
              product.unitPrice * quantity, None, unset.included)
  }

  /** The lines after `handleAddProduct(product, quantity)`. The first line
      holding the same product id, in ANY section, is merged into by
      `handleUpdateQuantity(line.id, line.quantity + quantity)`; otherwise a
      new line with the fresh id `newId` is appended. */
  function AddProductItems(items: seq<QuoteItem>, product: Product, quantity: real, newId: string,
                           unset: UnsetItemFields): (r: seq<QuoteItem>)
    ensures ItemsConsistent(items) ==> ItemsConsistent(r)
  {
    var existing := FindByProduct(items, product.id);
    if existing.Some? then
      var line := items[existing.value];
      UpdateQuantityItems(items, line.id, line.quantity + quantity)
    else
      items + [NewItem(product, quantity, newId, unset)]
  }

  /** The new quote of `handleAddProduct`: only the lines change. */
  function AddProduct(q: Quote, product: Product, quantity: real, newId: string,
                      unset: UnsetItemFields): (r: Quote)
    ensures r == q.(items := r.items)
    ensures ItemsConsistent(q.items) ==> ItemsConsistent(r.items)
  {
    q.(items := AddProductItems(q.items, product, quantity, newId, unset))
  }

  /** A product that no line holds yet is appended as exactly one new line
      at the end, priced from the catalog; the existing lines are kept. */
  lemma AddProductAppends(items: seq<QuoteItem>, product: Product, quantity: real, newId: string,
                          unset: UnsetItemFields)
    requires forall i :: 0 <= i < |items| ==> items[i].product.id != product.id
    ensures var r := AddProductItems(items, product, quantity, newId, unset);
            && |r| == |items| + 1
            && r[..|items|] == items
            && r[|items|].id == newId
            && r[|items|].product == product
            && r[|items|].quantity == quantity
            && r[|items|].unitPrice == product.unitPrice
            && r[|items|].total == product.unitPrice * quantity
  {
    assert FindByProduct(items, product.id).None?;
  }

  /** With unique line ids, updating the quantity of line `k` by its id
      touches that line alone. */
  lemma UpdateQuantityOfUniqueLine(items: seq<QuoteItem>, k: nat, quantity: real)
    requires UniqueItemIds(items) && k < |items|
    ensures var r := UpdateQuantityItems(items, items[k].id, quantity);
            && r[k] == WithQuantity(items[k], quantity)
            && forall j :: 0 <= j < |items| && j != k ==> r[j] == items[j]
  {
    var r := UpdateQuantityItems(items, items[k].id, quantity);
    forall j | 0 <= j < |items| && j != k ensures r[j] == items[j] {
      if j < k { assert items[j].id != items[k].id; }
      else { assert items[k].id != items[j].id; }
    }
  }

  /** A product some line already holds adds nothing: when line ids are
      unique, the first such line alone gets the summed quantity, and its
      total is ITS OWN unit price times that quantity (not the catalog's). */
  lemma AddProductMerges(items: seq<QuoteItem>, product: Product, quantity: real, newId: string,
                         unset: UnsetItemFields, k: nat)
    requires UniqueItemIds(items)
    requires k < |items| && items[k].product.id == product.id
    requires forall j :: 0 <= j < k ==> items[j].product.id != product.id
    ensures var r := AddProductItems(items, product, quantity, newId, unset);
            && |r| == |items|
            && r[k] == WithQuantity(items[k], items[k].quantity + quantity)
            && forall j :: 0 <= j < |items| && j != k ==> r[j] == items[j]
  {
    FindByProductAt(items, product.id, k);
    UpdateQuantityOfUniqueLine(items, k, items[k].quantity + quantity);
  }

  /** Adding a product twice, starting from lines without it, leaves ONE
      line whose quantity is the sum of both additions and whose total
      reflects it (the first line's fresh id must not be in use). */
  lemma AddSameProductTwice(items: seq<QuoteItem>, product: Product, a: real, b: real,
                            id1: string, id2: string, u1: UnsetItemFields, u2: UnsetItemFields)
    requires forall i :: 0 <= i < |items| ==> items[i].product.id != product.id
    requires forall i :: 0 <= i < |items| ==> items[i].id != id1
    ensures AddProductItems(AddProductItems(items, product, a, id1, u1), product, b, id2, u2)
            == items + [NewItem(product, a + b, id1, u1)]
  {
    var items1 := AddProductItems(items, product, a, id1, u1);
    assert FindByProduct(items, product.id).None?;
    assert items1 == items + [NewItem(product, a, id1, u1)];
    var n := |items|;
    FindByProductAt(items1, product.id, n);
    var r := UpdateQuantityItems(items1, id1, a + b);
    assert AddProductItems(items1, product, b, id2, u2) == r;
    var want := items + [NewItem(product, a + b, id1, u1)];
    forall i | 0 <= i < n ensures r[i] == want[i] {
      assert items1[i] == items[i];
    }
    assert r[n] == WithQuantity(NewItem(product, a, id1, u1), a + b);
    assert r[n] == want[n];
  }

  /** The new quote of `handleRemoveItem(itemId)`: exactly the lines with
      that id are gone, the others stay in order. */
  function RemoveItem(q: Quote, itemId: string): (r: Quote)
    ensures r == q.(items := r.items)
    ensures forall i :: 0 <= i < |r.items| ==> r.items[i].id != itemId && r.items[i] in q.items
    ensures forall i :: 0 <= i < |q.items| && q.items[i].id != itemId ==> q.items[i] in r.items
    ensures IsSubsequence(r.items, q.items)
    ensures forall it {:trigger multiset(r.items)[it]} :: multiset(r.items)[it] == if it.id != itemId then multiset(q.items)[it] else 0
    ensures ItemsConsistent(q.items) ==> ItemsConsistent(r.items)
    ensures (forall i :: 0 <= i < |q.items| ==> q.items[i].id != itemId) ==> r == q
  {
    var keep := (it: QuoteItem) => it.id != itemId;
    FilterIsSubsequence(q.items, keep);
    FilterMultiset(q.items, keep);
    if forall i :: 0 <= i < |q.items| ==> q.items[i].id != itemId then
      FilterAll(q.items, keep);
      q.(items := Filter(q.items, keep))
    else
      q.(items := Filter(q.items, keep))
  }

  /** A `Partial<Quote>`: each field present or absent. */
  datatype QuoteUpdate = QuoteUpdate(
    id: Option<string>,
    number: Option<string>,
    date: Option<Day>,
    validUntil: Option<Day>,
    trade: Option<Trade>,
    client: Option<Client>,
    companyInfo: Option<CompanyInfo>,
    sections: Option<seq<QuoteSection>>,
    items: Option<seq<QuoteItem>>,
    laborHours: Option<real>,
    laborRate: Option<real>,
    laborVisible: Option<bool>,
    marginPercent: Option<real>,
    discountPercent: Option<real>,
    tvaRate: Option<real>,
    notes: Option<string>)

  const NoUpdate := QuoteUpdate(None, None, None, None, None, None, None, None,
                                None, None, None, None, None, None, None, None)

  /** `{ ...quote, ...updates }`: the supplied fields overwrite, the others
      are kept. */
  function UpdateQuote(q: Quote, u: QuoteUpdate): (r: Quote)
    ensures u.id.Some? ==> r.id == u.id.value
    ensures u.id.None? ==> r.id == q.id
    ensures u.number.Some? ==> r.number == u.number.value
    ensures u.number.None? ==> r.number == q.number
    ensures u.date.Some? ==> r.date == u.date.value
    ensures u.date.None? ==> r.date == q.date
    ensures u.validUntil.Some? ==> r.validUntil == u.validUntil.value
    ensures u.validUntil.None? ==> r.validUntil == q.validUntil
    ensures u.trade.Some? ==> r.trade == u.trade.value
    ensures u.trade.None? ==> r.trade == q.trade
    ensures u.client.Some? ==> r.client == u.client.value
    ensures u.client.None? ==> r.client == q.client
    ensures u.companyInfo.Some? ==> r.companyInfo == u.companyInfo.value
    ensures u.companyInfo.None? ==> r.companyInfo == q.companyInfo
    ensures u.sections.Some? ==> r.sections == u.sections.value
    ensures u.sections.None? ==> r.sections == q.sections
    ensures u.items.Some? ==> r.items == u.items.value
    ensures u.items.None? ==> r.items == q.items
    ensures u.laborHours.Some? ==> r.laborHours == u.laborHours.value
    ensures u.laborHours.None? ==> r.laborHours == q.laborHours
    ensures u.laborRate.Some? ==> r.laborRate == u.laborRate.value
    ensures u.laborRate.None? ==> r.laborRate == q.laborRate
    ensures u.laborVisible.Some? ==> r.laborVisible == u.laborVisible.value
    ensures u.laborVisible.None? ==> r.laborVisible == q.laborVisible
    ensures u.marginPercent.Some? ==> r.marginPercent == u.marginPercent.value
    ensures u.marginPercent.None? ==> r.marginPercent == q.marginPercent
    ensures u.discountPercent.Some? ==> r.discountPercent == u.discountPercent.value
    ensures u.discountPercent.None? ==> r.discountPercent == q.discountPercent
    ensures u.tvaRate.Some? ==> r.tvaRate == u.tvaRate.value
    ensures u.tvaRate.None? ==> r.tvaRate == q.tvaRate
    ensures u.notes.Some? ==> r.notes == u.notes.value
    ensures u.notes.None? ==> r.notes == q.notes
    ensures u == NoUpdate ==> r == q
  {
    Quote(
      u.id.GetOr(q.id), u.number.GetOr(q.number), u.date.GetOr(q.date),
      u.validUntil.GetOr(q.validUntil), u.trade.GetOr(q.trade), u.client.GetOr(q.client),
      u.companyInfo.GetOr(q.companyInfo), u.sections.GetOr(q.sections), u.items.GetOr(q.items),
      u.laborHours.GetOr(q.laborHours), u.laborRate.GetOr(q.laborRate),
      u.laborVisible.GetOr(q.laborVisible), u.marginPercent.GetOr(q.marginPercent),
      u.discountPercent.GetOr(q.discountPercent), u.tvaRate.GetOr(q.tvaRate),
      u.notes.GetOr(q.notes))
  }

  /** Applying the same partial update twice is applying it once. */
  lemma UpdateQuoteIdempotent(q: Quote, u: QuoteUpdate)
    ensures UpdateQuote(UpdateQuote(q, u), u) == UpdateQuote(q, u)
  {
  }

  /** The field of a later update where it is supplied, else the earlier one. */
  function Override<T>(earlier: Option<T>, later: Option<T>): Option<T> {
    if later.Some? then later else earlier
  }

  /** Reading through two layers is reading through their override. */
  lemma OverrideGetOr<T>(earlier: Option<T>, later: Option<T>, default: T)
    ensures later.GetOr(earlier.GetOr(default)) == Override(earlier, later).GetOr(default)
  {
  }

  /** Two updates in a row, as one: each field from the later update where
      it supplies one, else from the earlier. */
  function Then(u: QuoteUpdate, v: QuoteUpdate): QuoteUpdate {
    QuoteUpdate(Override(u.id, v.id), Override(u.number, v.number), Override(u.date, v.date), Override(u.validUntil, v.validUntil), Override(u.trade, v.trade), Override(u.client, v.client), Override(u.companyInfo, v.companyInfo), Override(u.sections, v.sections), Override(u.items, v.items), Override(u.laborHours, v.laborHours), Override(u.laborRate, v.laborRate), Override(u.laborVisible, v.laborVisible), Override(u.marginPercent, v.marginPercent), Override(u.discountPercent, v.discountPercent), Override(u.tvaRate, v.tvaRate), Override(u.notes, v.notes))
  }

  /** Updating twice is updating once with the combined update: on every
      field it supplies, the later update wins. */
  lemma UpdateQuoteCompose(q: Quote, u: QuoteUpdate, v: QuoteUpdate)
    ensures UpdateQuote(UpdateQuote(q, u), v) == UpdateQuote(q, Then(u, v))
  {
    OverrideGetOr(u.id, v.id, q.id);
    OverrideGetOr(u.number, v.number, q.number);
    OverrideGetOr(u.date, v.date, q.date);
    OverrideGetOr(u.validUntil, v.validUntil, q.validUntil);
    OverrideGetOr(u.trade, v.trade, q.trade);
    OverrideGetOr(u.client, v.client, q.client);
    OverrideGetOr(u.companyInfo, v.companyInfo, q.companyInfo);
    OverrideGetOr(u.sections, v.sections, q.sections);
    OverrideGetOr(u.items, v.items, q.items);
    OverrideGetOr(u.laborHours, v.laborHours, q.laborHours);
    OverrideGetOr(u.laborRate, v.laborRate, q.laborRate);
    OverrideGetOr(u.laborVisible, v.laborVisible, q.laborVisible);
    OverrideGetOr(u.marginPercent, v.marginPercent, q.marginPercent);
    OverrideGetOr(u.discountPercent, v.discountPercent, q.discountPercent);
    OverrideGetOr(u.tvaRate, v.tvaRate, q.tvaRate);
    OverrideGetOr(u.notes, v.notes, q.notes);
  }

  /** An update supplying every field replaces the whole quote: what was
      there before does not show through. */
  lemma UpdateQuoteTotal(q1: Quote, q2: Quote, u: QuoteUpdate)
    requires u.id.Some? && u.number.Some? && u.date.Some? && u.validUntil.Some?
    requires u.trade.Some? && u.client.Some? && u.companyInfo.Some? && u.sections.Some?
    requires u.items.Some? && u.laborHours.Some? && u.laborRate.Some? && u.laborVisible.Some?
    requires u.marginPercent.Some? && u.discountPercent.Some? && u.tvaRate.Some? && u.notes.Some?
    ensures UpdateQuote(q1, u) == UpdateQuote(q2, u)
  {
  }

  /** The state of the page: the chosen trade and the quote being edited
      (`useState<Trade | null>`, `useState<Quote | null>`). */
  class Builder {
    var trade: Option<Trade>
    var quote: Option<Quote>

    /** A quote is edited exactly when a trade is chosen. */
    ghost predicate Valid()
      reads this
    {
      trade.Some? <==> quote.Some?
    }

    /** Every line of the edited quote has total = unit price * quantity. */
    ghost predicate LinesConsistent()
      reads this
    {
      quote.Some? ==> ItemsConsistent(quote.value.items)
    }

    constructor ()
      ensures Valid() && LinesConsistent()
      ensures trade == None && quote == None
    {
      trade := None;
      quote := None;
    }

    /** The `useMemo` of the page: the calculations of the current quote. */
    function Calculations(): (c: Option<QuoteCalculations>)
      reads this
      ensures c.Some? <==> quote.Some?
      ensures c.Some? ==> c.value == CalculateQuote(quote.value)
    {
      match quote
      case None => None
      case Some(q) => Some(CalculateQuote(q))
    }

    /** `handleTradeSelect`: choose the trade and start an empty quote. */
    method HandleTradeSelect(selected: Trade, id: string, today: Day, year: nat, month: nat,
                             random: real, unset: UnsetQuoteFields)
      requires 0.0 <= random < 1.0
      modifies this
      ensures Valid() && LinesConsistent()
      ensures trade == Some(selected)
      ensures quote == Some(CreateEmptyQuote(selected, id, today, year, month, random, unset))
    {
      trade := Some(selected);
      quote := Some(CreateEmptyQuote(selected, id, today, year, month, random, unset));
    }

    /** `handleUpdateQuantity`: a no-op without a quote. */
    method HandleUpdateQuantity(itemId: string, quantity: real)
      requires Valid()
      modifies this
      ensures Valid() && trade == old(trade)
      ensures old(LinesConsistent()) ==> LinesConsistent()
      ensures quote == match old(quote)
                       case None => None
                       case Some(q) => Some(UpdateQuantity(q, itemId, quantity))
    {
      if quote.None? {
        return;
      }
      quote := Some(UpdateQuantity(quote.value, itemId, quantity));
    }

    /** `handleAddProduct`: merge into the first line of the same product,
        or append a new line with the fresh id `newId`. */
    method HandleAddProduct(product: Product, quantity: real, newId: string, unset: UnsetItemFields)
      requires Valid()
      modifies this
      ensures Valid() && trade == old(trade)
      ensures old(LinesConsistent()) ==> LinesConsistent()
      ensures quote == match old(quote)
                       case None => None
                       case Some(q) => Some(AddProduct(q, product, quantity, newId, unset))
    {
      if quote.None? {
        return;
      }
      quote := Some(AddProduct(quote.value, product, quantity, newId, unset));
    }

    /** `handleRemoveItem`: a no-op without a quote. */
    method HandleRemoveItem(itemId: string)
      requires Valid()
      modifies this
      ensures Valid() && trade == old(trade)
      ensures old(LinesConsistent()) ==> LinesConsistent()
      ensures quote == match old(quote)
                       case None => None
                       case Some(q) => Some(RemoveItem(q, itemId))
    {
      if quote.None? {
        return;
      }
      quote := Some(RemoveItem(quote.value, itemId));
    }

    /** `handleUpdateQuote`: a no-op without a quote. Line consistency is
        kept unless the update itself brings inconsistent lines. */
    method HandleUpdateQuote(u: QuoteUpdate)
      requires Valid()
      modifies this
      ensures Valid() && trade == old(trade)
      ensures old(LinesConsistent()) && (u.items.None? || ItemsConsistent(u.items.value))
              ==> LinesConsistent()
      ensures quote == match old(quote)
                       case None => None
                       case Some(q) => Some(UpdateQuote(q, u))
    {
      if quote.None? {
        return;
      }
      quote := Some(UpdateQuote(quote.value, u));
    }

    /** `handleReset`: back to the trade selector. */
    method HandleReset()
      modifies this
      ensures Valid() && LinesConsistent()
      ensures trade == None && quote == None
    {
      trade := None;
      quote := None;
    }
  }
}
