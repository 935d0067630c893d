/** The printable quote (src/components/quote/QuotePreview.tsx): which
    blocks the document shows, in which order, with which rows, subtotals
    and fallback texts. The plan is a list of typed blocks; fixed labels
    ("DEVIS", "Tél: ", "SIRET: ", "Sous-total", ...) and the currency and
    date formatting belong to rendering and are not part of it. */
module QuotePreview {
  import opened Wrappers
  import opened Seqs
  import opened QuoteTypes
  import opened QuoteUtils

  /** The contact lines of the company or the client. A line that is not
      shown is `None`. */
  datatype Party = Party(
    name: string,
    address: Option<string>,
    locality: Option<string>,
    phone: Option<string>,
    email: Option<string>)

  /** One row of a section table. */
  datatype Row = Row(
    name: string,
    description: Option<string>,
    quantity: real,
    unit: string,
    unitPrice: real,
    total: real)

  datatype TotalLine =
    | TotalHT(amount: real)
    | Discount(percent: real, amount: real)
    | Tva(rate: real, amount: real)
    | TotalTTC(amount: real)

  datatype Block =
    | Header(company: Party, siret: Option<string>, number: string, date: Day, validUntil: Day)
    | ClientBlock(client: Party)
    | SectionBlock(id: string, name: string, rows: seq<Row>, subtotal: real)
    | LaborBlock(hours: real, rate: real, cost: real)
    | TotalsBlock(lines: seq<TotalLine>)
    | NotesBlock(notes: string)
    | Footer(validUntil: Day)

  /** `{s && <p>{s}</p>}`: a string is shown when it is not empty. */
  function Shown(s: string): (r: Option<string>)
    ensures r.Some? <==> s != ""
    ensures r.Some? ==> r.value == s
  {
    if s == "" then None else Some(s)
  }

  /** The `{postalCode} {city}` line, shown when either part is set. */
  function Locality(postalCode: string, city: string): (r: Option<string>)
    ensures r.Some? <==> postalCode != "" || city != ""
    ensures r.Some? ==> r.value == postalCode + " " + city
  {
    if postalCode != "" || city != "" then Some(postalCode + " " + city) else None
  }

  /** The company's lines; its name is printed as it is. */
  function CompanyParty(info: CompanyInfo): (r: Party)
    ensures r.name == info.name
    ensures r.address == Shown(info.address) && r.email == Shown(info.email)
    ensures r.locality == Locality(info.postalCode, info.city)
    ensures r.phone == Shown(info.phone)
    ensures r.locality.Some? <==> info.postalCode != "" || info.city != ""
    ensures r.phone.Some? <==> info.phone != ""
  {
    Party(info.name, Shown(info.address), Locality(info.postalCode, info.city),
          Shown(info.phone), Shown(info.email))
  }

  /** The SIRET line: shown when the optional number is present and not
      empty. */
  function Siret(info: CompanyInfo): (r: Option<string>)
    ensures r.Some? <==> info.siret.Some? && info.siret.value != ""
    ensures r.Some? ==> r == info.siret
  {
    if info.siret.Some? then Shown(info.siret.value) else None
  }

  /** The client's lines; an empty name reads "Non renseigné". */
  function ClientParty(client: Client): (r: Party)
    ensures r.name != ""
    ensures client.name != "" ==> r.name == client.name
    ensures client.name == "" ==> r.name == "Non renseigné"
    ensures r.locality.Some? <==> client.postalCode != "" || client.city != ""
    ensures r.address.Some? <==> client.address != ""
    ensures r.address == Shown(client.address) && r.locality == Locality(client.postalCode, client.city)
    ensures r.phone == Shown(client.phone) && r.email == Shown(client.email)
  {
    var name := if client.name != "" then client.name else "Non renseigné";
    Party(name, Shown(client.address), Locality(client.postalCode, client.city),
          Shown(client.phone), Shown(client.email))
  }

  /** `quote.items.filter((item) => item.included)`. */
  function IncludedItems(items: seq<QuoteItem>): (r: seq<QuoteItem>)
    ensures forall i :: 0 <= i < |r| ==> r[i].included && r[i] in items
    ensures forall i :: 0 <= i < |items| && items[i].included ==> items[i] in r
    ensures IsSubsequence(r, items)
    ensures forall x {:trigger multiset(r)[x]} :: multiset(r)[x] == if x.included then multiset(items)[x] else 0
  {
    FilterIsSubsequence(items, IsIncluded);
    FilterMultiset(items, IsIncluded);
    Filter(items, IsIncluded)
  }

  predicate IsIncluded(item: QuoteItem) {
    item.included
  }

  predicate IsExcluded(item: QuoteItem) {
    !item.included
  }

  predicate InSection(sectionId: string, item: QuoteItem) {
    item.sectionId == sectionId
  }

  predicate IncludedIn(sectionId: string, item: QuoteItem) {
    item.included && item.sectionId == sectionId
  }

  /** `getSectionItems`: the included items of the section, filtered from
      the included items. */
  function SectionItems(items: seq<QuoteItem>, sectionId: string): (r: seq<QuoteItem>)
    ensures forall i :: 0 <= i < |r| ==> r[i].included && r[i].sectionId == sectionId && r[i] in items
    ensures forall i :: 0 <= i < |items| && items[i].included && items[i].sectionId == sectionId ==> items[i] in r
  {
    Filter(IncludedItems(items), item => InSection(sectionId, item))
  }

  /** The rows of a section are exactly the items that are included and
      belong to it, in the order of the quote's items. */
  lemma SectionItemsInOrder(items: seq<QuoteItem>, sectionId: string)
    ensures SectionItems(items, sectionId) == Filter(items, item => IncludedIn(sectionId, item))
    ensures IsSubsequence(SectionItems(items, sectionId), items)
  {
    var inSection := item => InSection(sectionId, item);
    var includedIn := item => IncludedIn(sectionId, item);
    FilterCompose(items, IsIncluded, inSection, includedIn);
    FilterIsSubsequence(items, includedIn);
  }

  /** `getSectionTotal`: the sum of the stored totals of the section's
      included items. */
  function SectionTotal(items: seq<QuoteItem>, sectionId: string): real {
    SumTotals(SectionItems(items, sectionId))
  }

  /** Every excluded item, and every item of an unknown section, adds
      nothing to a section's subtotal: the subtotal only depends on the
      included items of that section. */
  lemma SectionTotalOfIncluded(items: seq<QuoteItem>, sectionId: string)
    ensures SectionTotal(items, sectionId) == SumTotals(Filter(items, item => IncludedIn(sectionId, item)))
  {
    SectionItemsInOrder(items, sectionId);
  }

  predicate HasRows(items: seq<QuoteItem>, section: QuoteSection) {
    |SectionItems(items, section.id)| > 0
  }

  /** `visibleSections`: the sections with at least one row, in the order
      of `quote.sections`. */
  function VisibleSections(q: Quote): (r: seq<QuoteSection>)
    ensures forall i :: 0 <= i < |r| ==> r[i] in q.sections && HasRows(q.items, r[i])
    ensures forall i :: 0 <= i < |q.sections| && HasRows(q.items, q.sections[i]) ==> q.sections[i] in r
    ensures IsSubsequence(r, q.sections)
    ensures forall s {:trigger multiset(r)[s]} :: multiset(r)[s] == if HasRows(q.items, s) then multiset(q.sections)[s] else 0
  {
    var shown := section => HasRows(q.items, section);
    FilterIsSubsequence(q.sections, shown);
    FilterMultiset(q.sections, shown);
    Filter(q.sections, shown)
  }

  /** A section has rows if and only if some item is included and belongs
      to it. */
  lemma HasRowsIff(items: seq<QuoteItem>, section: QuoteSection)
    ensures HasRows(items, section)
            <==> exists j :: 0 <= j < |items| && items[j].included && items[j].sectionId == section.id
  {
    var r := SectionItems(items, section.id);
    if |r| > 0 {
      var j :| 0 <= j < |items| && items[j] == r[0];
    }
  }

  /** A section of the quote is shown if and only if at least one included
      item belongs to it. */
  lemma SectionShownIff(q: Quote, section: QuoteSection)
    requires section in q.sections
    ensures section in VisibleSections(q)
            <==> exists j :: 0 <= j < |q.items| && q.items[j].included && q.items[j].sectionId == section.id
  {
    HasRowsIff(q.items, section);
    var vis := VisibleSections(q);
    if section in vis {
      var i :| 0 <= i < |vis| && vis[i] == section;
    } else {
      var i :| 0 <= i < |q.sections| && q.sections[i] == section;
    }
  }

  /** A row shows the line's stored values; an empty unit reads "-". */
  function RowOf(item: QuoteItem): (r: Row)
    ensures r.unit != ""
    ensures item.unit != "" ==> r.unit == item.unit
    ensures r.total == item.total && r.unitPrice == item.unitPrice && r.quantity == item.quantity
    ensures r.name == item.product.name
    ensures r.description.Some? <==> item.description.Some? && item.description.value != ""
    ensures r.description.Some? ==> r.description == item.description
  {
    var description := if item.description.Some? then Shown(item.description.value) else None;
    Row(item.product.name, description, item.quantity,
        if item.unit != "" then item.unit else "-", item.unitPrice, item.total)
  }

  function Rows(items: seq<QuoteItem>): (r: seq<Row>)
    ensures |r| == |items| && forall i {:trigger r[i]} :: 0 <= i < |items| ==> r[i] == RowOf(items[i])
  {
    seq(|items|, i requires 0 <= i < |items| => RowOf(items[i]))
  }

  /** The block of one section: its id and name, one row per included
      line of the section in the order of the quote's items, and the sum
      of those lines' totals as its subtotal. */
  function SectionBlockOf(items: seq<QuoteItem>, section: QuoteSection): (r: Block)
    ensures r.SectionBlock? && r.id == section.id && r.name == section.name
    ensures |r.rows| == |SectionItems(items, section.id)|
    ensures forall j {:trigger r.rows[j]} :: 0 <= j < |r.rows| ==> r.rows[j] == RowOf(SectionItems(items, section.id)[j])
    ensures r.subtotal == SectionTotal(items, section.id)
  {
    var rows := SectionItems(items, section.id);
    SectionBlock(section.id, section.name, Rows(rows), SectionTotal(items, section.id))
  }

  /** A section's block lists, in the order of the quote's items, one row
      per line that is included and belongs to the section, and its
      subtotal is the sum of those lines' totals. */
  lemma SectionBlockContents(items: seq<QuoteItem>, section: QuoteSection)
    ensures var b := SectionBlockOf(items, section);
            var included := Filter(items, item => IncludedIn(section.id, item));
            && |b.rows| == |included|
            && (forall j {:trigger b.rows[j]} :: 0 <= j < |included| ==> b.rows[j] == RowOf(included[j]))
            && b.subtotal == SumTotals(included)
  {
    SectionItemsInOrder(items, section.id);
  }

  /** One block per shown section, in the same order. */
  function SectionBlocks(q: Quote): (r: seq<Block>)
    ensures var vis := VisibleSections(q);
            |r| == |vis| && forall i {:trigger r[i]} :: 0 <= i < |vis| ==> r[i] == SectionBlockOf(q.items, vis[i])
  {
    var vis := VisibleSections(q);
    seq(|vis|, i requires 0 <= i < |vis| => SectionBlockOf(q.items, vis[i]))
  }

  /** The totals: HT first, TVA and TTC last, and the discount line
      between them only when there is a discount. */
  function TotalLines(q: Quote, c: QuoteCalculations): (r: seq<TotalLine>)
    ensures |r| == 3 || |r| == 4
    ensures r[0] == TotalHT(c.totalHT)
    ensures r[|r| - 2] == Tva(q.tvaRate, c.tva) && r[|r| - 1] == TotalTTC(c.totalTTC)
    ensures |r| == 4 <==> c.discount > 0.0
    ensures |r| == 4 ==> r[1] == Discount(q.discountPercent, c.discount)
  {
    [TotalHT(c.totalHT)]
      + (if c.discount > 0.0 then [Discount(q.discountPercent, c.discount)] else [])
      + [Tva(q.tvaRate, c.tva), TotalTTC(c.totalTTC)]
  }

  predicate LaborShown(q: Quote, c: QuoteCalculations) {
    q.laborVisible && c.laborCost > 0.0
  }

  /** The company header and the client block. */
  function Head(q: Quote): (r: seq<Block>)
    ensures |r| == 2
    ensures r[0] == Header(CompanyParty(q.companyInfo), Siret(q.companyInfo), q.number, q.date, q.validUntil)
    ensures r[1] == ClientBlock(ClientParty(q.client))
  {
    [Header(CompanyParty(q.companyInfo), Siret(q.companyInfo), q.number, q.date, q.validUntil),
     ClientBlock(ClientParty(q.client))]
  }

  /** What follows the sections: the labour block when shown, the totals,
      the notes when there are any, and the footer. */
  function Tail(q: Quote, c: QuoteCalculations): (r: seq<Block>)
    ensures |r| == 2 + (if LaborShown(q, c) then 1 else 0) + (if q.notes != "" then 1 else 0)
    ensures forall i :: 0 <= i < |r| ==> !r[i].SectionBlock?
  {
    (if LaborShown(q, c) then [LaborBlock(q.laborHours, q.laborRate, c.laborCost)] else [])
      + [TotalsBlock(TotalLines(q, c))]
      + (if q.notes != "" then [NotesBlock(q.notes)] else [])
      + [Footer(q.validUntil)]
  }

  /** The document, top to bottom. */
  function Plan(q: Quote, c: QuoteCalculations): seq<Block> {
    Head(q) + SectionBlocks(q) + Tail(q, c)
  }

  /** Where a block of the plan comes from. */
  lemma PlanAt(q: Quote, c: QuoteCalculations, i: nat)
    requires i < |Plan(q, c)|
    ensures var k := 2 + |SectionBlocks(q)|;
            Plan(q, c)[i] == if i < 2 then Head(q)[i] else if i < k then SectionBlocks(q)[i - 2] else Tail(q, c)[i - k]
  {
    var h, s, t := Head(q), SectionBlocks(q), Tail(q, c);
    assert Plan(q, c) == h + s + t;
    // One case per part of the plan, so that each case sees one branch.
    if i < 2 {
      ConcatAt(h, s, t, i);
    } else if i < 2 + |s| {
      ConcatAt(h, s, t, i);
    } else {
      ConcatAt(h, s, t, i);
    }
  }


  /** The labour block comes first in the tail exactly when it is shown,
      the footer last; the notes block sits right before the footer. */
  lemma TailLayout(q: Quote, c: QuoteCalculations)
    ensures var t := Tail(q, c);
            var l := if LaborShown(q, c) then 1 else 0;
            && (LaborShown(q, c) ==> t[0] == LaborBlock(q.laborHours, q.laborRate, c.laborCost))
            && t[l] == TotalsBlock(TotalLines(q, c))
            && (q.notes != "" ==> t[l + 1] == NotesBlock(q.notes))
            && t[|t| - 1] == Footer(q.validUntil)
            && (forall i :: 0 <= i < |t| && t[i].LaborBlock? ==> LaborShown(q, c) && i == 0)
            && (forall i :: 0 <= i < |t| && t[i].NotesBlock? ==> q.notes != "" && i == l + 1)
  {
  }

  /** The document opens with the company header and the client block,
      and has one block more than the header, client, totals and footer
      for each shown section, for the labour block and for the notes. */
  lemma PlanStart(q: Quote, c: QuoteCalculations)
    ensures var p := Plan(q, c);
            && |p| == |VisibleSections(q)| + 4 + (if LaborShown(q, c) then 1 else 0) + (if q.notes != "" then 1 else 0)
            && p[0] == Header(CompanyParty(q.companyInfo), Siret(q.companyInfo), q.number, q.date, q.validUntil)
            && p[1] == ClientBlock(ClientParty(q.client))
  {
    PlanAt(q, c, 0);
    PlanAt(q, c, 1);
  }

  /** After the client block come the shown sections, one block each, in
      the order of the quote's sections. */
  lemma PlanSections(q: Quote, c: QuoteCalculations)
    ensures var p := Plan(q, c);
            var vis := VisibleSections(q);
            |vis| + 2 <= |p| && forall i :: 0 <= i < |vis| ==> p[2 + i] == SectionBlockOf(q.items, vis[i])
  {
    var vis := VisibleSections(q);
    forall i | 0 <= i < |vis| ensures Plan(q, c)[2 + i] == SectionBlockOf(q.items, vis[i]) {
      PlanSectionAt(q, c, i);
    }
  }

  /** The block right after the client block, shifted by i, is the i-th
      shown section's. */
  lemma PlanSectionAt(q: Quote, c: QuoteCalculations, i: nat)
    requires i < |VisibleSections(q)|
    ensures 2 + i < |Plan(q, c)| && Plan(q, c)[2 + i] == SectionBlockOf(q.items, VisibleSections(q)[i])
  {
    PlanAt(q, c, 2 + i);
  }

  /** The block of the i-th shown section lists, in order, one row per
      included line of that section, and its subtotal is the sum of those
      lines' totals. */
  lemma PlanSectionContents(q: Quote, c: QuoteCalculations, i: nat)
    requires i < |VisibleSections(q)|
    ensures var p := Plan(q, c);
            var section := VisibleSections(q)[i];
            var included := Filter(q.items, item => IncludedIn(section.id, item));
            && 2 + i < |p|
            && p[2 + i].SectionBlock? && p[2 + i].id == section.id && p[2 + i].name == section.name
            && |p[2 + i].rows| == |included|
            && (forall j :: 0 <= j < |included| ==> p[2 + i].rows[j] == RowOf(included[j]))
            && p[2 + i].subtotal == SumTotals(included)
  {
    PlanSectionAt(q, c, i);
    SectionBlockContents(q.items, VisibleSections(q)[i]);
  }

  /** The document closes with the footer and its validity date. */
  lemma PlanEnd(q: Quote, c: QuoteCalculations)
    ensures var p := Plan(q, c);
            |p| > 0 && p[|p| - 1] == Footer(q.validUntil)
  {
    var p := Plan(q, c);
    TailLayout(q, c);
    PlanAt(q, c, |p| - 1);
  }

  /** The labour block appears if and only if labour is visible and costs
      something. */
  lemma LaborShownIff(q: Quote, c: QuoteCalculations)
    ensures var p := Plan(q, c);
            (exists i :: 0 <= i < |p| && p[i].LaborBlock?) <==> LaborShown(q, c)
  {
    if LaborShown(q, c) {
      TailLayout(q, c);
      PlanAt(q, c, 2 + |SectionBlocks(q)|);
    } else {
      NoLaborBlock(q, c);
    }
  }

  lemma NoLaborBlock(q: Quote, c: QuoteCalculations)
    requires !LaborShown(q, c)
    ensures var p := Plan(q, c);
            forall i :: 0 <= i < |p| ==> !p[i].LaborBlock?
  {
    var p := Plan(q, c);
    TailLayout(q, c);
    forall i | 0 <= i < |p| ensures !p[i].LaborBlock? {
      PlanAt(q, c, i);
    }
  }

  /** The notes block appears if and only if there are notes. */
  lemma NotesShownIff(q: Quote, c: QuoteCalculations)
    ensures var p := Plan(q, c);
            (exists i :: 0 <= i < |p| && p[i].NotesBlock?) <==> q.notes != ""
  {
    if q.notes != "" {
      var l := if LaborShown(q, c) then 1 else 0;
      TailLayout(q, c);
      PlanAt(q, c, 2 + |SectionBlocks(q)| + l + 1);
    } else {
      NoNotesBlock(q, c);
    }
  }

  lemma NoNotesBlock(q: Quote, c: QuoteCalculations)
    requires q.notes == ""
    ensures var p := Plan(q, c);
            forall i :: 0 <= i < |p| ==> !p[i].NotesBlock?
  {
    var p := Plan(q, c);
    TailLayout(q, c);
    forall i | 0 <= i < |p| ensures !p[i].NotesBlock? {
      PlanAt(q, c, i);
    }
  }

  /** The totals block comes right after the sections and the labour
      block. */
  lemma TotalsPlace(q: Quote, c: QuoteCalculations)
    ensures var p := Plan(q, c);
            var k := 2 + |VisibleSections(q)| + (if LaborShown(q, c) then 1 else 0);
            k < |p| && p[k] == TotalsBlock(TotalLines(q, c))
  {
    var l := if LaborShown(q, c) then 1 else 0;
    TailLayout(q, c);
    PlanAt(q, c, 2 + |SectionBlocks(q)| + l);
  }

  /** A block of the plan is a section's if and only if the section has at
      least one included item. */
  lemma SectionBlockShownIff(q: Quote, c: QuoteCalculations, section: QuoteSection)
    requires section in q.sections
    ensures var p := Plan(q, c);
            (exists i :: 0 <= i < |p| && p[i].SectionBlock? && p[i].id == section.id)
            <==> exists j :: 0 <= j < |q.items| && q.items[j].included && q.items[j].sectionId == section.id
  {
    HasRowsIff(q.items, section);
    if HasRows(q.items, section) {
      SectionBlockPresent(q, c, section);
    } else {
      NoSectionBlock(q, c, section);
    }
  }

  lemma SectionBlockPresent(q: Quote, c: QuoteCalculations, section: QuoteSection)
    requires section in q.sections && HasRows(q.items, section)
    ensures var p := Plan(q, c);
            exists i :: 0 <= i < |p| && p[i].SectionBlock? && p[i].id == section.id
  {
    var vis := VisibleSections(q);
    var i :| 0 <= i < |vis| && vis[i] == section;
    PlanSections(q, c);
    var b := Plan(q, c)[2 + i];
    assert b == SectionBlockOf(q.items, section);
    assert b.SectionBlock? && b.id == section.id;
  }

  lemma NoSectionBlock(q: Quote, c: QuoteCalculations, section: QuoteSection)
    requires !HasRows(q.items, section)
    ensures var p := Plan(q, c);
            forall i :: 0 <= i < |p| && p[i].SectionBlock? ==> p[i].id != section.id
  {
    var p := Plan(q, c);
    var vis := VisibleSections(q);
    forall i | 0 <= i < |p| && p[i].SectionBlock? ensures p[i].id != section.id {
      PlanAt(q, c, i);
      if 2 <= i < 2 + |vis| {
        assert HasRows(q.items, vis[i - 2]);
      }
    }
  }

  /** The stored totals of all items split into those of the included and
      those of the excluded items. */
  lemma {:induction false} SumTotalsSplit(items: seq<QuoteItem>)
    ensures SumTotals(items) == SumTotals(Filter(items, IsIncluded)) + SumTotals(Filter(items, IsExcluded))
    decreases |items|
  {
    if items != [] {
      var init := items[..|items| - 1];
      var last := items[|items| - 1];
      SumTotalsSplit(init);
      if last.included {
        SumTotalsAppend(Filter(init, IsIncluded), [last]);
      } else {
        SumTotalsAppend(Filter(init, IsExcluded), [last]);
      }
    }
  }

  /** The products subtotal of the calculations counts excluded items too,
      on top of the included items the document shows. */
  lemma SubtotalProductsCountsExcluded(q: Quote)
    ensures CalculateQuote(q).subtotalProducts
            == SumTotals(IncludedItems(q.items)) + SumTotals(Filter(q.items, IsExcluded))
  {
    SumTotalsSplit(q.items);
  }

  /** A quote with one excluded line of 10: the document shows no section,
      yet the products subtotal is 10. */
  lemma ExcludedItemStillCounted(q: Quote, item: QuoteItem, section: QuoteSection)
    requires q.sections == [section] && q.items == [item]
    requires !item.included && item.sectionId == section.id && item.total == 10.0
    ensures VisibleSections(q) == []
    ensures CalculateQuote(q).subtotalProducts == 10.0
  {
    assert [item][..0] == [];
    assert IncludedItems(q.items) == [];
    assert !HasRows(q.items, section);
    assert q.sections[..0] == [];
    assert SumTotals(q.items) == SumTotals([]) + 10.0;
  }
}
