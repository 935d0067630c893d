/** The calculation engine and the constructors of src/lib/quote-utils.ts:
    `calculateQuote`, `generateQuoteNumber` and `createEmptyQuote`. The clock,
    `Math.random` and `crypto.randomUUID` are parameters. */
module QuoteUtils {
  import opened Wrappers
  import opened Text
  import opened QuoteTypes

  /** `items.reduce((sum, item) => sum + item.total, 0)`: a left fold over
      EVERY item, whatever its `included` flag. Non-negative line totals
      give a non-negative product subtotal. */
  function SumTotals(items: seq<QuoteItem>): (r: real)
    ensures (forall i :: 0 <= i < |items| ==> items[i].total >= 0.0) ==> r >= 0.0
  {
    if items == [] then 0.0
    else SumTotals(items[..|items| - 1]) + items[|items| - 1].total
  }

  /** The line totals, in order: all that `SumTotals` looks at. */
  function Totals(items: seq<QuoteItem>): (r: seq<real>)
    ensures |r| == |items| && forall i :: 0 <= i < |items| ==> r[i] == items[i].total
  {
    seq(|items|, i requires 0 <= i < |items| => items[i].total)
  }

  /** `calculateQuote`: the nine-step chain products, labour, HT, margin,
      HT with margin, discount, total HT, VAT, total TTC. The closed forms
      below are the reference the chain is checked against. */
  function CalculateQuote(q: Quote): (c: QuoteCalculations)
    ensures c.subtotalProducts == SumTotals(q.items) && c.laborCost == q.laborHours * q.laborRate
    ensures c.subtotalHT == SumTotals(q.items) + q.laborHours * q.laborRate
    ensures c.margin == c.subtotalHT * (q.marginPercent / 100.0)
    ensures c.discount == c.subtotalWithMargin * (q.discountPercent / 100.0)
    ensures c.tva == c.totalHT * (q.tvaRate / 100.0)
    ensures c.totalHT == c.subtotalHT * (1.0 + q.marginPercent / 100.0) * (1.0 - q.discountPercent / 100.0)
    ensures c.totalTTC == c.totalHT * (1.0 + q.tvaRate / 100.0)
    ensures c.subtotalHT == c.subtotalProducts + c.laborCost
    ensures c.subtotalWithMargin == c.subtotalHT + c.margin
    ensures c.totalHT == c.subtotalWithMargin - c.discount
    ensures c.totalTTC == c.totalHT + c.tva
  {
    var subtotalProducts := SumTotals(q.items);
    var laborCost := q.laborHours * q.laborRate;
    var subtotalHT := subtotalProducts + laborCost;
    var margin := subtotalHT * (q.marginPercent / 100.0);
    var subtotalWithMargin := subtotalHT + margin;
    var discount := subtotalWithMargin * (q.discountPercent / 100.0);
    var totalHT := subtotalWithMargin - discount;
    var tva := totalHT * (q.tvaRate / 100.0);
    var totalTTC := totalHT + tva;
    assert subtotalWithMargin == subtotalHT * (1.0 + q.marginPercent / 100.0);
    assert totalHT == subtotalWithMargin * (1.0 - q.discountPercent / 100.0);
    assert totalTTC == totalHT * (1.0 + q.tvaRate / 100.0);
    QuoteCalculations(subtotalProducts, laborCost, subtotalHT, margin, subtotalWithMargin,
                      discount, totalHT, tva, totalTTC)
  }

  /** The sum of a concatenation is the sum of the parts. */
  lemma {:induction false} SumTotalsAppend(a: seq<QuoteItem>, b: seq<QuoteItem>)
    ensures SumTotals(a + b) == SumTotals(a) + SumTotals(b)
    decreases |b|
  {
    if b == [] {
      assert a + b == a;
    } else {
      SumTotalsAppend(a, b[..|b| - 1]);
      assert (a + b)[..|a + b| - 1] == a + b[..|b| - 1];
    }
  }

  /** The product subtotal depends on the line totals alone. */
  lemma {:induction false} SumTotalsOfTotals(a: seq<QuoteItem>, b: seq<QuoteItem>)
    requires Totals(a) == Totals(b)
    ensures SumTotals(a) == SumTotals(b)
  {
    if a != [] {
      assert |a| == |b|;
      var a', b' := a[..|a| - 1], b[..|b| - 1];
      assert Totals(a') == Totals(b') by {
        forall i | 0 <= i < |a'| ensures Totals(a')[i] == Totals(b')[i] {
          assert Totals(a)[i] == Totals(b)[i];
        }
      }
      SumTotalsOfTotals(a', b');
      assert Totals(a)[|a| - 1] == Totals(b)[|b| - 1];
    }
  }

  /** The inputs of the calculation: the line totals and the five rates. */
  predicate SameCalculationInputs(q1: Quote, q2: Quote) {
    && Totals(q1.items) == Totals(q2.items)
    && q1.laborHours == q2.laborHours && q1.laborRate == q2.laborRate
    && q1.marginPercent == q2.marginPercent && q1.discountPercent == q2.discountPercent
    && q1.tvaRate == q2.tvaRate
  }

  /** `calculateQuote` is a function of those inputs alone: client, notes,
      sections, `included` flags, `laborVisible` and the rest play no part. */
  lemma CalculateDependsOnInputsOnly(q1: Quote, q2: Quote)
    requires SameCalculationInputs(q1, q2)
    ensures CalculateQuote(q1) == CalculateQuote(q2)
  {
    SumTotalsOfTotals(q1.items, q2.items);
  }

  /** Excluding or re-including a line changes none of the amounts. */
  lemma CalculateIgnoresIncluded(q: Quote, k: nat, included: bool)
    requires k < |q.items|
    ensures CalculateQuote(q.(items := q.items[k := q.items[k].(included := included)]))
            == CalculateQuote(q)
  {
    var q' := q.(items := q.items[k := q.items[k].(included := included)]);
    assert Totals(q'.items) == Totals(q.items) by {
      forall i | 0 <= i < |q.items| ensures Totals(q'.items)[i] == Totals(q.items)[i] { }
    }
    CalculateDependsOnInputsOnly(q', q);
  }

  /** Non-negative line totals, labour and rates (the form's inputs). */
  predicate NonNegativeInputs(q: Quote) {
    && (forall i :: 0 <= i < |q.items| ==> q.items[i].total >= 0.0)
    && q.laborHours >= 0.0 && q.laborRate >= 0.0
    && q.marginPercent >= 0.0 && q.discountPercent >= 0.0
  }

  /** With non-negative inputs and a discount of at most 100%, the total HT
      lies between 0 and the subtotal with margin. */
  lemma CalculateBounds(q: Quote)
    requires NonNegativeInputs(q) && q.discountPercent <= 100.0
    ensures 0.0 <= CalculateQuote(q).totalHT <= CalculateQuote(q).subtotalWithMargin
  {
    var c := CalculateQuote(q);
    var d := q.discountPercent / 100.0;
    assert c.laborCost == q.laborHours * q.laborRate >= 0.0;
    assert c.subtotalHT >= 0.0;
    assert c.margin == c.subtotalHT * (q.marginPercent / 100.0) >= 0.0;
    assert c.subtotalWithMargin >= 0.0;
    assert c.discount == c.subtotalWithMargin * d;
    assert 0.0 <= d <= 1.0;
    assert c.subtotalWithMargin * d <= c.subtotalWithMargin * 1.0;
  }

  /** VAT is never negative on a non-negative total HT at a non-negative
      rate, so the total TTC is at least the total HT. */
  lemma TtcAtLeastHt(q: Quote)
    requires CalculateQuote(q).totalHT >= 0.0 && q.tvaRate >= 0.0
    ensures CalculateQuote(q).totalTTC >= CalculateQuote(q).totalHT
  {
    var c := CalculateQuote(q);
    assert c.tva == c.totalHT * (q.tvaRate / 100.0);
  }

  /** Two lines at 245 and 89, 4 h at 45, no margin, no discount, VAT 20%. */
  lemma WorkedExample(q: Quote)
    requires Totals(q.items) == [245.0, 89.0]
    requires q.laborHours == 4.0 && q.laborRate == 45.0
    requires q.marginPercent == 0.0 && q.discountPercent == 0.0 && q.tvaRate == 20.0
    ensures CalculateQuote(q).subtotalProducts == 334.0
    ensures CalculateQuote(q).laborCost == 180.0
    ensures CalculateQuote(q).subtotalHT == 514.0
    ensures CalculateQuote(q).totalHT == 514.0
    ensures CalculateQuote(q).tva == 102.8
    ensures CalculateQuote(q).totalTTC == 616.8
  {
    assert q.items[0].total == 245.0 && q.items[1].total == 89.0 by {
      assert Totals(q.items)[0] == 245.0 && Totals(q.items)[1] == 89.0;
    }
    assert q.items[..1][..0] == [];
    assert SumTotals(q.items[..1]) == 245.0;
    assert q.items[..|q.items| - 1] == q.items[..1];
    assert SumTotals(q.items) == 334.0;
  }

  /** The same quote with a 10% discount. */
  lemma WorkedExampleWithDiscount(q: Quote)
    requires Totals(q.items) == [245.0, 89.0]
    requires q.laborHours == 4.0 && q.laborRate == 45.0
    requires q.marginPercent == 0.0 && q.discountPercent == 10.0 && q.tvaRate == 20.0
    ensures CalculateQuote(q).subtotalWithMargin == 514.0
    ensures CalculateQuote(q).discount == 51.4
    ensures CalculateQuote(q).totalHT == 462.6
    ensures CalculateQuote(q).tva == 92.52
    ensures CalculateQuote(q).totalTTC == 555.12
  {
    WorkedExample(q.(discountPercent := 0.0));
    assert CalculateQuote(q).subtotalProducts == CalculateQuote(q.(discountPercent := 0.0)).subtotalProducts;
  }

  /** `DEV-` + year + two-digit month + `-` + the serial padded to at least
      three digits: the format shared by `generateQuoteNumber` and
      `getNextQuoteNumber`. `month` is `getMonth() + 1`. */
  function FormatQuoteNumber(year: nat, month: nat, serial: nat): (r: string)
    ensures StartsWith(r, "DEV-")
  {
    "DEV-" + Decimal(year) + ZeroPadded(month, 2) + "-" + ZeroPadded(serial, 3)
  }

  /** The serial part of a quote number: the characters after its last dash. */
  function SerialPart(number: string): string {
    AfterLast(number, '-')
  }

  /** The serial part of a formatted number is the zero-padded serial, which
      reads back as the serial; below 1000 it is exactly three digits. */
  lemma SerialPartOfFormat(year: nat, month: nat, serial: nat)
    ensures SerialPart(FormatQuoteNumber(year, month, serial)) == ZeroPadded(serial, 3)
    ensures ParseDecimal(SerialPart(FormatQuoteNumber(year, month, serial))) == serial
    ensures serial < 1000 ==> |SerialPart(FormatQuoteNumber(year, month, serial))| == 3
  {
    var a := "DEV-" + Decimal(year) + ZeroPadded(month, 2);
    var d := ZeroPadded(serial, 3);
    assert '-' !in d by {
      forall i | 0 <= i < |d| ensures d[i] != '-' { assert IsDigit(d[i]); }
    }
    assert FormatQuoteNumber(year, month, serial) == a + ['-'] + d;
    AfterLastOf(a, '-', d);
    ParseZeroPadded(serial, 3);
    if serial < 1000 {
      DecimalLengthBelow(serial, 3);
    }
  }

  /** Different serials give different numbers within a month. */
  lemma FormatQuoteNumberInjective(year: nat, month: nat, s1: nat, s2: nat)
    requires s1 != s2
    ensures FormatQuoteNumber(year, month, s1) != FormatQuoteNumber(year, month, s2)
  {
    SerialPartOfFormat(year, month, s1);
    SerialPartOfFormat(year, month, s2);
  }

  /** A month in 1..12 is printed as exactly two digits. */
  lemma MonthIsTwoDigits(month: nat)
    requires 1 <= month <= 12
    ensures |ZeroPadded(month, 2)| == 2
  {
    DecimalLengthBelow(month, 2);
  }

  /** `Math.floor(random * 1000)` for `random` the value of `Math.random()`. */
  function RandomSerial(random: real): (serial: nat)
    requires 0.0 <= random < 1.0
    ensures serial < 1000
  {
    (random * 1000.0).Floor
  }

  /** `generateQuoteNumber`, with `random` the value of `Math.random()`: its
      serial part is exactly three digits and reads back as a value in 0..999. */
  function GenerateQuoteNumber(year: nat, month: nat, random: real): (r: string)
    requires 0.0 <= random < 1.0
    ensures StartsWith(r, "DEV-")
    ensures |SerialPart(r)| == 3 && AllDigits(SerialPart(r)) && ParseDecimal(SerialPart(r)) < 1000
  {
    var serial := RandomSerial(random);
    SerialPartOfFormat(year, month, serial);
    FormatQuoteNumber(year, month, serial)
  }

  /** What the shown `createEmptyQuote` leaves undefined (its result has no
      `sections`, `companyInfo` or `laborVisible`): supplied by the caller. */
  datatype UnsetQuoteFields = UnsetQuoteFields(
    sections: seq<QuoteSection>,
    companyInfo: CompanyInfo,
    laborVisible: bool)

  const EmptyClient := Client("", "", "", "", "", "")

  /** The validity window of a new quote, in days. */
  const ValidityDays := 30

  /** `createEmptyQuote(trade)`: `id` is the fresh UUID, `today` the current
      day, `year`, `month` and `random` feed `generateQuoteNumber`. */
  function CreateEmptyQuote(trade: Trade, id: string, today: Day, year: nat, month: nat,
                            random: real, unset: UnsetQuoteFields): (q: Quote)
    requires 0.0 <= random < 1.0
    ensures q.trade == trade && q.id == id && q.date == today
    ensures q.validUntil == today + ValidityDays
    ensures q.items == [] && q.notes == "" && q.client == EmptyClient
    ensures q.laborHours == 0.0 && q.laborRate == 45.0
    ensures q.marginPercent == 20.0 && q.discountPercent == 0.0 && q.tvaRate == 20.0
    ensures StartsWith(q.number, "DEV-") && |SerialPart(q.number)| == 3
  {
    Quote(
      id, GenerateQuoteNumber(year, month, random), today, today + ValidityDays, trade, EmptyClient,
      unset.companyInfo, unset.sections, [], 0.0, 45.0, unset.laborVisible, 20.0, 0.0, 20.0, "")
  }

  /** With no lines and no labour, every amount is zero, whatever the
      percentages. */
  lemma ZeroBaseCalculatesToZero(q: Quote)
    requires q.items == [] && q.laborHours == 0.0
    ensures CalculateQuote(q) == QuoteCalculations(0.0, 0.0, 0.0, 0.0, 0.0, 0.0, 0.0, 0.0, 0.0)
  {
    var c := CalculateQuote(q);
    assert c.subtotalHT == 0.0;
    assert c.margin == 0.0 * (q.marginPercent / 100.0);
    assert c.discount == 0.0 * (q.discountPercent / 100.0);
    assert c.tva == 0.0 * (q.tvaRate / 100.0);
  }

  /** A new quote prices at zero throughout, and its (empty) lines are
      trivially consistent. */
  lemma EmptyQuoteCalculatesToZero(trade: Trade, id: string, today: Day, year: nat, month: nat,
                                   random: real, unset: UnsetQuoteFields)
    requires 0.0 <= random < 1.0
    ensures CalculateQuote(CreateEmptyQuote(trade, id, today, year, month, random, unset))
            == QuoteCalculations(0.0, 0.0, 0.0, 0.0, 0.0, 0.0, 0.0, 0.0, 0.0)
    ensures ItemsConsistent(CreateEmptyQuote(trade, id, today, year, month, random, unset).items)
  {
    var q := CreateEmptyQuote(trade, id, today, year, month, random, unset);
    ZeroBaseCalculatesToZero(q);
  }
}
