/** The quote history and the quote-number counter (src/lib/quote-storage.ts).
    The two `localStorage` entries are the fields of `HistoryStore`; a read or
    write that throws is a boolean parameter of the call. Whatever the
    history holds, `getAllQuotes` yields it unchanged: JSON serialisation is
    not modelled. */
module QuoteStorage {
  import opened Wrappers
  import opened Seqs
  import opened Text
  import opened QuoteTypes
  import opened QuoteUtils

  /** `quotes.findIndex((q) => q.id === id)`, with `None` for -1. */
  function FindQuote(history: seq<Quote>, id: string): (r: Option<nat>)
    ensures r.Some? ==> r.value < |history| && history[r.value].id == id
    ensures r.Some? ==> forall j :: 0 <= j < r.value ==> history[j].id != id
    ensures r.None? <==> forall j :: 0 <= j < |history| ==> history[j].id != id
  {
    FindIndex(history, (x: Quote) => x.id == id)
  }

  /** The history `saveQuoteToHistory` writes back: the first entry with the
      quote's id is replaced in place, or else the quote goes in front. */
  function Upsert(history: seq<Quote>, quote: Quote): (r: seq<Quote>)
    ensures |r| >= 1 && (|r| == |history| || |r| == |history| + 1)
  {
    var idx := FindQuote(history, quote.id);
    if idx.Some? then history[idx.value := quote] else [quote] + history
  }

  /** A quote whose id is not in the history is prepended: one more entry,
      the old ones following in their order. */
  lemma UpsertPrepends(history: seq<Quote>, quote: Quote)
    requires forall j :: 0 <= j < |history| ==> history[j].id != quote.id
    ensures Upsert(history, quote) == [quote] + history
    ensures |Upsert(history, quote)| == |history| + 1
  {
    assert FindQuote(history, quote.id).None?;
  }

  /** A quote whose id is in the history replaces the first entry with that
      id, in place: same length, every other entry unchanged. */
  lemma UpsertReplaces(history: seq<Quote>, quote: Quote, k: nat)
    requires k < |history| && history[k].id == quote.id
    requires forall j :: 0 <= j < k ==> history[j].id != quote.id
    ensures Upsert(history, quote) == history[k := quote]
    ensures |Upsert(history, quote)| == |history|
  {
  }

  /** Saving the same quote twice leaves the history of saving it once. */
  lemma UpsertIdempotent(history: seq<Quote>, quote: Quote)
    ensures Upsert(Upsert(history, quote), quote) == Upsert(history, quote)
  {
    var r := Upsert(history, quote);
    var idx := FindQuote(history, quote.id);
    if idx.Some? {
      var k := idx.value;
      assert forall j :: 0 <= j < k ==> r[j] == history[j];
      UpsertReplaces(r, quote, k);
      assert r[k := quote] == r;
    } else {
      UpsertReplaces(r, quote, 0);
      assert r[0 := quote] == r;
    }
  }

  /** No two entries share an id. */
  predicate UniqueQuoteIds(history: seq<Quote>) {
    forall i, j :: 0 <= i < j < |history| ==> history[i].id != history[j].id
  }

  /** When ids were unique, they still are after a save, and the saved quote
      is the one entry with its id. */
  lemma UpsertKeepsIdsUnique(history: seq<Quote>, quote: Quote)
    requires UniqueQuoteIds(history)
    ensures UniqueQuoteIds(Upsert(history, quote))
    ensures forall i :: 0 <= i < |Upsert(history, quote)| ==>
              (Upsert(history, quote)[i].id == quote.id <==> Upsert(history, quote)[i] == quote)
  {
    var r := Upsert(history, quote);
    var idx := FindQuote(history, quote.id);
    if idx.None? {
      UpsertPrepends(history, quote);
      assert forall i :: 1 <= i < |r| ==> r[i] == history[i - 1];
    } else {
      var k := idx.value;
      forall i | 0 <= i < |r| && i != k ensures r[i].id != quote.id && r[i] == history[i] {
        if i < k { assert history[i].id != history[k].id; }
        else { assert history[k].id != history[i].id; }
      }
    }
  }

  /** `quotes.filter((q) => q.id !== quoteId)`. */
  function WithoutQuote(history: seq<Quote>, quoteId: string): (r: seq<Quote>)
    ensures forall i :: 0 <= i < |r| ==> r[i].id != quoteId && r[i] in history
    ensures forall i :: 0 <= i < |history| && history[i].id != quoteId ==> history[i] in r
    ensures IsSubsequence(r, history)
    ensures forall x {:trigger multiset(r)[x]} :: multiset(r)[x] == if x.id != quoteId then multiset(history)[x] else 0
  {
    var keep := (x: Quote) => x.id != quoteId;
    FilterIsSubsequence(history, keep);
    FilterMultiset(history, keep);
    Filter(history, keep)
  }

  /** Deleting an id that no entry has keeps the history as it is. */
  lemma WithoutAbsentQuote(history: seq<Quote>, quoteId: string)
    requires forall i :: 0 <= i < |history| ==> history[i].id != quoteId
    ensures WithoutQuote(history, quoteId) == history
  {
    FilterAll(history, (x: Quote) => x.id != quoteId);
  }

  /** Saving a quote and then deleting its id is deleting its id: whether
      the save prepended or replaced, the saved entry is what goes. */
  lemma DeleteUndoesSave(history: seq<Quote>, quote: Quote)
    ensures WithoutQuote(Upsert(history, quote), quote.id) == WithoutQuote(history, quote.id)
  {
    var keep := (x: Quote) => x.id != quote.id;
    var idx := FindQuote(history, quote.id);
    if idx.None? {
      FilterConcat([quote], history, keep);
      assert Filter([quote], keep) == [] by {
        assert [quote][..0] == [];
      }
    } else {
      var k := idx.value;
      var a, b := history[..k], history[k + 1..];
      assert history == a + [history[k]] + b;
      assert history[k := quote] == a + [quote] + b;
      FilterConcat(a + [history[k]], b, keep);
      FilterConcat(a, [history[k]], keep);
      FilterConcat(a + [quote], b, keep);
      FilterConcat(a, [quote], keep);
      assert [history[k]][..0] == [] && [quote][..0] == [];
    }
  }

  /** The application's `localStorage`: the history under
      `easydevis_quotes` (absent reads as empty) and the counter under
      `easydevis_counter` (absent reads as 0). */
  class HistoryStore {
    var quotes: seq<Quote>
    var counter: Option<nat>

    constructor ()
      ensures quotes == [] && counter == None
    {
      quotes := [];
      counter := None;
    }

    /** `getAllQuotes`: a read that throws gives the empty history. */
    method GetAllQuotes(readFails: bool) returns (r: seq<Quote>)
      ensures readFails ==> r == []
      ensures !readFails ==> r == quotes
    {
      if readFails {
        return [];
      }
      return quotes;
    }

    /** `saveQuoteToHistory`: the loaded array is updated in place (or the
        quote is `unshift`ed) and written back; a write that throws leaves
        the stored history as it was. A read that throws loads the empty
        history, so the write then replaces the history with the quote alone. */
    method SaveQuoteToHistory(quote: Quote, readFails: bool, writeFails: bool)
      modifies this
      ensures counter == old(counter)
      ensures writeFails ==> quotes == old(quotes)
      ensures !writeFails && !readFails ==> quotes == Upsert(old(quotes), quote)
      ensures !writeFails && readFails ==> quotes == [quote]
    {
      var loaded := GetAllQuotes(readFails);
      var idx := FindQuote(loaded, quote.id);
      if idx.Some? {
        loaded := loaded[idx.value := quote];
      } else {
        loaded := [quote] + loaded;
      }
      if !writeFails {
        quotes := loaded;
      }
    }

    /** `deleteQuoteFromHistory`: every entry with that id goes, the others
        stay in order; a write that throws changes nothing. */
    method DeleteQuoteFromHistory(quoteId: string, readFails: bool, writeFails: bool)
      modifies this
      ensures counter == old(counter)
      ensures writeFails ==> quotes == old(quotes)
      ensures !writeFails && !readFails ==> quotes == WithoutQuote(old(quotes), quoteId)
      ensures !writeFails && readFails ==> quotes == []
    {
      var loaded := GetAllQuotes(readFails);
      var kept := WithoutQuote(loaded, quoteId);
      if !writeFails {
        quotes := kept;
      }
    }

    /** `getNextQuoteNumber`: the stored counter (0 when absent) plus one is
        written back and formatted with the current `year` and `month`. When
        reading or writing the counter throws, the counter is left as it was
        and the number is `DEV-` followed by `now`, the value of `Date.now()`. */
    method NextQuoteNumber(year: nat, month: nat, now: nat, fails: bool) returns (number: string)
      modifies this
      ensures quotes == old(quotes)
      ensures fails ==> counter == old(counter) && number == "DEV-" + Decimal(now)
      ensures !fails ==> counter == Some(old(counter).GetOr(0) + 1)
      ensures !fails ==> number == FormatQuoteNumber(year, month, counter.value)
      ensures !fails ==> SerialPart(number) == ZeroPadded(counter.value, 3)
    {
      if fails {
        return "DEV-" + Decimal(now);
      }
      var next := counter.GetOr(0) + 1;
      counter := Some(next);
      number := FormatQuoteNumber(year, month, next);
      SerialPartOfFormat(year, month, next);
    }

    /** `duplicateQuote`: the copy takes a fresh number from the counter. */
    method DuplicateQuote(quote: Quote, newId: string, today: Day, itemIds: seq<string>,
                          year: nat, month: nat, now: nat, fails: bool) returns (copy: Quote)
      requires |itemIds| == |quote.items|
      modifies this
      ensures quotes == old(quotes)
      ensures fails ==> counter == old(counter) && copy.number == "DEV-" + Decimal(now)
      ensures !fails ==> counter == Some(old(counter).GetOr(0) + 1)
      ensures !fails ==> copy.number == FormatQuoteNumber(year, month, counter.value)
      ensures copy == Duplicated(quote, newId, copy.number, today, itemIds)
    {
      var number := NextQuoteNumber(year, month, now, fails);
      copy := Duplicated(quote, newId, number, today, itemIds);
    }
  }

  /** The quote `duplicateQuote` returns, with `newId` and `itemIds` the
      fresh UUIDs (one per line), `number` the next quote number and `today`
      the current day: new id, number and dates, every line under a new id,
      the sections copied; everything else as in the original. */
  function Duplicated(quote: Quote, newId: string, number: string, today: Day,
                      itemIds: seq<string>): (r: Quote)
    requires |itemIds| == |quote.items|
    ensures r.id == newId && r.number == number
    ensures r.date == today && r.validUntil == today + ValidityDays
    ensures |r.items| == |quote.items|
    ensures forall i :: 0 <= i < |quote.items| ==>
              r.items[i].id == itemIds[i] && r.items[i].(id := quote.items[i].id) == quote.items[i]
    ensures r.(id := quote.id, number := quote.number, date := quote.date,
               validUntil := quote.validUntil, items := quote.items) == quote
  {
    var items := seq(|quote.items|, i requires 0 <= i < |quote.items| => quote.items[i].(id := itemIds[i]));
    quote.(id := newId, number := number, date := today, validUntil := today + ValidityDays,
           items := items)
  }

  /** A copy prices exactly like the original: only ids, number and dates
      differ, and the calculation reads none of them. */
  lemma DuplicateKeepsAmounts(quote: Quote, newId: string, number: string, today: Day,
                              itemIds: seq<string>)
    requires |itemIds| == |quote.items|
    ensures CalculateQuote(Duplicated(quote, newId, number, today, itemIds)) == CalculateQuote(quote)
  {
    var r := Duplicated(quote, newId, number, today, itemIds);
    assert Totals(r.items) == Totals(quote.items) by {
      forall i | 0 <= i < |quote.items| ensures Totals(r.items)[i] == Totals(quote.items)[i] {
        assert r.items[i].total == quote.items[i].total;
      }
    }
    CalculateDependsOnInputsOnly(r, quote);
  }

  /** With fresh ids (distinct from each other and from the original's), the
      copy's lines have unique ids, none shared with the original, and keep
      the line invariant of the original. */
  lemma DuplicateFreshIds(quote: Quote, newId: string, number: string, today: Day,
                          itemIds: seq<string>)
    requires |itemIds| == |quote.items|
    requires forall i, j :: 0 <= i < j < |itemIds| ==> itemIds[i] != itemIds[j]
    requires forall i, j :: 0 <= i < |itemIds| && 0 <= j < |quote.items| ==> itemIds[i] != quote.items[j].id
    ensures var r := Duplicated(quote, newId, number, today, itemIds);
            && UniqueItemIds(r.items)
            && (forall i, j :: 0 <= i < |r.items| && 0 <= j < |quote.items| ==> r.items[i].id != quote.items[j].id)
            && (ItemsConsistent(quote.items) ==> ItemsConsistent(r.items))
  {
    var r := Duplicated(quote, newId, number, today, itemIds);
    assert forall i :: 0 <= i < |r.items| ==> r.items[i].id == itemIds[i];
    if ItemsConsistent(quote.items) {
      forall i | 0 <= i < |r.items| ensures ItemConsistent(r.items[i]) {
        assert r.items[i].(id := quote.items[i].id) == quote.items[i];
      }
    }
  }
}
