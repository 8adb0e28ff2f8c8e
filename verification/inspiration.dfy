/**
 * The quote selection of InspirationView.swift: the first draw when the
 * screen appears, and the draw behind "Get Inspired". Each drawn quote is
 * recorded in the seen history.
 */
module Inspiration {

  import opened Optional
  import opened Quotes
  import opened Storage
  import opened History

  /**
   * `onAppear`: only when no quote is selected yet, draw one from the
   * catalog, select it and record it in the history. An empty catalog
   * yields no draw and nothing changes.
   */
  method OnAppear(catalog: map<QuoteID, Quote>, selected: Option<QuoteID>, st: Store, encoderSucceeds: bool)
    returns (selected': Option<QuoteID>, r: Store)
    ensures selected.Some? ==> selected' == selected && r == st
    ensures selected.None? && catalog == map[] ==> selected'.None? && r == st
    ensures selected.None? && catalog != map[] ==>
              selected'.Some? && selected'.value in catalog &&
              r == PersistSeenHistory(st, selected'.value, encoderSucceeds)
    ensures r.favoriteQuoteIDs == st.favoriteQuoteIDs
  {
    selected', r := selected, st;
    if selected.None? {
      var drawn := PickRandom(catalog);
      if drawn.Some? {
        selected' := drawn;
        r := PersistSeenHistory(st, drawn.value, encoderSucceeds);
      }
    }
  }

  /**
   * `generateNewQuote()`: draw a quote whatever is selected, select it and
   * record it in the history. With an empty catalog nothing changes.
   */
  method GenerateNewQuote(catalog: map<QuoteID, Quote>, selected: Option<QuoteID>, st: Store, encoderSucceeds: bool)
    returns (selected': Option<QuoteID>, r: Store)
    ensures catalog == map[] ==> selected' == selected && r == st
    ensures catalog != map[] ==>
              selected'.Some? && selected'.value in catalog &&
              r == PersistSeenHistory(st, selected'.value, encoderSucceeds)
    ensures r.favoriteQuoteIDs == st.favoriteQuoteIDs
  {
    selected', r := selected, st;
    var drawn := PickRandom(catalog);
    if drawn.Some? {
      selected' := drawn;
      r := PersistSeenHistory(st, drawn.value, encoderSucceeds);
    }
  }

}
