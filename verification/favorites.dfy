/**
 * The favorites list: the conditional append behind "Save to Favorites"
 * (InspirationView.swift), and the swipe-to-delete and debug append of
 * FavoritesView.swift.
 */
module Favorites {

  import opened Optional
  import opened SwiftArray
  import opened Quotes
  import opened Storage

  /**
   * `saveToFavorites()`: with no quote selected nothing happens; a quote
   * already in favorites leaves the stored blob as it was; otherwise the
   * quote is appended at the end and the list saved.
   */
  function SaveToFavorites(selected: Option<QuoteID>, st: Store, encoderSucceeds: bool): (r: Store)
    ensures r.seenQuoteHistory == st.seenQuoteHistory
    ensures selected.None? ==> r == st
    ensures selected.Some? && selected.value in FavoriteIDs(st) ==> r == st
    ensures selected.Some? && selected.value !in FavoriteIDs(st) && encoderSucceeds ==>
              var before, after := FavoriteIDs(st), FavoriteIDs(r);
              |after| == |before| + 1 && after[..|before|] == before && after[|before|] == selected.value
    ensures selected.Some? && selected.value !in FavoriteIDs(st) && !encoderSucceeds ==>
              r.favoriteQuoteIDs == Empty
  {
    match selected
    case None => st
    case Some(id) =>
      var favorites := FavoriteIDs(st);
      if id !in favorites then SaveFavoriteIDs(st, favorites + [id], encoderSucceeds)
      else st
  }

  /** Once the selected quote is saved, saving it again changes nothing. */
  lemma SaveToFavoritesIdempotent(selected: Option<QuoteID>, st: Store, encoderSucceeds: bool)
    ensures var once := SaveToFavorites(selected, st, encoderSucceeds);
            SaveToFavorites(selected, once, encoderSucceeds) == once
  {
  }

  /** The containment check keeps a duplicate-free favorites list duplicate-free. */
  lemma SaveToFavoritesNoDuplicates(selected: Option<QuoteID>, st: Store, encoderSucceeds: bool)
    requires NoDuplicates(FavoriteIDs(st))
    ensures NoDuplicates(FavoriteIDs(SaveToFavorites(selected, st, encoderSucceeds)))
  {
  }

  /** After a successful save the selected quote is among the favorites. */
  lemma SaveToFavoritesContains(id: QuoteID, st: Store)
    ensures id in FavoriteIDs(SaveToFavorites(Some(id), st, true))
    ensures forall x :: x in FavoriteIDs(st) ==> x in FavoriteIDs(SaveToFavorites(Some(id), st, true))
  {
    var after := FavoriteIDs(SaveToFavorites(Some(id), st, true));
    if id !in FavoriteIDs(st) {
      assert after == FavoriteIDs(st) + [id];
    }
  }

  /**
   * `deleteFavorites(at:)`: the rows at `offsets`, numbered in the list as
   * it was before the call, are removed together and the rest saved in
   * their original order. No behaviour is documented for an offset past the
   * end, so the offsets must be in range.
   */
  function DeleteFavorites(st: Store, offsets: set<nat>, encoderSucceeds: bool): (r: Store)
    requires forall i :: i in offsets ==> i < |FavoriteIDs(st)|
    ensures r.seenQuoteHistory == st.seenQuoteHistory
    ensures encoderSucceeds ==>
              var before, after := FavoriteIDs(st), FavoriteIDs(r);
              var keep := Survivors(|before|, offsets);
              |after| == |before| - |offsets| &&
              |after| == |keep| && forall k :: 0 <= k < |after| ==> after[k] == before[keep[k]]
    ensures !encoderSucceeds ==> r.favoriteQuoteIDs == Empty
  {
    var ids := FavoriteIDs(st);
    RemoveAtOffsetsLength(ids, offsets);
    SaveFavoriteIDs(st, RemoveAtOffsets(ids, offsets), encoderSucceeds)
  }

  /** Deleting no rows keeps the decoded list (the blob itself is rewritten). */
  lemma DeleteNoFavorites(st: Store)
    ensures FavoriteIDs(DeleteFavorites(st, {}, true)) == FavoriteIDs(st)
  {
    RemoveAtNoOffsets(FavoriteIDs(st));
  }

  /** Deleting every row leaves no favorites. */
  lemma DeleteAllFavorites(st: Store, offsets: set<nat>)
    requires forall i: nat :: i in offsets <==> i < |FavoriteIDs(st)|
    ensures FavoriteIDs(DeleteFavorites(st, offsets, true)) == []
  {
    RemoveAtAllOffsets(FavoriteIDs(st), offsets);
  }

  /**
   * The data step of `addDummyFavorite()`: when the draw produced a quote,
   * append it without checking whether it is already there.
   */
  function AppendFavorite(st: Store, drawn: Option<QuoteID>, encoderSucceeds: bool): (r: Store)
    ensures r.seenQuoteHistory == st.seenQuoteHistory
    ensures drawn.None? ==> r == st
    ensures drawn.Some? && encoderSucceeds ==>
              var before, after := FavoriteIDs(st), FavoriteIDs(r);
              |after| == |before| + 1 && after[..|before|] == before && after[|before|] == drawn.value
    ensures drawn.Some? && !encoderSucceeds ==> r.favoriteQuoteIDs == Empty
  {
    match drawn
    case None => st
    case Some(id) => SaveFavoriteIDs(st, FavoriteIDs(st) + [id], encoderSucceeds)
  }

  /** Without the containment check, the debug append can store a duplicate. */
  lemma AppendFavoriteMayDuplicate()
    ensures var st := Store(Valid([4]), Empty);
            NoDuplicates(FavoriteIDs(st)) &&
            FavoriteIDs(AppendFavorite(st, Some(4), true)) == [4, 4] &&
            !NoDuplicates(FavoriteIDs(AppendFavorite(st, Some(4), true)))
  {
    var after := FavoriteIDs(AppendFavorite(Store(Valid([4]), Empty), Some(4), true));
    assert after[0] == after[1];
  }

  /**
   * `addDummyFavorite()`: draw a key from the catalog and append it. With an
   * empty catalog storage is left alone.
   */
  method AddDummyFavorite(catalog: map<QuoteID, Quote>, st: Store, encoderSucceeds: bool) returns (r: Store)
    ensures r.seenQuoteHistory == st.seenQuoteHistory
    ensures catalog == map[] ==> r == st
    ensures catalog != map[] && encoderSucceeds ==>
              var before, after := FavoriteIDs(st), FavoriteIDs(r);
              |after| == |before| + 1 && after[..|before|] == before && after[|before|] in catalog
    ensures catalog != map[] && !encoderSucceeds ==> r.favoriteQuoteIDs == Empty
  {
    var drawn := PickRandom(catalog);
    r := AppendFavorite(st, drawn, encoderSucceeds);
  }

  /** Save 2, save 2 again, save 5, then delete the first row. */
  lemma FavoritesScenario()
    ensures var s1 := SaveToFavorites(Some(2), FreshStore, true);
            var s2 := SaveToFavorites(Some(2), s1, true);
            var s3 := SaveToFavorites(Some(5), s2, true);
            var s4 := DeleteFavorites(s3, {0}, true);
            FavoriteIDs(s1) == [2] && s2 == s1 && FavoriteIDs(s3) == [2, 5] && FavoriteIDs(s4) == [5]
  {
    var s3 := SaveToFavorites(Some(5), SaveToFavorites(Some(2), FreshStore, true), true);
    assert FavoriteIDs(s3) == [2, 5];
    assert [2, 5][..1] == [2] && [2][..0] == [];
    assert RemoveAtOffsets([2], {0}) == RemoveAtOffsets([], {0}) == [];
    assert RemoveAtOffsets([2, 5], {0}) == RemoveAtOffsets([2], {0}) + [5] == [5];
  }

}
