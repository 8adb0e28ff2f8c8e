/**
 * The seen-quote history: most recent first, each shown quote moved to the
 * front (`persistSeenHistory` in InspirationView.swift).
 */
module History {

  import opened Optional
  import opened SwiftArray
  import opened Quotes
  import opened Storage

  /** The history with the first occurrence of `id` removed, if there is one. */
  function RemoveFirst(h: seq<QuoteID>, id: QuoteID): (r: seq<QuoteID>)
    ensures id !in h ==> r == h
    ensures id in h ==> |r| == |h| - 1 && multiset(r) == multiset(h) - multiset{id}
    ensures Without(r, id) == Without(h, id)
  {
    match FirstIndex(h, id)
    case None => h
    case Some(i) =>
      RemoveAtKeepsOthers(h, i, id);
      RemoveAt(h, i)
  }

  /** Move-to-front: drop the first occurrence of `id`, then insert `id` at index 0. */
  function MoveToFront(h: seq<QuoteID>, id: QuoteID): (r: seq<QuoteID>)
    ensures |r| > 0 && r[0] == id
  {
    [id] + RemoveFirst(h, id)
  }

  /**
   * Behind the front, the old history minus its first `id`: unchanged when
   * `id` was absent, otherwise closed up over the earliest position holding
   * `id`.
   */
  lemma MoveToFrontTail(h: seq<QuoteID>, id: QuoteID)
    ensures FirstIndex(h, id).None? ==> MoveToFront(h, id)[1..] == h
    ensures FirstIndex(h, id).Some? ==>
              var i := FirstIndex(h, id).value;
              MoveToFront(h, id)[1..] == h[..i] + h[i + 1..]
  {
    assert MoveToFront(h, id)[1..] == RemoveFirst(h, id);
  }

  /** Every other id keeps its relative order. */
  lemma MoveToFrontKeepsOrder(h: seq<QuoteID>, id: QuoteID)
    ensures Without(MoveToFront(h, id), id) == Without(h, id)
  {
    var r := MoveToFront(h, id);
    assert r == [id] + r[1..];
    WithoutConcat([id], r[1..], id);
    assert Without([id], id) == [];
  }

  /** The length is kept when `id` was present and grows by one otherwise. */
  lemma MoveToFrontLength(h: seq<QuoteID>, id: QuoteID)
    ensures id in h ==> |MoveToFront(h, id)| == |h|
    ensures id !in h ==> |MoveToFront(h, id)| == |h| + 1
  {
  }

  /** The history holds the same ids as before, plus `id` if it was new. */
  lemma MoveToFrontContents(h: seq<QuoteID>, id: QuoteID)
    ensures id in h ==> multiset(MoveToFront(h, id)) == multiset(h)
    ensures id !in h ==> multiset(MoveToFront(h, id)) == multiset(h) + multiset{id}
  {
  }

  /** Showing the same quote twice in a row leaves the history as after the first time. */
  lemma MoveToFrontIdempotent(h: seq<QuoteID>, id: QuoteID)
    ensures MoveToFront(MoveToFront(h, id), id) == MoveToFront(h, id)
  {
    var r := MoveToFront(h, id);
    assert FirstIndex(r, id) == Some(0);
    assert RemoveAt(r, 0) == r[1..];
  }

  /** A duplicate-free history stays duplicate-free and ends up holding `id` exactly once. */
  lemma MoveToFrontNoDuplicates(h: seq<QuoteID>, id: QuoteID)
    requires NoDuplicates(h)
    ensures NoDuplicates(MoveToFront(h, id))
    ensures id !in MoveToFront(h, id)[1..]
  {
    var t := RemoveFirst(h, id);
    match FirstIndex(h, id)
    case None =>
    case Some(i) =>
      forall k | 0 <= k < |t|
        ensures t[k] != id
      {
        if k < i {
          assert t[k] == h[k];
        } else {
          assert t[k] == h[k + 1];
        }
      }
    assert id !in t;
    assert MoveToFront(h, id)[1..] == t;
  }

  /** The history after each id of `shown` has been moved to the front, in order. */
  function RecordAll(h: seq<QuoteID>, shown: seq<QuoteID>): (r: seq<QuoteID>)
    ensures |shown| > 0 ==> |r| > 0 && r[0] == shown[|shown| - 1]
    decreases |shown|
  {
    if |shown| == 0 then h
    else MoveToFront(RecordAll(h, shown[..|shown| - 1]), shown[|shown| - 1])
  }

  /** However many quotes are shown, a duplicate-free history never gains a duplicate. */
  lemma {:induction false} RecordAllNoDuplicates(h: seq<QuoteID>, shown: seq<QuoteID>)
    requires NoDuplicates(h)
    ensures NoDuplicates(RecordAll(h, shown))
    decreases |shown|
  {
    if |shown| > 0 {
      var earlier := shown[..|shown| - 1];
      RecordAllNoDuplicates(h, earlier);
      MoveToFrontNoDuplicates(RecordAll(h, earlier), shown[|shown| - 1]);
    }
  }

  /** The history only grows: every id it held, and every id shown, is still in it. */
  lemma {:induction false} RecordAllRemembers(h: seq<QuoteID>, shown: seq<QuoteID>)
    ensures forall x :: x in h ==> x in RecordAll(h, shown)
    ensures forall x :: x in shown ==> x in RecordAll(h, shown)
    decreases |shown|
  {
    if |shown| > 0 {
      var earlier, last := shown[..|shown| - 1], shown[|shown| - 1];
      RecordAllRemembers(h, earlier);
      var before := RecordAll(h, earlier);
      forall x | x in h
        ensures x in RecordAll(h, shown)
      {
        MoveToFrontKeeps(before, last, x);
      }
      forall x | x in shown
        ensures x in RecordAll(h, shown)
      {
        if x != last {
          assert x in earlier;
        }
        MoveToFrontKeeps(before, last, x);
      }
    }
  }

  lemma MoveToFrontKeeps(h: seq<QuoteID>, id: QuoteID, x: QuoteID)
    requires x in h || x == id
    ensures x in MoveToFront(h, id)
  {
    MoveToFrontContents(h, id);
    assert x in multiset(MoveToFront(h, id));
  }

  /**
   * `persistSeenHistory(id:)`: load the history, move `id` to the front and
   * save it. The favorites key is not touched.
   */
  function PersistSeenHistory(st: Store, id: QuoteID, encoderSucceeds: bool): (r: Store)
    ensures r.favoriteQuoteIDs == st.favoriteQuoteIDs
    ensures encoderSucceeds ==> LoadSeenHistory(r) == MoveToFront(LoadSeenHistory(st), id)
    ensures !encoderSucceeds ==> r.seenQuoteHistory == Empty
  {
    SaveSeenHistory(st, MoveToFront(LoadSeenHistory(st), id), encoderSucceeds)
  }

  /** After a successful save, the stored history has `id` at index 0 and nowhere else when it was duplicate-free. */
  lemma PersistSeenHistoryFront(st: Store, id: QuoteID)
    requires NoDuplicates(LoadSeenHistory(st))
    ensures var h := LoadSeenHistory(PersistSeenHistory(st, id, true));
            |h| > 0 && h[0] == id && NoDuplicates(h) && id !in h[1..]
  {
    MoveToFrontNoDuplicates(LoadSeenHistory(st), id);
  }

  /** Whatever the encoder does, a duplicate-free stored history stays duplicate-free. */
  lemma PersistSeenHistoryNoDuplicates(st: Store, id: QuoteID, encoderSucceeds: bool)
    requires NoDuplicates(LoadSeenHistory(st))
    ensures NoDuplicates(LoadSeenHistory(PersistSeenHistory(st, id, encoderSucceeds)))
  {
    MoveToFrontNoDuplicates(LoadSeenHistory(st), id);
  }

  /** Persisting the same id twice in a row stores what persisting it once does. */
  lemma PersistSeenHistoryIdempotent(st: Store, id: QuoteID, encoderSucceeds: bool)
    ensures PersistSeenHistory(PersistSeenHistory(st, id, encoderSucceeds), id, encoderSucceeds)
            == PersistSeenHistory(st, id, encoderSucceeds)
  {
    MoveToFrontIdempotent(LoadSeenHistory(st), id);
  }

  /** A fresh install shows 3, then 7, then 3 again. */
  lemma HistoryScenario()
    ensures var s1 := PersistSeenHistory(FreshStore, 3, true);
            var s2 := PersistSeenHistory(s1, 7, true);
            var s3 := PersistSeenHistory(s2, 3, true);
            LoadSeenHistory(s1) == [3] && LoadSeenHistory(s2) == [7, 3] && LoadSeenHistory(s3) == [3, 7]
  {
    var s2 := PersistSeenHistory(PersistSeenHistory(FreshStore, 3, true), 7, true);
    assert FirstIndex([7, 3], 3) == Some(1);
    assert RemoveAt([7, 3], 1) == [7];
  }

}
