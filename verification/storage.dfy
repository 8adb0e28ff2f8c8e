/**
 * Persistent list storage. Each of the two user-defaults keys,
 * `favoriteQuoteIDs` and `seenQuoteHistory`, holds a data blob that encodes
 * a list of quote identifiers. The JSON codec itself is foreign code: a blob
 * is modelled by what decoding it yields.
 */
module Storage {

  import opened Quotes

  /**
   * A stored blob: no data at all (the key's default), data that decodes to
   * a list of identifiers, or data that fails to decode. An encoded empty
   * list is `Valid([])`, which is not the same blob as `Empty`.
   */
  datatype Blob = Empty | Valid(ids: seq<QuoteID>) | Malformed

  /** Decoding never fails: no data and undecodable data both read as `[]`. */
  function Decode(b: Blob): (r: seq<QuoteID>)
    ensures !b.Valid? ==> r == []
    ensures b.Valid? ==> r == b.ids
  {
    match b
    case Valid(ids) => ids
    case _ => []
  }

  /**
   * Encoding; `encoderSucceeds` is the outcome of the foreign encoder.
   * A failed encoding is stored as an empty blob.
   */
  function Encode(ids: seq<QuoteID>, encoderSucceeds: bool): (b: Blob)
    ensures encoderSucceeds ==> Decode(b) == ids
    ensures !encoderSucceeds ==> b == Empty
  {
    if encoderSucceeds then Valid(ids) else Empty
  }

  lemma DecodeFallback(b: Blob)
    ensures !b.Valid? ==> Decode(b) == []
    ensures Decode(Empty) == [] && Decode(Malformed) == []
  {
  }

  /** What a successful save writes, a load reads back; a failed save reads back as `[]`. */
  lemma EncodeDecodeRoundTrip(ids: seq<QuoteID>, encoderSucceeds: bool)
    ensures encoderSucceeds ==> Decode(Encode(ids, encoderSucceeds)) == ids
    ensures !encoderSucceeds ==> Encode(ids, encoderSucceeds) == Empty
    ensures !encoderSucceeds ==> Decode(Encode(ids, encoderSucceeds)) == []
  {
  }

  /** The two persisted keys. */
  datatype Store = Store(favoriteQuoteIDs: Blob, seenQuoteHistory: Blob)

  /** A fresh install: both keys hold their default, empty data. */
  const FreshStore := Store(Empty, Empty)

  /** Reading the favorites key. */
  function FavoriteIDs(st: Store): (r: seq<QuoteID>)
    ensures !st.favoriteQuoteIDs.Valid? ==> r == []
    ensures st.favoriteQuoteIDs.Valid? ==> r == st.favoriteQuoteIDs.ids
  {
    Decode(st.favoriteQuoteIDs)
  }

  /** Writing the favorites key; the history key is not touched. */
  function SaveFavoriteIDs(st: Store, ids: seq<QuoteID>, encoderSucceeds: bool): (r: Store)
    ensures r.seenQuoteHistory == st.seenQuoteHistory
    ensures encoderSucceeds ==> FavoriteIDs(r) == ids
    ensures !encoderSucceeds ==> r.favoriteQuoteIDs == Empty
  {
    st.(favoriteQuoteIDs := Encode(ids, encoderSucceeds))
  }

  /** Reading the history key. */
  function LoadSeenHistory(st: Store): (r: seq<QuoteID>)
    ensures !st.seenQuoteHistory.Valid? ==> r == []
    ensures st.seenQuoteHistory.Valid? ==> r == st.seenQuoteHistory.ids
  {
    Decode(st.seenQuoteHistory)
  }

  /** Writing the history key; the favorites key is not touched. */
  function SaveSeenHistory(st: Store, ids: seq<QuoteID>, encoderSucceeds: bool): (r: Store)
    ensures r.favoriteQuoteIDs == st.favoriteQuoteIDs
    ensures encoderSucceeds ==> LoadSeenHistory(r) == ids
    ensures !encoderSucceeds ==> r.seenQuoteHistory == Empty
  {
    st.(seenQuoteHistory := Encode(ids, encoderSucceeds))
  }

}
