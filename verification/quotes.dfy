/**
 * The fixed quote catalog: ten quotes keyed by a plain integer identifier,
 * and the random draw over its keys.
 */
module Quotes {

  import opened Optional

  /** A quote identifier is a plain integer; any integer is representable. */
  type QuoteID = int

  datatype Quote = Quote(text: string, author: string)

  /** The catalog compiled into the app; it never changes at run time. */
  const Catalog: map<QuoteID, Quote> := map[
    1 := Quote("The only way to do great work is to love what you do.", "Steve Jobs"),
    2 := Quote("The way to get started is to quit talking and begin doing.", "Walt Disney"),
    3 := Quote("The future belongs to those who believe in the beauty of their dreams.", "Eleanor Roosevelt"),
    4 := Quote("It does not matter how slowly you go as long as you do not stop.", "Confucius"),
    5 := Quote("Life is like riding a bicycle. To keep your balance, you must keep moving.", "Albert Einstein"),
    6 := Quote("You will face many defeats in life, but never let yourself be defeated.", "Maya Angelou"),
    7 := Quote("It always seems impossible until it’s done.", "Nelson Mandela"),
    8 := Quote("Whether you think you can or you think you can’t, you’re right.", "Henry Ford"),
    9 := Quote("Don’t watch the clock; do what it does. Keep going.", "Unknown"),
    10 := Quote("Setting goals is the first step in turning the invisible into the visible.", "Tony Robbins")
  ]

  /** The catalog's keys are exactly the identifiers 1 through 10. */
  lemma CatalogKeys()
    ensures Catalog.Keys == {1, 2, 3, 4, 5, 6, 7, 8, 9, 10}
    ensures forall id :: id in Catalog <==> 1 <= id <= 10
  {
  }

  /**
   * Subscripting the catalog: a quote exists exactly for the identifiers
   * 1 through 10, and every quote has a non-empty text and author.
   */
  function Lookup(id: QuoteID): (r: Option<Quote>)
    ensures r.Some? <==> 1 <= id <= 10
    ensures r.Some? ==> |r.value.text| > 0 && |r.value.author| > 0
  {
    if id in Catalog then Some(Catalog[id]) else None
  }

  /**
   * `randomElement()` over a catalog: some key of it, or nothing when the
   * catalog is empty. Which key is drawn is left open.
   */
  method PickRandom<K, V>(catalog: map<K, V>) returns (r: Option<K>)
    ensures r.Some? <==> catalog != map[]
    ensures r.Some? ==> r.value in catalog
  {
    if catalog == map[] {
      r := None;
    } else {
      var id :| id in catalog;
      r := Some(id);
    }
  }

  /** The app's catalog is not empty, so a draw over it always yields a key. */
  lemma CatalogNotEmpty()
    ensures Catalog != map[]
  {
    assert 1 in Catalog;
  }

}
