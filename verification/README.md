# DailyInspiration — a verified model of the quote lists

DailyInspiration shows a random inspirational quote from a fixed catalog of
ten, lets the user save quotes as favorites and keeps a most-recent-first
history of the quotes it has shown. All of its data logic is a handful of
list operations inside SwiftUI views. This project lifts them out as pure
Dafny functions over `seq<int>` and proves what they guarantee.

- `Quotes` (quotes.dfy): the `QuoteID` alias (a plain `Int`), the ten-entry
  catalog, lookup, and `randomElement()` as a nondeterministic choice of a
  key (`PickRandom`).
- `Storage` (storage.dfy): the two user-defaults keys `favoriteQuoteIDs` and
  `seenQuoteHistory`. A stored blob is `Empty` (the key's default `Data()`),
  `Valid(ids)` (JSON that decodes to a list of ids) or `Malformed`. Reading
  never fails: `Empty` and `Malformed` both read as `[]`. The outcome of the
  JSON encoder is a parameter `encoderSucceeds`; a failed encoding is stored
  as `Empty`. The favorites reader exists twice in the source, identically
  (DailyInspiration/Views/InspirationView.swift:190-195 and
  DailyInspiration/Views/FavoritesView.swift:59-64); the model defines it once.
- `SwiftArray` (swift_array.dfy): the `Array` methods the app calls —
  `firstIndex(of:)`, `remove(at:)`, `remove(atOffsets:)` — and the vocabulary
  for their properties (`NoDuplicates`, `Without`, `Survivors`).
- `History` (history.dfy): `persistSeenHistory` — load, remove the first
  occurrence of the id, insert it at index 0, save.
- `Favorites` (favorites.dfy): `saveToFavorites` (append only when absent),
  `deleteFavorites` (batch positional delete) and the debug
  `addDummyFavorite` (unconditional append of a random catalog key).
- `Inspiration` (inspiration.dfy): `onAppear` and `generateNewQuote`, which
  draw a key and record it in the history.

The random draws take the catalog as a parameter, so the source's
`if let` / `guard let` branch for "the catalog yielded nothing" is modelled;
`Quotes.CatalogNotEmpty` shows that for the app's own catalog that branch
is never taken.

Modelling choices:
- `remove(atOffsets:)` has no documented behaviour for an offset past the
  end of the list, so `Favorites.DeleteFavorites` requires every offset to
  be in range instead of inventing a behaviour for the others.
- `QuoteID` is a plain `Int` alias, so the model uses `int`;
  `Quotes.Lookup` shows that ids outside 1..10 have no quote.
- The history screen calls the list "move-to-front, unique,
  most-recent-first" (DailyInspiration/Views/HistoryView .swift:222), but
  `persistSeenHistory` removes only the first occurrence of the id. The
  model proves uniqueness is preserved, not created
  (`History.MoveToFrontNoDuplicates`,
  `History.PersistSeenHistoryNoDuplicates`).
- No code in the modelled files clears or caps the history, so neither is
  modelled.

Paths below are relative to the repository root.

## Model

| member | source | states |
|---|---|---|
| `Quotes.CatalogKeys` | DailyInspiration/Views/InspirationalQuotes.swift:18-29 | the catalog's key set is exactly {1, …, 10} |
| `Quotes.Lookup` | DailyInspiration/Views/InspirationalQuotes.swift:16-29 | an id has a quote exactly when it lies in 1..10 (zero, negatives and larger ids have none); every quote has a non-empty text and a non-empty author |
| `Quotes.CatalogNotEmpty` | DailyInspiration/Views/InspirationalQuotes.swift:18 | the catalog is not empty, so a random draw over it always yields a key |
| `Quotes.PickRandom` | DailyInspiration/Views/InspirationView.swift:129 | `randomElement()` yields a key exactly when the catalog is non-empty, and the key it yields is in the catalog |
| `Storage.Decode` | DailyInspiration/Views/InspirationView.swift:201-208 | a blob that is empty or fails to decode reads as `[]`; a decodable blob reads as its list |
| `Storage.Encode` | DailyInspiration/Views/InspirationView.swift:210-216 | a successful encoding reads back as the encoded list; a failed one is stored as the empty blob |
| `Storage.DecodeFallback` | DailyInspiration/Views/FavoritesView.swift:59-64 | reading a key gives `[]` for an empty blob and for a blob that fails to decode; no error escapes |
| `Storage.EncodeDecodeRoundTrip` | DailyInspiration/Views/FavoritesView.swift:67-69 | a successfully encoded list reads back as itself; a failed encoding stores an empty blob, which reads back as `[]` |
| `Storage.FavoriteIDs` | DailyInspiration/Views/InspirationView.swift:190-195 | the favorites read is `[]` unless the blob decodes, and then it is the decoded list |
| `Storage.SaveFavoriteIDs` | DailyInspiration/Views/InspirationView.swift:197-199 | after a save the favorites read back as the saved list (or the blob is empty when encoding failed); the history key is untouched |
| `Storage.LoadSeenHistory` | DailyInspiration/Views/InspirationView.swift:201-208 | the history read is `[]` for an empty or undecodable blob, otherwise the decoded list |
| `Storage.SaveSeenHistory` | DailyInspiration/Views/InspirationView.swift:210-216 | after a save the history reads back as the saved list (or the blob is empty when encoding failed); the favorites key is untouched |
| `SwiftArray.FirstIndex` | DailyInspiration/Views/InspirationView.swift:220 | `firstIndex(of:)` is absent exactly when the value does not occur; otherwise it points at an occurrence with none before it |
| `SwiftArray.RemoveAt` | DailyInspiration/Views/InspirationView.swift:221 | `remove(at:)` shortens by one, shifts later elements down by one, and removes exactly one copy of the element at that position |
| `SwiftArray.RemoveAtKeepsOthers` | DailyInspiration/Views/InspirationView.swift:221 | removing an occurrence of `x` leaves the order of all other values unchanged |
| `SwiftArray.Survivors` | DailyInspiration/Views/FavoritesView.swift:73 | the surviving positions of a batch delete are below the old length, not among the offsets, and strictly increasing |
| `SwiftArray.SurvivorsComplete` | DailyInspiration/Views/FavoritesView.swift:73 | every in-range position not among the offsets survives |
| `SwiftArray.RemoveAtOffsets` | DailyInspiration/Views/FavoritesView.swift:73 | `remove(atOffsets:)` keeps exactly the elements whose pre-deletion positions are not in the offsets, in increasing position order |
| `SwiftArray.SurvivorsOfNone` | DailyInspiration/Views/FavoritesView.swift:73 | with no offsets every position survives, in order |
| `SwiftArray.RemoveAtOffsetsLength` | DailyInspiration/Views/FavoritesView.swift:72-74 | with in-range offsets the length drops by exactly the number of offsets |
| `SwiftArray.RemoveAtNoOffsets` | DailyInspiration/Views/FavoritesView.swift:73 | an empty offset set removes nothing |
| `SwiftArray.RemoveAtAllOffsets` | DailyInspiration/Views/FavoritesView.swift:73 | offsets covering every position leave nothing |
| `History.RemoveFirst` | DailyInspiration/Views/InspirationView.swift:220-221 | an absent id leaves the history as it is; a present one loses exactly one copy and the length drops by one; every other id keeps its order |
| `History.MoveToFront` | DailyInspiration/Views/InspirationView.swift:223 | after the move the id is at index 0 |
| `History.MoveToFrontTail` | DailyInspiration/Views/InspirationView.swift:219-223 | behind index 0 is the old history unchanged when the id was absent, otherwise the old history closed up over the earliest position holding the id |
| `History.MoveToFrontKeepsOrder` | DailyInspiration/Views/InspirationView.swift:219-223 | all ids other than the moved one keep their relative order |
| `History.MoveToFrontLength` | DailyInspiration/Views/InspirationView.swift:220-223 | the length is unchanged when the id was present and grows by exactly one otherwise |
| `History.MoveToFrontContents` | DailyInspiration/Views/InspirationView.swift:220-223 | the history holds the same ids with the same multiplicities, plus one copy of the id when it was new |
| `History.MoveToFrontIdempotent` | DailyInspiration/Views/InspirationView.swift:220-223 | moving the same id to the front twice in a row gives the same history as once |
| `History.MoveToFrontNoDuplicates` | DailyInspiration/Views/InspirationView.swift:220-223 | a duplicate-free history stays duplicate-free and contains the id exactly once |
| `History.RecordAll` | DailyInspiration/Views/InspirationView.swift:218-225 | after showing a non-empty run of quotes, the most recently shown one is at the front |
| `History.RecordAllNoDuplicates` | DailyInspiration/Views/InspirationView.swift:218-225 | any number of shows keeps a duplicate-free history duplicate-free |
| `History.RecordAllRemembers` | DailyInspiration/Views/InspirationView.swift:218-225 | after successful saves, the history never loses an id: everything it held and everything shown is still in it |
| `History.PersistSeenHistory` | DailyInspiration/Views/InspirationView.swift:218-225 | the stored history becomes the loaded one moved-to-front (empty blob on an encoding failure); favorites are untouched |
| `History.PersistSeenHistoryFront` | DailyInspiration/Views/InspirationView.swift:218-225 | after a successful save from a duplicate-free stored history, the new stored history has the id at index 0, exactly once, and no duplicates |
| `History.PersistSeenHistoryIdempotent` | DailyInspiration/Views/InspirationView.swift:218-225 | persisting the same id twice in a row stores the same as persisting it once |
| `History.PersistSeenHistoryNoDuplicates` | DailyInspiration/Views/InspirationView.swift:218-225 | whether or not the encoding succeeds, a duplicate-free stored history stays duplicate-free |
| `History.HistoryScenario` | DailyInspiration/Views/InspirationView.swift:218-225 | from a fresh install, showing 3, 7, 3 gives [3], [7, 3], [3, 7] |
| `Favorites.SaveToFavorites` | DailyInspiration/Views/InspirationView.swift:173-181 | no selection: nothing changes; id already saved: the blob is not written; otherwise the id is appended at the end with earlier entries untouched; history untouched |
| `Favorites.SaveToFavoritesIdempotent` | DailyInspiration/Views/InspirationView.swift:176-181 | saving the same selection a second time changes nothing |
| `Favorites.SaveToFavoritesNoDuplicates` | DailyInspiration/Views/InspirationView.swift:178-180 | a duplicate-free favorites list stays duplicate-free |
| `Favorites.SaveToFavoritesContains` | DailyInspiration/Views/InspirationView.swift:176-180 | after a successful save the selected id is a favorite and every earlier favorite still is |
| `Favorites.DeleteFavorites` | DailyInspiration/Views/FavoritesView.swift:71-75 | with in-range offsets, the saved favorites are exactly the entries at the surviving pre-deletion positions, in order, and the list shrinks by the number of offsets; history untouched |
| `Favorites.DeleteNoFavorites` | DailyInspiration/Views/FavoritesView.swift:71-75 | deleting no rows leaves the decoded favorites unchanged |
| `Favorites.DeleteAllFavorites` | DailyInspiration/Views/FavoritesView.swift:71-75 | deleting every row 0..n-1 leaves `[]` |
| `Favorites.AppendFavorite` | DailyInspiration/Views/FavoritesView.swift:83-85 | a drawn id is appended at the end with the prefix unchanged and length one more; no draw leaves storage untouched |
| `Favorites.AppendFavoriteMayDuplicate` | DailyInspiration/Views/FavoritesView.swift:83-85 | with no containment check, appending an existing favorite stores a duplicate |
| `Favorites.AddDummyFavorite` | DailyInspiration/Views/FavoritesView.swift:78-86 | an empty catalog leaves storage untouched; otherwise, when encoding succeeds, exactly one catalog key is appended after the unchanged old list, and when it fails the favorites blob is empty |
| `Favorites.FavoritesScenario` | DailyInspiration/Views/InspirationView.swift:176-180 | from a fresh install, saving 2, 2, 5 (`saveToFavorites`) and then deleting row 0 (`deleteFavorites`, FavoritesView.swift:71-75) gives [2], [2], [2, 5], [5] |
| `Inspiration.OnAppear` | DailyInspiration/Views/InspirationView.swift:127-133 | a quote is drawn and recorded only when none is selected; the drawn id is a catalog key and the history is updated by move-to-front; favorites untouched |
| `Inspiration.GenerateNewQuote` | DailyInspiration/Views/InspirationView.swift:157-171 | every call draws a catalog key, selects it and records it by move-to-front; an empty catalog changes nothing |

## Left out

- SwiftUI presentation: layout, gradients, fonts, navigation, the
  `ProgressView` placeholder, StartView.swift and the history screen.
- Timers and animation: the 0.3 s delay in `generateNewQuote` (the model
  performs the draw at once), the 2 s "Saved!" reset, `isAnimating` and
  `showSavedFeedback`; they are UI state, not list data.
- The JSON codec: encoding and decoding are foreign calls; a blob is
  modelled by what it decodes to, and the encoder's success is a parameter.
  No JSON-level round trip is claimed.
- Randomness: `randomElement()` is a nondeterministic choice of a catalog
  key; its distribution and any repeat behaviour are not modelled.
- Out-of-range delete offsets: `remove(atOffsets:)` documents no behaviour
  for them, so `Favorites.DeleteFavorites` requires them in range rather
  than giving them one.
- Clearing or capping the history: no such code exists in the files
  modelled.
