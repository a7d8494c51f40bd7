# LAKI cover song player: a Dafny model of its logic

The page script `script.js` contains two things: a music-player page (class `MusicApp`) and a service worker appended to it.
Almost all of it is DOM and browser glue.
This project models the part that has rules of its own:

- **Catalog store** (`catalog.dfy`): the ordered list of song records and the one storage slot `lakiSongs` that mirrors it.
  It covers loading with the two-song seed, validated add, confirmed delete by id and the delete-mode switch.
  Class `Catalog.Store` holds `songs`, `storage` and `deleteMode`. Every change to the list rewrites the whole slot.
- **Single active audio** (`playback.dfy`): `togglePlay` and each card's `ended` handler.
  The pure `Toggle`/`AfterEnded` functions are the specification.
  Class `Playback.Player` keeps the widgets' `paused` flags in an array and `currentAudio` as an index.
  The invariant is that every widget that is playing is `currentAudio`, so at most one plays.
  This holds for any run of clicks and track ends.
- **Search** (`search.dfy`): the text a card shows (title, artist with the "Unknown Artist" fallback, document-link visibility).
  Also `filterSongs`, which displays exactly the cards whose lowercased title or artist contains the term.
- **Song request** (`song_request.dfy`): the WhatsApp link built from the two trimmed form fields.
  Beside it sits a small model of how the recipient reads the `text` query value.
  That model is used to state what the link delivers.
- **Service worker** (`service_worker.dfy`): the fetch policy is cache first.
  A hit, a cached `GET` request, is served as is. A miss on a `GET` request with a status-200 `basic` response is stored.
  Any other response is passed through. A request with any other method always goes to the network and is never stored.
  A network failure gets the offline placeholder. The `activate` clean-up keeps only `laki-covers-v1`.
- `text.dfy` holds JavaScript's `trim`, `toLowerCase` (ASCII letters) and `includes`; `wrappers.dfy` holds `Option` (the source's `null`).

Foreign calls are parameters:
- `confirm(...)` becomes `confirmed`.
- `Date.now()` becomes `now`.
- The object URLs from `URL.createObjectURL` become `AudioUrls` and `document`.
- The network's answer becomes `network` (`None` when `fetch` rejects).
- The storage slot's content becomes `saved`.

`sendSongRequest` returns the link instead of calling `window.open`.
`addNewSong` returns the new record, or `None` where the source shows its alert.

In three places the model follows the code rather than what one might expect:
- `deleteSong` removes every record with the id, because it uses `Array.filter`, not just the first one.
- `addNewSong` does not guarantee a unique id.
- A corrupt saved list is not recovered from, because `JSON.parse` at line 22 would throw.

## Model

| member | source | states |
|---|---|---|
| Text.Trim | script.js:170-171 | the trimmed field is the input with only white space cut from its two ends (it occurs in the input with blank text before and after it), empty exactly when the input is all white space, otherwise starting and ending with a non-space |
| Text.Lower | script.js:416-417 | lowercasing keeps the length and maps each character through the ASCII lowercase map |
| Text.IncludesIffOccurs | script.js:419 | `includes` holds exactly when the term occurs at some position of the text |
| Catalog.Without | script.js:201 | the filtered list is no longer than before and holds exactly the records whose id differs from the deleted one |
| Catalog.WithoutAppend | script.js:201 | filtering works piecewise over concatenation, so the surviving records keep their relative order |
| Catalog.WithoutAbsent | script.js:201 | deleting an id that no record carries leaves the list unchanged |
| Catalog.WithoutIdempotent | script.js:201 | deleting the same id twice is the same as deleting it once |
| Catalog.AddThenDelete | script.js:180-201 | appending a record under an unused id and then filtering that id out gives back the original list |
| Catalog.Store.constructor | script.js:4-12 | a new app has delete mode off, its list mirrored in the slot, and the seed list when nothing was saved, otherwise the saved list |
| Catalog.Store.LoadSongs | script.js:19-45 | an empty slot gives the two-record seed, which is also written to the slot; a filled slot gives exactly the saved list; afterwards the slot mirrors the list |
| Catalog.Store.SaveSongs | script.js:48-50 | the slot is overwritten with the whole current list |
| Catalog.Store.AddNewSong | script.js:169-190 | accepted exactly when the trimmed title is non-empty and an audio file was chosen; on rejection list and slot are unchanged; otherwise the list grows by exactly the new record at the end, with the earlier records unchanged and in order; that record carries `now`, the trimmed title and artist, the two audio URLs and the document URL (`None` exactly when no document was chosen); the slot mirrors the new list |
| Catalog.Store.DeleteSong | script.js:199-206 | unconfirmed: nothing changes; confirmed: the list becomes the records with a different id, in their old order, and the slot mirrors it |
| Catalog.Store.ToggleDeleteMode | script.js:209-210 | the delete-mode flag flips and the list and slot are untouched |
| Catalog.AddThenDeleteRestores | script.js:169-206 | on a mirrored store, a valid add under an unused id followed by a confirmed delete of that id restores the list and keeps the slot mirrored |
| Playback.Toggle | script.js:118-137 | a different current widget is paused first; from a state where only `currentAudio` can be playing, the target flips, it becomes current exactly when it starts (else `currentAudio` is cleared), every other widget is paused, and the invariant still holds |
| Playback.AfterEnded | script.js:109-112 | a track end pauses only that widget, leaves `currentAudio` and every other widget alone, and keeps the invariant |
| Playback.AtMostOnePlaying | script.js:118-137 | under the invariant at most one widget is playing |
| Playback.RunKeepsOnePlaying | script.js:80-82 | from any state that keeps the invariant (page load: all paused), every run of play clicks and track ends keeps it and never has two widgets playing |
| Playback.Player.constructor | script.js:6 | freshly rendered widgets are all paused, `currentAudio` is null, and the invariant holds |
| Playback.Player.TogglePlay | script.js:118-137 | the widgets and `currentAudio` change exactly as `Toggle` says and the invariant is kept |
| Playback.Player.Ended | script.js:109-112 | the widgets change exactly as `AfterEnded` says and the invariant is kept |
| Search.DisplayedArtist | script.js:72 | the shown artist is never empty: the record's artist when it has one, otherwise "Unknown Artist" |
| Search.CardFor | script.js:71-101 | every card is found by searching its record's lowercased title and by its lowercased displayed artist |
| Search.NewSongDocumentLink | script.js:180-186 | the card of a song added through the form shows a document link exactly when a non-empty document URL was given |
| Search.SeedShowsNoDocumentLink | script.js:25-42 | no card of the two seed songs shows a document link |
| Search.Matches | script.js:416-419 | a card matches a term exactly when the term occurs at some position in its lowercased title or in its lowercased artist |
| Search.EmptyTermMatches | script.js:413-424 | an empty search term shows every card |
| Search.NarrowingSearch | script.js:406-424 | a card that matches a term also matches every piece of that term, so typing more can only hide cards |
| Search.UpperTermMatchesNothing | script.js:407-419 | a term holding an upper-case letter hides every card, which is why the input handler lowercases it first |
| Search.FallbackArtistSearchable | script.js:72 | a song without an artist is found by searching "unknown artist" |
| Search.SongGrid.constructor | script.js:53-60 | rendering makes one card per record, in catalog order, all displayed |
| Search.SongGrid.FilterSongs | script.js:413-424 | afterwards each card is displayed exactly when its lowercased title or displayed artist contains the term |
| SongRequest.RequestUrl | script.js:224-233 | no link (the alert) exactly when the song name or the description is blank after trimming |
| SongRequest.RequestUrlDeliversPlainText | script.js:232-233 | when neither trimmed field holds `%`, `&`, `#`, `+`, CR, LF or TAB, the recipient reads the label, the name, a blank line, the label and the description |
| SongRequest.AmpersandInNameCuts | script.js:232-233 | a song name with an `&` after a plain start reaches the recipient as that start only |
| SongRequest.AmpersandCutsRequest | script.js:232-233 | the request named "R&B" arrives as "Song Request: R", not as the intended message |
| SongRequest.EncodedRequestUrl | script.js:224-233 | no link exactly when a trimmed field is blank, as in the source |
| SongRequest.EncodedRequestDelivered | script.js:232-233 | with the message percent-encoded, every accepted request reaches the recipient intact |
| SongRequest.EncodedAgreesOnPlainText | script.js:232-233 | on fields without reserved characters the encoded link is character for character the link the source builds |
| ServiceWorker.Fetch | script.js:570-600 | entries already cached never change and at most the request is added, never one whose method is not `GET`; a cached `GET` gets its cached response; any other request gets the network's answer, or the offline placeholder when the network fails; what is stored under a `GET` is the response given |
| ServiceWorker.OtherMethodsBypassCache | script.js:572-593 | a request whose method is not `GET` is never answered from the cache nor stored: it gets the network's answer or the placeholder |
| ServiceWorker.HitIgnoresNetwork | script.js:572-577 | a cache hit (a cached `GET`) returns the cached response, leaves the cache unchanged and does not depend on the network |
| ServiceWorker.MissStoresIffStorable | script.js:579-593 | on a miss the network's response is returned, and it is stored under the request exactly when its status is 200, its type `basic` and the request a `GET`; otherwise the cache is unchanged |
| ServiceWorker.OfflineMissGivesPlaceholder | script.js:596-599 | a request that is not a hit, with a network failure, returns "Offline - Content not available" and leaves the cache unchanged |
| ServiceWorker.StoredThenServedOffline | script.js:572-593 | after a storable miss on a `GET` the same request is answered from the cache, whatever the network does |
| ServiceWorker.FetchSettles | script.js:572-593 | once a `GET` is in the cache, repeating it gives the same response and stores nothing new |
| ServiceWorker.Retained | script.js:559-561 | after clean-up only `laki-covers-v1` can remain, and it remains with its entries whenever it was there |
| ServiceWorker.RetainedIdempotent | script.js:555-566 | a second activation deletes nothing more |
| ServiceWorker.CacheStorage.Activate | script.js:555-566 | the loop over the cache names deletes exactly the caches not named `laki-covers-v1` |
| ServiceWorker.CacheStorage.HandleFetch | script.js:570-601 | the reply and the worker's cache are those of `Fetch`; the storage changes only when a response is stored, in the cache `laki-covers-v1`, which is created if missing |

## Findings

| source | as written | input that shows it | evidently intended | confidence | as-written member | corrected member |
|---|---|---|---|---|---|---|
| script.js:232-233 | the trimmed song name and description are pasted into the link's query without percent-encoding | song name "R&B", description "Love": the `&` starts a new query parameter and the recipient reads only "Song Request: R" | the message percent-encoded, as the template already does for its blank line (`%0A%0A`) | medium, not executed | SongRequest.AmpersandCutsRequest | SongRequest.EncodedRequestDelivered |

## Left out

- Rendering and markup: icon swaps, `showNotification`, form show/hide/clear, the delete button's label. They are UI only. Of `createSongCard`, only the card text and the document-link rule are modelled. Of `renderSongs`, only the card list it builds (one card per record, in catalog order, all displayed) is modelled.
- Playback speed (`parseFloat` into `playbackRate`), background parallax, IntersectionObserver effects, lazy loading and the virtual-scrolling stub. They are floating-point arithmetic and browser observers.
- `downloadFile` and its anchor click, and `window.open`. They are browser calls.
- `localStorage` and JSON. The slot holds the list itself, so serialisation and its round trip are not modelled. A corrupt saved value is not modelled either, because line 22 would throw on it.
- Catalog.Store.AddNewSong: does not claim the new id is unique. `Date.now()` can repeat or collide with a saved id, and the code does not check.
- Playback.Player.TogglePlay: `audio.play()` is taken to start at once. A rejected play promise, which would leave the widget paused, is not modelled.
- The `closest()` lookup on a previous widget that a re-render has detached (line 121). It is a DOM edge case, and the model assumes the widget is still rendered.
- Text.Lower: lowercases ASCII letters only. Unicode case mapping is not modelled.
- Text.Trim: removes only the ASCII white space, line terminators, NO-BREAK SPACE, the byte-order mark and U+2028/U+2029. Other Unicode space separators are not modelled.
- ServiceWorker.CacheStorage.HandleFetch: `caches.match` searches every cache of the origin, but the model looks only in `laki-covers-v1`. These agree once `activate` has run.
- ServiceWorker.CacheStorage.HandleFetch: the `cache.put` at lines 588-591 is fire-and-forget. The model completes it before the reply.
- A rejection of `caches.match` itself, which the same `catch` would turn into the placeholder, is not modelled.
- The install handler's `cache.addAll` (lines 542-551). Its all-or-nothing behaviour belongs to the Cache API.
- Online/offline notifications and service-worker registration (lines 516-530). They only log or notify.
- SongRequest.RequestUrlDeliversPlainText: the recipient's reading of the `text` value is a model. It cuts at `&` or `#`, decodes `%XX` as one character and `+` as a space. Multi-byte UTF-8 escapes are decoded as separate characters.
