/**
 * The text a song card shows (`createSongCard`) and the search filter over the rendered
 * cards (`filterSongs`, fed with the lowercased search box value).
 */
module Search {
  import Wrappers
  import Text
  import Catalog

  const UnknownArtist: string := "Unknown Artist"

  /** What a rendered card carries for the filter and the download links. */
  datatype Card = Card(title: string, artist: string, documentLink: bool)

  /** `song.artist || 'Unknown Artist'`: never empty, and the record's artist whenever it has one. */
  function DisplayedArtist(song: Catalog.Song): (a: string)
    ensures a != []
    ensures song.artist != [] ==> a == song.artist
    ensures song.artist == [] ==> a == UnknownArtist
  {
    if song.artist != [] then song.artist else UnknownArtist
  }

  /** The document download link is shown only when `documentUrl` is a non-empty string. */
  predicate ShowsDocumentLink(song: Catalog.Song) {
    song.documentUrl.Some? && song.documentUrl.value != []
  }

  /** The card `createSongCard` renders: every card is found by its own lowercased title
      and by its own lowercased displayed artist. */
  function CardFor(song: Catalog.Song): (c: Card)
    ensures Matches(c, Text.Lower(song.title))
    ensures Matches(c, Text.Lower(DisplayedArtist(song)))
  {
    var c := Card(song.title, DisplayedArtist(song), ShowsDocumentLink(song));
    assert Text.StartsWith(Text.Lower(c.title), Text.Lower(song.title));
    assert Text.StartsWith(Text.Lower(c.artist), Text.Lower(DisplayedArtist(song)));
    c
  }

  /** A record made by `addNewSong` shows a document link exactly when a non-empty document
      URL was given for it. */
  lemma NewSongDocumentLink(now: int, title: string, artist: string, audio: Catalog.AudioUrls, document: Wrappers.Option<string>)
    ensures CardFor(Catalog.NewSong(now, title, artist, audio, document)).documentLink
            <==> document.Some? && document.value != []
  {
  }

  /** No card of the seed list shows a document link. */
  lemma SeedShowsNoDocumentLink()
    ensures forall i :: 0 <= i < |Catalog.Seed()| ==> !CardFor(Catalog.Seed()[i]).documentLink
  {
  }

  /** The test of `filterSongs` for one card: the term occurs, at some position, in the
      lowercased title or in the lowercased artist. */
  predicate Matches(card: Card, term: string)
    ensures Matches(card, term) <==>
              (exists i :: Text.OccursAt(Text.Lower(card.title), term, i))
              || (exists i :: Text.OccursAt(Text.Lower(card.artist), term, i))
  {
    Text.IncludesIffOccurs(Text.Lower(card.title), term);
    Text.IncludesIffOccurs(Text.Lower(card.artist), term);
    Text.Includes(Text.Lower(card.title), term) || Text.Includes(Text.Lower(card.artist), term)
  }

  /** An empty search box shows every card. */
  lemma EmptyTermMatches(card: Card)
    ensures Matches(card, "")
  {
    Text.EmptyIncluded(Text.Lower(card.title));
  }

  /** Typing more can only hide cards: a card that matches a term matches every piece of it. */
  lemma NarrowingSearch(card: Card, term: string, piece: string)
    requires Matches(card, term) && Text.Includes(term, piece)
    ensures Matches(card, piece)
  {
    if Text.Includes(Text.Lower(card.title), term) {
      Text.IncludesTransitive(Text.Lower(card.title), term, piece);
    } else {
      Text.IncludesTransitive(Text.Lower(card.artist), term, piece);
    }
  }

  /** A term with an upper-case letter hides every card, which is why the caller lowercases it. */
  lemma UpperTermMatchesNothing(card: Card, term: string, k: nat)
    requires k < |term| && Text.IsUpper(term[k])
    ensures !Matches(card, term)
  {
    Text.UpperNeverInLower(card.title, term, k);
    Text.UpperNeverInLower(card.artist, term, k);
  }

  /** A song without an artist is found by searching for the fallback text. */
  lemma FallbackArtistSearchable(song: Catalog.Song)
    requires song.artist == []
    ensures Matches(CardFor(song), "unknown artist")
  {
    var lowered := Text.Lower(UnknownArtist);
    var target := "unknown artist";
    forall k | 0 <= k < |target| ensures lowered[k] == target[k] {
      assert lowered[k] == Text.LowerChar(UnknownArtist[k]);
    }
    assert lowered[..|target|] == target;
  }

  /** The cards in the songs grid and whether each is displayed. */
  class SongGrid {
    var cards: seq<Card>
    var shown: array<bool>

    predicate Valid()
      reads this
    {
      shown.Length == |cards|
    }

    /** `renderSongs`: one card per record, in catalog order, all displayed. */
    constructor (songs: seq<Catalog.Song>)
      ensures Valid() && fresh(shown)
      ensures |cards| == |songs| && forall i :: 0 <= i < |songs| ==> cards[i] == CardFor(songs[i])
      ensures forall i :: 0 <= i < shown.Length ==> shown[i]
    {
      cards := seq(|songs|, i requires 0 <= i < |songs| => CardFor(songs[i]));
      shown := new bool[|songs|](_ => true);
    }

    /** `filterSongs(term)`: displays exactly the cards that match `term`. */
    method FilterSongs(term: string)
      requires Valid()
      modifies shown
      ensures Valid()
      ensures forall i :: 0 <= i < shown.Length ==> (shown[i] <==> Matches(cards[i], term))
    {
      var i := 0;
      while i < shown.Length
        invariant 0 <= i <= shown.Length
        invariant forall j :: 0 <= j < i ==> (shown[j] <==> Matches(cards[j], term))
      {
        shown[i] := Matches(cards[i], term);
        i := i + 1;
      }
    }
  }
}
