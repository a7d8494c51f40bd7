/**
 * The catalog store of `MusicApp`: the ordered list of song records and the one
 * storage slot (`localStorage['lakiSongs']`) that mirrors it. Serialisation is not
 * modelled: the slot holds the list itself, `None` when nothing was ever saved.
 */
module Catalog {
  import opened Wrappers
  import Text

  /** One track record. `documentUrl` is `null` in the source when no document was attached. */
  datatype Song = Song(
    id: int,
    title: string,
    artist: string,
    audioUrl: string,
    mp3Url: string,
    documentUrl: Option<string>)

  /** The two object URLs that `URL.createObjectURL` mints for the chosen audio file:
      one for playback, one for the download link. */
  datatype AudioUrls = AudioUrls(playUrl: string, downloadUrl: string)

  const SampleUrl: string := "https://www.soundjay.com/misc/sounds/bell-ringing-05.wav"

  /** The demonstration list written on first start. */
  function Seed(): seq<Song> {
    [ Song(1, "Perfect Cover", "Laki", SampleUrl, SampleUrl, None),
      Song(2, "Someone Like You Cover", "Laki", SampleUrl, SampleUrl, None) ]
  }

  /** `songs.filter(song => song.id !== id)`: the records whose id differs from `id`. */
  function Without(songs: seq<Song>, id: int): (r: seq<Song>)
    ensures |r| <= |songs|
    ensures forall s :: s in r <==> s in songs && s.id != id
  {
    if songs == [] then []
    else (if songs[0].id == id then [] else [songs[0]]) + Without(songs[1..], id)
  }

  /** Filtering works piecewise, so the survivors keep their relative order. */
  lemma {:induction false} WithoutAppend(a: seq<Song>, b: seq<Song>, id: int)
    ensures Without(a + b, id) == Without(a, id) + Without(b, id)
  {
    if a == [] {
      assert a + b == b;
    } else {
      assert (a + b)[1..] == a[1..] + b;
      WithoutAppend(a[1..], b, id);
    }
  }

  /** Deleting an id no record carries leaves the list as it is. */
  lemma {:induction false} WithoutAbsent(songs: seq<Song>, id: int)
    requires forall s :: s in songs ==> s.id != id
    ensures Without(songs, id) == songs
  {
    if songs != [] {
      assert songs[0] in songs;
      WithoutAbsent(songs[1..], id);
    }
  }

  /** Deleting twice by the same id is the same as deleting once. */
  lemma WithoutIdempotent(songs: seq<Song>, id: int)
    ensures Without(Without(songs, id), id) == Without(songs, id)
  {
    WithoutAbsent(Without(songs, id), id);
  }

  /** Adding a record under a fresh id and then deleting that id gives the list back. */
  lemma AddThenDelete(songs: seq<Song>, song: Song)
    requires forall s :: s in songs ==> s.id != song.id
    ensures Without(songs + [song], song.id) == songs
  {
    WithoutAppend(songs, [song], song.id);
    WithoutAbsent(songs, song.id);
    assert Without([song], song.id) == [];
  }

  /** The record `addNewSong` builds from the checked inputs. */
  function NewSong(id: int, title: string, artist: string, audio: AudioUrls, document: Option<string>): Song {
    Song(id, title, artist, audio.playUrl, audio.downloadUrl, document)
  }

  /** The input check of `addNewSong`: a title that is not blank once trimmed, and an audio file. */
  predicate AcceptsNewSong(titleInput: string, audio: Option<AudioUrls>) {
    Text.Trim(titleInput) != [] && audio.Some?
  }

  /** The song list, the storage slot and the delete-mode switch of `MusicApp`. */
  class Store {
    var songs: seq<Song>
    var storage: Option<seq<Song>>
    var deleteMode: bool

    /** The slot holds exactly the current list. */
    predicate Mirrored()
      reads this
    {
      storage == Some(songs)
    }

    /** `new MusicApp()` over a slot whose content is `saved`: empty list, delete mode off, then `loadSongs`. */
    constructor (saved: Option<seq<Song>>)
      ensures Mirrored() && !deleteMode
      ensures saved.None? ==> songs == Seed()
      ensures saved.Some? ==> songs == saved.value
    {
      songs := [];
      storage := saved;
      deleteMode := false;
      new;
      LoadSongs();
    }

    /** `loadSongs`: the saved list if there is one, otherwise the seed, which is written to the slot. */
    method LoadSongs()
      modifies this
      ensures old(storage).None? ==> songs == Seed() && storage == Some(Seed())
      ensures old(storage).Some? ==> songs == old(storage).value && storage == old(storage)
      ensures Mirrored() && deleteMode == old(deleteMode)
    {
      if storage.Some? {
        songs := storage.value;
      } else {
        songs := Seed();
        SaveSongs();
      }
    }

    /** `saveSongs`: overwrites the whole slot with the current list. */
    method SaveSongs()
      modifies this
      ensures storage == Some(songs) && songs == old(songs) && deleteMode == old(deleteMode)
    {
      storage := Some(songs);
    }

    /** `addNewSong`: rejected (the source alerts) when the trimmed title is empty or no audio
        file was chosen; otherwise the new record is appended and the slot rewritten.
        `now` is `Date.now()`, `audio` and `document` are the object URLs of the chosen files. */
    method AddNewSong(titleInput: string, artistInput: string, audio: Option<AudioUrls>,
                      document: Option<string>, now: int) returns (added: Option<Song>)
      modifies this
      ensures added.Some? <==> AcceptsNewSong(titleInput, audio)
      ensures added.None? ==> songs == old(songs) && storage == old(storage)
      ensures added.Some? ==> songs == old(songs) + [added.value] && Mirrored()
      ensures added.Some? ==> added.value == NewSong(now, Text.Trim(titleInput), Text.Trim(artistInput), audio.value, document)
      ensures deleteMode == old(deleteMode)
    {
      var title := Text.Trim(titleInput);
      var artist := Text.Trim(artistInput);
      if title == [] || audio.None? {
        return None;
      }
      var song := NewSong(now, title, artist, audio.value, document);
      songs := songs + [song];
      SaveSongs();
      added := Some(song);
    }

    /** `deleteSong`: when the user confirms, every record with this id is removed and the
        slot rewritten; otherwise nothing changes. */
    method DeleteSong(id: int, confirmed: bool)
      modifies this
      ensures confirmed ==> songs == Without(old(songs), id) && Mirrored()
      ensures !confirmed ==> songs == old(songs) && storage == old(storage)
      ensures deleteMode == old(deleteMode)
    {
      if confirmed {
        songs := Without(songs, id);
        SaveSongs();
      }
    }

    /** `toggleDeleteMode`: flips the switch that shows the delete buttons; the list is untouched. */
    method ToggleDeleteMode()
      modifies this
      ensures deleteMode == !old(deleteMode)
      ensures songs == old(songs) && storage == old(storage)
    {
      deleteMode := !deleteMode;
    }
  }

  /** A caller's view: a valid add followed by a confirmed delete of its id restores the
      list and the slot, when the id was not in use. */
  method AddThenDeleteRestores(store: Store, title: string, artist: string, audio: AudioUrls, now: int)
    requires store.Mirrored() && Text.Trim(title) != []
    requires forall s :: s in store.songs ==> s.id != now
    modifies store
    ensures store.songs == old(store.songs) && store.Mirrored()
  {
    var added := store.AddNewSong(title, artist, Some(audio), None, now);
    AddThenDelete(old(store.songs), added.value);
    store.DeleteSong(now, true);
  }
}
