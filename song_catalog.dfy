/**
 * The song-catalogue transform (process_song_data): the Songs and Artists
 * dimension tables derived from the catalogue's records.
 */
module SongCatalog {
  import opened Records
  import opened Dedup

  /** A row of the Songs table. */
  datatype SongRow = SongRow(songId: Value, title: Value, artistId: Value, year: Value, duration: Value)

  /** A row of the Artists table, with the catalogue's `artist_` prefixes dropped. */
  datatype ArtistRow = ArtistRow(artistId: Value, name: Value, location: Value, latitude: Value, longitude: Value)

  /** The catalogue columns the Artists table selects, before the renames. */
  const ARTIST_COLUMNS: set<string> :=
    {"artist_id", "artist_name", "artist_location", "artist_latitude", "artist_longitude"}

  /** `select(['song_id', 'title', 'artist_id', 'year', 'duration'])` of one record. */
  function SongOf(rec: Record): SongRow
  {
    SongRow(Get(rec, "song_id"), Get(rec, "title"), Get(rec, "artist_id"), Get(rec, "year"), Get(rec, "duration"))
  }

  /** The artist projection of one record, renaming `artist_name AS name` and so on. */
  function ArtistOf(rec: Record): ArtistRow
  {
    ArtistRow(Get(rec, "artist_id"), Get(rec, "artist_name"), Get(rec, "artist_location"),
              Get(rec, "artist_latitude"), Get(rec, "artist_longitude"))
  }

  /** A Songs row holds a record's five song columns, unchanged and under their own names. */
  predicate CopiesSongColumns(row: SongRow, rec: Record)
  {
    && row.songId == Get(rec, "song_id")
    && row.title == Get(rec, "title")
    && row.artistId == Get(rec, "artist_id")
    && row.year == Get(rec, "year")
    && row.duration == Get(rec, "duration")
  }

  /**
   * The Songs table: one row per catalogue record, in the same order, each
   * row holding that record's five song columns unchanged. No dedup.
   */
  function SongsTable(catalog: seq<Record>): (songs: seq<SongRow>)
    ensures |songs| == |catalog|
    ensures forall i :: 0 <= i < |songs| ==> CopiesSongColumns(songs[i], catalog[i])
  {
    seq(|catalog|, i requires 0 <= i < |catalog| => SongOf(catalog[i]))
  }

  /**
   * The Artists table: the artist projection of every record, then full-row
   * dedup. Every projected row appears, once, and nothing else does.
   */
  function ArtistsTable(catalog: seq<Record>): (artists: seq<ArtistRow>)
    ensures NoDuplicates(artists)
    ensures forall a :: a in artists <==> exists rec :: rec in catalog && ArtistOf(rec) == a
  {
    DistinctProjection(catalog, ArtistOf)
  }

  /**
   * Two records collapse into one Artists row exactly when they agree on all
   * five artist columns; whatever else they hold does not matter.
   */
  lemma SameArtistRow(a: Record, b: Record)
    ensures ArtistOf(a) == ArtistOf(b) <==> forall c :: c in ARTIST_COLUMNS ==> Get(a, c) == Get(b, c)
  {
    if ArtistOf(a) == ArtistOf(b) {
      forall c | c in ARTIST_COLUMNS
        ensures Get(a, c) == Get(b, c)
      {
        assert c == "artist_id" || c == "artist_name" || c == "artist_location"
          || c == "artist_latitude" || c == "artist_longitude";
      }
    }
  }

  /**
   * Dedup is by full row, not by `artist_id`: two records of one artist whose
   * locations differ leave two Artists rows with the same `artist_id`.
   */
  lemma ArtistDedupKeepsChangedLocation(catalog: seq<Record>, a: Record, b: Record)
    requires a in catalog && b in catalog
    requires Get(a, "artist_id") == Get(b, "artist_id")
    requires Get(a, "artist_location") != Get(b, "artist_location")
    ensures var artists := ArtistsTable(catalog);
      exists i, j ::
        && 0 <= i < j < |artists|
        && artists[i].artistId == artists[j].artistId == Get(a, "artist_id")
        && artists[i].location != artists[j].location
  {
    var artists := ArtistsTable(catalog);
    assert ArtistOf(a) in artists && ArtistOf(b) in artists;
    var i :| 0 <= i < |artists| && artists[i] == ArtistOf(a);
    var j :| 0 <= j < |artists| && artists[j] == ArtistOf(b);
    if i < j {
      assert artists[i].artistId == artists[j].artistId;
    } else {
      assert j < i;
      assert artists[j].artistId == artists[i].artistId;
    }
  }
}
