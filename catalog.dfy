/**
 * The data preparation both scripts share: parse every song's genre
 * field, build the genre vocabulary, keep the positive listening events,
 * join them to the songs, and group the joined rows by user.
 */
module Catalog {
  import opened Wrappers
  import opened Collections
  import opened GenreField

  type SongId = string
  type UserId = string

  /** A row of the song table as read: the song's id and its raw `genre_ids` field. */
  datatype SongRow = SongRow(id: SongId, genreField: Option<string>)

  /** A song once its genre field is parsed. */
  datatype Song = Song(id: SongId, genres: seq<int>)

  /** A row of the listening log: user (`msno`), song, and the 0/1 `target` flag. */
  datatype Event = Event(user: UserId, song: SongId, target: int)

  /** A row of the joined table: the user of a kept event and its song's genre list. */
  datatype Row = Row(user: UserId, genres: seq<int>)

  // ---------------------------------------------------------------------
  // Parsing the catalog
  // ---------------------------------------------------------------------

  predicate AllFieldsParse(rows: seq<SongRow>) {
    forall k :: 0 <= k < |rows| ==> ParseGenres(rows[k].genreField).Success?
  }

  /**
   * `songs['genre_ids'].map(...)`: every song's field is parsed; the first
   * field that fails aborts the run with its error.
   */
  function ParseCatalog(rows: seq<SongRow>): (r: Result<seq<Song>, ParseError>)
    ensures r.Success? <==> AllFieldsParse(rows)
    ensures r.Success? ==> |r.value| == |rows|
    ensures r.Success? ==> forall k :: 0 <= k < |rows| ==>
      r.value[k] == Song(rows[k].id, ParseGenres(rows[k].genreField).value)
    ensures r.Failure? ==> exists k :: 0 <= k < |rows| && ParseGenres(rows[k].genreField) == Failure(r.error)
  {
    if rows == [] then Success([])
    else match ParseGenres(rows[0].genreField)
      case Failure(e) => Failure(e)
      case Success(genres) =>
        match ParseCatalog(rows[1..])
        case Failure(e) =>
          var k :| 0 <= k < |rows[1..]| && ParseGenres(rows[1..][k].genreField) == Failure(e);
          assert rows[k + 1] == rows[1..][k];
          Failure(e)
        case Success(songs) =>
          var all := [Song(rows[0].id, genres)] + songs;
          assert forall k :: 1 <= k < |rows| ==> all[k] == songs[k - 1] && rows[k] == rows[1..][k - 1];
          Success(all)
  }

  /** After a song that parses, the catalog fails exactly as its remaining songs do. */
  lemma ParseCatalogSkip(rows: seq<SongRow>)
    requires rows != [] && ParseGenres(rows[0].genreField).Success?
    ensures ParseCatalog(rows).Failure? <==> ParseCatalog(rows[1..]).Failure?
    ensures ParseCatalog(rows).Failure? ==> ParseCatalog(rows).error == ParseCatalog(rows[1..]).error
  {
  }

  lemma AllFieldsParseCons(rows: seq<SongRow>, k: nat)
    requires k < |rows| && ParseGenres(rows[0].genreField).Success? && AllFieldsParse(rows[1..][..k])
    ensures AllFieldsParse(rows[..k + 1])
  {
    assert rows[..k + 1] == [rows[0]] + rows[1..][..k];
  }

  /** `map` raises on the first song whose field fails: every song before it parses. */
  lemma {:induction false} ParseCatalogFirstFailure(rows: seq<SongRow>)
    ensures ParseCatalog(rows).Failure? ==>
      exists k :: 0 <= k < |rows| && AllFieldsParse(rows[..k]) &&
        ParseGenres(rows[k].genreField) == Failure(ParseCatalog(rows).error)
  {
    if rows != [] && ParseCatalog(rows).Failure? {
      if ParseGenres(rows[0].genreField).Failure? {
        assert AllFieldsParse(rows[..0]);
      } else {
        var tail := rows[1..];
        ParseCatalogSkip(rows);
        ParseCatalogFirstFailure(tail);
        var k :| 0 <= k < |tail| && AllFieldsParse(tail[..k]) &&
          ParseGenres(tail[k].genreField) == Failure(ParseCatalog(tail).error);
        AllFieldsParseCons(rows, k);
        assert rows[k + 1] == tail[k];
      }
    }
  }

  // ---------------------------------------------------------------------
  // The genre vocabulary
  // ---------------------------------------------------------------------

  /** `[j for i in genres for j in i]`: every song's codes, in catalog order. */
  function Flatten(catalog: seq<Song>): (codes: seq<int>)
    ensures forall g :: g in codes <==> exists s :: s in catalog && g in s.genres
  {
    if catalog == [] then []
    else
      var rest := Flatten(catalog[1..]);
      assert forall s :: s in catalog[1..] ==> s in catalog;
      assert forall s :: s in catalog ==> s == catalog[0] || s in catalog[1..];
      catalog[0].genres + rest
  }

  /**
   * `genres = list(set(flat))`: every code of the catalog exactly once, in
   * an order Python does not fix. A code's position in it is its index
   * into the score vector and the matrix.
   */
  ghost predicate IsVocabulary(genres: seq<int>, catalog: seq<Song>) {
    NoDup(genres) && forall g :: g in genres <==> g in Flatten(catalog)
  }

  /** `numGenres = len(genres)` is the number of distinct codes in the catalog. */
  lemma VocabularySize(genres: seq<int>, catalog: seq<Song>)
    requires IsVocabulary(genres, catalog)
    ensures |genres| == |set g | g in Flatten(catalog)|
  {
    NoDupCardinality(genres);
    var flat := Flatten(catalog);
    var inGenres, inFlat := set g | g in genres, set g | g in flat;
    forall g ensures g in inGenres <==> g in inFlat {
      assert g in genres <==> g in flat;
    }
    assert inGenres == inFlat;
  }

  /** Any two vocabularies of one catalog differ only in order. */
  lemma VocabulariesArePermutations(v1: seq<int>, v2: seq<int>, catalog: seq<Song>)
    requires IsVocabulary(v1, catalog) && IsVocabulary(v2, catalog)
    ensures multiset(v1) == multiset(v2)
  {
    forall x ensures x in v1 <==> x in v2 {
      assert x in v1 <==> x in Flatten(catalog);
      assert x in v2 <==> x in Flatten(catalog);
    }
    SameValuesArePermutations(v1, v2);
  }

  /** Lines 14-16 of the matrix script: flatten, deduplicate, list. */
  method BuildVocabulary(catalog: seq<Song>) returns (genres: seq<int>)
    ensures IsVocabulary(genres, catalog)
    ensures |genres| == |set g | g in Flatten(catalog)|
  {
    var flat := Flatten(catalog);
    genres := ListOfSet(set g | g in flat);
  }

  // ---------------------------------------------------------------------
  // Filter and join
  // ---------------------------------------------------------------------

  /** One joined row per catalog song whose id is `song` (pandas joins every equal index entry). */
  function Matches(user: UserId, song: SongId, catalog: seq<Song>): seq<Row> {
    if catalog == [] then []
    else
      (if catalog[0].id == song then [Row(user, catalog[0].genres)] else [])
      + Matches(user, song, catalog[1..])
  }

  /**
   * `listen[listen['target'] == 1]`, then a left join on `song_id` and
   * `dropna()`: an event with no song of that id yields a NaN row, which is
   * dropped, so it contributes no row at all.
   */
  function FilterJoin(events: seq<Event>, catalog: seq<Song>): seq<Row> {
    if events == [] then []
    else
      (if events[0].target == 1 then Matches(events[0].user, events[0].song, catalog) else [])
      + FilterJoin(events[1..], catalog)
  }

  /** Event `e` joined with song `s` gives row `r`. */
  predicate Joins(e: Event, s: Song, r: Row) {
    e.target == 1 && s.id == e.song && r == Row(e.user, s.genres)
  }

  lemma {:induction false} MatchesMembership(e: Event, catalog: seq<Song>, r: Row)
    requires e.target == 1
    ensures r in Matches(e.user, e.song, catalog) <==> exists s :: s in catalog && Joins(e, s, r)
  {
    if catalog != [] {
      MatchesMembership(e, catalog[1..], r);
      if r in Matches(e.user, e.song, catalog) && r !in Matches(e.user, e.song, catalog[1..]) {
        assert Joins(e, catalog[0], r);
      }
      if s :| s in catalog && Joins(e, s, r) {
        if s != catalog[0] {
          assert s in catalog[1..];
        }
      }
    }
  }

  /**
   * A row survives the filter and the join exactly when some positive event
   * names a catalog song and the row carries that event's user and that
   * song's genres.
   */
  lemma {:induction false} JoinMembership(events: seq<Event>, catalog: seq<Song>, r: Row)
    ensures r in FilterJoin(events, catalog) <==> exists e, s :: e in events && s in catalog && Joins(e, s, r)
  {
    if events != [] {
      var e := events[0];
      JoinMembership(events[1..], catalog, r);
      if e.target == 1 {
        MatchesMembership(e, catalog, r);
      }
      if e', s :| e' in events && s in catalog && Joins(e', s, r) {
        if e' != e {
          assert e' in events[1..];
        }
      }
      assert forall e' :: e' in events[1..] ==> e' in events;
    }
  }

  lemma {:induction false} JoinAppend(a: seq<Event>, b: seq<Event>, catalog: seq<Song>)
    ensures FilterJoin(a + b, catalog) == FilterJoin(a, catalog) + FilterJoin(b, catalog)
  {
    if a == [] {
      assert a + b == b;
    } else {
      var head := if a[0].target == 1 then Matches(a[0].user, a[0].song, catalog) else [];
      assert (a + b)[0] == a[0];
      assert (a + b)[1..] == a[1..] + b;
      calc {
        FilterJoin(a + b, catalog);
        head + FilterJoin(a[1..] + b, catalog);
        { JoinAppend(a[1..], b, catalog); }
        head + (FilterJoin(a[1..], catalog) + FilterJoin(b, catalog));
        (head + FilterJoin(a[1..], catalog)) + FilterJoin(b, catalog);
        FilterJoin(a, catalog) + FilterJoin(b, catalog);
      }
    }
  }

  lemma {:induction false} MatchesNone(user: UserId, song: SongId, catalog: seq<Song>)
    requires forall s :: s in catalog ==> s.id != song
    ensures Matches(user, song, catalog) == []
  {
    if catalog != [] {
      MatchesNone(user, song, catalog[1..]);
    }
  }

  /**
   * An event whose target is not 1, or whose song is not in the catalog,
   * leaves the joined table exactly as it would be without it.
   */
  lemma DroppedEvent(a: seq<Event>, e: Event, b: seq<Event>, catalog: seq<Song>)
    requires e.target != 1 || forall s :: s in catalog ==> s.id != e.song
    ensures FilterJoin(a + [e] + b, catalog) == FilterJoin(a + b, catalog)
  {
    JoinAppend(a + [e], b, catalog);
    JoinAppend(a, [e], catalog);
    JoinAppend(a, b, catalog);
    if e.target == 1 {
      MatchesNone(e.user, e.song, catalog);
    }
    assert FilterJoin([e], catalog) == [];
  }

  // ---------------------------------------------------------------------
  // Grouping by user
  // ---------------------------------------------------------------------

  /** The keys of `df.groupby('msno')`. */
  function Users(rows: seq<Row>): set<UserId> {
    set r | r in rows :: r.user
  }

  /**
   * One group's `set(chain.from_iterable(frame['genre_ids']))`: the codes of
   * all the user's rows, each once.
   */
  function UserGenreSet(user: UserId, rows: seq<Row>): set<int> {
    if rows == [] then {}
    else (if rows[0].user == user then set g | g in rows[0].genres else {}) + UserGenreSet(user, rows[1..])
  }

  /** A code is in a user's set exactly when one of the user's rows lists it. */
  lemma {:induction false} UserGenreSetMembers(user: UserId, rows: seq<Row>, g: int)
    ensures g in UserGenreSet(user, rows) <==> exists r :: r in rows && r.user == user && g in r.genres
  {
    if rows != [] {
      UserGenreSetMembers(user, rows[1..], g);
      assert forall r :: r in rows[1..] ==> r in rows;
      assert forall r :: r in rows ==> r == rows[0] || r in rows[1..];
    }
  }

  /** A song with no genres still yields a row, but adds nothing to any user's set. */
  lemma EmptyGenreListAddsNothing(a: seq<Row>, who: UserId, b: seq<Row>, user: UserId)
    ensures UserGenreSet(user, a + [Row(who, [])] + b) == UserGenreSet(user, a + b)
  {
    var with, without := a + [Row(who, [])] + b, a + b;
    forall g ensures g in UserGenreSet(user, with) <==> g in UserGenreSet(user, without) {
      UserGenreSetMembers(user, with, g);
      UserGenreSetMembers(user, without, g);
      if g in UserGenreSet(user, with) {
        var r :| r in with && r.user == user && g in r.genres;
        assert r in without;
      }
      if g in UserGenreSet(user, without) {
        var r :| r in without && r.user == user && g in r.genres;
        assert r in with;
      }
    }
  }

  /** The users whose genre set contains every code in `gs`. */
  function UsersWith(rows: seq<Row>, gs: set<int>): set<UserId> {
    set u | u in Users(rows) && gs <= UserGenreSet(u, rows)
  }

  /**
   * Every code in a user's set is in the vocabulary, so `genres.index`
   * never raises during aggregation.
   */
  lemma UserGenresInVocabulary(events: seq<Event>, catalog: seq<Song>, genres: seq<int>, user: UserId)
    requires IsVocabulary(genres, catalog)
    ensures forall g :: g in UserGenreSet(user, FilterJoin(events, catalog)) ==> g in genres
  {
    var rows := FilterJoin(events, catalog);
    forall g | g in UserGenreSet(user, rows) ensures g in genres {
      UserGenreSetMembers(user, rows, g);
      var r :| r in rows && r.user == user && g in r.genres;
      JoinMembership(events, catalog, r);
      var e, s :| e in events && s in catalog && Joins(e, s, r);
      assert g in Flatten(catalog);
    }
  }
}
