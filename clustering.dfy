/**
 * The clustering script: the same preparation as the matrix script, but
 * instead of accumulating, it emits every 2-combination of each user's
 * genre set. Its `D` and `s` are allocated and never written.
 */
module Clustering {
  import opened Wrappers
  import opened Collections
  import opened GenreField
  import opened Catalog

  /** `(x, ys[0]), (x, ys[1]), ...`: the combinations that start at `x`. */
  function PairsWith(x: int, ys: seq<int>): (r: seq<(int, int)>)
    ensures |r| == |ys|
    ensures forall k :: 0 <= k < |ys| ==> r[k] == (x, ys[k])
  {
    seq(|ys|, k requires 0 <= k < |ys| => (x, ys[k]))
  }

  /**
   * `itertools.combinations(pool, 2)`: `(pool[i], pool[j])` for every
   * i < j, in lexicographic order of the positions. There are
   * n * (n - 1) / 2 of them for n elements, and each is made of two of them.
   */
  function Combinations2(pool: seq<int>): (pairs: seq<(int, int)>)
    ensures 2 * |pairs| == |pool| * (|pool| - 1)
    ensures forall t :: 0 <= t < |pairs| ==> pairs[t].0 in pool && pairs[t].1 in pool
  {
    if pool == [] then []
    else
      var rest := Combinations2(pool[1..]);
      var n := |pool|;
      assert 2 * (n - 1) + (n - 1) * (n - 2) == n * (n - 1);
      PairsWith(pool[0], pool[1..]) + rest
  }

  /** A pair is produced exactly when its elements stand in that order at two positions of `pool`. */
  lemma {:induction false} CombinationsPositions(pool: seq<int>, x: int, y: int)
    ensures (x, y) in Combinations2(pool) <==>
      exists i, j :: 0 <= i < j < |pool| && pool[i] == x && pool[j] == y
  {
    if pool != [] {
      var tail := pool[1..];
      var lead := PairsWith(pool[0], tail);
      CombinationsPositions(tail, x, y);
      if (x, y) in Combinations2(pool) {
        if (x, y) in lead {
          var k :| 0 <= k < |lead| && lead[k] == (x, y);
          assert pool[0] == x && pool[k + 1] == y;
        } else {
          assert (x, y) in Combinations2(tail);
          var i, j :| 0 <= i < j < |tail| && tail[i] == x && tail[j] == y;
          assert pool[i + 1] == x && pool[j + 1] == y;
        }
      }
      if i, j :| 0 <= i < j < |pool| && pool[i] == x && pool[j] == y {
        if i == 0 {
          assert lead[j - 1] == (x, y);
        } else {
          assert tail[i - 1] == x && tail[j - 1] == y;
        }
      }
    }
  }

  /**
   * With distinct elements (a Python set), the pairs are exactly the
   * 2-element subsets: two different members, and every two different
   * members in one order or the other.
   */
  lemma CombinationsAreSubsets(pool: seq<int>)
    requires NoDup(pool)
    ensures forall p :: p in Combinations2(pool) ==> p.0 in pool && p.1 in pool && p.0 != p.1
    ensures forall x, y :: x in pool && y in pool && x != y ==>
      (x, y) in Combinations2(pool) || (y, x) in Combinations2(pool)
  {
    forall p | p in Combinations2(pool) ensures p.0 != p.1 {
      CombinationsPositions(pool, p.0, p.1);
    }
    forall x, y | x in pool && y in pool && x != y
      ensures (x, y) in Combinations2(pool) || (y, x) in Combinations2(pool)
    {
      var i :| 0 <= i < |pool| && pool[i] == x;
      var j :| 0 <= j < |pool| && pool[j] == y;
      CombinationsPositions(pool, x, y);
      CombinationsPositions(pool, y, x);
      if i < j {
        assert (x, y) in Combinations2(pool);
      } else {
        assert (y, x) in Combinations2(pool);
      }
    }
  }

  /** With distinct elements, no unordered pair is produced twice. */
  lemma {:induction false} CombinationsNoRepeat(pool: seq<int>)
    requires NoDup(pool)
    ensures forall t1, t2 :: 0 <= t1 < t2 < |Combinations2(pool)| ==>
      Combinations2(pool)[t1] != Combinations2(pool)[t2] &&
      Combinations2(pool)[t1] != (Combinations2(pool)[t2].1, Combinations2(pool)[t2].0)
  {
    if pool != [] {
      var tail := pool[1..];
      assert NoDup(tail);
      CombinationsNoRepeat(tail);
      var lead, rest := PairsWith(pool[0], tail), Combinations2(tail);
      var all := Combinations2(pool);
      assert all == lead + rest;
      assert pool[0] !in tail;
      forall t1, t2 | 0 <= t1 < t2 < |all|
        ensures all[t1] != all[t2] && all[t1] != (all[t2].1, all[t2].0)
      {
        if t2 < |lead| {
          assert all[t1] == (pool[0], tail[t1]) && all[t2] == (pool[0], tail[t2]);
          assert tail[t1] != tail[t2];
        } else if t1 < |lead| {
          var p := rest[t2 - |lead|];
          assert all[t1].0 == pool[0] && all[t2] == p;
          assert p.0 in tail && p.1 in tail;
        } else {
          assert all[t1] == rest[t1 - |lead|] && all[t2] == rest[t2 - |lead|];
        }
      }
    }
  }

  /** The combinations of every user of `order`, one user after the other. */
  ghost function PairsOfUsers(order: seq<UserId>, rows: seq<Row>): seq<(int, int)> {
    if order == [] then []
    else Combinations2(Enumerate(UserGenreSet(order[0], rows))) + PairsOfUsers(order[1..], rows)
  }

  /** Everything the script prints: the groups in pandas' order, each set in Python's iteration order. */
  ghost function EmittedPairs(rows: seq<Row>): seq<(int, int)> {
    PairsOfUsers(Enumerate(Users(rows)), rows)
  }

  lemma {:induction false} PairsOfUsersMembers(order: seq<UserId>, rows: seq<Row>, p: (int, int))
    ensures p in PairsOfUsers(order, rows) <==>
      exists u :: u in order && p in Combinations2(Enumerate(UserGenreSet(u, rows)))
  {
    if order != [] {
      var head := Combinations2(Enumerate(UserGenreSet(order[0], rows)));
      assert PairsOfUsers(order, rows) == head + PairsOfUsers(order[1..], rows);
      PairsOfUsersMembers(order[1..], rows, p);
      if p in PairsOfUsers(order, rows) && p !in head {
        var u :| u in order[1..] && p in Combinations2(Enumerate(UserGenreSet(u, rows)));
        assert u in order;
      }
      if u :| u in order && p in Combinations2(Enumerate(UserGenreSet(u, rows))) {
        if u != order[0] {
          assert u in order[1..];
        }
      }
    }
  }

  /**
   * One user's output: exactly the 2-element subsets of their genre set,
   * each once, k * (k - 1) / 2 of them for k codes, none for fewer than two.
   */
  lemma UserPairs(user: UserId, rows: seq<Row>)
    ensures var genres := UserGenreSet(user, rows);
      var pairs := Combinations2(Enumerate(genres));
      && 2 * |pairs| == |genres| * (|genres| - 1)
      && (|genres| < 2 ==> pairs == [])
      && (forall p :: p in pairs ==> p.0 in genres && p.1 in genres && p.0 != p.1)
      && (forall x, y :: x in genres && y in genres && x != y ==> (x, y) in pairs || (y, x) in pairs)
      && (forall t1, t2 :: 0 <= t1 < t2 < |pairs| ==> pairs[t1] != pairs[t2] && pairs[t1] != (pairs[t2].1, pairs[t2].0))
  {
    var pool := Enumerate(UserGenreSet(user, rows));
    CombinationsAreSubsets(pool);
    CombinationsNoRepeat(pool);
  }

  /**
   * A printed pair is two different codes of one user's set, and every two
   * different codes of a user's set are printed, in one order or the other.
   */
  lemma EmittedPairsMeaning(rows: seq<Row>)
    ensures forall p :: p in EmittedPairs(rows) ==>
      p.0 != p.1 && exists u :: u in Users(rows) && p.0 in UserGenreSet(u, rows) && p.1 in UserGenreSet(u, rows)
    ensures forall u, x, y :: u in Users(rows) && x in UserGenreSet(u, rows) && y in UserGenreSet(u, rows) && x != y ==>
      (x, y) in EmittedPairs(rows) || (y, x) in EmittedPairs(rows)
  {
    var order := Enumerate(Users(rows));
    forall p | p in EmittedPairs(rows)
      ensures p.0 != p.1 && exists u :: u in Users(rows) && p.0 in UserGenreSet(u, rows) && p.1 in UserGenreSet(u, rows)
    {
      PairsOfUsersMembers(order, rows, p);
      var u :| u in order && p in Combinations2(Enumerate(UserGenreSet(u, rows)));
      UserPairs(u, rows);
    }
    forall u, x, y | u in Users(rows) && x in UserGenreSet(u, rows) && y in UserGenreSet(u, rows) && x != y
      ensures (x, y) in EmittedPairs(rows) || (y, x) in EmittedPairs(rows)
    {
      UserPairs(u, rows);
      PairsOfUsersMembers(order, rows, (x, y));
      PairsOfUsersMembers(order, rows, (y, x));
    }
  }

  /** What the clustering script ends with. */
  datatype ClusteringOutput = ClusteringOutput(genres: seq<int>, D: seq<seq<int>>, s: seq<int>, pairs: seq<(int, int)>)

  function Zeros(n: nat): (z: seq<int>)
    ensures |z| == n && forall k :: 0 <= k < n ==> z[k] == 0
  {
    seq(n, k => 0)
  }

  /**
   * The whole clustering script: a bad genre field aborts it; otherwise the
   * vocabulary is built, `D` and `s` are allocated at its size and stay all
   * zero, and the pairs of every user are emitted.
   */
  ghost function Clustering(songRows: seq<SongRow>, events: seq<Event>): (r: Result<ClusteringOutput, ParseError>)
    ensures r.Failure? <==> ParseCatalog(songRows).Failure?
    ensures r.Failure? ==> r.error == ParseCatalog(songRows).error
    ensures r.Success? ==>
      var catalog := ParseCatalog(songRows).value;
      var n := |r.value.genres|;
      && IsVocabulary(r.value.genres, catalog)
      && |r.value.D| == n && (forall i, j :: 0 <= i < n && 0 <= j < |r.value.D[i]| ==> r.value.D[i][j] == 0)
      && (forall i :: 0 <= i < n ==> |r.value.D[i]| == n)
      && |r.value.s| == n && (forall i :: 0 <= i < n ==> r.value.s[i] == 0)
      && r.value.pairs == EmittedPairs(FilterJoin(events, catalog))
  {
    match ParseCatalog(songRows)
    case Failure(e) => Failure(e)
    case Success(catalog) =>
      // `list(set(...))` again; a function cannot call the BuildVocabulary
      // method, and VocabulariesArePermutations relates any two such lists.
      var genres := Enumerate(set g | g in Flatten(catalog));
      var n := |genres|;
      var rows := FilterJoin(events, catalog);
      Success(ClusteringOutput(genres, seq(n, i => Zeros(n)), Zeros(n), EmittedPairs(rows)))
  }
}
