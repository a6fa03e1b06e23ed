/**
 * The matrix script: after the shared preparation, each user's genre set
 * is accumulated in place into the score vector `s` and the co-occurrence
 * matrix `D`, both indexed by vocabulary position.
 */
module MatrixAndScores {
  import opened Wrappers
  import opened Collections
  import opened GenreField
  import opened Catalog
  import opened CoCounts

  /**
   * `itertools.combinations(pool, 2)` visits the position pairs (lo, hi),
   * lo < hi, in lexicographic order. This says whether the pair of
   * positions `p` and `q` (in either order) comes before (a, b), that is,
   * has already been visited when the loops stand at (a, b).
   */
  predicate PairVisited(p: Option<nat>, q: Option<nat>, a: nat, b: nat) {
    && p.Some? && q.Some? && p.value != q.value
    && var lo := if p.value < q.value then p.value else q.value;
       var hi := if p.value < q.value then q.value else p.value;
       lo < a || (lo == a && hi < b)
  }

  class CoOccurrence {
    /** The vocabulary: row, column and entry i stand for code `genres[i]`. */
    const genres: seq<int>
    /** The co-occurrence matrix `D`. */
    const D: array2<int>
    /** The score vector `s`. */
    const s: array<int>
    /** The genre sets of the users processed so far, in processing order. */
    ghost var groups: seq<set<int>>

    /** `s` and `D` hold the counts over `groups`. */
    ghost predicate Valid()
      reads this, D, s
    {
      && D.Length0 == |genres| && D.Length1 == |genres| && s.Length == |genres|
      && NoDup(genres)
      && (forall i :: 0 <= i < |genres| ==> s[i] == ScoreVector(genres, groups)[i])
      && (forall i, j :: 0 <= i < |genres| && 0 <= j < |genres| ==>
            D[i, j] == CoMatrix(genres, groups)[i][j])
    }

    /** The contents of `D`, row by row. */
    ghost function Matrix(): seq<seq<int>>
      reads this, D
    {
      seq(D.Length0, i requires 0 <= i < D.Length0 reads D =>
        seq(D.Length1, j requires 0 <= j < D.Length1 reads D => D[i, j]))
    }

    /** `np.zeros((numGenres, numGenres))` and `np.zeros((numGenres,))`. */
    constructor (genres: seq<int>)
      requires NoDup(genres)
      ensures Valid() && this.genres == genres && groups == []
      ensures fresh(D) && fresh(s)
      ensures forall i :: 0 <= i < |genres| ==> s[i] == 0
      ensures forall i, j :: 0 <= i < |genres| && 0 <= j < |genres| ==> D[i, j] == 0
    {
      this.genres := genres;
      D := new int[|genres|, |genres|]((i, j) => 0);
      s := new int[|genres|](i => 0);
      groups := [];
    }

    lemma ContentsAreCounts()
      requires Valid()
      ensures s[..] == ScoreVector(genres, groups)
      ensures Matrix() == CoMatrix(genres, groups)
    {
      var m, c := Matrix(), CoMatrix(genres, groups);
      forall i | 0 <= i < |genres| ensures m[i] == c[i] {
        assert forall j :: 0 <= j < |genres| ==> m[i][j] == D[i, j];
      }
    }

    /** `D` is symmetric with a zero diagonal. */
    lemma Symmetric()
      requires Valid()
      ensures forall i, j :: 0 <= i < |genres| && 0 <= j < |genres| ==> D[i, j] == D[j, i]
      ensures forall i :: 0 <= i < |genres| ==> D[i, i] == 0
    {
    }

    /** `D[i, j] <= min(s[i], s[j])`. */
    lemma PairsBoundedByScores()
      requires Valid()
      ensures forall i, j :: 0 <= i < |genres| && 0 <= j < |genres| ==> D[i, j] <= s[i] && D[i, j] <= s[j]
    {
      forall i, j | 0 <= i < |genres| && 0 <= j < |genres| ensures D[i, j] <= s[i] && D[i, j] <= s[j] {
        CoBoundedByScores(genres, groups, i, j);
      }
    }

    /**
     * The body of the per-user loop: one to `s` at each of the user's codes,
     * then one to both cells of every 2-combination of them. Nothing else
     * changes.
     */
    method AddUser(userGenres: set<int>)
      requires Valid()
      requires forall g :: g in userGenres ==> g in genres
      modifies this, D, s
      ensures Valid() && groups == old(groups) + [userGenres]
      ensures forall i :: 0 <= i < |genres| ==>
        s[i] == old(s[i]) + (if genres[i] in userGenres then 1 else 0)
      ensures forall i, j :: 0 <= i < |genres| && 0 <= j < |genres| ==>
        D[i, j] == old(D[i, j]) + (if i != j && genres[i] in userGenres && genres[j] in userGenres then 1 else 0)
      ensures Sum(s[..]) == old(Sum(s[..])) + |userGenres|
      ensures MatrixSum(Matrix()) == old(MatrixSum(Matrix())) + |userGenres| * (|userGenres| - 1)
    {
      ContentsAreCounts();
      ghost var before := groups;
      var pool := ListOfSet(userGenres);
      AddScores(pool);
      AddPairs(pool);
      groups := groups + [userGenres];
      forall i | 0 <= i < |genres| ensures s[i] == ScoreVector(genres, groups)[i] {
        CountStep(before, userGenres, {genres[i]});
      }
      forall i, j | 0 <= i < |genres| && 0 <= j < |genres|
        ensures D[i, j] == old(D[i, j]) + (if i != j && genres[i] in userGenres && genres[j] in userGenres then 1 else 0)
        ensures D[i, j] == CoMatrix(genres, groups)[i][j]
      {
        CoEntryStep(genres, before, userGenres, i, j);
        PoolPositions(pool, userGenres, i, j);
      }
      ContentsAreCounts();
      ScoreSumStep(genres, before, userGenres);
      CoMatrixSumStep(genres, before, userGenres);
    }

    /** `for aGenre in userGenres: s[genres.index(aGenre)] += 1`, with `pool` the set's iteration order. */
    method AddScores(pool: seq<int>)
      requires NoDup(genres) && NoDup(pool) && s.Length == |genres|
      requires forall g :: g in pool ==> g in genres
      modifies s
      ensures forall i :: 0 <= i < |genres| ==> s[i] == old(s[i]) + (if genres[i] in pool then 1 else 0)
    {
      var k := 0;
      while k < |pool|
        invariant 0 <= k <= |pool|
        invariant forall i :: 0 <= i < |genres| ==> s[i] == old(s[i]) + (if genres[i] in pool[..k] then 1 else 0)
      {
        var m := IndexOf(genres, pool[k]).value;
        assert pool[..k + 1] == pool[..k] + [pool[k]];
        assert pool[k] !in pool[..k];
        s[m] := s[m] + 1;
        k := k + 1;
      }
      assert pool[..k] == pool;
    }

    /** Whether the cell (i, j) has been incremented when the combinations loops stand at (a, b). */
    predicate CellVisited(pool: seq<int>, i: nat, j: nat, a: nat, b: nat)
      requires i < |genres| && j < |genres|
    {
      PairVisited(IndexOf(pool, genres[i]), IndexOf(pool, genres[j]), a, b)
    }

    /**
     * `for comb in itertools.combinations(userGenres, 2)`: add one to
     * `D[index(comb[0]), index(comb[1])]` and to its mirror cell.
     */
    method AddPairs(pool: seq<int>)
      requires NoDup(genres) && NoDup(pool) && D.Length0 == |genres| && D.Length1 == |genres|
      requires forall g :: g in pool ==> g in genres
      modifies D
      ensures forall i, j :: 0 <= i < |genres| && 0 <= j < |genres| ==>
        D[i, j] == old(D[i, j]) +
          (if CellVisited(pool, i, j, |pool|, |pool|) then 1 else 0)
    {
      var n := |genres|;
      var a := 0;
      while a < |pool|
        invariant 0 <= a <= |pool|
        invariant forall i, j :: 0 <= i < n && 0 <= j < n ==>
          D[i, j] == old(D[i, j]) + (if CellVisited(pool, i, j, a, a) then 1 else 0)
      {
        var b := a + 1;
        while b < |pool|
          invariant a + 1 <= b <= |pool|
          invariant forall i, j :: 0 <= i < n && 0 <= j < n ==>
            D[i, j] == old(D[i, j]) + (if CellVisited(pool, i, j, a, b) then 1 else 0)
        {
          var x := IndexOf(genres, pool[a]).value;
          var y := IndexOf(genres, pool[b]).value;
          VisitPair(pool, a, b, x, y);
          Bump(x, y);
          b := b + 1;
        }
        a := a + 1;
      }
    }

    /** `D[x, y] += 1` then `D[y, x] += 1`, for two different indices. */
    method Bump(x: nat, y: nat)
      requires x < D.Length0 && y < D.Length1 && y < D.Length0 && x < D.Length1 && x != y
      modifies D
      ensures forall i, j :: 0 <= i < D.Length0 && 0 <= j < D.Length1 ==>
        D[i, j] == old(D[i, j]) + (if (i == x && j == y) || (i == y && j == x) then 1 else 0)
    {
      D[x, y] := D[x, y] + 1;
      D[y, x] := D[y, x] + 1;
    }

    /**
     * At the step (a, b) of the combinations loop, the cells (x, y) and
     * (y, x) are the only ones whose pair of pool positions is (a, b).
     */
    lemma VisitPair(pool: seq<int>, a: nat, b: nat, x: nat, y: nat)
      requires NoDup(genres) && NoDup(pool)
      requires a < b < |pool| && x < |genres| && y < |genres|
      requires genres[x] == pool[a] && genres[y] == pool[b]
      ensures x != y
      ensures forall i, j :: 0 <= i < |genres| && 0 <= j < |genres| ==>
        (CellVisited(pool, i, j, a, b + 1) <==>
         CellVisited(pool, i, j, a, b) || (i == x && j == y) || (i == y && j == x))
      ensures !CellVisited(pool, x, y, a, b)
      ensures !CellVisited(pool, y, x, a, b)
    {
      IndexOfNoDup(pool, a);
      IndexOfNoDup(pool, b);
      forall i, j | 0 <= i < |genres| && 0 <= j < |genres|
        ensures CellVisited(pool, i, j, a, b + 1) <==>
          CellVisited(pool, i, j, a, b) || (i == x && j == y) || (i == y && j == x)
      {
        var p, q := IndexOf(pool, genres[i]), IndexOf(pool, genres[j]);
        if p == Some(a) { assert genres[i] == genres[x]; }
        if p == Some(b) { assert genres[i] == genres[y]; }
        if q == Some(a) { assert genres[j] == genres[x]; }
        if q == Some(b) { assert genres[j] == genres[y]; }
      }
    }

    /** Once the loops are done, a cell was visited exactly when it pairs two different codes of the user. */
    lemma PoolPositions(pool: seq<int>, userGenres: set<int>, i: nat, j: nat)
      requires NoDup(genres) && NoDup(pool)
      requires forall g :: g in pool <==> g in userGenres
      requires i < |genres| && j < |genres|
      ensures CellVisited(pool, i, j, |pool|, |pool|) <==>
        (i != j && genres[i] in userGenres && genres[j] in userGenres)
    {
      var p, q := IndexOf(pool, genres[i]), IndexOf(pool, genres[j]);
      if p.Some? && q.Some? && p.value == q.value {
        assert genres[i] == genres[j];
      }
    }
  }

  /** The genre sets of the users of `order`, in that order. */
  ghost function GroupsOf(order: seq<UserId>, genreSet: UserId -> set<int>): (groups: seq<set<int>>)
    ensures |groups| == |order|
    ensures forall k :: 0 <= k < |order| ==> groups[k] == genreSet(order[k])
  {
    seq(|order|, k requires 0 <= k < |order| => genreSet(order[k]))
  }

  lemma GroupsOfSnoc(order: seq<UserId>, user: UserId, genreSet: UserId -> set<int>)
    ensures GroupsOf(order + [user], genreSet) == GroupsOf(order, genreSet) + [genreSet(user)]
  {
    assert forall k :: 0 <= k < |order| ==> (order + [user])[k] == order[k];
  }

  /**
   * Counting over the genre sets of distinct users is counting the users
   * themselves.
   */
  lemma {:induction false} CountOverUsers(order: seq<UserId>, genreSet: UserId -> set<int>, gs: set<int>)
    requires NoDup(order)
    ensures CountSupersets(GroupsOf(order, genreSet), gs) == |set u | u in order && gs <= genreSet(u)|
  {
    if order != [] {
      var init, last := order[..|order| - 1], order[|order| - 1];
      var groups := GroupsOf(order, genreSet);
      assert NoDup(init);
      CountOverUsers(init, genreSet, gs);
      assert groups[..|order| - 1] == GroupsOf(init, genreSet);
      var holds := gs <= genreSet(last);
      var before := set u | u in init && gs <= genreSet(u);
      var after := set u | u in order && gs <= genreSet(u);
      assert forall u :: u in order <==> u in init || u == last;
      assert last !in init;
      if holds {
        assert after == before + {last};
      } else {
        assert after == before;
      }
    }
  }

  /** Once every user has been processed once, the counts are numbers of users. */
  lemma UsersCounted(done: seq<UserId>, rows: seq<Row>, genreSet: UserId -> set<int>, gs: set<int>)
    requires NoDup(done)
    requires forall u :: u in done <==> u in Users(rows)
    requires forall u :: genreSet(u) == UserGenreSet(u, rows)
    ensures CountSupersets(GroupsOf(done, genreSet), gs) == |UsersWith(rows, gs)|
  {
    CountOverUsers(done, genreSet, gs);
    assert (set u | u in done && gs <= genreSet(u)) == UsersWith(rows, gs);
  }

  /**
   * `for user, frame in df.groupby('msno')`: every user of the joined table
   * is accumulated once, in some order. Afterwards the counts are numbers
   * of users.
   */
  method AccumulateUsers(m: CoOccurrence, rows: seq<Row>)
    requires m.Valid() && m.groups == []
    requires forall u, g :: g in UserGenreSet(u, rows) ==> g in m.genres
    modifies m, m.D, m.s
    ensures m.Valid()
    ensures forall i :: 0 <= i < |m.genres| ==> m.s[i] == |UsersWith(rows, {m.genres[i]})|
    ensures forall i, j :: 0 <= i < |m.genres| && 0 <= j < |m.genres| && i != j ==>
      m.D[i, j] == |UsersWith(rows, {m.genres[i], m.genres[j]})|
  {
    var remaining := Users(rows);
    ghost var genreSet := u => UserGenreSet(u, rows);
    ghost var done: seq<UserId> := [];
    while remaining != {}
      invariant m.Valid()
      invariant NoDup(done)
      invariant remaining <= Users(rows)
      invariant forall u :: u in done <==> u in Users(rows) && u !in remaining
      invariant m.groups == GroupsOf(done, genreSet)
      decreases remaining
    {
      var user :| user in remaining;
      m.AddUser(UserGenreSet(user, rows));
      GroupsOfSnoc(done, user, genreSet);
      done := done + [user];
      remaining := remaining - {user};
    }
    forall i | 0 <= i < |m.genres| ensures m.s[i] == |UsersWith(rows, {m.genres[i]})| {
      UsersCounted(done, rows, genreSet, {m.genres[i]});
    }
    forall i, j | 0 <= i < |m.genres| && 0 <= j < |m.genres| && i != j
      ensures m.D[i, j] == |UsersWith(rows, {m.genres[i], m.genres[j]})|
    {
      UsersCounted(done, rows, genreSet, {m.genres[i], m.genres[j]});
    }
  }

  /**
   * The whole matrix script: parse the catalog (a bad genre field aborts
   * the run), build the vocabulary, filter and join the listening log, and
   * accumulate every user once. Afterwards `s[i]` is the number of users
   * whose set holds `genres[i]`, and off the diagonal `D[i, j]` the number
   * holding both codes.
   */
  method GenerateMatrixAndScores(songRows: seq<SongRow>, events: seq<Event>)
    returns (result: Result<CoOccurrence, ParseError>)
    ensures result.Failure? <==> ParseCatalog(songRows).Failure?
    ensures result.Failure? ==> result.error == ParseCatalog(songRows).error
    ensures result.Success? ==>
      var catalog := ParseCatalog(songRows).value;
      var rows := FilterJoin(events, catalog);
      var m := result.value;
      && m.Valid() && fresh(m.D) && fresh(m.s)
      && IsVocabulary(m.genres, catalog)
      && (forall i :: 0 <= i < |m.genres| ==> m.s[i] == |UsersWith(rows, {m.genres[i]})|)
      && (forall i, j :: 0 <= i < |m.genres| && 0 <= j < |m.genres| && i != j ==>
            m.D[i, j] == |UsersWith(rows, {m.genres[i], m.genres[j]})|)
  {
    var parsed := ParseCatalog(songRows);
    if parsed.Failure? {
      return Failure(parsed.error);
    }
    var catalog := parsed.value;
    var genres := BuildVocabulary(catalog);
    var m := new CoOccurrence(genres);
    var rows := FilterJoin(events, catalog);

    forall u, g | g in UserGenreSet(u, rows) ensures g in genres {
      UserGenresInVocabulary(events, catalog, genres, u);
    }
    AccumulateUsers(m, rows);
    return Success(m);
  }
}
