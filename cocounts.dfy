/**
 * What the accumulation loop of the matrix script computes, stated without
 * arrays. `groups` lists the genre sets of the users processed so far; the
 * score of a code counts the sets holding it, and the co-occurrence of two
 * different codes counts the sets holding both.
 */
module CoCounts {
  import opened Collections

  /** How many of the sets in `groups` contain every code of `gs`. */
  function CountSupersets(groups: seq<set<int>>, gs: set<int>): (c: nat)
    ensures c <= |groups|
  {
    if groups == [] then 0
    else CountSupersets(groups[..|groups| - 1], gs) + (if gs <= groups[|groups| - 1] then 1 else 0)
  }

  /** Processing one more user adds one to the count exactly when that user's set contains `gs`. */
  lemma CountStep(groups: seq<set<int>>, u: set<int>, gs: set<int>)
    ensures CountSupersets(groups + [u], gs) == CountSupersets(groups, gs) + (if gs <= u then 1 else 0)
  {
    assert (groups + [u])[..|groups|] == groups;
  }

  /** A larger requirement is met by no more users. */
  lemma {:induction false} CountSupersetsAntitone(groups: seq<set<int>>, gs: set<int>, hs: set<int>)
    requires gs <= hs
    ensures CountSupersets(groups, hs) <= CountSupersets(groups, gs)
  {
    if groups != [] {
      CountSupersetsAntitone(groups[..|groups| - 1], gs, hs);
    }
  }

  /** The score vector `s`: entry i counts the users whose set holds `genres[i]`. */
  function ScoreVector(genres: seq<int>, groups: seq<set<int>>): (s: seq<int>)
    ensures |s| == |genres|
    ensures forall i :: 0 <= i < |genres| ==> 0 <= s[i] <= |groups|
  {
    seq(|genres|, i requires 0 <= i < |genres| => CountSupersets(groups, {genres[i]}))
  }

  /** Entry (i, j) of the co-occurrence matrix `D`. */
  function CoEntry(genres: seq<int>, groups: seq<set<int>>, i: nat, j: nat): int
    requires i < |genres| && j < |genres|
  {
    if i == j then 0 else CountSupersets(groups, {genres[i], genres[j]})
  }

  /**
   * The co-occurrence matrix `D`: square of the vocabulary's size,
   * symmetric, zero on the diagonal, and bounded by the number of users.
   */
  function CoMatrix(genres: seq<int>, groups: seq<set<int>>): (m: seq<seq<int>>)
    ensures |m| == |genres|
    ensures forall i :: 0 <= i < |m| ==> |m[i]| == |genres|
    ensures forall i, j :: 0 <= i < |genres| && 0 <= j < |genres| ==> m[i][j] == m[j][i]
    ensures forall i :: 0 <= i < |genres| ==> m[i][i] == 0
    ensures forall i, j :: 0 <= i < |genres| && 0 <= j < |genres| ==> 0 <= m[i][j] <= |groups|
  {
    CoEntriesSymmetric(genres, groups);
    seq(|genres|, i requires 0 <= i < |genres| =>
      seq(|genres|, j requires 0 <= j < |genres| => CoEntry(genres, groups, i, j)))
  }

  lemma CoEntriesSymmetric(genres: seq<int>, groups: seq<set<int>>)
    ensures forall i, j :: 0 <= i < |genres| && 0 <= j < |genres| ==>
      CoEntry(genres, groups, i, j) == CoEntry(genres, groups, j, i)
  {
    forall i, j | 0 <= i < |genres| && 0 <= j < |genres|
      ensures CoEntry(genres, groups, i, j) == CoEntry(genres, groups, j, i)
    {
      assert {genres[i], genres[j]} == {genres[j], genres[i]};
    }
  }

  /** Off the diagonal, a user adds one to (i, j) exactly when their set holds both codes. */
  lemma CoEntryStep(genres: seq<int>, groups: seq<set<int>>, u: set<int>, i: nat, j: nat)
    requires i < |genres| && j < |genres|
    ensures CoEntry(genres, groups + [u], i, j) ==
      CoEntry(genres, groups, i, j) + (if i != j && genres[i] in u && genres[j] in u then 1 else 0)
  {
    CountStep(groups, u, {genres[i], genres[j]});
  }

  /** No pair count exceeds the score of either of its codes: `D[i][j] <= min(s[i], s[j])`. */
  lemma CoBoundedByScores(genres: seq<int>, groups: seq<set<int>>, i: nat, j: nat)
    requires i < |genres| && j < |genres|
    ensures CoMatrix(genres, groups)[i][j] <= ScoreVector(genres, groups)[i]
    ensures CoMatrix(genres, groups)[i][j] <= ScoreVector(genres, groups)[j]
  {
    if i != j {
      CountSupersetsAntitone(groups, {genres[i]}, {genres[i], genres[j]});
      CountSupersetsAntitone(groups, {genres[j]}, {genres[i], genres[j]});
    }
  }

  /** Processing a user with k codes raises the sum of the scores by exactly k. */
  lemma ScoreSumStep(genres: seq<int>, groups: seq<set<int>>, u: set<int>)
    requires NoDup(genres)
    requires forall g :: g in u ==> g in genres
    ensures Sum(ScoreVector(genres, groups + [u])) == Sum(ScoreVector(genres, groups)) + |u|
  {
    var before, after := ScoreVector(genres, groups), ScoreVector(genres, groups + [u]);
    var added := Weights(genres, u, 1);
    forall i | 0 <= i < |genres| ensures after[i] == before[i] + added[i] {
      CountStep(groups, u, {genres[i]});
    }
    SumPointwise(before, added, after);
    SumIndicator(genres, u, 1);
  }

  /** Row i gains k - 1 when its code is one of the user's k codes, and nothing otherwise. */
  lemma CoRowSumStep(genres: seq<int>, groups: seq<set<int>>, u: set<int>, i: nat)
    requires NoDup(genres)
    requires forall g :: g in u ==> g in genres
    requires i < |genres|
    ensures Sum(CoMatrix(genres, groups + [u])[i]) ==
      Sum(CoMatrix(genres, groups)[i]) + (if genres[i] in u then |u| - 1 else 0)
  {
    var before, after := CoMatrix(genres, groups)[i], CoMatrix(genres, groups + [u])[i];
    var x := genres[i];
    var partners := if x in u then u - {x} else {};
    var added := Weights(genres, partners, 1);
    forall j | 0 <= j < |genres| ensures after[j] == before[j] + added[j] {
      CoEntryStep(genres, groups, u, i, j);
      if i != j {
        assert genres[j] != x;
      }
    }
    SumPointwise(before, added, after);
    SumIndicator(genres, partners, 1);
    if x in u {
      assert u == partners + {x};
    }
  }

  /**
   * Processing a user with k codes raises the sum of all entries of `D` by
   * k * (k - 1): both cells of each of the k * (k - 1) / 2 pairs.
   */
  lemma CoMatrixSumStep(genres: seq<int>, groups: seq<set<int>>, u: set<int>)
    requires NoDup(genres)
    requires forall g :: g in u ==> g in genres
    ensures MatrixSum(CoMatrix(genres, groups + [u])) ==
      MatrixSum(CoMatrix(genres, groups)) + |u| * (|u| - 1)
  {
    var before := RowSums(CoMatrix(genres, groups));
    var after := RowSums(CoMatrix(genres, groups + [u]));
    var added := Weights(genres, u, |u| - 1);
    forall i | 0 <= i < |genres| ensures after[i] == before[i] + added[i] {
      CoRowSumStep(genres, groups, u, i);
    }
    SumPointwise(before, added, after);
    SumIndicator(genres, u, |u| - 1);
    assert (|u| - 1) * |u| == |u| * (|u| - 1);
  }

  /** A set of fewer than two elements holds no two different ones. */
  lemma AtMostOne(u: set<int>)
    requires |u| < 2
    ensures forall a, b :: a in u && b in u ==> a == b
  {
    if x :| x in u {
      assert |u - {x}| == 0;
      assert forall a :: a in u ==> a == x;
    }
  }

  /** A user with fewer than two codes leaves `D` unchanged. */
  lemma SmallUserKeepsMatrix(genres: seq<int>, groups: seq<set<int>>, u: set<int>)
    requires NoDup(genres)
    requires |u| < 2
    ensures CoMatrix(genres, groups + [u]) == CoMatrix(genres, groups)
  {
    var before, after := CoMatrix(genres, groups), CoMatrix(genres, groups + [u]);
    forall i, j | 0 <= i < |genres| && 0 <= j < |genres| ensures after[i][j] == before[i][j] {
      CoEntryStep(genres, groups, u, i, j);
      AtMostOne(u);
    }
    forall i | 0 <= i < |genres| ensures after[i] == before[i] {
    }
  }
}
