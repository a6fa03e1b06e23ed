/**
 * Small facts about Python lists and sets that both scripts rely on:
 * duplicate-free lists, `list.index`, `list(set(...))`, set iteration
 * order, and sums of integer lists.
 */
module Collections {
  import opened Wrappers

  /** A list in which no value occurs twice (what `list(set(...))` yields). */
  predicate NoDup<T(==)>(xs: seq<T>) {
    forall i, j :: 0 <= i < j < |xs| ==> xs[i] != xs[j]
  }

  /** Python's `xs.index(x)`: the first position holding `x`; `None` stands for the ValueError. */
  function IndexOf<T(==)>(xs: seq<T>, x: T): (r: Option<nat>)
    ensures r.None? <==> x !in xs
    ensures r.Some? ==> r.value < |xs| && xs[r.value] == x && x !in xs[..r.value]
  {
    if xs == [] then None
    else if xs[0] == x then Some(0)
    else match IndexOf(xs[1..], x)
      case None => None
      case Some(k) =>
        assert xs[..k + 1] == [xs[0]] + xs[1..][..k];
        Some(k + 1)
  }

  /** In a duplicate-free list, `index` finds exactly the position a value was read from. */
  lemma IndexOfNoDup<T>(xs: seq<T>, i: nat)
    requires NoDup(xs) && i < |xs|
    ensures IndexOf(xs, xs[i]) == Some(i)
  {
  }

  /** A duplicate-free list has as many entries as the set of its values. */
  lemma {:induction false} NoDupCardinality<T>(xs: seq<T>)
    requires NoDup(xs)
    ensures |set x | x in xs| == |xs|
  {
    if xs != [] {
      var tail := xs[1..];
      assert NoDup(tail);
      NoDupCardinality(tail);
      assert xs[0] !in tail;
      assert (set x | x in xs) == (set x | x in tail) + {xs[0]};
    }
  }

  /** Two duplicate-free lists of the same values hold each value once: they are permutations. */
  lemma SameValuesArePermutations<T>(xs: seq<T>, ys: seq<T>)
    requires NoDup(xs) && NoDup(ys)
    requires forall x :: x in xs <==> x in ys
    ensures multiset(xs) == multiset(ys)
  {
    forall x ensures multiset(xs)[x] == multiset(ys)[x] {
      NoDupMultiplicity(xs, x);
      NoDupMultiplicity(ys, x);
    }
  }

  lemma {:induction false} NoDupMultiplicity<T>(xs: seq<T>, x: T)
    requires NoDup(xs)
    ensures multiset(xs)[x] == if x in xs then 1 else 0
  {
    if xs != [] {
      assert xs == [xs[0]] + xs[1..];
      assert NoDup(xs[1..]);
      NoDupMultiplicity(xs[1..], x);
      assert xs[0] !in xs[1..];
    }
  }

  /**
   * Python iterates a set in an order it does not specify but keeps fixed
   * for a given set. `Enumerate` is that order: some duplicate-free list
   * of exactly the set's elements. It is ghost so that pure definitions
   * (the clustering script's output) can use it; the imperative script
   * uses the compiled `ListOfSet` below, which keeps the same contract.
   */
  ghost function Enumerate<T(!new)>(s: set<T>): (r: seq<T>)
    ensures |r| == |s| && NoDup(r)
    ensures forall x :: x in r <==> x in s
    decreases |s|
  {
    if s == {} then []
    else
      var x :| x in s;
      var rest := Enumerate(s - {x});
      assert forall i :: 0 <= i < |rest| ==> rest[i] != x;
      [x] + rest
  }

  /**
   * `list(s)` for a set `s`: its elements once each, in the order Python
   * happens to iterate them. A method, because choosing an element with
   * `:|` is compiled only in statements; its contract is Enumerate's.
   */
  method ListOfSet<T>(s: set<T>) returns (r: seq<T>)
    ensures |r| == |s| && NoDup(r)
    ensures forall x :: x in r <==> x in s
  {
    r := [];
    var rest := s;
    while rest != {}
      invariant NoDup(r)
      invariant forall x :: x in r <==> x in s && x !in rest
      invariant rest <= s
      invariant |r| + |rest| == |s|
      decreases rest
    {
      var x :| x in rest;
      r := r + [x];
      rest := rest - {x};
    }
  }

  /** The sum of a list of integers (numpy's `.sum()` on a vector). */
  function Sum(xs: seq<int>): int {
    if xs == [] then 0 else xs[0] + Sum(xs[1..])
  }

  /** The sum of each row of a matrix. */
  function RowSums(m: seq<seq<int>>): (r: seq<int>)
    ensures |r| == |m|
    ensures forall i :: 0 <= i < |m| ==> r[i] == Sum(m[i])
  {
    seq(|m|, i requires 0 <= i < |m| => Sum(m[i]))
  }

  /** The sum of all entries of a matrix given by its rows. */
  function MatrixSum(m: seq<seq<int>>): int {
    Sum(RowSums(m))
  }

  /** Summing is linear: the sum of an entrywise sum is the sum of the sums. */
  lemma {:induction false} SumPointwise(a: seq<int>, b: seq<int>, c: seq<int>)
    requires |a| == |b| == |c|
    requires forall i :: 0 <= i < |c| ==> c[i] == a[i] + b[i]
    ensures Sum(c) == Sum(a) + Sum(b)
  {
    if c != [] {
      SumPointwise(a[1..], b[1..], c[1..]);
    }
  }

  /** Weight `w` at every position of `v` whose value is in `u`, zero elsewhere. */
  function Weights(v: seq<int>, u: set<int>, w: int): (r: seq<int>)
    ensures |r| == |v|
    ensures forall j :: 0 <= j < |v| ==> r[j] == if v[j] in u then w else 0
  {
    seq(|v|, j requires 0 <= j < |v| => if v[j] in u then w else 0)
  }

  /** One step of distributing a product, kept apart so the solver does it without other facts in scope. */
  lemma MulSucc(w: int, k: int)
    ensures w * (k + 1) == w * k + w
  {
  }

  /** Dropping the head of a duplicate-free list drops its value from the weighted set. */
  lemma WeightsTail(v: seq<int>, u: set<int>, w: int)
    requires NoDup(v) && v != []
    ensures Weights(v, u, w)[1..] == Weights(v[1..], u - {v[0]}, w)
  {
    var tail := v[1..];
    forall j | 0 <= j < |tail| ensures Weights(v, u, w)[j + 1] == Weights(tail, u - {v[0]}, w)[j] {
      assert tail[j] == v[j + 1] != v[0];
    }
  }

  /**
   * Over a duplicate-free list `v` that covers `u`, giving weight `w` to
   * each position whose value is in `u` sums to `w * |u|`.
   */
  lemma {:induction false} SumIndicator(v: seq<int>, u: set<int>, w: int)
    requires NoDup(v)
    requires forall g :: g in u ==> g in v
    ensures Sum(Weights(v, u, w)) == w * |u|
  {
    if v == [] {
      assert forall g :: g !in u;
      assert u == {};
    } else {
      var x, tail := v[0], v[1..];
      var u' := u - {x};
      assert NoDup(tail);
      forall g | g in u' ensures g in tail {
        assert g in v && g != x;
      }
      SumIndicator(tail, u', w);
      WeightsTail(v, u, w);
      var ind := Weights(v, u, w);
      assert Sum(ind) == ind[0] + Sum(ind[1..]);
      if x in u {
        assert u == u' + {x};
        assert |u| == |u'| + 1;
        MulSucc(w, |u'|);
      } else {
        assert u == u';
      }
    }
  }
}
