/** Full-row deduplication, as `drop_duplicates()` with no column list does it. */
module Dedup {

  predicate NoDuplicates<T(==)>(s: seq<T>)
  {
    forall i, j :: 0 <= i < j < |s| ==> s[i] != s[j]
  }

  /**
   * The distinct rows of a table: each row kept once, at its first
   * occurrence. Two rows collapse only when they are equal in every column.
   */
  function Distinct<T(==, !new)>(s: seq<T>): (r: seq<T>)
    ensures NoDuplicates(r)
    ensures forall x :: x in r <==> x in s
    ensures |r| <= |s|
  {
    if |s| == 0 then []
    else
      var kept := Distinct(s[..|s| - 1]);
      var last := s[|s| - 1];
      assert forall x :: x in s <==> x in s[..|s| - 1] || x == last;
      if last in kept then kept else kept + [last]
  }

  /** The projection of every row of a table, in order. */
  function Image<A, B>(s: seq<A>, project: A -> B): (r: seq<B>)
    ensures |r| == |s|
    ensures forall i :: 0 <= i < |s| ==> r[i] == project(s[i])
  {
    seq(|s|, i requires 0 <= i < |s| => project(s[i]))
  }

  /**
   * A projection followed by full-row dedup: the distinct images of the rows
   * under `project`, each appearing once.
   */
  function DistinctProjection<A(!new), B(==, !new)>(s: seq<A>, project: A -> B): (r: seq<B>)
    ensures NoDuplicates(r)
    ensures forall b :: b in r <==> exists a :: a in s && project(a) == b
  {
    var projected := Image(s, project);
    forall b | b in projected
      ensures exists a :: a in s && project(a) == b
    {
      var i :| 0 <= i < |projected| && projected[i] == b;
      assert s[i] in s;
    }
    forall a | a in s
      ensures project(a) in projected
    {
      var i :| 0 <= i < |s| && s[i] == a;
      assert projected[i] == project(a);
    }
    Distinct(projected)
  }

  /** A table that already has no duplicate row comes out of dedup unchanged. */
  lemma {:induction false} DistinctOfDistinctRows<T(!new)>(s: seq<T>)
    requires NoDuplicates(s)
    ensures Distinct(s) == s
  {
    if |s| > 0 {
      var init := s[..|s| - 1];
      assert NoDuplicates(init);
      DistinctOfDistinctRows(init);
      assert forall k :: 0 <= k < |init| ==> init[k] == s[k] != s[|s| - 1];
      assert init + [s[|s| - 1]] == s;
    }
  }

  /** Dedup is idempotent: deduplicating a deduplicated table changes nothing. */
  lemma {:induction false} DistinctIdempotent<T(!new)>(s: seq<T>)
    ensures Distinct(Distinct(s)) == Distinct(s)
  {
    DistinctOfDistinctRows(Distinct(s));
  }

  /** Dedup of a two-row table. */
  lemma DistinctPair<T(!new)>(x: T, y: T)
    ensures Distinct([x, y]) == if x == y then [x] else [x, y]
  {
    assert [x, y][..1] == [x];
    assert [x][..0] == [];
  }

  /** Dedup and projection of a one-row table. */
  lemma DistinctProjectionOfOne<A(!new), B(!new)>(x: A, project: A -> B)
    ensures DistinctProjection([x], project) == [project(x)]
  {
    assert Image([x], project) == [project(x)];
    assert [project(x)][..0] == [];
  }
}
