/** The orderings the core reads rows in: SQLite's `ORDER BY ... DESC` on
    integer-like columns (NULL sorts below every number, so it comes last),
    `LIMIT n`, and Python's `sorted(..., reverse=True)`, which keeps equal
    elements in their original order. */
module Ordering {

  /** The value of one sort column: NULL, or a number. */
  datatype Key = Low | At(n: int)

  /** `a` sorts strictly above `b` in a descending order. */
  predicate KeyGt(a: Key, b: Key) {
    match a
    case Low => false
    case At(x) => b.Low? || x > b.n
  }

  /** The compound key of `ORDER BY first DESC, second DESC`; a single-column
      order uses `Low` as its second component. */
  datatype Rank = Rank(first: Key, second: Key)

  /** `a` comes strictly before `b` in a descending order. */
  predicate Outranks(a: Rank, b: Rank) {
    KeyGt(a.first, b.first) || (a.first == b.first && KeyGt(a.second, b.second))
  }

  /** Outranking is a strict total order: of two different ranks exactly one
      outranks the other, and it is transitive. */
  lemma OutranksTotal(a: Rank, b: Rank, c: Rank)
    ensures a != b ==> (Outranks(a, b) <==> !Outranks(b, a))
    ensures !Outranks(a, a)
    ensures Outranks(a, b) && Outranks(b, c) ==> Outranks(a, c)
    ensures !Outranks(a, b) && !Outranks(b, c) ==> !Outranks(a, c)
  {
  }

  /** No later element outranks an earlier one. */
  predicate SortedDesc<T>(s: seq<T>, rank: T -> Rank) {
    forall i, j :: 0 <= i < j < |s| ==> !Outranks(rank(s[j]), rank(s[i]))
  }

  /** Puts x after every element that outranks it and before the rest. */
  function Insert<T>(x: T, s: seq<T>, rank: T -> Rank): (r: seq<T>)
    ensures multiset(r) == multiset(s) + multiset{x}
    ensures SortedDesc(s, rank) ==> SortedDesc(r, rank)
  {
    if s == [] || !Outranks(rank(s[0]), rank(x)) then
      var r := [x] + s;
      assert SortedDesc(s, rank) ==> SortedDesc(r, rank) by {
        if SortedDesc(s, rank) && s != [] {
          forall j | 0 < j < |r| ensures !Outranks(rank(r[j]), rank(x)) {
            OutranksTotal(rank(r[j]), rank(s[0]), rank(x));
          }
        }
      }
      r
    else
      var tail := Insert(x, s[1..], rank);
      var r := [s[0]] + tail;
      assert s == [s[0]] + s[1..];
      assert SortedDesc(s, rank) ==> SortedDesc(r, rank) by {
        if SortedDesc(s, rank) {
          forall j | 0 < j < |r| ensures !Outranks(rank(r[j]), rank(s[0])) {
            assert r[j] in multiset(tail);
            if r[j] != x {
              assert r[j] in multiset(s[1..]);
              var k :| 0 <= k < |s[1..]| && s[1..][k] == r[j];
              assert s[k + 1] == r[j];
            } else {
              OutranksTotal(rank(s[0]), rank(x), rank(x));
            }
          }
        }
      }
      r
  }

  /** A stable descending sort: `sorted(s, key=rank, reverse=True)`, and the
      order SQLite returns rows in for a descending ORDER BY (ties in table
      order). */
  function Sort<T>(s: seq<T>, rank: T -> Rank): (r: seq<T>)
    ensures multiset(r) == multiset(s)
    ensures SortedDesc(r, rank)
  {
    if s == [] then []
    else
      assert s == [s[0]] + s[1..];
      Insert(s[0], Sort(s[1..], rank), rank)
  }

  /** The elements of s whose rank is k, in their order in s. */
  function Having<T>(s: seq<T>, rank: T -> Rank, k: Rank): seq<T> {
    if s == [] then []
    else (if rank(s[0]) == k then [s[0]] else []) + Having(s[1..], rank, k)
  }

  /** The elements of rank k in a sequence with a first element. */
  lemma HavingCons<T>(y: T, t: seq<T>, rank: T -> Rank, k: Rank)
    ensures Having([y] + t, rank, k) == (if rank(y) == k then [y] else []) + Having(t, rank, k)
  {
    assert ([y] + t)[1..] == t;
  }

  /** Inserting keeps x in front of every element of equal rank. */
  lemma {:induction false} InsertStable<T>(x: T, s: seq<T>, rank: T -> Rank, k: Rank)
    ensures Having(Insert(x, s, rank), rank, k) == (if rank(x) == k then [x] else []) + Having(s, rank, k)
  {
    if s == [] || !Outranks(rank(s[0]), rank(x)) {
      HavingCons(x, s, rank, k);
    } else {
      var y, rest := s[0], s[1..];
      var tail := Insert(x, rest, rank);
      assert Insert(x, s, rank) == [y] + tail;
      InsertStable(x, rest, rank, k);
      HavingCons(y, tail, rank, k);
      assert s == [y] + rest;
      HavingCons(y, rest, rank, k);
      OutranksTotal(rank(y), rank(x), rank(x));
      if rank(y) == k {
        assert rank(x) != k;
      } else if rank(x) == k {
        assert Having(s, rank, k) == Having(rest, rank, k);
      }
    }
  }

  /** The sort is stable: the elements of any one rank keep their order. */
  lemma {:induction false} SortStable<T>(s: seq<T>, rank: T -> Rank, k: Rank)
    ensures Having(Sort(s, rank), rank, k) == Having(s, rank, k)
  {
    if s != [] {
      SortStable(s[1..], rank, k);
      InsertStable(s[0], Sort(s[1..], rank), rank, k);
    }
  }

  /** `LIMIT n`: the first n elements, or all of them when there are fewer. */
  function Take<T>(s: seq<T>, n: nat): (r: seq<T>)
    ensures |r| == if |s| < n then |s| else n
    ensures r == s[..|r|]
  {
    if |s| <= n then s else s[..n]
  }

  /** The first n elements of a sequence sorted in descending order are the
      highest ranked: nothing left out outranks anything kept. */
  lemma TakeKeepsHighest<T>(s: seq<T>, rank: T -> Rank, n: nat)
    requires SortedDesc(s, rank)
    ensures forall i, j :: 0 <= i < |Take(s, n)| <= j < |s| ==> !Outranks(rank(s[j]), rank(s[i]))
  {
  }
}
