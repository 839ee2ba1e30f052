/**
 `frame.sort_values(by=..., ascending=...).head(n)`: the first `n` rows of a
 frame after sorting it on one score.

 pandas' default sort is not stable, so the rows that tie with the last row
 kept may come out in any order; the contract of `TopK` does not depend on
 how ties are broken. The sort below is a stable insertion sort, one of the
 orders pandas may produce.
 */
module Ranking {

  /** `a` may come before `b` when sorting on `score`. */
  predicate Precedes<T>(a: T, b: T, score: T -> int, ascending: bool)
  {
    if ascending then score(a) <= score(b) else score(b) <= score(a)
  }

  predicate Ordered<T>(s: seq<T>, score: T -> int, ascending: bool)
  {
    forall i, j :: 0 <= i < j < |s| ==> Precedes(s[i], s[j], score, ascending)
  }

  /** `x` inserted into an ordered sequence, before the first row it may precede. */
  function Insert<T>(x: T, s: seq<T>, score: T -> int, ascending: bool): (r: seq<T>)
    requires Ordered(s, score, ascending)
    ensures Ordered(r, score, ascending)
    ensures multiset(r) == multiset(s) + multiset{x}
  {
    if s == [] then [x]
    else if Precedes(x, s[0], score, ascending) then
      assert s == [s[0]] + s[1..];
      [x] + s
    else
      assert s == [s[0]] + s[1..];
      var rest := Insert(x, s[1..], score, ascending);
      assert forall j :: 0 <= j < |rest| ==> Precedes(s[0], rest[j], score, ascending) by {
        forall j | 0 <= j < |rest| ensures Precedes(s[0], rest[j], score, ascending) {
          assert rest[j] in multiset(rest);
          if rest[j] != x {
            assert rest[j] in s[1..];
          }
        }
      }
      [s[0]] + rest
  }

  /** `sort_values`: the rows ordered on `score`, a permutation of the input. */
  function SortBy<T>(s: seq<T>, score: T -> int, ascending: bool): (r: seq<T>)
    ensures Ordered(r, score, ascending)
    ensures multiset(r) == multiset(s)
  {
    if s == [] then []
    else
      assert s == [s[0]] + s[1..];
      Insert(s[0], SortBy(s[1..], score, ascending), score, ascending)
  }

  /** In an ordered sequence every row of a prefix may precede every row after it. */
  lemma PrefixPrecedesRest<T>(sorted: seq<T>, len: nat, score: T -> int, ascending: bool)
    requires Ordered(sorted, score, ascending)
    requires len <= |sorted|
    ensures Ordered(sorted[..len], score, ascending)
    ensures forall x, y | x in multiset(sorted[len..]) && y in sorted[..len] :: Precedes(y, x, score, ascending)
  {
    forall x, y | x in multiset(sorted[len..]) && y in sorted[..len]
      ensures Precedes(y, x, score, ascending)
    {
      assert x in sorted[len..];
      var j :| 0 <= j < |sorted| - len && sorted[len..][j] == x;
      var i :| 0 <= i < len && sorted[..len][i] == y;
      assert sorted[i] == y && sorted[len + j] == x;
    }
  }

  /** Cutting a sequence in two splits its multiset of rows in two. */
  lemma SplitMultiset<T>(s: seq<T>, len: nat)
    requires len <= |s|
    ensures multiset(s[..len]) <= multiset(s)
    ensures multiset(s) - multiset(s[..len]) == multiset(s[len..])
  {
    assert s == s[..len] + s[len..];
    assert multiset(s) == multiset(s[..len]) + multiset(s[len..]);
  }

  /**
   `sort_values(...).head(n)`: at most `n` rows, all taken from the input, in
   sorted order, and no row left out ranks strictly before a row kept.
   */
  function TopK<T>(s: seq<T>, n: nat, score: T -> int, ascending: bool): (r: seq<T>)
    ensures |r| == if n < |s| then n else |s|
    ensures multiset(r) <= multiset(s)
    ensures Ordered(r, score, ascending)
    ensures forall x, y | x in multiset(s) - multiset(r) && y in r :: Precedes(y, x, score, ascending)
  {
    var sorted := SortBy(s, score, ascending);
    var len := if n < |s| then n else |s|;
    assert |sorted| == |multiset(sorted)| == |multiset(s)| == |s|;
    PrefixPrecedesRest(sorted, len, score, ascending);
    SplitMultiset(sorted, len);
    sorted[..len]
  }
}
