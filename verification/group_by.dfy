/**
 The group-by aggregations the dashboard performs with pandas
 (`df.groupby(key)[column].sum()`, `.size()`, `.max()`, `.min()`), stated over
 a two-column projection of a table: a sequence of (key, value) pairs.

 Each aggregation is a fold of the pairs into a map from group key to the
 aggregate, and its contract ties every entry to an independent per-key
 definition: the values of the pairs whose key is that group key
 (`Values(Select(ps, k))`).
 */
module GroupBy {

  datatype Pair = Pair(key: int, value: int)

  /** The group keys present in a projection. */
  function Keys(ps: seq<Pair>): set<int>
  {
    if ps == [] then {} else {ps[0].key} + Keys(ps[1..])
  }

  /** The value column of a projection. */
  function Values(ps: seq<Pair>): (vs: seq<int>)
    ensures |vs| == |ps|
    ensures forall i :: 0 <= i < |ps| ==> vs[i] == ps[i].value
  {
    if ps == [] then [] else [ps[0].value] + Values(ps[1..])
  }

  /** The pairs whose key is `k`, in their original order (`df[df[key] == k]`). */
  function Select(ps: seq<Pair>, k: int): (r: seq<Pair>)
    ensures |r| <= |ps|
    ensures forall i :: 0 <= i < |r| ==> r[i].key == k
  {
    if ps == [] then []
    else if ps[0].key == k then [ps[0]] + Select(ps[1..], k)
    else Select(ps[1..], k)
  }

  function Sum(s: seq<int>): int
  {
    if s == [] then 0 else s[0] + Sum(s[1..])
  }

  /** The largest element of a non-empty sequence. */
  function Max(s: seq<int>): (m: int)
    requires s != []
    ensures m in s
    ensures forall x | x in s :: x <= m
  {
    if |s| == 1 then s[0]
    else
      var rest := Max(s[1..]);
      assert s == [s[0]] + s[1..];
      if s[0] < rest then rest else s[0]
  }

  /** The smallest element of a non-empty sequence. */
  function Min(s: seq<int>): (m: int)
    requires s != []
    ensures m in s
    ensures forall x | x in s :: m <= x
  {
    if |s| == 1 then s[0]
    else
      var rest := Min(s[1..]);
      assert s == [s[0]] + s[1..];
      if rest < s[0] then rest else s[0]
  }

  /** How `Select` and the value column of the selection unfold on a non-empty projection. */
  lemma SelectCons(ps: seq<Pair>, k: int)
    requires ps != []
    ensures Select(ps, k) == if ps[0].key == k then [ps[0]] + Select(ps[1..], k) else Select(ps[1..], k)
    ensures Values(Select(ps, k)) == if ps[0].key == k then [ps[0].value] + Values(Select(ps[1..], k)) else Values(Select(ps[1..], k))
  {
    if ps[0].key == k {
      assert ([ps[0]] + Select(ps[1..], k))[1..] == Select(ps[1..], k);
    }
  }

  lemma {:induction false} SelectOfAbsentKey(ps: seq<Pair>, k: int)
    requires k !in Keys(ps)
    ensures Select(ps, k) == []
  {
    if ps != [] {
      SelectOfAbsentKey(ps[1..], k);
    }
  }

  lemma MaxCons(x: int, s: seq<int>)
    requires s != []
    ensures Max([x] + s) == if x < Max(s) then Max(s) else x
  {
    assert ([x] + s)[1..] == s;
  }

  lemma MinCons(x: int, s: seq<int>)
    requires s != []
    ensures Min([x] + s) == if Min(s) < x then Min(s) else x
  {
    assert ([x] + s)[1..] == s;
  }

  /** `m` with `d` added to the entry of `k`, which starts at 0 when absent. */
  function AddTo(m: map<int, int>, k: int, d: int): (r: map<int, int>)
    ensures r.Keys == m.Keys + {k}
    ensures r[k] == (if k in m then m[k] else 0) + d
    ensures forall j | j in m && j != k :: r[j] == m[j]
  {
    m[k := (if k in m then m[k] else 0) + d]
  }

  /** `groupby(key)[value].sum()`: the total of the values of each group. */
  function GroupSum(ps: seq<Pair>): (m: map<int, int>)
    ensures m.Keys == Keys(ps)
    ensures forall k | k in m :: m[k] == Sum(Values(Select(ps, k)))
  {
    if ps == [] then map[]
    else
      var m := GroupSum(ps[1..]);
      var p := ps[0];
      var m' := AddTo(m, p.key, p.value);
      assert forall k | k in m' :: m'[k] == Sum(Values(Select(ps, k))) by {
        forall k | k in m' ensures m'[k] == Sum(Values(Select(ps, k))) {
          SelectCons(ps, k);
          if k !in m { SelectOfAbsentKey(ps[1..], k); }
        }
      }
      m'
  }

  /** `groupby(key).size()`: the number of rows of each group, never zero. */
  function GroupSize(ps: seq<Pair>): (m: map<int, int>)
    ensures m.Keys == Keys(ps)
    ensures forall k | k in m :: m[k] == |Select(ps, k)| && m[k] >= 1
  {
    if ps == [] then map[]
    else
      var m := GroupSize(ps[1..]);
      var p := ps[0];
      var m' := AddTo(m, p.key, 1);
      assert forall k | k in m' :: m'[k] == |Select(ps, k)| by {
        forall k | k in m' ensures m'[k] == |Select(ps, k)| {
          SelectCons(ps, k);
          if k !in m { SelectOfAbsentKey(ps[1..], k); }
        }
      }
      m'
  }

  /** `m` with the entry of `k` raised to `v`, or set to `v` when absent. */
  function RaiseTo(m: map<int, int>, k: int, v: int): (r: map<int, int>)
    ensures r.Keys == m.Keys + {k}
    ensures r[k] == if k in m && v < m[k] then m[k] else v
    ensures forall j | j in m && j != k :: r[j] == m[j]
  {
    m[k := if k in m && v < m[k] then m[k] else v]
  }

  /** `m` with the entry of `k` lowered to `v`, or set to `v` when absent. */
  function LowerTo(m: map<int, int>, k: int, v: int): (r: map<int, int>)
    ensures r.Keys == m.Keys + {k}
    ensures r[k] == if k in m && m[k] < v then m[k] else v
    ensures forall j | j in m && j != k :: r[j] == m[j]
  {
    m[k := if k in m && m[k] < v then m[k] else v]
  }

  /** `groupby(key)[value].max()`: the largest value of each group. */
  function GroupMax(ps: seq<Pair>): (m: map<int, int>)
    ensures m.Keys == Keys(ps)
    ensures forall k | k in m :: Select(ps, k) != [] && m[k] == Max(Values(Select(ps, k)))
  {
    if ps == [] then map[]
    else
      var m := GroupMax(ps[1..]);
      var p := ps[0];
      var m' := RaiseTo(m, p.key, p.value);
      assert forall k | k in m' :: Select(ps, k) != [] && m'[k] == Max(Values(Select(ps, k))) by {
        forall k | k in m' ensures Select(ps, k) != [] && m'[k] == Max(Values(Select(ps, k))) {
          SelectCons(ps, k);
          if k !in m { SelectOfAbsentKey(ps[1..], k); }
          if k == p.key && k in m { MaxCons(p.value, Values(Select(ps[1..], k))); }
        }
      }
      m'
  }

  /** `groupby(key)[value].min()`: the smallest value of each group. */
  function GroupMin(ps: seq<Pair>): (m: map<int, int>)
    ensures m.Keys == Keys(ps)
    ensures forall k | k in m :: Select(ps, k) != [] && m[k] == Min(Values(Select(ps, k)))
  {
    if ps == [] then map[]
    else
      var m := GroupMin(ps[1..]);
      var p := ps[0];
      var m' := LowerTo(m, p.key, p.value);
      assert forall k | k in m' :: Select(ps, k) != [] && m'[k] == Min(Values(Select(ps, k))) by {
        forall k | k in m' ensures Select(ps, k) != [] && m'[k] == Min(Values(Select(ps, k))) {
          SelectCons(ps, k);
          if k !in m { SelectOfAbsentKey(ps[1..], k); }
          if k == p.key && k in m { MinCons(p.value, Values(Select(ps[1..], k))); }
        }
      }
      m'
  }

  /** Every value `v` replaced by `c - v`, keys untouched. */
  function Reflect(ps: seq<Pair>, c: int): (r: seq<Pair>)
    ensures |r| == |ps|
    ensures forall i :: 0 <= i < |ps| ==> r[i] == Pair(ps[i].key, c - ps[i].value)
  {
    if ps == [] then [] else [Pair(ps[0].key, c - ps[0].value)] + Reflect(ps[1..], c)
  }

  /**
   The smallest `c - v` of a group is `c` minus the group's largest `v`:
   grouping reflected values by minimum agrees with grouping by maximum.
   */
  lemma {:induction false} GroupMinOfReflect(ps: seq<Pair>, c: int)
    ensures GroupMin(Reflect(ps, c)).Keys == GroupMax(ps).Keys
    ensures forall k | k in GroupMax(ps) :: GroupMin(Reflect(ps, c))[k] == c - GroupMax(ps)[k]
  {
    if ps != [] {
      GroupMinOfReflect(ps[1..], c);
      assert Reflect(ps, c)[1..] == Reflect(ps[1..], c);
    }
  }

  /** Two maps with the same keys and the same value at each key are equal. */
  lemma SameEntries<V>(a: map<int, V>, b: map<int, V>)
    requires a.Keys == b.Keys
    requires forall k | k in a :: a[k] == b[k]
    ensures a == b
  {
    assert forall k :: k in a <==> k in b;
    assert forall k | k in a :: a[k] == b[k];
  }

  /** A set of keys is empty or has a member. */
  lemma EmptyOrWitness(s: set<int>)
    ensures s == {} || exists k :: k in s
  {
    if forall k :: k !in s {
      assert s == {};
    }
  }

  /** Some key of a non-empty map. */
  ghost function AnyKey(m: map<int, int>): (k: int)
    requires |m| != 0
    ensures k in m
  {
    EmptyOrWitness(m.Keys);
    var k :| k in m.Keys; k
  }

  lemma RemoveOneKey(m: map<int, int>, k: int)
    requires k in m
    ensures |m - {k}| == |m| - 1
  {
    assert (m - {k}).Keys == m.Keys - {k};
  }

  /** The total of the values of a map (the sum of a result column). */
  ghost function SumValues(m: map<int, int>): int
    decreases |m|
  {
    if |m| == 0 then 0
    else
      RemoveOneKey(m, AnyKey(m));
      m[AnyKey(m)] + SumValues(m - {AnyKey(m)})
  }

  /** The total does not depend on which key is taken out first. */
  lemma {:induction false} SumValuesRemove(m: map<int, int>, k: int)
    requires k in m
    ensures SumValues(m) == m[k] + SumValues(m - {k})
    decreases |m|
  {
    var j := AnyKey(m);
    if j != k {
      RemoveOneKey(m, j);
      RemoveOneKey(m, k);
      SumValuesRemove(m - {j}, k);
      SumValuesRemove(m - {k}, j);
      assert m - {j} - {k} == m - {k} - {j};
    }
  }

  /** Adding `d` to one entry (or creating it) adds `d` to the total. */
  lemma SumValuesAdd(m: map<int, int>, k: int, d: int)
    ensures SumValues(AddTo(m, k, d)) == SumValues(m) + d
  {
    var m' := AddTo(m, k, d);
    SumValuesRemove(m', k);
    if k in m {
      SumValuesRemove(m, k);
      assert m' - {k} == m - {k};
    } else {
      assert m' - {k} == m;
    }
  }

  /** Summing the groups' totals gives the total of the whole value column. */
  lemma {:induction false} GroupSumTotal(ps: seq<Pair>)
    ensures SumValues(GroupSum(ps)) == Sum(Values(ps))
  {
    if ps != [] {
      var m := GroupSum(ps[1..]);
      GroupSumTotal(ps[1..]);
      assert GroupSum(ps) == AddTo(m, ps[0].key, ps[0].value);
      SumValuesAdd(m, ps[0].key, ps[0].value);
      assert Sum(Values(ps)) == ps[0].value + Sum(Values(ps[1..]));
    }
  }

  /** The group sizes add up to the number of rows. */
  lemma {:induction false} GroupSizeTotal(ps: seq<Pair>)
    ensures SumValues(GroupSize(ps)) == |ps|
  {
    if ps != [] {
      var m := GroupSize(ps[1..]);
      GroupSizeTotal(ps[1..]);
      assert GroupSize(ps) == AddTo(m, ps[0].key, 1);
      SumValuesAdd(m, ps[0].key, 1);
    }
  }

  /** The smallest element of a non-empty finite set of keys. */
  lemma {:induction false} LeastExists(s: set<int>)
    requires s != {}
    ensures exists m :: m in s && forall x | x in s :: m <= x
    decreases |s|
  {
    EmptyOrWitness(s);
    var y :| y in s;
    if s != {y} {
      LeastExists(s - {y});
      var z :| z in s - {y} && forall x | x in s - {y} :: z <= x;
      var least := if y < z then y else z;
      forall x | x in s ensures least <= x {
        if x != y { assert x in s - {y}; }
      }
      assert least in s;
    }
  }

  /** A strictly increasing sequence lists each member of its set once. */
  lemma {:induction false} IncreasingLength(ks: seq<int>, s: set<int>)
    requires forall i, j :: 0 <= i < j < |ks| ==> ks[i] < ks[j]
    requires forall k :: k in ks <==> k in s
    ensures |ks| == |s|
  {
    if ks == [] {
      assert forall k :: k !in s;
      EmptyOrWitness(s);
    } else {
      var rest := s - {ks[0]};
      forall k ensures k in ks[1..] <==> k in rest {
        if k in ks[1..] {
          var i :| 0 <= i < |ks[1..]| && ks[1..][i] == k;
          assert ks[0] < ks[i + 1];
        }
        if k in rest {
          var i :| 0 <= i < |ks| && ks[i] == k;
          assert ks[1..][i - 1] == k;
        }
      }
      IncreasingLength(ks[1..], rest);
    }
  }

  /** The keys of a group-by result in ascending order, as pandas lists them. */
  function SortedKeys(s: set<int>): (ks: seq<int>)
    ensures forall i, j :: 0 <= i < j < |ks| ==> ks[i] < ks[j]
    ensures forall k :: k in ks <==> k in s
    decreases |s|
  {
    if s == {} then []
    else
      LeastExists(s);
      var m :| m in s && forall x | x in s :: m <= x;
      assert |s - {m}| < |s|;
      [m] + SortedKeys(s - {m})
  }

  /** The entries of `m` at the keys `ks`, in that order. */
  function EntriesAt<V>(m: map<int, V>, ks: seq<int>): (f: seq<(int, V)>)
    requires forall i | 0 <= i < |ks| :: ks[i] in m
    ensures |f| == |ks|
    ensures forall i :: 0 <= i < |ks| ==> f[i] == (ks[i], m[ks[i]])
  {
    if ks == [] then [] else [(ks[0], m[ks[0]])] + EntriesAt(m, ks[1..])
  }

  /** Each key listed has its entry among the listed entries. */
  lemma {:induction false} EntriesAtContains<V>(m: map<int, V>, ks: seq<int>)
    requires forall i | 0 <= i < |ks| :: ks[i] in m
    ensures forall k | k in ks :: k in m && (k, m[k]) in EntriesAt(m, ks)
  {
    if ks != [] {
      EntriesAtContains(m, ks[1..]);
    }
  }

  /**
   Listing the entries of `m` at strictly ascending keys that are exactly its
   keys gives each entry once, in key order.
   */
  lemma ListedEntries<V>(m: map<int, V>, ks: seq<int>)
    requires forall i, j :: 0 <= i < j < |ks| ==> ks[i] < ks[j]
    requires forall k :: k in ks <==> k in m
    ensures forall i | 0 <= i < |ks| :: ks[i] in m
    ensures forall i :: 0 <= i < |EntriesAt(m, ks)| ==>
      EntriesAt(m, ks)[i].0 in m && EntriesAt(m, ks)[i].1 == m[EntriesAt(m, ks)[i].0]
    ensures forall i, j :: 0 <= i < j < |EntriesAt(m, ks)| ==> EntriesAt(m, ks)[i].0 < EntriesAt(m, ks)[j].0
    ensures forall k | k in m :: (k, m[k]) in EntriesAt(m, ks)
  {
    assert forall i | 0 <= i < |ks| :: ks[i] in m by {
      forall i | 0 <= i < |ks| ensures ks[i] in m {
        assert ks[i] in ks;
      }
    }
    EntriesAtContains(m, ks);
  }

  /** A group-by result as a frame: one (key, value) row per key, keys ascending. */
  function ToFrame<V>(m: map<int, V>): (f: seq<(int, V)>)
    ensures forall i :: 0 <= i < |f| ==> f[i].0 in m && f[i].1 == m[f[i].0]
    ensures forall i, j :: 0 <= i < j < |f| ==> f[i].0 < f[j].0
    ensures forall k | k in m :: (k, m[k]) in f
  {
    var ks := SortedKeys(m.Keys);
    ListedEntries(m, ks);
    EntriesAt(m, ks)
  }

  /** The frame has one row per entry. */
  lemma ToFrameLength<V>(m: map<int, V>)
    ensures |ToFrame(m)| == |m|
  {
    IncreasingLength(SortedKeys(m.Keys), m.Keys);
  }
}
