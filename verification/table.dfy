/**
 The rental table the dashboard works on, and the date-range filter of its
 sidebar (dashboard/Dashboard.py, lines 67-82).

 A row keeps the columns the aggregations read. Dates are day ordinals, so
 the difference of two dates in days (`.dt.days`) is integer subtraction.
 */
module Table {
  import opened GroupBy

  /** One row of the loaded table: one rental time bucket. */
  datatype Row = Row(dteday: int, season: int, mnth: int, registered: nat, cnt: nat)

  /** The columns the dashboard groups by. */
  datatype KeyColumn = Season | Mnth

  /** The columns the dashboard aggregates. */
  datatype ValueColumn = Dteday | Registered | Cnt

  function KeyOf(r: Row, key: KeyColumn): int
  {
    match key
    case Season => r.season
    case Mnth => r.mnth
  }

  function ValueOf(r: Row, col: ValueColumn): int
  {
    match col
    case Dteday => r.dteday
    case Registered => r.registered
    case Cnt => r.cnt
  }

  /** `df[[key, col]]`: the two columns one group-by aggregation reads. */
  function Project(t: seq<Row>, key: KeyColumn, col: ValueColumn): (ps: seq<Pair>)
    ensures |ps| == |t|
  {
    if t == [] then [] else [Pair(KeyOf(t[0], key), ValueOf(t[0], col))] + Project(t[1..], key, col)
  }

  /** `df[col]`: the values of one column, in row order. */
  function Column(t: seq<Row>, col: ValueColumn): (vs: seq<int>)
    ensures |vs| == |t|
    ensures forall i :: 0 <= i < |t| ==> vs[i] == ValueOf(t[i], col)
  {
    if t == [] then [] else [ValueOf(t[0], col)] + Column(t[1..], col)
  }

  /** The values the key column `key` takes in the table. */
  function KeySet(t: seq<Row>, key: KeyColumn): set<int>
  {
    if t == [] then {} else {KeyOf(t[0], key)} + KeySet(t[1..], key)
  }

  /** `df[df[key] == k]`: the rows whose key column is `k`, in their order. */
  function Matching(t: seq<Row>, key: KeyColumn, k: int): (r: seq<Row>)
    ensures |r| <= |t|
    ensures forall i :: 0 <= i < |r| ==> KeyOf(r[i], key) == k && r[i] in t
  {
    if t == [] then []
    else if KeyOf(t[0], key) == k then [t[0]] + Matching(t[1..], key, k)
    else Matching(t[1..], key, k)
  }

  /** The projection and the table agree on which keys occur. */
  lemma {:induction false} ProjectKeys(t: seq<Row>, key: KeyColumn, col: ValueColumn)
    ensures Keys(Project(t, key, col)) == KeySet(t, key)
  {
    if t != [] {
      ProjectKeys(t[1..], key, col);
      assert Project(t, key, col)[1..] == Project(t[1..], key, col);
    }
  }

  /** The value column of the projection is the table's column. */
  lemma {:induction false} ProjectValues(t: seq<Row>, key: KeyColumn, col: ValueColumn)
    ensures Values(Project(t, key, col)) == Column(t, col)
  {
    if t != [] {
      ProjectValues(t[1..], key, col);
      assert Project(t, key, col)[1..] == Project(t[1..], key, col);
    }
  }

  /**
   Selecting a group in the projection gives the column of the matching rows:
   the group-by aggregates of the projection are aggregates of `Matching`.
   */
  lemma {:induction false} ProjectSelect(t: seq<Row>, key: KeyColumn, col: ValueColumn, k: int)
    ensures Values(Select(Project(t, key, col), k)) == Column(Matching(t, key, k), col)
  {
    if t != [] {
      ProjectSelect(t[1..], key, col, k);
      var ps := Project(t, key, col);
      assert ps[1..] == Project(t[1..], key, col);
      SelectCons(ps, k);
      if KeyOf(t[0], key) == k {
        assert ([t[0]] + Matching(t[1..], key, k))[1..] == Matching(t[1..], key, k);
      }
    }
  }

  /** A key occurs in the table exactly when some row matches it. */
  lemma {:induction false} MatchingNonEmpty(t: seq<Row>, key: KeyColumn, k: int)
    ensures k in KeySet(t, key) <==> Matching(t, key, k) != []
  {
    if t != [] {
      MatchingNonEmpty(t[1..], key, k);
    }
  }

  /** Every row whose key is `k` is among the matching rows. */
  lemma {:induction false} MatchingContains(t: seq<Row>, key: KeyColumn, i: nat)
    requires i < |t|
    ensures t[i] in Matching(t, key, KeyOf(t[i], key))
  {
    if i > 0 {
      MatchingContains(t[1..], key, i - 1);
    }
  }

  /** `df['dteday'].max()` on a non-empty table: the latest date. */
  function MaxDate(t: seq<Row>): (d: int)
    requires t != []
    ensures exists i :: 0 <= i < |t| && t[i].dteday == d
    ensures forall i :: 0 <= i < |t| ==> t[i].dteday <= d
  {
    var ds := Column(t, Dteday);
    assert forall i :: 0 <= i < |t| ==> ds[i] in ds;
    Max(ds)
  }

  /** `df['dteday'].min()` on a non-empty table: the earliest date. */
  function MinDate(t: seq<Row>): (d: int)
    requires t != []
    ensures exists i :: 0 <= i < |t| && t[i].dteday == d
    ensures forall i :: 0 <= i < |t| ==> d <= t[i].dteday
  {
    var ds := Column(t, Dteday);
    assert forall i :: 0 <= i < |t| ==> ds[i] in ds;
    Min(ds)
  }

  /** The latest date of a group is a date of the table, so it is no later than the table's latest date. */
  lemma GroupLatestBounded(t: seq<Row>, key: KeyColumn, k: int)
    requires Matching(t, key, k) != []
    ensures Max(Column(Matching(t, key, k), Dteday)) <= MaxDate(t)
  {
    var rows := Matching(t, key, k);
    var ds := Column(rows, Dteday);
    var i :| 0 <= i < |ds| && ds[i] == Max(ds);
    assert rows[i] in t;
    var j :| 0 <= j < |t| && t[j] == rows[i];
  }

  /** The group of a row dated on the table's latest date has that latest date as its own. */
  lemma GroupOfLatestRow(t: seq<Row>, key: KeyColumn, i: nat)
    requires i < |t| && t[i].dteday == MaxDate(t)
    ensures KeyOf(t[i], key) in KeySet(t, key)
    ensures Matching(t, key, KeyOf(t[i], key)) != []
    ensures Max(Column(Matching(t, key, KeyOf(t[i], key)), Dteday)) == MaxDate(t)
  {
    var k := KeyOf(t[i], key);
    var rows := Matching(t, key, k);
    MatchingContains(t, key, i);
    MatchingNonEmpty(t, key, k);
    var j :| 0 <= j < |rows| && rows[j] == t[i];
    var ds := Column(rows, Dteday);
    assert ds[j] in ds;
    GroupLatestBounded(t, key, k);
  }

  predicate InRange(r: Row, start: int, end: int)
  {
    start <= r.dteday <= end
  }

  /**
   `df[(df["dteday"] >= start) & (df["dteday"] <= end)]`: the rows dated in
   the closed range, each kept as often as it occurs and in its order.
   */
  function FilterDates(t: seq<Row>, start: int, end: int): (r: seq<Row>)
    ensures |r| <= |t|
    ensures forall x :: x in r <==> x in t && InRange(x, start, end)
    ensures forall x :: multiset(r)[x] == if InRange(x, start, end) then multiset(t)[x] else 0
  {
    if t == [] then []
    else
      assert t == [t[0]] + t[1..];
      var rest := FilterDates(t[1..], start, end);
      if InRange(t[0], start, end) then [t[0]] + rest else rest
  }

  /** The filter works row by row, so it keeps the order of the rows. */
  lemma {:induction false} FilterAppend(a: seq<Row>, b: seq<Row>, start: int, end: int)
    ensures FilterDates(a + b, start, end) == FilterDates(a, start, end) + FilterDates(b, start, end)
  {
    if a == [] {
      assert a + b == b;
    } else {
      assert (a + b)[1..] == a[1..] + b;
      FilterAppend(a[1..], b, start, end);
    }
  }

  /** A range covering every date of the table keeps the whole table. */
  lemma {:induction false} FilterKeepsAll(t: seq<Row>, start: int, end: int)
    requires forall i :: 0 <= i < |t| ==> InRange(t[i], start, end)
    ensures FilterDates(t, start, end) == t
  {
    if t != [] {
      FilterKeepsAll(t[1..], start, end);
      assert t == [t[0]] + t[1..];
    }
  }

  /** The sidebar's default range, from the first to the last date, keeps every row. */
  lemma FilterDefaultRange(t: seq<Row>)
    requires t != []
    ensures FilterDates(t, MinDate(t), MaxDate(t)) == t
  {
    FilterKeepsAll(t, MinDate(t), MaxDate(t));
  }

  /** A range that no date of the table falls in keeps nothing. */
  lemma {:induction false} FilterDropsAll(t: seq<Row>, start: int, end: int)
    requires forall i :: 0 <= i < |t| ==> !InRange(t[i], start, end)
    ensures FilterDates(t, start, end) == []
  {
    if t != [] {
      FilterDropsAll(t[1..], start, end);
    }
  }

  /** A range entirely before or after the table's dates, or an inverted one, selects nothing. */
  lemma FilterOutsideSpan(t: seq<Row>, start: int, end: int)
    requires t != []
    requires end < MinDate(t) || MaxDate(t) < start || end < start
    ensures FilterDates(t, start, end) == []
  {
    FilterDropsAll(t, start, end);
  }
}
