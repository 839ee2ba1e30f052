/**
 The month view of the dashboard: `create_rfm2_df` (dashboard/Dashboard.py,
 lines 39-57), the second month summary the script builds by merging two
 group-by results (lines 278-284), the per-row recency column (line 279),
 and the three top-five selections drawn as the last chart (lines 308, 315
 and 322).
 */
module MonthRfm {
  import opened GroupBy
  import opened Table
  import opened Ranking

  /** A row of `rfm2_df` once aggregated and relabelled (lines 41-48), keyed by `mnth`. */
  datatype MonthAgg = MonthAgg(maxOrderDate: int, frequency: int, monetary: int)

  /** The same row once line 52 has added `recency`. */
  datatype MonthScored = MonthScored(maxOrderDate: int, frequency: int, monetary: int, recency: int)

  /** A row of the `rfm2_df` that `create_rfm2_df` returns: `max_order_date` dropped. */
  datatype Rfm = Rfm(frequency: int, monetary: int, recency: int)

  /** A row of the merged frame of lines 280-284, keyed by `mnth`. */
  datatype MonthTotals = MonthTotals(frequency: int, monetary: int)

  /** The latest date of month `m`. */
  function LatestIn(t: seq<Row>, m: int): int
    requires m in KeySet(t, Mnth)
  {
    MatchingNonEmpty(t, Mnth, m);
    Max(Column(Matching(t, Mnth, m), Dteday))
  }

  /** The total of `registered` over month `m`. */
  function RegisteredIn(t: seq<Row>, m: int): int
  {
    Sum(Column(Matching(t, Mnth, m), Registered))
  }

  /** The total of `cnt` over month `m`. */
  function RentalsIn(t: seq<Row>, m: int): int
  {
    Sum(Column(Matching(t, Mnth, m), Cnt))
  }

  /** The summary row of month `m`, by definition. */
  function MonthEntry(t: seq<Row>, m: int): (e: Rfm)
    requires m in KeySet(t, Mnth)
    ensures e.recency >= 0
  {
    MatchingNonEmpty(t, Mnth, m);
    GroupLatestBounded(t, Mnth, m);
    Rfm(RegisteredIn(t, m), RentalsIn(t, m), MaxDate(t) - LatestIn(t, m))
  }

  /**
   The month summary by definition: for every month present, the total of
   `registered`, the total of `cnt`, and the days from the month's latest
   date to the table's latest date, which is never negative.
   */
  function MonthRfmOf(t: seq<Row>): (r: map<int, Rfm>)
    ensures r.Keys == KeySet(t, Mnth)
    ensures forall m | m in r :: r[m].recency >= 0
  {
    map m | m in KeySet(t, Mnth) :: MonthEntry(t, m)
  }

  /** The three group-by aggregates lines 41-45 read, at one month. */
  lemma MonthAggregates(t: seq<Row>, m: int)
    requires m in KeySet(t, Mnth)
    ensures m in GroupMax(Project(t, Mnth, Dteday))
    ensures GroupMax(Project(t, Mnth, Dteday))[m] == LatestIn(t, m)
    ensures m in GroupSum(Project(t, Mnth, Registered))
    ensures GroupSum(Project(t, Mnth, Registered))[m] == RegisteredIn(t, m)
    ensures m in GroupSum(Project(t, Mnth, Cnt))
    ensures GroupSum(Project(t, Mnth, Cnt))[m] == RentalsIn(t, m)
  {
    ProjectKeys(t, Mnth, Dteday);
    ProjectKeys(t, Mnth, Registered);
    ProjectKeys(t, Mnth, Cnt);
    ProjectSelect(t, Mnth, Dteday, m);
    ProjectSelect(t, Mnth, Registered, m);
    ProjectSelect(t, Mnth, Cnt, m);
    MatchingNonEmpty(t, Mnth, m);
  }

  /**
   Lines 41-48 once aggregated: the three aggregate columns of the same
   months side by side, labelled `max_order_date`, `frequency` and `monetary`.
   */
  function Relabel(lastDay: map<int, int>, registered: map<int, int>, rentals: map<int, int>): (f: map<int, MonthAgg>)
    requires registered.Keys == lastDay.Keys && rentals.Keys == lastDay.Keys
    ensures f.Keys == lastDay.Keys
    ensures forall m | m in f :: f[m] == MonthAgg(lastDay[m], registered[m], rentals[m])
  {
    map m | m in lastDay :: MonthAgg(lastDay[m], registered[m], rentals[m])
  }

  /**
   Lines 41-48: `groupby(by="mnth").agg(...)` taking each month's latest
   date and its totals of `registered` and `cnt`, relabelled
   `max_order_date`, `frequency` and `monetary`.
   */
  function AggregateByMonth(t: seq<Row>): (f: map<int, MonthAgg>)
    ensures f.Keys == KeySet(t, Mnth)
    ensures forall m | m in f :: f[m] == MonthAgg(LatestIn(t, m), RegisteredIn(t, m), RentalsIn(t, m))
  {
    ProjectKeys(t, Mnth, Dteday);
    ProjectKeys(t, Mnth, Registered);
    ProjectKeys(t, Mnth, Cnt);
    var f := Relabel(GroupMax(Project(t, Mnth, Dteday)), GroupSum(Project(t, Mnth, Registered)), GroupSum(Project(t, Mnth, Cnt)));
    assert forall m | m in f :: f[m] == MonthAgg(LatestIn(t, m), RegisteredIn(t, m), RentalsIn(t, m)) by {
      forall m | m in f ensures f[m] == MonthAgg(LatestIn(t, m), RegisteredIn(t, m), RentalsIn(t, m)) {
        MonthAggregates(t, m);
      }
    }
    f
  }

  /** Line 52: `recency` is the days from `max_order_date` to `recentDate`. */
  function AddRecency(f: map<int, MonthAgg>, recentDate: int): (r: map<int, MonthScored>)
    ensures r.Keys == f.Keys
    ensures forall m | m in r ::
      r[m].maxOrderDate == f[m].maxOrderDate && r[m].frequency == f[m].frequency &&
      r[m].monetary == f[m].monetary && r[m].recency == recentDate - f[m].maxOrderDate
  {
    map m | m in f :: MonthScored(f[m].maxOrderDate, f[m].frequency, f[m].monetary, recentDate - f[m].maxOrderDate)
  }

  /** Line 55: dropping `max_order_date` keeps every month and its other three columns. */
  function DropMaxOrderDate(g: map<int, MonthScored>): (r: map<int, Rfm>)
    ensures r.Keys == g.Keys
    ensures forall m | m in r ::
      r[m].frequency == g[m].frequency && r[m].monetary == g[m].monetary && r[m].recency == g[m].recency
  {
    map m | m in g :: Rfm(g[m].frequency, g[m].monetary, g[m].recency)
  }

  /** One month of the pipeline of `create_rfm2_df`, on a non-empty table. */
  lemma Rfm2At(t: seq<Row>, m: int)
    requires t != [] && m in KeySet(t, Mnth)
    ensures m in DropMaxOrderDate(AddRecency(AggregateByMonth(t), MaxDate(t)))
    ensures DropMaxOrderDate(AddRecency(AggregateByMonth(t), MaxDate(t)))[m] == MonthEntry(t, m)
  {
    var frame := AggregateByMonth(t);
    var scored := AddRecency(frame, MaxDate(t));
    assert scored[m] == MonthScored(frame[m].maxOrderDate, frame[m].frequency, frame[m].monetary, MaxDate(t) - frame[m].maxOrderDate);
  }

  /**
   `create_rfm2_df`: aggregate by month, add `recency` against the table's
   latest date, drop `max_order_date`. The result is the month summary.
   */
  method CreateRfm2(t: seq<Row>) returns (rfm2: map<int, Rfm>)
    ensures rfm2 == MonthRfmOf(t)
  {
    var frame := AggregateByMonth(t);
    var scored: map<int, MonthScored> := map[];
    if t != [] {
      var recentDate := MaxDate(t);
      scored := AddRecency(frame, recentDate);
    }
    rfm2 := DropMaxOrderDate(scored);
    if t == [] {
      assert MonthRfmOf(t).Keys == {};
    } else {
      assert rfm2.Keys == MonthRfmOf(t).Keys;
      var spec := MonthRfmOf(t);
      forall m | m in rfm2 ensures rfm2[m] == spec[m] {
        Rfm2At(t, m);
      }
      SameEntries(rfm2, spec);
    }
  }

  /** The `frequency` column of a month summary. */
  function Frequency(r: map<int, Rfm>): (m: map<int, int>)
    ensures m.Keys == r.Keys
  {
    map k | k in r :: r[k].frequency
  }

  /** The `monetary` column of a month summary. */
  function Monetary(r: map<int, Rfm>): (m: map<int, int>)
    ensures m.Keys == r.Keys
  {
    map k | k in r :: r[k].monetary
  }

  /** The `frequency` and `monetary` columns add up to the table's totals of `registered` and `cnt`. */
  lemma MonthTotalsConserved(t: seq<Row>)
    ensures SumValues(Frequency(MonthRfmOf(t))) == Sum(Column(t, Registered))
    ensures SumValues(Monetary(MonthRfmOf(t))) == Sum(Column(t, Cnt))
  {
    RegisteredPerMonthIsFrequency(t);
    RegisteredPerMonthTotal(t);
    SameEntries(RentalsPerMonth(t), Monetary(MonthRfmOf(t)));
    GroupSumTotal(Project(t, Mnth, Cnt));
    ProjectValues(t, Mnth, Cnt);
  }

  /** The month holding the table's latest date has recency 0. */
  lemma LatestMonthIsMostRecent(t: seq<Row>, i: nat)
    requires i < |t| && t[i].dteday == MaxDate(t)
    ensures t[i].mnth in MonthRfmOf(t)
    ensures MonthRfmOf(t)[t[i].mnth].recency == 0
  {
    GroupOfLatestRow(t, Mnth, i);
  }

  /**
   Lines 216 and 280: `day_df.groupby('mnth')['registered'].sum()`, one total
   per month present, each the total of `registered` over that month.
   */
  function RegisteredPerMonth(t: seq<Row>): (r: map<int, int>)
    ensures r.Keys == KeySet(t, Mnth)
    ensures forall m | m in r :: r[m] == RegisteredIn(t, m)
  {
    var r := GroupSum(Project(t, Mnth, Registered));
    ProjectKeys(t, Mnth, Registered);
    assert forall m | m in r :: r[m] == RegisteredIn(t, m) by {
      forall m | m in r ensures r[m] == RegisteredIn(t, m) {
        ProjectSelect(t, Mnth, Registered, m);
      }
    }
    r
  }

  /**
   Line 282: `day_df.groupby('mnth')['cnt'].sum()`, one total per month
   present, each the total of `cnt` over that month.
   */
  function RentalsPerMonth(t: seq<Row>): (r: map<int, int>)
    ensures r.Keys == KeySet(t, Mnth)
    ensures forall m | m in r :: r[m] == RentalsIn(t, m)
  {
    var r := GroupSum(Project(t, Mnth, Cnt));
    ProjectKeys(t, Mnth, Cnt);
    assert forall m | m in r :: r[m] == RentalsIn(t, m) by {
      forall m | m in r ensures r[m] == RentalsIn(t, m) {
        ProjectSelect(t, Mnth, Cnt, m);
      }
    }
    r
  }

  /** The monthly totals of `registered` add up to the table's total of `registered`. */
  lemma RegisteredPerMonthTotal(t: seq<Row>)
    ensures SumValues(RegisteredPerMonth(t)) == Sum(Column(t, Registered))
  {
    GroupSumTotal(Project(t, Mnth, Registered));
    ProjectValues(t, Mnth, Registered);
  }

  /** The monthly totals of line 216 are the `frequency` column of `create_rfm2_df`. */
  lemma RegisteredPerMonthIsFrequency(t: seq<Row>)
    ensures RegisteredPerMonth(t) == Frequency(MonthRfmOf(t))
  {
    SameEntries(RegisteredPerMonth(t), Frequency(MonthRfmOf(t)));
  }

  /** Line 284: `merge(..., on='mnth')`, an inner join: the months in both columns, with both values. */
  function MergeOnMonth(frequency: map<int, int>, monetary: map<int, int>): (r: map<int, MonthTotals>)
    ensures r.Keys == frequency.Keys * monetary.Keys
    ensures forall m | m in r :: r[m].frequency == frequency[m] && r[m].monetary == monetary[m]
  {
    map m | m in frequency && m in monetary :: MonthTotals(frequency[m], monetary[m])
  }

  /**
   Lines 280-284: the per-month totals of `registered` and of `cnt`, merged
   on the month. It has a row for every month present.
   */
  function MergedMonthTotals(t: seq<Row>): (r: map<int, MonthTotals>)
    ensures r.Keys == KeySet(t, Mnth)
  {
    MergeOnMonth(RegisteredPerMonth(t), RentalsPerMonth(t))
  }

  /** The merged frame of lines 280-284 agrees with `create_rfm2_df` on `frequency` and `monetary`. */
  lemma MergedAgreesWithRfm2(t: seq<Row>)
    ensures MergedMonthTotals(t).Keys == MonthRfmOf(t).Keys
    ensures forall m | m in MergedMonthTotals(t) ::
      MergedMonthTotals(t)[m] == MonthTotals(MonthRfmOf(t)[m].frequency, MonthRfmOf(t)[m].monetary)
  {
    forall m | m in MergedMonthTotals(t)
      ensures MergedMonthTotals(t)[m] == MonthTotals(MonthRfmOf(t)[m].frequency, MonthRfmOf(t)[m].monetary)
    {
      MonthAggregates(t, m);
    }
  }

  /** `latest - df['dteday']` in days: each row's date counted back from `latest`. */
  function DaysBeforeEach(latest: int, t: seq<Row>): (rs: seq<int>)
    ensures |rs| == |t|
    ensures forall i :: 0 <= i < |t| ==> rs[i] == latest - t[i].dteday
  {
    if t == [] then [] else [latest - t[0].dteday] + DaysBeforeEach(latest, t[1..])
  }

  /**
   Line 279: `(latest_date - day_df['dteday']).dt.days`, each row's distance
   in days to the table's latest date; never negative.
   */
  function RowRecency(t: seq<Row>): (rs: seq<int>)
    ensures |rs| == |t|
    ensures t != [] ==> forall i :: 0 <= i < |t| ==> rs[i] == MaxDate(t) - t[i].dteday >= 0
  {
    if t == [] then [] else DaysBeforeEach(MaxDate(t), t)
  }

  /** The `mnth` column beside a `recency` column of the same length. */
  function MonthAndRecency(t: seq<Row>, recency: seq<int>): (ps: seq<Pair>)
    requires |recency| == |t|
    ensures |ps| == |t|
  {
    if t == [] then [] else [Pair(t[0].mnth, recency[0])] + MonthAndRecency(t[1..], recency[1..])
  }

  /** `day_df[day_df['mnth'] == m]['recency']`: the recency values of month `m`'s rows, in row order. */
  function RecenciesIn(t: seq<Row>, recency: seq<int>, m: int): seq<int>
    requires |recency| == |t|
  {
    if t == [] then []
    else (if t[0].mnth == m then [recency[0]] else []) + RecenciesIn(t[1..], recency[1..], m)
  }

  /** The months of the pairs are the months present in the table. */
  lemma {:induction false} MonthAndRecencyKeys(t: seq<Row>, recency: seq<int>)
    requires |recency| == |t|
    ensures Keys(MonthAndRecency(t, recency)) == KeySet(t, Mnth)
  {
    if t != [] {
      MonthAndRecencyKeys(t[1..], recency[1..]);
      assert MonthAndRecency(t, recency)[1..] == MonthAndRecency(t[1..], recency[1..]);
    }
  }

  /** Selecting one month of the pairs gives that month's recency values. */
  lemma {:induction false} MonthAndRecencySelect(t: seq<Row>, recency: seq<int>, m: int)
    requires |recency| == |t|
    ensures Values(Select(MonthAndRecency(t, recency), m)) == RecenciesIn(t, recency, m)
  {
    if t != [] {
      MonthAndRecencySelect(t[1..], recency[1..], m);
      var ps := MonthAndRecency(t, recency);
      assert ps[1..] == MonthAndRecency(t[1..], recency[1..]);
      SelectCons(ps, m);
    }
  }

  /**
   Line 308: `day_df.groupby('mnth')['recency'].min()`: one entry per month
   present, the smallest recency value among that month's rows.
   */
  function MinRecencyByMonth(t: seq<Row>, recency: seq<int>): (r: map<int, int>)
    requires |recency| == |t|
    ensures r.Keys == KeySet(t, Mnth)
    ensures forall m | m in r :: RecenciesIn(t, recency, m) != [] && r[m] == Min(RecenciesIn(t, recency, m))
  {
    var ps := MonthAndRecency(t, recency);
    MonthAndRecencyKeys(t, recency);
    assert forall m :: Values(Select(ps, m)) == RecenciesIn(t, recency, m) by {
      forall m { MonthAndRecencySelect(t, recency, m); }
    }
    GroupMin(ps)
  }

  /** The month and recency columns are the month and date columns with each date `d` replaced by `latest - d`. */
  lemma {:induction false} RecencyReflectsDates(t: seq<Row>, latest: int)
    ensures MonthAndRecency(t, DaysBeforeEach(latest, t)) == Reflect(Project(t, Mnth, Dteday), latest)
  {
    if t != [] {
      RecencyReflectsDates(t[1..], latest);
      assert DaysBeforeEach(latest, t)[1..] == DaysBeforeEach(latest, t[1..]);
      assert Reflect(Project(t, Mnth, Dteday), latest)[1..] == Reflect(Project(t[1..], Mnth, Dteday), latest);
    }
  }

  /** On a non-empty table the per-month minimum recency is the latest date minus the per-month latest date. */
  lemma MinRecencyIsReflectedMax(t: seq<Row>)
    requires t != []
    ensures MinRecencyByMonth(t, RowRecency(t)) == GroupMin(Reflect(Project(t, Mnth, Dteday), MaxDate(t)))
  {
    RecencyReflectsDates(t, MaxDate(t));
  }

  /** One month of the per-month minimum recency, on a non-empty table. */
  lemma MinRecencyAt(t: seq<Row>, m: int)
    requires t != [] && m in KeySet(t, Mnth)
    ensures m in MinRecencyByMonth(t, RowRecency(t))
    ensures MinRecencyByMonth(t, RowRecency(t))[m] == MonthEntry(t, m).recency
  {
    var dates := Project(t, Mnth, Dteday);
    MinRecencyIsReflectedMax(t);
    GroupMinOfReflect(dates, MaxDate(t));
    MonthAggregates(t, m);
  }

  /**
   The smallest per-row recency of each month, read from the column line 279
   adds, is the recency `create_rfm2_df` gives that month.
   */
  lemma MinRecencyAgreesWithRfm2(t: seq<Row>)
    ensures MinRecencyByMonth(t, RowRecency(t)).Keys == MonthRfmOf(t).Keys
    ensures forall m | m in MonthRfmOf(t) :: MinRecencyByMonth(t, RowRecency(t))[m] == MonthRfmOf(t)[m].recency
  {
    forall m | m in MonthRfmOf(t)
      ensures MinRecencyByMonth(t, RowRecency(t))[m] == MonthRfmOf(t)[m].recency
    {
      MinRecencyAt(t, m);
    }
  }

  /** Month `k` is one of the rows of a listed frame. */
  predicate Shown<V>(k: int, rows: seq<(int, V)>)
  {
    exists j :: 0 <= j < |rows| && rows[j].0 == k
  }

  /** No key is listed twice. */
  predicate DistinctKeys<V>(rows: seq<(int, V)>)
  {
    forall i, j | 0 <= i < j < |rows| :: rows[i].0 != rows[j].0
  }

  /**
   A group-by result listed as a frame and cut to its first `n` rows after
   sorting on `score`: every row kept is one of its (key, value) entries, no
   key is kept twice, the rows are in order of `score`, and no key left out
   ranks strictly before a key kept.
   */
  lemma TopOfFrame<V>(g: map<int, V>, n: nat, score: ((int, V)) -> int, ascending: bool, r: seq<(int, V)>)
    requires r == TopK(ToFrame(g), n, score, ascending)
    ensures |r| == if n < |g| then n else |g|
    ensures forall i | 0 <= i < |r| :: r[i].0 in g && r[i].1 == g[r[i].0]
    ensures DistinctKeys(r)
    ensures Ordered(r, score, ascending)
    ensures forall k, i | k in g && !Shown(k, r) && 0 <= i < |r| :: Precedes(r[i], (k, g[k]), score, ascending)
  {
    var f := ToFrame(g);
    ToFrameLength(g);
    RowsOfSubFrame(g, f, r);
    DistinctRowsOfSubFrame(g, f, r);
    LeftOutRanksAfter(g, f, r, score, ascending);
  }

  /** A row listed at two places of a sequence occurs in it at least twice. */
  lemma CountedTwice<T>(s: seq<T>, i: nat, j: nat)
    requires i < j < |s| && s[i] == s[j]
    ensures multiset(s)[s[i]] >= 2
  {
    assert s == s[..i] + [s[i]] + s[i + 1..j] + [s[j]] + s[j + 1..];
  }

  /** In a frame whose keys strictly ascend, every row occurs at most once. */
  lemma {:induction false} CountedOnce<V>(f: seq<(int, V)>, x: (int, V))
    requires forall i, j :: 0 <= i < j < |f| ==> f[i].0 < f[j].0
    ensures multiset(f)[x] <= 1
  {
    if f != [] {
      var rest := f[1..];
      assert f == [f[0]] + rest;
      CountedOnce(rest, x);
      if x in rest {
        var i :| 0 <= i < |rest| && rest[i] == x;
        assert f[0].0 < f[i + 1].0;
        assert x != f[0];
      }
    }
  }

  /**
   Rows taken, each at most as often as it occurs, from a frame of `g`'s
   entries whose keys strictly ascend, never repeat a key.
   */
  lemma DistinctRowsOfSubFrame<V>(g: map<int, V>, f: seq<(int, V)>, r: seq<(int, V)>)
    requires forall i, j :: 0 <= i < j < |f| ==> f[i].0 < f[j].0
    requires forall i | 0 <= i < |r| :: r[i].0 in g && r[i].1 == g[r[i].0]
    requires multiset(r) <= multiset(f)
    ensures DistinctKeys(r)
  {
    forall i, j | 0 <= i < j < |r| ensures r[i].0 != r[j].0 {
      CountedOnce(f, r[i]);
      if r[i] == r[j] {
        CountedTwice(r, i, j);
      }
    }
  }

  /** Rows taken from a frame of `g`'s entries are entries of `g`. */
  lemma RowsOfSubFrame<V>(g: map<int, V>, f: seq<(int, V)>, r: seq<(int, V)>)
    requires forall i :: 0 <= i < |f| ==> f[i].0 in g && f[i].1 == g[f[i].0]
    requires multiset(r) <= multiset(f)
    ensures forall i | 0 <= i < |r| :: r[i].0 in g && r[i].1 == g[r[i].0]
  {
    forall i | 0 <= i < |r| ensures r[i].0 in g && r[i].1 == g[r[i].0] {
      assert r[i] in multiset(r);
      assert r[i] in multiset(f);
      var j :| 0 <= j < |f| && f[j] == r[i];
    }
  }

  /**
   When every entry of `g` is a row of `f` and every row of `f` left out of
   `r` ranks after the rows of `r`, every month not shown ranks after them.
   */
  lemma LeftOutRanksAfter<V>(g: map<int, V>, f: seq<(int, V)>, r: seq<(int, V)>, score: ((int, V)) -> int, ascending: bool)
    requires forall k | k in g :: (k, g[k]) in f
    requires forall x, y | x in multiset(f) - multiset(r) && y in r :: Precedes(y, x, score, ascending)
    ensures forall k, i | k in g && !Shown(k, r) && 0 <= i < |r| :: Precedes(r[i], (k, g[k]), score, ascending)
  {
    forall k, i | k in g && !Shown(k, r) && 0 <= i < |r|
      ensures Precedes(r[i], (k, g[k]), score, ascending)
    {
      var x := (k, g[k]);
      assert x in f;
      assert x !in r;
      assert x in multiset(f) - multiset(r);
      assert r[i] in r;
    }
  }

  function RecencyOf(row: (int, int)): int
  {
    row.1
  }

  function FrequencyOf(row: (int, MonthTotals)): int
  {
    row.1.frequency
  }

  function MonetaryOf(row: (int, MonthTotals)): int
  {
    row.1.monetary
  }

  /** The rows are in ascending order of recency. */
  predicate AscendingRecency(rows: seq<(int, int)>)
  {
    forall i, j | 0 <= i < j < |rows| :: rows[i].1 <= rows[j].1
  }

  /** The rows are in descending order of `frequency`. */
  predicate DescendingFrequency(rows: seq<(int, MonthTotals)>)
  {
    forall i, j | 0 <= i < j < |rows| :: rows[j].1.frequency <= rows[i].1.frequency
  }

  /** The rows are in descending order of `monetary`. */
  predicate DescendingMonetary(rows: seq<(int, MonthTotals)>)
  {
    forall i, j | 0 <= i < j < |rows| :: rows[j].1.monetary <= rows[i].1.monetary
  }

  /** Rows in order of `RecencyOf`, ascending, have ascending recency. */
  lemma RecencyOrder(r: seq<(int, int)>)
    requires Ordered(r, RecencyOf, true)
    ensures AscendingRecency(r)
  {
    forall i, j | 0 <= i < j < |r| ensures r[i].1 <= r[j].1 {
      assert Precedes(r[i], r[j], RecencyOf, true);
    }
  }

  /** Rows in order of `FrequencyOf`, descending, have descending `frequency`. */
  lemma FrequencyOrder(r: seq<(int, MonthTotals)>)
    requires Ordered(r, FrequencyOf, false)
    ensures DescendingFrequency(r)
  {
    forall i, j | 0 <= i < j < |r| ensures r[j].1.frequency <= r[i].1.frequency {
      assert Precedes(r[i], r[j], FrequencyOf, false);
    }
  }

  /** Rows in order of `MonetaryOf`, descending, have descending `monetary`. */
  lemma MonetaryOrder(r: seq<(int, MonthTotals)>)
    requires Ordered(r, MonetaryOf, false)
    ensures DescendingMonetary(r)
  {
    forall i, j | 0 <= i < j < |r| ensures r[j].1.monetary <= r[i].1.monetary {
      assert Precedes(r[i], r[j], MonetaryOf, false);
    }
  }

  /**
   Line 308: the five months with the smallest recency, `sort_values(by="recency",
   ascending=True).head(5)`: five rows, or all when there are fewer, each a
   different month with its own value, in ascending order of recency, and no
   month left out has a smaller recency than a month shown.
   */
  function TopRecency(byMonth: map<int, int>): (r: seq<(int, int)>)
    ensures |r| == if 5 < |byMonth| then 5 else |byMonth|
    ensures forall i | 0 <= i < |r| :: r[i].0 in byMonth && r[i].1 == byMonth[r[i].0]
    ensures DistinctKeys(r)
    ensures AscendingRecency(r)
    ensures forall m, i | m in byMonth && !Shown(m, r) && 0 <= i < |r| :: r[i].1 <= byMonth[m]
  {
    var r := TopK(ToFrame(byMonth), 5, RecencyOf, true);
    // One call of TopOfFrame per clause: each proof sees only the facts it needs, which keeps it cheap.
    assert |r| == if 5 < |byMonth| then 5 else |byMonth| by {
      TopOfFrame(byMonth, 5, RecencyOf, true, r);
    }
    assert forall i | 0 <= i < |r| :: r[i].0 in byMonth && r[i].1 == byMonth[r[i].0] by {
      TopOfFrame(byMonth, 5, RecencyOf, true, r);
    }
    assert DistinctKeys(r) by {
      TopOfFrame(byMonth, 5, RecencyOf, true, r);
    }
    assert AscendingRecency(r) by {
      TopOfFrame(byMonth, 5, RecencyOf, true, r);
      RecencyOrder(r);
    }
    assert forall m, i | m in byMonth && !Shown(m, r) && 0 <= i < |r| :: r[i].1 <= byMonth[m] by {
      TopOfFrame(byMonth, 5, RecencyOf, true, r);
    }
    r
  }

  /**
   Line 315: the five months with the largest `frequency` in the merged frame,
   `sort_values(by="frequency", ascending=False).head(5)`.
   */
  function TopFrequency(merged: map<int, MonthTotals>): (r: seq<(int, MonthTotals)>)
    ensures |r| == if 5 < |merged| then 5 else |merged|
    ensures forall i | 0 <= i < |r| :: r[i].0 in merged && r[i].1 == merged[r[i].0]
    ensures DistinctKeys(r)
    ensures DescendingFrequency(r)
    ensures forall m, i | m in merged && !Shown(m, r) && 0 <= i < |r| :: merged[m].frequency <= r[i].1.frequency
  {
    var r := TopK(ToFrame(merged), 5, FrequencyOf, false);
    // One call of TopOfFrame per clause: each proof sees only the facts it needs, which keeps it cheap.
    assert |r| == if 5 < |merged| then 5 else |merged| by {
      TopOfFrame(merged, 5, FrequencyOf, false, r);
    }
    assert forall i | 0 <= i < |r| :: r[i].0 in merged && r[i].1 == merged[r[i].0] by {
      TopOfFrame(merged, 5, FrequencyOf, false, r);
    }
    assert DistinctKeys(r) by {
      TopOfFrame(merged, 5, FrequencyOf, false, r);
    }
    assert DescendingFrequency(r) by {
      TopOfFrame(merged, 5, FrequencyOf, false, r);
      FrequencyOrder(r);
    }
    assert forall m, i | m in merged && !Shown(m, r) && 0 <= i < |r| :: merged[m].frequency <= r[i].1.frequency by {
      TopOfFrame(merged, 5, FrequencyOf, false, r);
    }
    r
  }

  /**
   Line 322: the five months with the largest `monetary` in the merged frame,
   `sort_values(by="monetary", ascending=False).head(5)`.
   */
  function TopMonetary(merged: map<int, MonthTotals>): (r: seq<(int, MonthTotals)>)
    ensures |r| == if 5 < |merged| then 5 else |merged|
    ensures forall i | 0 <= i < |r| :: r[i].0 in merged && r[i].1 == merged[r[i].0]
    ensures DistinctKeys(r)
    ensures DescendingMonetary(r)
    ensures forall m, i | m in merged && !Shown(m, r) && 0 <= i < |r| :: merged[m].monetary <= r[i].1.monetary
  {
    var r := TopK(ToFrame(merged), 5, MonetaryOf, false);
    // One call of TopOfFrame per clause: each proof sees only the facts it needs, which keeps it cheap.
    assert |r| == if 5 < |merged| then 5 else |merged| by {
      TopOfFrame(merged, 5, MonetaryOf, false, r);
    }
    assert forall i | 0 <= i < |r| :: r[i].0 in merged && r[i].1 == merged[r[i].0] by {
      TopOfFrame(merged, 5, MonetaryOf, false, r);
    }
    assert DistinctKeys(r) by {
      TopOfFrame(merged, 5, MonetaryOf, false, r);
    }
    assert DescendingMonetary(r) by {
      TopOfFrame(merged, 5, MonetaryOf, false, r);
      MonetaryOrder(r);
    }
    assert forall m, i | m in merged && !Shown(m, r) && 0 <= i < |r| :: merged[m].monetary <= r[i].1.monetary by {
      TopOfFrame(merged, 5, MonetaryOf, false, r);
    }
    r
  }

  /** Every (month, recency) row shows the summary's recency of that month. */
  predicate ShowsRecency(rfm2: map<int, Rfm>, rows: seq<(int, int)>)
  {
    forall i | 0 <= i < |rows| :: rows[i].0 in rfm2 && rows[i].1 == rfm2[rows[i].0].recency
  }

  /** Every (month, totals) row shows the summary's `frequency` and `monetary` of that month. */
  predicate ShowsTotals(rfm2: map<int, Rfm>, rows: seq<(int, MonthTotals)>)
  {
    forall i | 0 <= i < |rows| ::
      rows[i].0 in rfm2 && rows[i].1 == MonthTotals(rfm2[rows[i].0].frequency, rfm2[rows[i].0].monetary)
  }

  /**
   The rows line 308 passes to the recency chart, from the month summary:
   five months, or all when there are fewer, each listed once with the summary's recency,
   in ascending order of recency, and no month left out has a smaller
   recency than a month shown.
   */
  predicate TopFiveByRecency(rfm2: map<int, Rfm>, rows: seq<(int, int)>)
  {
    && |rows| == (if 5 < |rfm2| then 5 else |rfm2|)
    && ShowsRecency(rfm2, rows)
    && DistinctKeys(rows)
    && AscendingRecency(rows)
    && (forall m, i | m in rfm2 && !Shown(m, rows) && 0 <= i < |rows| :: rows[i].1 <= rfm2[m].recency)
  }

  /**
   The rows line 315 passes to the frequency chart, from the month summary:
   five months, or all when there are fewer, each listed once with the summary's totals,
   in descending order of `frequency`, and no month left out has a larger
   `frequency` than a month shown.
   */
  predicate TopFiveByFrequency(rfm2: map<int, Rfm>, rows: seq<(int, MonthTotals)>)
  {
    && |rows| == (if 5 < |rfm2| then 5 else |rfm2|)
    && ShowsTotals(rfm2, rows)
    && DistinctKeys(rows)
    && DescendingFrequency(rows)
    && (forall m, i | m in rfm2 && !Shown(m, rows) && 0 <= i < |rows| :: rfm2[m].frequency <= rows[i].1.frequency)
  }

  /** The rows line 322 passes to the monetary chart, as `TopFiveByFrequency` with `monetary` as the score. */
  predicate TopFiveByMonetary(rfm2: map<int, Rfm>, rows: seq<(int, MonthTotals)>)
  {
    && |rows| == (if 5 < |rfm2| then 5 else |rfm2|)
    && ShowsTotals(rfm2, rows)
    && DistinctKeys(rows)
    && DescendingMonetary(rows)
    && (forall m, i | m in rfm2 && !Shown(m, rows) && 0 <= i < |rows| :: rfm2[m].monetary <= rows[i].1.monetary)
  }

  /**
   When the per-month minimum recency agrees with a month summary, the
   list passed to the recency chart is the summary's top five by recency.
   */
  lemma TopRecencyIsTopFive(rfm2: map<int, Rfm>, byMonth: map<int, int>)
    requires byMonth.Keys == rfm2.Keys
    requires forall m | m in byMonth :: byMonth[m] == rfm2[m].recency
    ensures TopFiveByRecency(rfm2, TopRecency(byMonth))
  {
    var rows := TopRecency(byMonth);
    assert |byMonth| == |rfm2| by {
      assert |byMonth.Keys| == |rfm2.Keys|;
    }
    assert ShowsRecency(rfm2, rows) by {
      forall i | 0 <= i < |rows| ensures rows[i].0 in rfm2 && rows[i].1 == rfm2[rows[i].0].recency {
      }
    }
  }

  /**
   When the merged frame agrees with a month summary, the list passed
   to the frequency chart is the summary's top five by `frequency`.
   */
  lemma TopFrequencyIsTopFive(rfm2: map<int, Rfm>, merged: map<int, MonthTotals>)
    requires merged.Keys == rfm2.Keys
    requires forall m | m in merged :: merged[m] == MonthTotals(rfm2[m].frequency, rfm2[m].monetary)
    ensures TopFiveByFrequency(rfm2, TopFrequency(merged))
  {
    var rows := TopFrequency(merged);
    assert |merged| == |rfm2| by {
      assert |merged.Keys| == |rfm2.Keys|;
    }
    assert ShowsTotals(rfm2, rows) by {
      forall i | 0 <= i < |rows|
        ensures rows[i].0 in rfm2
        ensures rows[i].1 == MonthTotals(rfm2[rows[i].0].frequency, rfm2[rows[i].0].monetary)
      {
      }
    }
  }

  /**
   When the merged frame agrees with a month summary, the list passed
   to the monetary chart is the summary's top five by `monetary`.
   */
  lemma TopMonetaryIsTopFive(rfm2: map<int, Rfm>, merged: map<int, MonthTotals>)
    requires merged.Keys == rfm2.Keys
    requires forall m | m in merged :: merged[m] == MonthTotals(rfm2[m].frequency, rfm2[m].monetary)
    ensures TopFiveByMonetary(rfm2, TopMonetary(merged))
  {
    var rows := TopMonetary(merged);
    assert |merged| == |rfm2| by {
      assert |merged.Keys| == |rfm2.Keys|;
    }
    assert ShowsTotals(rfm2, rows) by {
      forall i | 0 <= i < |rows|
        ensures rows[i].0 in rfm2
        ensures rows[i].1 == MonthTotals(rfm2[rows[i].0].frequency, rfm2[rows[i].0].monetary)
      {
      }
    }
  }
}
