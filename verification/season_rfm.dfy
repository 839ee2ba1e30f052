/**
 The season view of the dashboard: `create_rfm_df` (dashboard/Dashboard.py,
 lines 25-37) and the per-season rental totals drawn from `day_df`
 (lines 98 and 105).

 Every aggregate is empty when the filtered table is empty: pandas then
 groups nothing, and the latest date is "not a time", which subtracted from
 an empty column leaves an empty column.
 */
module SeasonRfm {
  import opened GroupBy
  import opened Table

  /** One row of `rfm_df`, indexed by season. */
  datatype Rfm = Rfm(recency: int, frequency: int, monetary: int)

  /** `day_df.groupby('season')['cnt'].sum()`: rentals per season. */
  function RentalsPerSeason(t: seq<Row>): (m: map<int, int>)
    ensures m.Keys == KeySet(t, Season)
    ensures forall s | s in m :: m[s] == Sum(Column(Matching(t, Season, s), Cnt))
  {
    var ps := Project(t, Season, Cnt);
    ProjectKeys(t, Season, Cnt);
    assert forall s :: Values(Select(ps, s)) == Column(Matching(t, Season, s), Cnt) by {
      forall s { ProjectSelect(t, Season, Cnt, s); }
    }
    GroupSum(ps)
  }

  /**
   `day_df[day_df['season'] == season]['cnt'].sum()`: rentals in one season,
   which the dashboard asks for season 3. It is that season's entry of the
   per-season totals, and 0 when the season does not occur.
   */
  function RentalsInSeason(t: seq<Row>, season: int): (n: int)
    ensures n == if season in RentalsPerSeason(t) then RentalsPerSeason(t)[season] else 0
  {
    MatchingNonEmpty(t, Season, season);
    Sum(Column(Matching(t, Season, season), Cnt))
  }

  /** The three group-by aggregates `create_rfm_df` reads, at one season. */
  lemma SeasonAggregates(t: seq<Row>, s: int)
    requires s in KeySet(t, Season)
    ensures Matching(t, Season, s) != []
    ensures s in GroupMax(Project(t, Season, Dteday))
    ensures GroupMax(Project(t, Season, Dteday))[s] == Max(Column(Matching(t, Season, s), Dteday)) <= MaxDate(t)
    ensures s in GroupSize(Project(t, Season, Cnt))
    ensures GroupSize(Project(t, Season, Cnt))[s] == |Matching(t, Season, s)|
    ensures s in GroupSum(Project(t, Season, Cnt))
    ensures GroupSum(Project(t, Season, Cnt))[s] == Sum(Column(Matching(t, Season, s), Cnt))
  {
    ProjectKeys(t, Season, Dteday);
    ProjectKeys(t, Season, Cnt);
    ProjectSelect(t, Season, Dteday, s);
    ProjectSelect(t, Season, Cnt, s);
    MatchingNonEmpty(t, Season, s);
    GroupLatestBounded(t, Season, s);
  }

  /** Line 28: `(latest - recency).dt.days`, each season's latest date turned into days before `latest`. */
  function DaysBefore(latest: int, lastDay: map<int, int>): (r: map<int, int>)
    ensures r.Keys == lastDay.Keys
    ensures forall s | s in r :: r[s] == latest - lastDay[s]
  {
    map s | s in lastDay :: latest - lastDay[s]
  }

  /** Line 35: `pd.DataFrame({...})` over three columns indexed by the same seasons. */
  function Align(recency: map<int, int>, frequency: map<int, int>, monetary: map<int, int>): (r: map<int, Rfm>)
    requires frequency.Keys == recency.Keys && monetary.Keys == recency.Keys
    ensures r.Keys == recency.Keys
    ensures forall s | s in r :: r[s] == Rfm(recency[s], frequency[s], monetary[s])
  {
    map s | s in recency :: Rfm(recency[s], frequency[s], monetary[s])
  }

  /**
   `create_rfm_df`: per season, the days from the season's latest date to the
   table's latest date, the number of rows and the total of `cnt`.
   */
  function CreateRfm(t: seq<Row>): (r: map<int, Rfm>)
    ensures r.Keys == KeySet(t, Season)
    ensures forall s | s in r ::
      && Matching(t, Season, s) != []
      && r[s].frequency == |Matching(t, Season, s)| >= 1
      && r[s].monetary == Sum(Column(Matching(t, Season, s), Cnt))
      && r[s].recency == MaxDate(t) - Max(Column(Matching(t, Season, s), Dteday)) >= 0
  {
    if t == [] then map[]
    else
      ProjectKeys(t, Season, Dteday);
      ProjectKeys(t, Season, Cnt);
      var recency := DaysBefore(MaxDate(t), GroupMax(Project(t, Season, Dteday)));
      var r := Align(recency, GroupSize(Project(t, Season, Cnt)), GroupSum(Project(t, Season, Cnt)));
      assert forall s | s in r ::
        && Matching(t, Season, s) != []
        && r[s].frequency == |Matching(t, Season, s)| >= 1
        && r[s].monetary == Sum(Column(Matching(t, Season, s), Cnt))
        && r[s].recency == MaxDate(t) - Max(Column(Matching(t, Season, s), Dteday)) >= 0
      by {
        forall s | s in r
          ensures Matching(t, Season, s) != []
          ensures r[s].frequency == |Matching(t, Season, s)| >= 1
          ensures r[s].monetary == Sum(Column(Matching(t, Season, s), Cnt))
          ensures r[s].recency == MaxDate(t) - Max(Column(Matching(t, Season, s), Dteday)) >= 0
        {
          SeasonAggregates(t, s);
        }
      }
      r
  }

  /** The `monetary` column of `rfm_df`. */
  function Monetary(r: map<int, Rfm>): (m: map<int, int>)
    ensures m.Keys == r.Keys
  {
    map s | s in r :: r[s].monetary
  }

  /** The `frequency` column of `rfm_df`. */
  function Frequency(r: map<int, Rfm>): (m: map<int, int>)
    ensures m.Keys == r.Keys
  {
    map s | s in r :: r[s].frequency
  }

  /** The season holding the table's latest date has recency 0. */
  lemma LatestSeasonIsMostRecent(t: seq<Row>, i: nat)
    requires i < |t| && t[i].dteday == MaxDate(t)
    ensures t[i].season in CreateRfm(t)
    ensures CreateRfm(t)[t[i].season].recency == 0
  {
    GroupOfLatestRow(t, Season, i);
  }

  /** The per-season totals of line 105 are the `monetary` column of `rfm_df`, season by season. */
  lemma RentalsPerSeasonIsMonetary(t: seq<Row>)
    ensures RentalsPerSeason(t) == Monetary(CreateRfm(t))
  {
  }

  /** The `monetary` column adds up to the total `cnt` of the table. */
  lemma MonetaryTotal(t: seq<Row>)
    ensures SumValues(Monetary(CreateRfm(t))) == Sum(Column(t, Cnt))
  {
    RentalsPerSeasonIsMonetary(t);
    var ps := Project(t, Season, Cnt);
    ProjectKeys(t, Season, Cnt);
    assert RentalsPerSeason(t) == GroupSum(ps);
    GroupSumTotal(ps);
    ProjectValues(t, Season, Cnt);
  }

  /** The `frequency` column adds up to the number of rows. */
  lemma FrequencyTotal(t: seq<Row>)
    ensures SumValues(Frequency(CreateRfm(t))) == |t|
  {
    var ps := Project(t, Season, Cnt);
    var f := Frequency(CreateRfm(t));
    assert f == GroupSize(ps) by {
      ProjectKeys(t, Season, Cnt);
      forall s | s in f ensures f[s] == GroupSize(ps)[s] {
        ProjectSelect(t, Season, Cnt, s);
      }
      SameEntries(f, GroupSize(ps));
    }
    GroupSizeTotal(ps);
  }
}
