/**
 The frames the script holds as objects and changes in place
 (dashboard/Dashboard.py, lines 11-23, 81-88 and 278-284).

 Boolean indexing builds a new frame, `main_df`. `create_day_df` and
 `create_hour_df` relabel the column `instant` as `no` in that frame and
 return the frame itself, so `day_df`, `hour_df` and `main_df` are one
 object, relabelled twice. Line 279 then adds a `recency` column to it.
 */
module Frames {
  import opened Table
  import SeasonRfm
  import MonthRfm

  /**
   `rename(columns={from: to})`: every label equal to `from` becomes `to`, the
   others stay where they are; a label that is missing is ignored.
   */
  function Renamed(columns: seq<string>, from: string, to: string): (r: seq<string>)
    ensures |r| == |columns|
    ensures forall i :: 0 <= i < |columns| ==> r[i] == if columns[i] == from then to else columns[i]
  {
    if columns == [] then []
    else [if columns[0] == from then to else columns[0]] + Renamed(columns[1..], from, to)
  }

  /** After a rename to another label, the old label is gone. */
  lemma RenamedRemovesLabel(columns: seq<string>, from: string, to: string)
    requires from != to
    ensures from !in Renamed(columns, from, to)
  {
    var r := Renamed(columns, from, to);
    forall i | 0 <= i < |r| ensures r[i] != from {
    }
  }

  /** The new label is present exactly when the old one was, or it was there already. */
  lemma RenamedAddsLabel(columns: seq<string>, from: string, to: string)
    ensures to in Renamed(columns, from, to) <==> to in columns || from in columns
  {
    var r := Renamed(columns, from, to);
    if from in columns {
      var i :| 0 <= i < |columns| && columns[i] == from;
      assert r[i] == to;
    }
    if to in columns {
      var i :| 0 <= i < |columns| && columns[i] == to;
      assert r[i] == to;
    }
    if to in r {
      var i :| 0 <= i < |r| && r[i] == to;
      assert columns[i] == from || columns[i] == to;
    }
  }

  /** Renaming a label that is missing changes nothing. */
  lemma RenamedAbsent(columns: seq<string>, from: string, to: string)
    requires from !in columns
    ensures Renamed(columns, from, to) == columns
  {
    var r := Renamed(columns, from, to);
    forall i | 0 <= i < |r| ensures r[i] == columns[i] {
      assert columns[i] in columns;
    }
  }

  /** Renaming twice with the same mapping is renaming once. */
  lemma RenamedTwice(columns: seq<string>, from: string, to: string)
    ensures Renamed(Renamed(columns, from, to), from, to) == Renamed(columns, from, to)
  {
    var once := Renamed(columns, from, to);
    if from == to {
      forall i | 0 <= i < |once| ensures once[i] == columns[i] {
      }
      assert once == columns;
    } else {
      RenamedRemovesLabel(columns, from, to);
      RenamedAbsent(once, from, to);
    }
  }

  /** A pandas frame of rental rows: its column labels, its rows, and the `recency` column line 279 adds. */
  class Frame {
    var columns: seq<string>
    var rows: seq<Row>
    /** The values of the `recency` column, one per row once it has been added. */
    var recency: seq<int>

    /** A frame with the given labels and rows and no `recency` values yet. */
    constructor(columns: seq<string>, rows: seq<Row>)
      ensures this.columns == columns && this.rows == rows && recency == []
    {
      this.columns := columns;
      this.rows := rows;
      recency := [];
    }

    /** `rename(columns={from: to}, inplace=True)`: only the labels change. */
    method Rename(from: string, to: string)
      modifies this
      ensures columns == Renamed(old(columns), from, to)
      ensures rows == old(rows) && recency == old(recency)
    {
      columns := Renamed(columns, from, to);
    }

    /**
     Line 279: `df['recency'] = (latest_date - df['dteday']).dt.days`. The
     label is appended unless it is already there; each row's value is its
     distance in days to the frame's latest date.
     */
    method AddRecency()
      modifies this
      ensures columns == if "recency" in old(columns) then old(columns) else old(columns) + ["recency"]
      ensures rows == old(rows)
      ensures recency == MonthRfm.RowRecency(rows)
      ensures |recency| == |rows| && forall i :: 0 <= i < |recency| ==> recency[i] >= 0
    {
      if "recency" !in columns {
        columns := columns + ["recency"];
      }
      recency := MonthRfm.RowRecency(rows);
    }
  }

  /** Lines 11-16, `create_day_df`: relabel `instant` as `no` in place and return the same frame. */
  method CreateDayDf(df: Frame) returns (r: Frame)
    modifies df
    ensures r == df
    ensures df.columns == Renamed(old(df.columns), "instant", "no")
    ensures df.rows == old(df.rows) && df.recency == old(df.recency)
  {
    df.Rename("instant", "no");
    r := df;
  }

  /** Lines 18-23, `create_hour_df`: the same relabelling, on whatever frame it is given. */
  method CreateHourDf(df: Frame) returns (r: Frame)
    modifies df
    ensures r == df
    ensures df.columns == Renamed(old(df.columns), "instant", "no")
    ensures df.rows == old(df.rows) && df.recency == old(df.recency)
  {
    df.Rename("instant", "no");
    r := df;
  }

  /** What the dashboard draws from the filtered table, lines 85-88, 98, 105, 216 and 278-322. */
  datatype Views = Views(
    rfm: map<int, SeasonRfm.Rfm>,
    rfm2: map<int, MonthRfm.Rfm>,
    season3: int,
    perSeason: map<int, int>,
    registeredPerMonth: map<int, int>,
    merged: map<int, MonthRfm.MonthTotals>,
    topRecency: seq<(int, int)>,
    topFrequency: seq<(int, MonthRfm.MonthTotals)>,
    topMonetary: seq<(int, MonthRfm.MonthTotals)>)

  /**
   How the things the dashboard draws relate, for the filtered rows `t`: the
   two summaries are those of `t`; the season-3 figure and the per-season
   totals are `rfm_df`'s `monetary`; the monthly totals of `registered` are
   `rfm2_df`'s `frequency`; the merged month frame has `rfm2_df`'s months,
   `frequency` and `monetary`; and the three lists passed to the top-five
   charts are the five months of `rfm2_df` with the smallest recency and with
   the largest `frequency` and `monetary`, each listed once with `rfm2_df`'s
   values, in the order `sort_values(...).head(5)` passes them to the chart.
   */
  ghost predicate Consistent(t: seq<Row>, v: Views)
  {
    && v.rfm == SeasonRfm.CreateRfm(t)
    && v.rfm2 == MonthRfm.MonthRfmOf(t)
    && v.season3 == (if 3 in v.rfm then v.rfm[3].monetary else 0)
    && v.perSeason == SeasonRfm.Monetary(v.rfm)
    && v.registeredPerMonth == MonthRfm.Frequency(v.rfm2)
    && v.merged.Keys == v.rfm2.Keys
    && (forall m | m in v.merged ::
          v.merged[m] == MonthRfm.MonthTotals(v.rfm2[m].frequency, v.rfm2[m].monetary))
    && MonthRfm.TopFiveByRecency(v.rfm2, v.topRecency)
    && MonthRfm.TopFiveByFrequency(v.rfm2, v.topFrequency)
    && MonthRfm.TopFiveByMonetary(v.rfm2, v.topMonetary)
  }

  /**
   Lines 85-88, 98, 105, 216 and 280-322: everything drawn from the filtered
   rows `t`, given the `recency` column line 279 adds to them.
   */
  method Summarise(t: seq<Row>, recency: seq<int>) returns (v: Views)
    requires recency == MonthRfm.RowRecency(t)
    ensures Consistent(t, v)
  {
    var rfm := SeasonRfm.CreateRfm(t);
    // Restating the binding as a fact keeps the verifier's search small.
    assert rfm == SeasonRfm.CreateRfm(t);
    var rfm2 := MonthRfm.CreateRfm2(t);
    var season3 := SeasonRfm.RentalsInSeason(t, 3);
    var perSeason := SeasonRfm.RentalsPerSeason(t);
    SeasonRfm.RentalsPerSeasonIsMonetary(t);
    var registeredPerMonth := MonthRfm.RegisteredPerMonth(t);
    MonthRfm.RegisteredPerMonthIsFrequency(t);

    var merged := MonthRfm.MergedMonthTotals(t);
    MonthRfm.MergedAgreesWithRfm2(t);
    var byMonth := MonthRfm.MinRecencyByMonth(t, recency);
    MonthRfm.MinRecencyAgreesWithRfm2(t);
    var topRecency := MonthRfm.TopRecency(byMonth);
    assert MonthRfm.TopFiveByRecency(rfm2, topRecency) by {
      MonthRfm.TopRecencyIsTopFive(rfm2, byMonth);
    }
    var topFrequency := MonthRfm.TopFrequency(merged);
    assert MonthRfm.TopFiveByFrequency(rfm2, topFrequency) by {
      MonthRfm.TopFrequencyIsTopFive(rfm2, merged);
    }
    var topMonetary := MonthRfm.TopMonetary(merged);
    assert MonthRfm.TopFiveByMonetary(rfm2, topMonetary) by {
      MonthRfm.TopMonetaryIsTopFive(rfm2, merged);
    }
    v := Views(rfm, rfm2, season3, perSeason, registeredPerMonth, merged, topRecency, topFrequency, topMonetary);
  }

  /**
   The data path of the script from the loaded frame and the chosen dates:
   the filter (lines 81-82), the two relabelling helpers (85-86), the
   `recency` column (279) and everything drawn from the filtered rows.

   `day_df` and `hour_df` are the filtered frame itself, relabelled once:
   the second relabelling finds no `instant` left. The summaries of lines
   87-88 are computed before line 279 in the script; they read only the
   rows, which adding the column leaves as they were.
   */
  method Dashboard(loaded: Frame, start: int, end: int) returns (day: Frame, hour: Frame, v: Views)
    ensures fresh(day) && day == hour
    ensures day.rows == FilterDates(loaded.rows, start, end)
    ensures var relabelled := Renamed(loaded.columns, "instant", "no");
      day.columns == if "recency" in relabelled then relabelled else relabelled + ["recency"]
    ensures day.recency == MonthRfm.RowRecency(day.rows)
    ensures Consistent(day.rows, v)
  {
    var mainDf := new Frame(loaded.columns, FilterDates(loaded.rows, start, end));
    day := CreateDayDf(mainDf);
    hour := CreateHourDf(mainDf);
    RenamedTwice(loaded.columns, "instant", "no");
    day.AddRecency();
    v := Summarise(day.rows, day.recency);
  }
}
