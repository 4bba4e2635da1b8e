/**
 The fixed window of app.py `preprocess_data` when the date column carries
 a time of day. The grouping key is the calendar date (`ds.dt.date`, turned
 back into midnight timestamps), but the master range runs from
 `max_date - 180 days` to `max_date` with the time of day of `max_date`.
 The rest of the model assumes date-only timestamps; this module shows what
 the code as written does otherwise, and the window it evidently intends.
 */
module Timestamps {
  import opened Results
  import opened Series
  import opened Aggregation
  import opened Padding
  import opened Regularity

  /** The second within a day, 0 at midnight. */
  type Second = s: int | 0 <= s < 86400

  /** A timestamp: a day number and the second within that day. */
  datatype Stamp = Stamp(day: int, second: Second)

  predicate NotBefore(a: Stamp, b: Stamp)
  {
    a.day > b.day || (a.day == b.day && a.second >= b.second)
  }

  /** A raw sale with its full timestamp. */
  datatype Sale = Sale(id: string, at: Stamp, y: real)

  /** A padded row whose `ds` is a full timestamp. */
  datatype TimedRow = TimedRow(id: string, at: Stamp, y: real)

  /** The rows keyed by calendar date, as `ds.dt.date` groups them. */
  function Dates(sales: seq<Sale>): (rows: seq<Row>)
    ensures |rows| == |sales|
    ensures forall i :: 0 <= i < |sales| ==> rows[i] == Row(sales[i].id, sales[i].at.day, sales[i].y)
  {
    seq(|sales|, i requires 0 <= i < |sales| => Row(sales[i].id, sales[i].at.day, sales[i].y))
  }

  /** `max()` of the timestamp column. */
  function Latest(sales: seq<Sale>): (m: Stamp)
    requires sales != []
    ensures exists i :: 0 <= i < |sales| && sales[i].at == m
    ensures forall i :: 0 <= i < |sales| ==> NotBefore(m, sales[i].at)
  {
    if |sales| == 1 then sales[0].at
    else
      var rest := Latest(sales[1..]);
      assert forall i :: 1 <= i < |sales| ==> sales[i] == sales[1..][i - 1];
      if NotBefore(sales[0].at, rest) then sales[0].at else rest
  }

  /** The last day holding a sale is the day of the latest timestamp. */
  lemma LatestDay(sales: seq<Sale>)
    requires sales != []
    ensures MaxDay(Dates(sales)) == Latest(sales).day
  {
  }

  /** `pd.date_range(start=max_date - 180 days, end=max_date, freq='D')`: 181 stamps one day
      apart that keep the time of day of `max_date`. */
  function MasterStamps(m: Stamp): (s: seq<Stamp>)
    ensures |s| == LookbackDays + 1
    ensures forall i :: 0 <= i < |s| ==> s[i] == Stamp(m.day - LookbackDays + i, m.second)
  {
    seq(LookbackDays + 1, i requires 0 <= i < LookbackDays + 1 => Stamp(m.day - LookbackDays + i, m.second))
  }

  /** One cell of `master_df.merge(uid_data, on='ds', how='left')` after `fillna(0)`: the
      grouped table's `ds` values are midnights, so a master stamp meets a group only when
      it is that group's midnight. */
  function MergeCell(daily: Daily, id: string, s: Stamp): (y: real)
    ensures s.second == 0 ==> y == Fill(daily, id, s.day)
    ensures s.second != 0 ==> y == 0.0
  {
    if s.second == 0 then Fill(daily, id, s.day) else 0.0
  }

  /** The window of one entity as app.py computes it. */
  function WindowAsWritten(sales: seq<Sale>, id: string): (w: seq<TimedRow>)
    requires sales != []
    ensures |w| == LookbackDays + 1
  {
    MergeWindow(Aggregate(Dates(sales)), id, Latest(sales))
  }

  /** The master range of `m` merged with the grouped table of one entity. */
  function MergeWindow(daily: Daily, id: string, m: Stamp): (w: seq<TimedRow>)
    ensures |w| == LookbackDays + 1
    ensures forall i :: 0 <= i < |w| ==>
      w[i].at == Stamp(m.day - LookbackDays + i, m.second) && w[i].y == MergeCell(daily, id, w[i].at)
  {
    var stamps := MasterStamps(m);
    seq(|stamps|, i requires 0 <= i < |stamps| => TimedRow(id, stamps[i], MergeCell(daily, id, stamps[i])))
  }

  /** As written, a latest timestamp past midnight zeroes the whole window: no master stamp
      equals a grouped midnight. */
  lemma AsWrittenLosesSales(sales: seq<Sale>, id: string)
    requires sales != []
    requires Latest(sales).second != 0
    ensures forall i :: 0 <= i < LookbackDays + 1 ==> WindowAsWritten(sales, id)[i].y == 0.0
  {
  }

  /** A master range at midnight meets every grouped day: the code as written gives the
      daily totals when the latest timestamp is a midnight. */
  lemma AsWrittenAtMidnight(rows: seq<Row>, id: string, m: Stamp)
    requires m.second == 0
    ensures forall i :: 0 <= i < LookbackDays + 1 ==>
      MergeWindow(Aggregate(rows), id, m)[i].y == DaySum(rows, id, m.day - LookbackDays + i)
  {
  }

  /** One sale of 5 at 10:00 on day 0: the last day of the window, day 0 itself, should read
      5 but the code as written reads 0. */
  lemma AsWrittenCounterexample(sales: seq<Sale>)
    requires sales == [Sale("A", Stamp(0, 36000), 5.0)]
    ensures WindowAsWritten(sales, "A")[LookbackDays].at.day == 0
    ensures WindowAsWritten(sales, "A")[LookbackDays].y == 0.0
    ensures DaySum(Dates(sales), "A", 0) == 5.0
  {
  }

  /** The intended window: `max_date` cut to its date first, so the master range consists
      of midnights and meets every grouped day. Each entity's window then holds the day
      totals of the 181 days ending on the latest date. */
  function PreprocessNormalized(sales: seq<Sale>): (r: Result<seq<Row>, PrepError>)
    ensures r.Failure? <==> sales == []
    ensures r.Success? ==> Ordered(r.value)
    ensures r.Success? ==> forall id :: id !in Ids(Dates(sales)) ==> RowsOf(r.value, id) == []
    ensures r.Success? ==> forall id :: id in Ids(Dates(sales)) ==>
      RowsOf(r.value, id) == DailySeries(Dates(sales), id, Latest(sales).day - LookbackDays, LookbackDays + 1)
  {
    if sales == [] then Failure(EmptyInput)
    else
      var rows := Dates(sales);
      LatestDay(sales);
      assert rows[0] in rows;
      PreprocessData(rows)
  }

  /** In the intended window nothing sold in the last 181 days is lost, whatever the time
      of day of the latest sale: the counterpart of `AsWrittenLosesSales`. */
  lemma NormalizedKeepsSales(sales: seq<Sale>, id: string)
    requires sales != [] && id in Ids(Dates(sales))
    ensures SumY(RowsOf(PreprocessNormalized(sales).value, id))
         == RangeSum(Dates(sales), id, Latest(sales).day - LookbackDays, Latest(sales).day + 1)
  {
    var rows, last := Dates(sales), Latest(sales).day;
    var series := DailySeries(rows, id, last - LookbackDays, LookbackDays + 1);
    NormalizedRows(sales, id);
    WindowSeriesSum(rows, id, last);
    assert SumY(RowsOf(PreprocessNormalized(sales).value, id)) == SumY(series);
  }

  /** One entity's rows in the normalised table, as a separate step so the sum above stays cheap. */
  lemma NormalizedRows(sales: seq<Sale>, id: string)
    requires sales != [] && id in Ids(Dates(sales))
    ensures RowsOf(PreprocessNormalized(sales).value, id)
         == DailySeries(Dates(sales), id, Latest(sales).day - LookbackDays, LookbackDays + 1)
  {
  }
}
