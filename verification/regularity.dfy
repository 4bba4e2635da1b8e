/**
 Consequences of gap filling: what a consumer of the padded table may rely on.
 */
module Regularity {
  import opened Results
  import opened Series
  import opened Aggregation
  import opened Padding

  /* ---------------------------------------------------------------------- */
  /* Row by row                                                             */
  /* ---------------------------------------------------------------------- */

  /** Every padded row belongs to an entity of the input and carries that entity's
      raw daily total for its day. */
  lemma {:induction false} RowsCarryDaySums(rows: seq<Row>, cal: Calendar)
    ensures var out := Regularize(rows, cal);
      forall i :: 0 <= i < |out| ==>
        out[i].id in Ids(rows) && out[i].y == DaySum(rows, out[i].id, out[i].day)
  {
    var out := Regularize(rows, cal);
    forall i | 0 <= i < |out|
      ensures out[i].id in Ids(rows) && out[i].y == DaySum(rows, out[i].id, out[i].day)
    {
      RowCarriesDaySum(rows, cal, out, out[i]);
    }
  }

  lemma RowCarriesDaySum(rows: seq<Row>, cal: Calendar, out: seq<Row>, x: Row)
    requires out == Regularize(rows, cal)
    requires x in out
    ensures x.id in Ids(rows) && x.y == DaySum(rows, x.id, x.day)
  {
    var s := RowsOf(out, x.id);
    assert x in s;
    assert x.id in Ids(rows);
    var (first, length) := SpanOf(rows, cal, x.id);
    InDailySeries(rows, x.id, first, length, x);
  }

  lemma InDailySeries(rows: seq<Row>, id: string, first: int, length: nat, x: Row)
    requires x in DailySeries(rows, id, first, length)
    ensures x.id == id && x.y == DaySum(rows, id, x.day)
  {
  }

  /** Gap filling: a padded day on which the entity had no raw row reads exactly 0. */
  lemma GapsAreZero(rows: seq<Row>, cal: Calendar)
    ensures var out := Regularize(rows, cal);
      forall i :: 0 <= i < |out| && (forall r :: r in rows ==> r.id != out[i].id || r.day != out[i].day) ==>
        out[i].y == 0.0
  {
    var out := Regularize(rows, cal);
    RowsCarryDaySums(rows, cal);
    forall i | 0 <= i < |out| && (forall r :: r in rows ==> r.id != out[i].id || r.day != out[i].day)
      ensures out[i].y == 0.0
    {
      DaySumAbsent(rows, out[i].id, out[i].day);
    }
  }

  /* ---------------------------------------------------------------------- */
  /* Conservation                                                           */
  /* ---------------------------------------------------------------------- */

  lemma {:induction false} RangeSumExtend(rows: seq<Row>, id: string, lo: int, mid: int)
    requires lo <= mid
    ensures RangeSum(rows, id, lo, mid + 1) == RangeSum(rows, id, lo, mid) + DaySum(rows, id, mid)
  {
    if rows != [] {
      RangeSumExtend(rows[1..], id, lo, mid);
    }
  }

  /** A regular series sums to the raw total of its entity over its days. */
  lemma {:induction false} DailySeriesSum(s: seq<Row>, rows: seq<Row>, id: string, first: int, length: nat)
    requires s == DailySeries(rows, id, first, length)
    ensures SumY(s) == RangeSum(rows, id, first, first + length)
    decreases length
  {
    if length == 0 {
      assert RangeSum(rows, id, first, first) == 0.0 by {
        RangeSumEmpty(rows, id, first);
      }
    } else {
      var init := s[..length - 1];
      assert s == init + [s[length - 1]];
      SumYConcat(init, [s[length - 1]]);
      DailySeriesSum(init, rows, id, first, length - 1);
      RangeSumExtend(rows, id, first, first + length - 1);
    }
  }

  lemma {:induction false} RangeSumEmpty(rows: seq<Row>, id: string, day: int)
    ensures RangeSum(rows, id, day, day) == 0.0
  {
    if rows != [] {
      RangeSumEmpty(rows[1..], id, day);
    }
  }

  /** When the range covers all of the entity's days, the range sum is its whole total. */
  lemma {:induction false} RangeSumCovers(rows: seq<Row>, id: string, lo: int, hi: int)
    requires forall r :: r in rows && r.id == id ==> lo <= r.day < hi
    ensures RangeSum(rows, id, lo, hi) == SumY(RowsOf(rows, id))
  {
    if rows != [] {
      RangeSumCovers(rows[1..], id, lo, hi);
      if rows[0].id == id {
        assert RowsOf(rows, id) == [rows[0]] + RowsOf(rows[1..], id);
        SumYConcat([rows[0]], RowsOf(rows[1..], id));
      } else {
        assert RowsOf(rows, id) == RowsOf(rows[1..], id);
      }
    }
  }

  /** Shared window: each entity's padded total is its raw total over the 181 window days;
      sales dated before the window are dropped, nothing else is lost or invented. */
  lemma WindowConservesSales(rows: seq<Row>, id: string)
    requires rows != [] && id in Ids(rows)
    ensures var out := PreprocessData(rows).value;
      SumY(RowsOf(out, id)) == RangeSum(rows, id, MaxDay(rows) - LookbackDays, MaxDay(rows) + 1)
  {
    assert RowsOf(PreprocessData(rows).value, id) == DailySeries(rows, id, MaxDay(rows) - LookbackDays, LookbackDays + 1);
    WindowSeriesSum(rows, id, MaxDay(rows));
  }

  /** The 181-day series ending on `last` sums to the raw total over those days. */
  lemma WindowSeriesSum(rows: seq<Row>, id: string, last: int)
    ensures SumY(DailySeries(rows, id, last - LookbackDays, LookbackDays + 1))
         == RangeSum(rows, id, last - LookbackDays, last + 1)
  {
    DailySeriesSum(DailySeries(rows, id, last - LookbackDays, LookbackDays + 1), rows, id, last - LookbackDays, LookbackDays + 1);
  }

  /** Own span: each entity's padded total equals its raw total. */
  lemma SpanConservesSales(rows: seq<Row>, id: string)
    requires rows != [] && id in Ids(rows)
    ensures SumY(RowsOf(DailySales(rows).value, id)) == SumY(RowsOf(rows, id))
  {
    assert RowsOf(DailySales(rows).value, id) == DailySeries(rows, id, FirstDay(rows, id), SpanLength(rows, id));
    SpanSeriesSum(rows, id);
  }

  lemma SpanSeriesSum(rows: seq<Row>, id: string)
    requires id in Ids(rows)
    ensures SumY(DailySeries(rows, id, FirstDay(rows, id), SpanLength(rows, id))) == SumY(RowsOf(rows, id))
  {
    DailySeriesSum(DailySeries(rows, id, FirstDay(rows, id), SpanLength(rows, id)), rows, id, FirstDay(rows, id), SpanLength(rows, id));
    SpanCovers(rows, id);
  }

  /** An entity's own span covers every one of its rows. */
  lemma SpanCovers(rows: seq<Row>, id: string)
    requires id in Ids(rows)
    ensures RangeSum(rows, id, FirstDay(rows, id), FirstDay(rows, id) + SpanLength(rows, id)) == SumY(RowsOf(rows, id))
  {
    var first, last := FirstDay(rows, id), LastDay(rows, id);
    forall r | r in rows && r.id == id ensures first <= r.day < last + 1 {
      var i :| 0 <= i < |rows| && rows[i] == r;
    }
    RangeSumCovers(rows, id, first, last + 1);
  }

  /* ---------------------------------------------------------------------- */
  /* The shared window                                                      */
  /* ---------------------------------------------------------------------- */

  /** An entity whose sales all predate the window still appears, with 181 zero days. */
  lemma StaleEntityIsAllZero(rows: seq<Row>, id: string)
    requires rows != [] && id in Ids(rows)
    requires forall r :: r in rows && r.id == id ==> r.day < MaxDay(rows) - LookbackDays
    ensures var s := RowsOf(PreprocessData(rows).value, id);
      |s| == LookbackDays + 1 && forall i :: 0 <= i < |s| ==> s[i].y == 0.0
  {
  }

  lemma {:induction false} DaySumIgnores(rows: seq<Row>, extra: seq<Row>, id: string, day: int)
    requires forall r :: r in extra ==> r.day < day
    ensures DaySum(rows + extra, id, day) == DaySum(rows, id, day)
  {
    DaySumConcat(rows, extra, id, day);
    DaySumAbsent(extra, id, day);
  }

  /** Two inputs with the same entities, the same latest day and the same daily totals on
      the window's days give the same padded table. */
  lemma WindowDeterminesOutput(a: seq<Row>, b: seq<Row>)
    requires a != [] && b != []
    requires Ids(a) == Ids(b)
    requires MaxDay(a) == MaxDay(b)
    requires forall id, day :: id in Ids(a) && MaxDay(a) - LookbackDays <= day <= MaxDay(a) ==>
      DaySum(a, id, day) == DaySum(b, id, day)
    ensures PreprocessData(a) == PreprocessData(b)
  {
    var first := MaxDay(a) - LookbackDays;
    AscendingUnique(SortedIds(a), SortedIds(b));
    PadAgrees(a, b, SortedIds(a), first, LookbackDays + 1);
    PreprocessIsPad(a);
    PreprocessIsPad(b);
  }

  lemma {:induction false} PadAgrees(a: seq<Row>, b: seq<Row>, ids: seq<string>, first: int, length: nat)
    requires forall x :: x in ids ==> x in Ids(a) && x in Ids(b)
    requires forall id, day :: id in ids && first <= day < first + length ==>
      DaySum(a, id, day) == DaySum(b, id, day)
    ensures Pad(a, Aggregate(a), ids, SharedWindow(first, length))
         == Pad(b, Aggregate(b), ids, SharedWindow(first, length))
  {
    if ids != [] {
      var wa := Window(Aggregate(a), ids[0], first, length);
      var wb := Window(Aggregate(b), ids[0], first, length);
      assert forall i :: 0 <= i < length ==> wa[i] == wb[i];
      assert wa == wb;
      PadAgrees(a, b, ids[1..], first, length);
    }
  }

  /** Rows dated before the window, for entities already present, leave the table unchanged. */
  lemma OldRowsIgnored(rows: seq<Row>, extra: seq<Row>)
    requires rows != []
    requires forall r :: r in extra ==> r.id in Ids(rows) && r.day < MaxDay(rows) - LookbackDays
    ensures PreprocessData(rows + extra) == PreprocessData(rows)
  {
    var all := rows + extra;
    assert Ids(all) == Ids(rows) by {
      assert forall r :: r in all <==> r in rows || r in extra;
    }
    assert MaxDay(all) == MaxDay(rows) by {
      assert forall r :: r in all <==> r in rows || r in extra;
      var m := MaxDay(all);
      assert exists r :: r in rows && r.day == MaxDay(rows);
    }
    forall id, day | id in Ids(all) && MaxDay(all) - LookbackDays <= day <= MaxDay(all)
      ensures DaySum(all, id, day) == DaySum(rows, id, day)
    {
      DaySumIgnores(rows, extra, id, day);
    }
    WindowDeterminesOutput(all, rows);
  }

  /* ---------------------------------------------------------------------- */
  /* A worked case                                                          */
  /* ---------------------------------------------------------------------- */

  /** With a single entity the padded table is exactly that entity's regular series. */
  lemma SingleEntity(rows: seq<Row>, cal: Calendar, id: string)
    requires Ids(rows) == {id}
    ensures Regularize(rows, cal) == DailySeries(rows, id, SpanOf(rows, cal, id).0, SpanOf(rows, cal, id).1)
  {
    var out := Regularize(rows, cal);
    forall x | x in out ensures x.id == id {
      RowCarriesDaySum(rows, cal, out, x);
    }
    RowsOfOnly(out, id);
  }

  /** Entity A with (day 1, 10), (day 1, 15), (day 3, 5): its own span gives
      (1, 25), (2, 0), (3, 5). */
  lemma OwnSpanExample(rows: seq<Row>)
    requires rows == [Row("A", 1, 10.0), Row("A", 1, 15.0), Row("A", 3, 5.0)]
    ensures DailySales(rows) == Success([Row("A", 1, 25.0), Row("A", 2, 0.0), Row("A", 3, 5.0)])
  {
    ExampleSpan(rows);
    assert SpanOf(rows, OwnSpan, "A") == (1, 3);
    SingleEntity(rows, OwnSpan, "A");
    ExampleSeries(rows);
  }

  lemma ExampleSeries(rows: seq<Row>)
    requires rows == [Row("A", 1, 10.0), Row("A", 1, 15.0), Row("A", 3, 5.0)]
    ensures DailySeries(rows, "A", 1, 3) == [Row("A", 1, 25.0), Row("A", 2, 0.0), Row("A", 3, 5.0)]
  {
    ExampleSums(rows);
    var series := DailySeries(rows, "A", 1, 3);
    assert series[0] == Row("A", 1, 25.0) && series[1] == Row("A", 2, 0.0) && series[2] == Row("A", 3, 5.0);
  }

  lemma ExampleSpan(rows: seq<Row>)
    requires rows == [Row("A", 1, 10.0), Row("A", 1, 15.0), Row("A", 3, 5.0)]
    ensures Ids(rows) == {"A"} && FirstDay(rows, "A") == 1 && LastDay(rows, "A") == 3
  {
    IdsCons(rows);
    IdsCons(rows[1..]);
    IdsCons(rows[2..]);
    assert rows[2..][1..] == [];
  }

  lemma ExampleSums(rows: seq<Row>)
    requires rows == [Row("A", 1, 10.0), Row("A", 1, 15.0), Row("A", 3, 5.0)]
    ensures DaySum(rows, "A", 1) == 25.0 && DaySum(rows, "A", 2) == 0.0 && DaySum(rows, "A", 3) == 5.0
  {
    var r1 := rows[1..];
    var r2 := r1[1..];
    var r3: seq<Row> := [];
    assert r1 == [Row("A", 1, 15.0), Row("A", 3, 5.0)];
    assert r2 == [Row("A", 3, 5.0)] && r2[1..] == r3;
    assert DaySum(r3, "A", 1) == 0.0 && DaySum(r3, "A", 2) == 0.0 && DaySum(r3, "A", 3) == 0.0;
    assert DaySum(r2, "A", 1) == 0.0 && DaySum(r2, "A", 2) == 0.0 && DaySum(r2, "A", 3) == 5.0;
    assert DaySum(r1, "A", 1) == 15.0 && DaySum(r1, "A", 2) == 0.0 && DaySum(r1, "A", 3) == 5.0;
  }
}
