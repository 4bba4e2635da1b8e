/**
 Gap filling. Every entity's aggregated daily sums are laid onto a complete,
 contiguous daily calendar, with 0 on the days that had no sales. Two
 calendars occur:
 - the shared window of `preprocess_data` (app.py): the 181 days
   `[max day - 180, max day]`, where the max is over ALL entities;
 - each entity's own span of `resample('D')` (anomaly_detection.py):
   from its first to its last day.
 Both sources finish with `sort_values(['unique_id', 'ds'])`; since keys are
 unique after padding, that order is unique, and the model builds the table
 directly in it: entity blocks in ascending id order, days ascending.
 */
module Padding {
  import opened Results
  import opened Text
  import opened Series
  import opened Aggregation

  /* ---------------------------------------------------------------------- */
  /* The entities, in `unique_id` order                                     */
  /* ---------------------------------------------------------------------- */

  /** Inserts an id into an ascending list of distinct ids; one already there is kept once. */
  function InsertId(ids: seq<string>, x: string): (r: seq<string>)
    requires StrictlyAscending(ids)
    ensures StrictlyAscending(r)
    ensures forall y :: y in r <==> y in ids || y == x
  {
    if ids == [] then [x]
    else if x == ids[0] then ids
    else if Below(x, ids[0]) then
      forall j | 0 <= j < |ids| ensures Below(x, ids[j]) {
        if j > 0 { BelowTransitive(x, ids[0], ids[j]); }
      }
      [x] + ids
    else
      var rest := InsertId(ids[1..], x);
      BelowTotal(x, ids[0]);
      forall j | 0 <= j < |rest| ensures Below(ids[0], rest[j]) {
        assert rest[j] in rest;
        if rest[j] != x {
          var k :| 1 <= k < |ids| && ids[k] == rest[j];
        }
      }
      [ids[0]] + rest
  }

  function InsertIds(acc: seq<string>, rows: seq<Row>): (r: seq<string>)
    requires StrictlyAscending(acc)
    ensures StrictlyAscending(r)
    ensures forall y :: y in r <==> y in acc || y in Ids(rows)
    decreases |rows|
  {
    if rows == [] then acc
    else
      var r := InsertIds(InsertId(acc, rows[0].id), rows[1..]);
      IdsCons(rows);
      r
  }

  /** `sorted(df['unique_id'].unique())`: every entity once, in ascending order. */
  function SortedIds(rows: seq<Row>): (ids: seq<string>)
    ensures StrictlyAscending(ids)
    ensures forall y :: y in ids <==> y in Ids(rows)
  {
    InsertIds([], rows)
  }

  /** Two ascending lists of distinct ids with the same members are the same list. */
  lemma AscendingHeadFirst(a: seq<string>, y: string)
    requires StrictlyAscending(a)
    ensures y in a && y != a[0] ==> Below(a[0], y)
  {
  }

  lemma {:induction false} AscendingUnique(a: seq<string>, b: seq<string>)
    requires StrictlyAscending(a) && StrictlyAscending(b)
    requires forall y :: y in a <==> y in b
    ensures a == b
    decreases |a|
  {
    assert a != [] ==> a[0] in a;
    assert b != [] ==> b[0] in b;
    if a != [] && b != [] {
      AscendingHeadFirst(a, b[0]);
      AscendingHeadFirst(b, a[0]);
      BelowNotBoth(a[0], b[0]);
      assert a[0] == b[0];
      BelowIrreflexive(a[0]);
      forall y ensures y in a[1..] <==> y in b[1..] {
        AscendingHeadFirst(a, y);
        AscendingHeadFirst(b, y);
        assert y in a[1..] <==> y in a && y != a[0];
        assert y in b[1..] <==> y in b && y != b[0];
      }
      AscendingUnique(a[1..], b[1..]);
      assert a == [a[0]] + a[1..] && b == [b[0]] + b[1..];
    }
  }

  /* ---------------------------------------------------------------------- */
  /* Day bounds                                                             */
  /* ---------------------------------------------------------------------- */

  /** `df['ds'].max()` over all entities. */
  function MaxDay(rows: seq<Row>): (d: int)
    requires rows != []
    ensures exists i :: 0 <= i < |rows| && rows[i].day == d
    ensures forall i :: 0 <= i < |rows| ==> rows[i].day <= d
  {
    if |rows| == 1 then rows[0].day
    else
      var m := MaxDay(rows[1..]);
      if rows[0].day >= m then rows[0].day else m
  }

  /** The first day on which entity `id` has a row. */
  function FirstDay(rows: seq<Row>, id: string): (d: int)
    requires id in Ids(rows)
    ensures exists i :: 0 <= i < |rows| && rows[i].id == id && rows[i].day == d
    ensures forall i :: 0 <= i < |rows| && rows[i].id == id ==> d <= rows[i].day
  {
    IdsCons(rows);
    assert forall i :: 1 <= i < |rows| ==> rows[i] == rows[1..][i - 1] && rows[1..][i - 1] in rows[1..];
    if rows[0].id == id then
      if id in Ids(rows[1..]) then
        var m := FirstDay(rows[1..], id);
        if rows[0].day <= m then rows[0].day else m
      else rows[0].day
    else FirstDay(rows[1..], id)
  }

  /** The last day on which entity `id` has a row. */
  function LastDay(rows: seq<Row>, id: string): (d: int)
    requires id in Ids(rows)
    ensures exists i :: 0 <= i < |rows| && rows[i].id == id && rows[i].day == d
    ensures forall i :: 0 <= i < |rows| && rows[i].id == id ==> rows[i].day <= d
  {
    IdsCons(rows);
    assert forall i :: 1 <= i < |rows| ==> rows[i] == rows[1..][i - 1] && rows[1..][i - 1] in rows[1..];
    if rows[0].id == id then
      if id in Ids(rows[1..]) then
        var m := LastDay(rows[1..], id);
        if rows[0].day >= m then rows[0].day else m
      else rows[0].day
    else LastDay(rows[1..], id)
  }

  /* ---------------------------------------------------------------------- */
  /* Padding                                                                */
  /* ---------------------------------------------------------------------- */

  /** The number of days from entity `id`'s first day to its last, both included. */
  function SpanLength(rows: seq<Row>, id: string): (n: nat)
    requires id in Ids(rows)
    ensures FirstDay(rows, id) + n - 1 == LastDay(rows, id)
  {
    LastDay(rows, id) - FirstDay(rows, id) + 1
  }

  /** Which daily calendar each entity is laid onto. */
  datatype Calendar =
    | SharedWindow(first: int, length: nat)  // the same days for every entity
    | OwnSpan                                // each entity from its first to its last day

  /** The first day and the number of days of `id`'s calendar. */
  function SpanOf(rows: seq<Row>, cal: Calendar, id: string): (int, nat)
    requires id in Ids(rows)
  {
    match cal
    case SharedWindow(first, length) => (first, length)
    case OwnSpan => (FirstDay(rows, id), SpanLength(rows, id))
  }

  /** Reference regular series: `length` consecutive days from `first`, each carrying
      the raw daily total of entity `id`. */
  function DailySeries(rows: seq<Row>, id: string, first: int, length: nat): (s: seq<Row>)
    ensures |s| == length
    ensures forall i :: 0 <= i < length ==> s[i] == Row(id, first + i, DaySum(rows, id, first + i))
  {
    seq(length, i requires 0 <= i < length => Row(id, first + i, DaySum(rows, id, first + i)))
  }

  /** The left merge of a calendar with one entity's groups, `unique_id` set and gaps `fillna(0)`. */
  function Window(daily: Daily, id: string, first: int, length: nat): (w: seq<Row>)
    ensures |w| == length
    ensures forall i :: 0 <= i < length ==> w[i].id == id && w[i].day == first + i
    ensures forall i :: 0 <= i < length ==> w[i].y == Fill(daily, id, first + i)
  {
    seq(length, i requires 0 <= i < length => Row(id, first + i, Fill(daily, id, first + i)))
  }

  /** The padded blocks of the given entities, concatenated in the order given: every row
      belongs to one of them. */
  function Pad(rows: seq<Row>, daily: Daily, ids: seq<string>, cal: Calendar): (out: seq<Row>)
    requires forall x :: x in ids ==> x in Ids(rows)
    ensures forall r {:trigger r in out} :: r in out ==> r.id in ids
  {
    if ids == [] then []
    else
      var (first, length) := SpanOf(rows, cal, ids[0]);
      var w := Window(daily, ids[0], first, length);
      var rest := Pad(rows, daily, ids[1..], cal);
      assert forall r {:trigger r in w + rest} :: r in w + rest ==> r in w || r in rest;
      assert forall r {:trigger r in w} :: r in w ==> r.id == ids[0];
      assert forall r {:trigger r in rest} :: r in rest ==> r.id in ids;
      w + rest
  }

  /** Aggregates, pads every entity onto its calendar and orders by `(unique_id, ds)`. */
  function Regularize(rows: seq<Row>, cal: Calendar): (out: seq<Row>)
    ensures Ordered(out)
    ensures forall id :: id !in Ids(rows) ==> RowsOf(out, id) == []
    ensures forall id :: id in Ids(rows) ==>
      RowsOf(out, id) == DailySeries(rows, id, SpanOf(rows, cal, id).0, SpanOf(rows, cal, id).1)
  {
    var daily := Aggregate(rows);
    var ids := SortedIds(rows);
    var out := Pad(rows, daily, ids, cal);
    PadOrdered(rows, daily, ids, cal);
    forall id | id in Ids(rows)
      ensures RowsOf(out, id) == DailySeries(rows, id, SpanOf(rows, cal, id).0, SpanOf(rows, cal, id).1)
    {
      PadRowsOf(rows, daily, ids, cal, id);
      WindowIsDailySeries(rows, daily, id, SpanOf(rows, cal, id).0, SpanOf(rows, cal, id).1);
    }
    forall id | id !in Ids(rows) ensures RowsOf(out, id) == [] {
      PadRowsOf(rows, daily, ids, cal, id);
    }
    out
  }

  lemma WindowIsDailySeries(rows: seq<Row>, daily: Daily, id: string, first: int, length: nat)
    requires daily == Aggregate(rows)
    ensures Window(daily, id, first, length) == DailySeries(rows, id, first, length)
  {
  }

  lemma WindowOrdered(daily: Daily, id: string, first: int, length: nat)
    ensures Ordered(Window(daily, id, first, length))
  {
  }

  lemma {:induction false} PadOrdered(rows: seq<Row>, daily: Daily, ids: seq<string>, cal: Calendar)
    requires forall x :: x in ids ==> x in Ids(rows)
    requires StrictlyAscending(ids)
    ensures Ordered(Pad(rows, daily, ids, cal))
  {
    if ids != [] {
      var (first, length) := SpanOf(rows, cal, ids[0]);
      var w := Window(daily, ids[0], first, length);
      var rest := Pad(rows, daily, ids[1..], cal);
      PadOrdered(rows, daily, ids[1..], cal);
      WindowOrdered(daily, ids[0], first, length);
      forall x, y | x in w && y in rest ensures Precedes(x, y) {
        var j :| 1 <= j < |ids| && ids[j] == y.id;
      }
      OrderedConcat(w, rest);
    }
  }

  /** Entity `id`'s rows in the padded table are exactly its own window. */
  lemma {:induction false} PadRowsOf(rows: seq<Row>, daily: Daily, ids: seq<string>, cal: Calendar, id: string)
    requires forall x :: x in ids ==> x in Ids(rows)
    requires StrictlyAscending(ids)
    ensures id !in ids ==> RowsOf(Pad(rows, daily, ids, cal), id) == []
    ensures id in ids ==>
      RowsOf(Pad(rows, daily, ids, cal), id) == Window(daily, id, SpanOf(rows, cal, id).0, SpanOf(rows, cal, id).1)
  {
    if ids != [] {
      var (first, length) := SpanOf(rows, cal, ids[0]);
      var w := Window(daily, ids[0], first, length);
      var rest := Pad(rows, daily, ids[1..], cal);
      RowsOfConcat(w, rest, id);
      PadRowsOf(rows, daily, ids[1..], cal, id);
      if id == ids[0] {
        RowsOfOnly(w, id);
        assert id !in ids[1..] by {
          if id in ids[1..] {
            var j :| 1 <= j < |ids| && ids[j] == id;
            BelowIrreflexive(id);
          }
        }
        assert RowsOf(rest, id) == [];
        assert w + [] == w;
      } else {
        RowsOfNone(w, id);
        assert [] + RowsOf(rest, id) == RowsOf(rest, id);
      }
    }
  }

  /* ---------------------------------------------------------------------- */
  /* The two entry points                                                   */
  /* ---------------------------------------------------------------------- */

  /** Days before the latest day that the shared window reaches back. */
  const LookbackDays: nat := 180

  /** Raised by pandas on an empty table: `max()` gives NaT and `date_range` or `concat` refuses it. */
  datatype PrepError = EmptyInput

  /** `preprocess_data` (app.py): every entity on the shared window
      `[max day - 180, max day]`, where the max day is taken over all entities. */
  function PreprocessData(rows: seq<Row>): (r: Result<seq<Row>, PrepError>)
    ensures r.Failure? <==> rows == []
    ensures r.Success? ==> Ordered(r.value)
    ensures r.Success? ==> forall id :: id !in Ids(rows) ==> RowsOf(r.value, id) == []
    ensures r.Success? ==> forall id :: id in Ids(rows) ==>
      RowsOf(r.value, id) == DailySeries(rows, id, MaxDay(rows) - LookbackDays, LookbackDays + 1)
  {
    if rows == [] then Failure(EmptyInput)
    else Success(Regularize(rows, SharedWindow(MaxDay(rows) - LookbackDays, LookbackDays + 1)))
  }

  /** The shared-window table unfolded: the padded blocks of the sorted entities. */
  lemma PreprocessIsPad(rows: seq<Row>)
    requires rows != []
    ensures PreprocessData(rows)
         == Success(Pad(rows, Aggregate(rows), SortedIds(rows), SharedWindow(MaxDay(rows) - LookbackDays, LookbackDays + 1)))
  {
  }

  /** The daily table of anomaly_detection.py: every entity resampled daily from
      its own first day to its own last day. */
  function DailySales(rows: seq<Row>): (r: Result<seq<Row>, PrepError>)
    ensures r.Failure? <==> rows == []
    ensures r.Success? ==> Ordered(r.value)
    ensures r.Success? ==> forall id :: id !in Ids(rows) ==> RowsOf(r.value, id) == []
    ensures r.Success? ==> forall id :: id in Ids(rows) ==>
      RowsOf(r.value, id) == DailySeries(rows, id, FirstDay(rows, id), SpanLength(rows, id))
  {
    if rows == [] then Failure(EmptyInput)
    else Success(Regularize(rows, OwnSpan))
  }
}
