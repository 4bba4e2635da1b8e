/**
 The sales table after column renaming: one row per raw record, with the
 entity id (`unique_id`), the calendar day (`ds`, time of day already
 discarded, as a day number) and the value (`y`). This module holds the
 reference sums every later stage is measured against, and the
 `(unique_id, ds)` ordering that `sort_values` produces.
 */
module Series {
  import opened Text

  datatype Row = Row(id: string, day: int, y: real)

  /** The entity ids present, as `df['unique_id'].unique()` collects them. */
  function Ids(rows: seq<Row>): set<string>
  {
    set r {:trigger r in rows} | r in rows :: r.id
  }

  /** The ids of a non-empty table: the first row's and those of the rest. */
  lemma IdsCons(rows: seq<Row>)
    requires rows != []
    ensures Ids(rows) == {rows[0].id} + Ids(rows[1..])
  {
    assert rows[0] in rows;
    forall y | y in Ids(rows) ensures y == rows[0].id || y in Ids(rows[1..]) {
      var q :| q in rows && q.id == y;
      if q != rows[0] {
        assert q in rows[1..];
      }
    }
    forall y | y in Ids(rows[1..]) ensures y in Ids(rows) {
      var q :| q in rows[1..] && q.id == y;
      assert q in rows;
    }
  }

  /** Reference daily total: the sum of `y` over the rows of `id` dated `day`. */
  function DaySum(rows: seq<Row>, id: string, day: int): real
  {
    if rows == [] then 0.0
    else (if rows[0].id == id && rows[0].day == day then rows[0].y else 0.0) + DaySum(rows[1..], id, day)
  }

  /** Sum of `y` over the rows of `id` dated in `[lo, hi)`. */
  function RangeSum(rows: seq<Row>, id: string, lo: int, hi: int): real
  {
    if rows == [] then 0.0
    else (if rows[0].id == id && lo <= rows[0].day < hi then rows[0].y else 0.0) + RangeSum(rows[1..], id, lo, hi)
  }

  /** Sum of `y` over every row. */
  function SumY(rows: seq<Row>): real
  {
    if rows == [] then 0.0 else rows[0].y + SumY(rows[1..])
  }

  /** The rows of one entity, in their original order: `df[df['unique_id'] == id]`. */
  function RowsOf(rows: seq<Row>, id: string): (s: seq<Row>)
    ensures |s| <= |rows|
    ensures forall x {:trigger x in s} :: x in s ==> x in rows && x.id == id
    ensures forall x {:trigger x in rows} :: x in rows && x.id == id ==> x in s
  {
    if rows == [] then []
    else
      var rest := RowsOf(rows[1..], id);
      assert forall x {:trigger x in rows} :: x in rows ==> x == rows[0] || x in rows[1..];
      (if rows[0].id == id then [rows[0]] else []) + rest
  }

  lemma {:induction false} DaySumAbsent(rows: seq<Row>, id: string, day: int)
    requires forall r :: r in rows ==> r.id != id || r.day != day
    ensures DaySum(rows, id, day) == 0.0
  {
    if rows != [] {
      DaySumAbsent(rows[1..], id, day);
    }
  }

  lemma {:induction false} DaySumConcat(a: seq<Row>, b: seq<Row>, id: string, day: int)
    ensures DaySum(a + b, id, day) == DaySum(a, id, day) + DaySum(b, id, day)
  {
    if a == [] {
      assert a + b == b;
    } else {
      assert (a + b)[1..] == a[1..] + b;
      DaySumConcat(a[1..], b, id, day);
    }
  }

  lemma {:induction false} RowsOfConcat(a: seq<Row>, b: seq<Row>, id: string)
    ensures RowsOf(a + b, id) == RowsOf(a, id) + RowsOf(b, id)
  {
    if a == [] {
      assert a + b == b;
    } else {
      var head := if a[0].id == id then [a[0]] else [];
      assert (a + b)[0] == a[0];
      assert (a + b)[1..] == a[1..] + b;
      RowsOfConcat(a[1..], b, id);
      assert RowsOf(a + b, id) == head + (RowsOf(a[1..], id) + RowsOf(b, id));
      assert RowsOf(a, id) == head + RowsOf(a[1..], id);
    }
  }

  lemma {:induction false} RowsOfOnly(s: seq<Row>, id: string)
    requires forall x :: x in s ==> x.id == id
    ensures RowsOf(s, id) == s
  {
    if s != [] {
      RowsOfOnly(s[1..], id);
    }
  }

  lemma {:induction false} RowsOfNone(s: seq<Row>, id: string)
    requires forall x :: x in s ==> x.id != id
    ensures RowsOf(s, id) == []
  {
    if s != [] {
      RowsOfNone(s[1..], id);
    }
  }

  lemma {:induction false} SumYConcat(a: seq<Row>, b: seq<Row>)
    ensures SumY(a + b) == SumY(a) + SumY(b)
  {
    if a == [] {
      assert a + b == b;
    } else {
      assert (a + b)[1..] == a[1..] + b;
      SumYConcat(a[1..], b);
    }
  }

  /* ---------------------------------------------------------------------- */
  /* The `sort_values(['unique_id', 'ds'])` order                           */
  /* ---------------------------------------------------------------------- */

  predicate Precedes(a: Row, b: Row)
  {
    Below(a.id, b.id) || (a.id == b.id && a.day < b.day)
  }

  /** Strictly ascending by `(unique_id, ds)`, hence at most one row per key. */
  predicate Ordered(rows: seq<Row>)
  {
    forall i, j :: 0 <= i < j < |rows| ==> Precedes(rows[i], rows[j])
  }

  lemma OrderedConcat(a: seq<Row>, b: seq<Row>)
    requires Ordered(a) && Ordered(b)
    requires forall x, y :: x in a && y in b ==> Precedes(x, y)
    ensures Ordered(a + b)
  {
  }

  /** An ordered table never holds two rows for the same `(unique_id, ds)`. */
  lemma OrderedKeysDistinct(rows: seq<Row>)
    requires Ordered(rows)
    ensures forall i, j :: 0 <= i < j < |rows| ==> rows[i].id != rows[j].id || rows[i].day != rows[j].day
  {
    forall i, j | 0 <= i < j < |rows|
      ensures rows[i].id != rows[j].id || rows[i].day != rows[j].day
    {
      if rows[i].id == rows[j].id {
        BelowIrreflexive(rows[i].id);
      }
    }
  }
}
