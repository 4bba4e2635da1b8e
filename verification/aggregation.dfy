/**
 Daily aggregation: `groupby(['unique_id', ds.dt.date]).agg({'y': 'sum'})`
 (app.py and anomaly_detection.py). The grouped table has exactly one
 entry per `(unique_id, day)` present in the input, so it is modelled as a
 map from that key to the group's sum.
 */
module Aggregation {
  import opened Series

  type Key = (string, int)

  /** The grouped daily sales table. */
  type Daily = map<Key, real>

  /** The keys present in the raw rows. */
  function KeysOf(rows: seq<Row>): set<Key>
  {
    set r {:trigger r in rows} | r in rows :: (r.id, r.day)
  }

  /** A cell after the left merge and `fillna(0)`: the group's sum, or 0 where no group exists. */
  function Fill(daily: Daily, id: string, day: int): real
  {
    if (id, day) in daily then daily[(id, day)] else 0.0
  }

  /** Folds the rows into the running group sums, in input order. */
  function Accumulate(acc: Daily, rows: seq<Row>): (r: Daily)
    ensures r.Keys == acc.Keys + KeysOf(rows)
    ensures forall id, day :: Fill(r, id, day) == Fill(acc, id, day) + DaySum(rows, id, day)
    decreases |rows|
  {
    if rows == [] then acc
    else
      var x := rows[0];
      var acc' := acc[(x.id, x.day) := Fill(acc, x.id, x.day) + x.y];
      var r := Accumulate(acc', rows[1..]);
      assert KeysOf(rows) == {(x.id, x.day)} + KeysOf(rows[1..]) by {
        assert x in rows;
        forall k | k in KeysOf(rows) ensures k == (x.id, x.day) || k in KeysOf(rows[1..]) {
          var q :| q in rows && k == (q.id, q.day);
          if q != x {
            assert q in rows[1..];
          }
        }
        forall k | k in KeysOf(rows[1..]) ensures k in KeysOf(rows) {
          var q :| q in rows[1..] && k == (q.id, q.day);
          assert q in rows;
        }
      }
      r
  }

  /** One group per `(unique_id, day)` present in the input, holding the sum of its `y`. */
  function Aggregate(rows: seq<Row>): (daily: Daily)
    ensures daily.Keys == KeysOf(rows)
    ensures forall id, day :: Fill(daily, id, day) == DaySum(rows, id, day)
  {
    Accumulate(map[], rows)
  }

  /** A day with no raw row reads 0 after `fillna(0)`. */
  lemma FillAbsent(rows: seq<Row>, id: string, day: int)
    requires forall r :: r in rows ==> r.id != id || r.day != day
    ensures Fill(Aggregate(rows), id, day) == 0.0
  {
  }
}
