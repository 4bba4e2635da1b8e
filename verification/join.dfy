/**
 Joining the service's anomaly table back onto the padded series on
 `(unique_id, ds)`: the left merge of anomaly_detection.py, the inner merge
 of app.py, and the column naming that `suffixes=('', '_anomaly')` and the
 `y_anomaly` -> `y` rename produce.
 */
module Join {
  import opened Results
  import opened Series

  /** One row of the service's anomaly table. The bounds are the interval columns
      the dashboard reads as upper and lower bound; `y` is the service's own copy
      of the value, when it sends one. */
  datatype AnomalyRecord = AnomalyRecord(id: string, day: int, y: Option<real>, anomaly: bool, lower: real, upper: real)

  /** A merged row: the base row and the service row it was matched with, if any.
      The merged `y` column is always the base row's `y`. */
  datatype Merged = Merged(base: Row, found: Option<AnomalyRecord>)

  /** The service rows for one key, in service order. */
  function MatchesOf(svc: seq<AnomalyRecord>, id: string, day: int): (m: seq<AnomalyRecord>)
    ensures forall a {:trigger a in m} :: a in m ==> a in svc && a.id == id && a.day == day
    ensures forall a {:trigger a in svc} :: a in svc && a.id == id && a.day == day ==> a in m
  {
    if svc == [] then []
    else
      var rest := MatchesOf(svc[1..], id, day);
      assert forall a {:trigger a in svc} :: a in svc ==> a == svc[0] || a in svc[1..];
      (if svc[0].id == id && svc[0].day == day then [svc[0]] else []) + rest
  }

  /** One merged row per matching service row. */
  function Pairs(b: Row, ms: seq<AnomalyRecord>): (out: seq<Merged>)
    ensures |out| == |ms|
    ensures forall i :: 0 <= i < |ms| ==> out[i] == Merged(b, Some(ms[i]))
  {
    seq(|ms|, i requires 0 <= i < |ms| => Merged(b, Some(ms[i])))
  }

  /** The left merge's rows for one base row: one per match, or one with empty service
      fields. */
  function JoinHead(b: Row, svc: seq<AnomalyRecord>): (h: seq<Merged>)
    ensures |h| >= 1
    ensures forall i :: 0 <= i < |h| ==> h[i].base == b
  {
    var ms := MatchesOf(svc, b.id, b.day);
    if ms == [] then [Merged(b, None)] else Pairs(b, ms)
  }

  /** `merge(how='left')`: each base row once per match, or once with empty service fields.
      Whatever the service returns, every base row appears and no other row does. */
  function LeftJoin(base: seq<Row>, svc: seq<AnomalyRecord>): (out: seq<Merged>)
    ensures |out| >= |base|
    ensures forall b {:trigger b in base} :: b in base ==> exists m {:trigger m in out} :: m in out && m.base == b
    ensures forall m {:trigger m in out} :: m in out ==> m.base in base
  {
    if base == [] then []
    else
      var head := JoinHead(base[0], svc);
      var rest := LeftJoin(base[1..], svc);
      assert forall b {:trigger b in base} :: b in base ==> exists m {:trigger m in head + rest} :: m in head + rest && m.base == b by {
        forall b | b in base ensures exists m {:trigger m in head + rest} :: m in head + rest && m.base == b {
          if b == base[0] {
            assert head[0] in head + rest;
          } else {
            assert b in base[1..];
            var m :| m in rest && m.base == b;
            assert m in head + rest;
          }
        }
      }
      assert forall m {:trigger m in head + rest} :: m in head + rest ==> m in head || m in rest;
      assert forall m {:trigger m in head} :: m in head ==> m.base == base[0];
      head + rest
  }

  /** `merge(how='inner')`: each base row once per match; unmatched base rows are dropped,
      so the inner merge is the left merge without its unmatched rows. */
  function InnerJoin(base: seq<Row>, svc: seq<AnomalyRecord>): (r: seq<Merged>)
    ensures r == Matched(LeftJoin(base, svc))
  {
    if base == [] then []
    else
      var ms := MatchesOf(svc, base[0].id, base[0].day);
      MatchedConcat(JoinHead(base[0], svc), LeftJoin(base[1..], svc));
      PairsAllMatched(base[0], ms);
      Pairs(base[0], ms) + InnerJoin(base[1..], svc)
  }

  /** The service returned at most one row per `(unique_id, ds)`. */
  predicate UniqueKeys(svc: seq<AnomalyRecord>)
  {
    forall i, j :: 0 <= i < j < |svc| ==> svc[i].id != svc[j].id || svc[i].day != svc[j].day
  }

  /** The merged rows that found a service row. */
  function Matched(ms: seq<Merged>): (r: seq<Merged>)
    ensures forall m {:trigger m in r} :: m in r ==> m in ms && m.found.Some?
    ensures forall m {:trigger m in ms} :: m in ms && m.found.Some? ==> m in r
  {
    if ms == [] then []
    else
      var rest := Matched(ms[1..]);
      assert forall m {:trigger m in ms} :: m in ms ==> m == ms[0] || m in ms[1..];
      (if ms[0].found.Some? then [ms[0]] else []) + rest
  }

  lemma {:induction false} MatchedConcat(a: seq<Merged>, b: seq<Merged>)
    ensures Matched(a + b) == Matched(a) + Matched(b)
  {
    if a == [] {
      assert a + b == b;
    } else {
      var head := if a[0].found.Some? then [a[0]] else [];
      assert (a + b)[0] == a[0];
      assert (a + b)[1..] == a[1..] + b;
      MatchedConcat(a[1..], b);
      assert Matched(a + b) == head + (Matched(a[1..]) + Matched(b));
      assert Matched(a) == head + Matched(a[1..]);
    }
  }

  lemma {:induction false} UniqueMatch(svc: seq<AnomalyRecord>, id: string, day: int)
    requires UniqueKeys(svc)
    ensures |MatchesOf(svc, id, day)| <= 1
  {
    if svc != [] {
      UniqueMatch(svc[1..], id, day);
      if svc[0].id == id && svc[0].day == day {
        forall a | a in svc[1..] ensures a.id != id || a.day != day {
          var k :| 0 <= k < |svc[1..]| && svc[1..][k] == a;
          assert svc[k + 1] == a;
        }
        NoMatches(svc[1..], id, day);
      }
    }
  }

  lemma {:induction false} NoMatches(svc: seq<AnomalyRecord>, id: string, day: int)
    requires forall a :: a in svc ==> a.id != id || a.day != day
    ensures MatchesOf(svc, id, day) == []
  {
    if svc != [] {
      NoMatches(svc[1..], id, day);
    }
  }

  /** The left merge never drops a base row and never alters one: with at most one service
      row per key it keeps the base table row for row, its `y` included, and attaches the
      service row of the same key exactly when there is one. */
  lemma {:induction false} LeftJoinKeepsRows(base: seq<Row>, svc: seq<AnomalyRecord>)
    requires UniqueKeys(svc)
    ensures var out := LeftJoin(base, svc);
      && |out| == |base|
      && (forall i :: 0 <= i < |out| ==> out[i].base == base[i])
      && (forall i :: 0 <= i < |out| ==>
            (out[i].found.Some? <==> exists a :: a in svc && a.id == base[i].id && a.day == base[i].day))
      && (forall i :: 0 <= i < |out| && out[i].found.Some? ==>
            out[i].found.value in svc && out[i].found.value.id == base[i].id && out[i].found.value.day == base[i].day)
  {
    if base != [] {
      HeadKeepsRow(base[0], svc);
      LeftJoinKeepsRows(base[1..], svc);
      var out := LeftJoin(base, svc);
      var rest := LeftJoin(base[1..], svc);
      assert out == JoinHead(base[0], svc) + rest;
      forall i | 1 <= i < |out| ensures out[i] == rest[i - 1] && base[i] == base[1..][i - 1] {
      }
    }
  }

  /** With at most one service row per key, a base row yields exactly one merged row,
      matched exactly when the service has its key. */
  lemma HeadKeepsRow(b: Row, svc: seq<AnomalyRecord>)
    requires UniqueKeys(svc)
    ensures var h := JoinHead(b, svc);
      && |h| == 1 && h[0].base == b
      && (h[0].found.Some? <==> exists a :: a in svc && a.id == b.id && a.day == b.day)
      && (h[0].found.Some? ==> h[0].found.value in svc && h[0].found.value.id == b.id && h[0].found.value.day == b.day)
  {
    var ms := MatchesOf(svc, b.id, b.day);
    UniqueMatch(svc, b.id, b.day);
    if ms != [] {
      assert ms[0] in ms;
    }
  }

  lemma {:induction false} PairsAllMatched(b: Row, ms: seq<AnomalyRecord>)
    ensures Matched(Pairs(b, ms)) == Pairs(b, ms)
    ensures Matched([Merged(b, None)]) == []
    decreases |ms|
  {
    if ms != [] {
      assert Pairs(b, ms) == [Pairs(b, ms)[0]] + Pairs(b, ms[1..]);
      PairsAllMatched(b, ms[1..]);
    }
    assert [Merged(b, None)][1..] == [];
  }

  /* ---------------------------------------------------------------------- */
  /* Column names                                                           */
  /* ---------------------------------------------------------------------- */

  /** The join keys, present once in the merged table. */
  const KeyColumns: set<string> := {"unique_id", "ds"}

  /** The suffix the service side's clashing columns receive; the base side's is empty. */
  const ServiceSuffix: string := "_anomaly"

  /** The columns after `merge(..., on=['unique_id', 'ds'], suffixes=('', '_anomaly'))`:
      the base columns unchanged, the service columns unchanged unless they clash with a
      non-key base column, in which case they carry the suffix. */
  function MergedColumns(left: set<string>, right: set<string>): (cols: set<string>)
    ensures left <= cols
    ensures forall c :: c in right && c !in left ==> c in cols
    ensures forall c :: c in right && c in left && c !in KeyColumns ==> c + ServiceSuffix in cols
    ensures forall c :: c in cols ==>
      c in left || c in right || exists d :: d in left && d in right && d !in KeyColumns && c == d + ServiceSuffix
  {
    left + (right - left) + (set d | d in left && d in right && d !in KeyColumns :: d + ServiceSuffix)
  }

  /** `if 'y' not in merged and 'y_anomaly' in merged: rename y_anomaly to y`. */
  function Reconcile(cols: set<string>): (r: set<string>)
    ensures "y" in r <==> "y" in cols || "y_anomaly" in cols
    ensures r - {"y", "y_anomaly"} == cols - {"y", "y_anomaly"}
    ensures "y" in cols ==> r == cols
    ensures "y" !in cols && "y_anomaly" in cols ==> "y_anomaly" !in r
  {
    if "y" !in cols && "y_anomaly" in cols then cols - {"y_anomaly"} + {"y"} else cols
  }

  /** With `y` on the base side, the merged table has `y` and the rename never fires;
      a service copy of `y` survives as `y_anomaly`, so nothing is dropped. */
  lemma BaseValueNeverRenamed(left: set<string>, right: set<string>)
    requires "y" in left
    ensures Reconcile(MergedColumns(left, right)) == MergedColumns(left, right)
    ensures "y" in MergedColumns(left, right)
    ensures "y" in right ==> "y_anomaly" in MergedColumns(left, right)
  {
    assert "y" !in KeyColumns;
    assert "y" + ServiceSuffix == "y_anomaly";
  }
}
