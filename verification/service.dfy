/**
 The two calls the dashboard makes to the remote forecasting service
 (app.py `detect_anomalies` and `generate_forecast`). The service itself is
 unseen, so it is a function parameter; what is modelled is the request the
 dashboard builds: the rows of the selected entities, and no call at all
 when that subset is empty.
 */
module Service {
  import opened Series
  import opened Join
  import opened Padding
  import opened Results

  /** `df[df['unique_id'].isin(selected)]`: the rows of the selected entities, in table order. */
  function Subset(rows: seq<Row>, selected: seq<string>): (s: seq<Row>)
    ensures |s| <= |rows|
    ensures forall x {:trigger x in s} :: x in s ==> x in rows && x.id in selected
    ensures forall x {:trigger x in rows} :: x in rows && x.id in selected ==> x in s
  {
    if rows == [] then []
    else
      var rest := Subset(rows[1..], selected);
      assert forall x {:trigger x in rows} :: x in rows ==> x == rows[0] || x in rows[1..];
      (if rows[0].id in selected then [rows[0]] else []) + rest
  }

  /** Forecast horizon in days (`horizon=7`). */
  const ForecastHorizon: nat := 7

  /** Prediction-interval levels requested with every forecast (`level=[80, 90]`). */
  const ForecastLevels: seq<int> := [80, 90]

  /** What the dashboard sends: nothing, or one call with the filtered rows. Every call
      asks for daily frequency. */
  datatype Request =
    | Skipped
    | DetectRequest(payload: seq<Row>, level: real)
    | ForecastRequest(payload: seq<Row>, horizon: nat, levels: seq<int>)

  /** The anomaly request at sensitivity `level` for the selected entities. */
  function DetectAnomalies(rows: seq<Row>, level: real, selected: seq<string>): (q: Request)
    ensures q.Skipped? <==> forall x :: x in rows ==> x.id !in selected
    ensures !q.Skipped? ==> q.DetectRequest? && q.level == level
    ensures !q.Skipped? ==> forall x :: x in q.payload <==> x in rows && x.id in selected
  {
    var s := Subset(rows, selected);
    assert s != [] ==> s[0] in s;
    if s == [] then Skipped else DetectRequest(s, level)
  }

  /** The 7-day forecast request with 80% and 90% intervals for the selected entities. */
  function GenerateForecast(rows: seq<Row>, selected: seq<string>): (q: Request)
    ensures q.Skipped? <==> forall x :: x in rows ==> x.id !in selected
    ensures !q.Skipped? ==> q.ForecastRequest? && q.horizon == 7 && q.levels == [80, 90]
    ensures !q.Skipped? ==> forall x :: x in q.payload <==> x in rows && x.id in selected
  {
    var s := Subset(rows, selected);
    assert s != [] ==> s[0] in s;
    if s == [] then Skipped else ForecastRequest(s, ForecastHorizon, ForecastLevels)
  }

  /** The anomaly table `detect_anomalies` returns, given the unseen service: an empty
      table when the request is skipped, otherwise whatever the service answers. */
  function Detected(rows: seq<Row>, level: real, selected: seq<string>,
                    service: (seq<Row>, real) -> seq<AnomalyRecord>): (t: seq<AnomalyRecord>)
    ensures (forall x :: x in rows ==> x.id !in selected) ==> t == []
    ensures (exists x :: x in rows && x.id in selected) ==> t == service(Subset(rows, selected), level)
  {
    match DetectAnomalies(rows, level, selected)
    case DetectRequest(payload, lvl) => service(payload, lvl)
    case _ => []
  }

  /** With no selected rows the service is never consulted: any two services give the same
      (empty) table. */
  lemma ServiceNotInvoked(rows: seq<Row>, level: real, selected: seq<string>,
                          s1: (seq<Row>, real) -> seq<AnomalyRecord>, s2: (seq<Row>, real) -> seq<AnomalyRecord>)
    requires forall x :: x in rows ==> x.id !in selected
    ensures Detected(rows, level, selected, s1) == Detected(rows, level, selected, s2) == []
  {
  }

  /** Filtering on one entity is `RowsOf`; filtering on a selection splits over concatenation. */
  lemma {:induction false} SubsetOfOne(rows: seq<Row>, id: string)
    ensures Subset(rows, [id]) == RowsOf(rows, id)
  {
    if rows != [] {
      SubsetOfOne(rows[1..], id);
    }
  }

  lemma {:induction false} SubsetConcat(a: seq<Row>, b: seq<Row>, selected: seq<string>)
    ensures Subset(a + b, selected) == Subset(a, selected) + Subset(b, selected)
  {
    if a == [] {
      assert a + b == b;
    } else {
      var head := if a[0].id in selected then [a[0]] else [];
      assert (a + b)[0] == a[0];
      assert (a + b)[1..] == a[1..] + b;
      SubsetConcat(a[1..], b, selected);
      assert Subset(a + b, selected) == head + (Subset(a[1..], selected) + Subset(b, selected));
      assert Subset(a, selected) == head + Subset(a[1..], selected);
    }
  }

  /** A non-empty selection taken from the entities of the daily table always reaches the
      service: every entity has its full 181-day window there. */
  lemma SelectionReachesService(rows: seq<Row>, level: real, selected: seq<string>)
    requires rows != []
    requires selected != []
    requires forall s :: s in selected ==> s in Ids(rows)
    ensures PreprocessData(rows).Success?
    ensures DetectAnomalies(PreprocessData(rows).value, level, selected).DetectRequest?
    ensures GenerateForecast(PreprocessData(rows).value, selected).ForecastRequest?
  {
    var daily := PreprocessData(rows).value;
    var id := selected[0];
    var w := RowsOf(daily, id);
    assert w == DailySeries(rows, id, MaxDay(rows) - LookbackDays, LookbackDays + 1);
    assert w[0] in w;
    assert w[0] in daily && w[0].id in selected;
  }
}
