/**
 The long form of the stored reconciliation, one close row and one volume row per comparison, and
 the grouped query that pivots it back for the API.
 */
module ResultRows {
  import opened Wrappers
  import opened Text
  import opened SeqFacts
  import opened Reconciliation
  import opened ProviderPairs

  datatype Metric = CloseMetric | VolumeMetric

  /** A row of `equity_reconciliation_results`. */
  datatype LongRow = LongRow(
    runId: string, pair: PairKey, metric: Metric,
    valueA: Option<real>, valueB: Option<real>, difference: Option<real>,
    isDiscrepancy: bool, status: Status, reason: Option<string>)

  // ------------------------------------------------------------ writing

  function CloseRow(run: string, c: Comparison): LongRow {
    LongRow(run, KeyOf(c), CloseMetric, c.closeA, c.closeB, c.closeDifference, c.status.Break?, c.status, c.reason)
  }

  function VolumeRow(run: string, c: Comparison): LongRow {
    LongRow(run, KeyOf(c), VolumeMetric, c.volumeA, c.volumeB, c.volumeDifference, c.status.Break?, c.status, c.reason)
  }

  function LongRows(run: string, rows: seq<Comparison>): seq<LongRow> {
    if rows == [] then []
    else
      var last := rows[|rows| - 1];
      LongRows(run, rows[..|rows| - 1]) + [CloseRow(run, last), VolumeRow(run, last)]
  }

  /** The stored row belongs to the run and the comparison, with its verdict and these values. */
  predicate Writes(x: LongRow, run: string, c: Comparison, metric: Metric,
                   a: Option<real>, b: Option<real>, difference: Option<real>)
  {
    && x.runId == run && x.pair.key == c.key && x.pair.sourceA == c.sourceA && x.pair.sourceB == c.sourceB
    && x.metric == metric && x.valueA == a && x.valueB == b && x.difference == difference
    && (x.isDiscrepancy <==> c.status == Break) && x.status == c.status && x.reason == c.reason
  }

  predicate WritesBoth(close: LongRow, volume: LongRow, run: string, c: Comparison) {
    && Writes(close, run, c, CloseMetric, c.closeA, c.closeB, c.closeDifference)
    && Writes(volume, run, c, VolumeMetric, c.volumeA, c.volumeB, c.volumeDifference)
  }

  /** `_reconciliation_rows`. */
  method ReconciliationRows(run: string, rows: seq<Comparison>) returns (results: seq<LongRow>)
    ensures results == LongRows(run, rows)
    ensures |results| == 2 * |rows|
    ensures forall i :: 0 <= i < |rows| ==> WritesBoth(results[2 * i], results[2 * i + 1], run, rows[i])
  {
    LongRowsLength(run, rows);
    forall i | 0 <= i < |rows|
      ensures WritesBoth(LongRows(run, rows)[2 * i], LongRows(run, rows)[2 * i + 1], run, rows[i])
    {
      LongRowAt(run, rows, i);
    }
    results := [];
    for i := 0 to |rows|
      invariant results == LongRows(run, rows[..i])
    {
      assert rows[..i + 1][..i] == rows[..i];
      results := results + [CloseRow(run, rows[i]), VolumeRow(run, rows[i])];
    }
    assert rows[..|rows|] == rows;
  }

  /** The primary key of the table. */
  datatype ResultKey = ResultKey(runId: string, pair: PairKey, metric: Metric)

  function ResultKeyOf(r: LongRow): ResultKey {
    ResultKey(r.runId, r.pair, r.metric)
  }

  // ------------------------------------------------------------ reading

  /** SQL `max` over numbers: nulls do not count. */
  function MaxNumber(xs: seq<Option<real>>): Option<real> {
    if xs == [] then None
    else
      var m, x := MaxNumber(xs[..|xs| - 1]), xs[|xs| - 1];
      if x.None? then m else if m.None? || m.value < x.value then x else m
  }

  /** SQL `max` over text. */
  function MaxText(xs: seq<Option<string>>): Option<string> {
    if xs == [] then None
    else
      var m, x := MaxText(xs[..|xs| - 1]), xs[|xs| - 1];
      if x.None? then m else if m.None? || AtMost(m.value, x.value) then x else m
  }

  /** The status column as text. */
  function StatusText(s: Status): string {
    match s case Match => "MATCH" case Warn => "WARN" case Break => "BREAK"
  }

  function ParseStatus(s: string): Status {
    if s == "BREAK" then Break else if s == "WARN" then Warn else Match
  }

  /** The rows of one group that pass `FILTER (WHERE metric_name = ...)`. */
  function Group(table: seq<LongRow>, run: string, pair: PairKey, metric: Metric): seq<LongRow> {
    if table == [] then []
    else
      var last := table[|table| - 1];
      Group(table[..|table| - 1], run, pair, metric)
      + if last.runId == run && last.pair == pair && last.metric == metric then [last] else []
  }

  function ValuesA(g: seq<LongRow>): seq<Option<real>> { seq(|g|, i requires 0 <= i < |g| => g[i].valueA) }

  function ValuesB(g: seq<LongRow>): seq<Option<real>> { seq(|g|, i requires 0 <= i < |g| => g[i].valueB) }

  function Differences(g: seq<LongRow>): seq<Option<real>> { seq(|g|, i requires 0 <= i < |g| => g[i].difference) }

  function Reasons(g: seq<LongRow>): seq<Option<string>> { seq(|g|, i requires 0 <= i < |g| => g[i].reason) }

  function Statuses(g: seq<LongRow>): seq<Option<string>> {
    seq(|g|, i requires 0 <= i < |g| => Some(StatusText(g[i].status)))
  }

  predicate AnyDiscrepancy(g: seq<LongRow>) {
    exists i :: 0 <= i < |g| && g[i].isDiscrepancy
  }

  /** One row of `RECONCILIATION_CTE`. */
  function PivotRow(table: seq<LongRow>, run: string, pair: PairKey): Comparison {
    var close, volume := Group(table, run, pair, CloseMetric), Group(table, run, pair, VolumeMetric);
    var status := MaxText(Statuses(close));
    Comparison(pair.key, pair.sourceA, pair.sourceB,
               MaxNumber(ValuesA(close)), MaxNumber(ValuesB(close)), MaxNumber(Differences(close)),
               MaxNumber(ValuesA(volume)), MaxNumber(ValuesB(volume)), MaxNumber(Differences(volume)),
               if status.Some? then ParseStatus(status.value)
               else if AnyDiscrepancy(close) || AnyDiscrepancy(volume) then Break else Match,
               MaxText(Reasons(close)))
  }

  /** `c` is in the pivoted result of run `run`. */
  ghost predicate InPivot(table: seq<LongRow>, run: string, c: Comparison) {
    && (exists r :: r in table && r.runId == run && r.pair == KeyOf(c))
    && c == PivotRow(table, run, KeyOf(c))
  }

  /** The rows of one run. */
  function OfRun(table: seq<LongRow>, run: string): seq<LongRow> {
    if table == [] then []
    else
      var last := table[|table| - 1];
      OfRun(table[..|table| - 1], run) + if last.runId == run then [last] else []
  }

  // ------------------------------------------------------------ the round trip

  lemma GroupSnoc(table: seq<LongRow>, r: LongRow, run: string, pair: PairKey, metric: Metric)
    ensures Group(table + [r], run, pair, metric)
            == Group(table, run, pair, metric)
               + if r.runId == run && r.pair == pair && r.metric == metric then [r] else []
  {
    assert (table + [r])[..|table|] == table;
  }

  lemma {:induction false} GroupOfRun(table: seq<LongRow>, run: string, pair: PairKey, metric: Metric)
    ensures Group(table, run, pair, metric) == Group(OfRun(table, run), run, pair, metric)
  {
    if table != [] {
      var before, last := table[..|table| - 1], table[|table| - 1];
      GroupOfRun(before, run, pair, metric);
      if last.runId == run {
        assert OfRun(table, run) == OfRun(before, run) + [last];
        GroupSnoc(OfRun(before, run), last, run, pair, metric);
      } else {
        assert OfRun(table, run) == OfRun(before, run);
      }
    }
  }

  lemma {:induction false} OfRunMembers(table: seq<LongRow>, run: string)
    ensures forall r :: r in OfRun(table, run) <==> r in table && r.runId == run
  {
    if table != [] {
      OfRunMembers(table[..|table| - 1], run);
      assert table == table[..|table| - 1] + [table[|table| - 1]];
    }
  }

  lemma GroupTwo(table: seq<LongRow>, run: string, c: Comparison, pair: PairKey, metric: Metric)
    ensures Group(table + [CloseRow(run, c), VolumeRow(run, c)], run, pair, metric)
            == Group(table, run, pair, metric)
               + if KeyOf(c) != pair then [] else [if metric.CloseMetric? then CloseRow(run, c) else VolumeRow(run, c)]
  {
    GroupSnoc(table, CloseRow(run, c), run, pair, metric);
    GroupSnoc(table + [CloseRow(run, c)], VolumeRow(run, c), run, pair, metric);
    assert table + [CloseRow(run, c), VolumeRow(run, c)] == table + [CloseRow(run, c)] + [VolumeRow(run, c)];
  }

  /** Each group of the long form holds the one row of its comparison. */
  lemma {:induction false} GroupIsOneRow(run: string, rows: seq<Comparison>, pair: PairKey, metric: Metric)
    requires DistinctComparisons(rows)
    ensures (forall c :: c in rows ==> KeyOf(c) != pair) ==> Group(LongRows(run, rows), run, pair, metric) == []
    ensures forall c :: c in rows && KeyOf(c) == pair ==>
              Group(LongRows(run, rows), run, pair, metric)
              == [if metric.CloseMetric? then CloseRow(run, c) else VolumeRow(run, c)]
  {
    if rows != [] {
      var before, last := rows[..|rows| - 1], rows[|rows| - 1];
      assert rows == before + [last];
      GroupIsOneRow(run, before, pair, metric);
      GroupTwo(LongRows(run, before), run, last, pair, metric);
    }
  }

  lemma {:induction false} LongRowsLength(run: string, rows: seq<Comparison>)
    ensures |LongRows(run, rows)| == 2 * |rows|
  {
    if rows != [] {
      LongRowsLength(run, rows[..|rows| - 1]);
    }
  }

  lemma {:induction false} LongRowFrom(run: string, rows: seq<Comparison>, r: LongRow) returns (c: Comparison)
    requires r in LongRows(run, rows)
    ensures c in rows && r.runId == run && r.pair == KeyOf(c)
  {
    var before, last := rows[..|rows| - 1], rows[|rows| - 1];
    if r in LongRows(run, before) {
      c := LongRowFrom(run, before, r);
    } else {
      c := last;
    }
  }

  lemma {:induction false} CloseRowIn(run: string, rows: seq<Comparison>, c: Comparison)
    requires c in rows
    ensures CloseRow(run, c) in LongRows(run, rows)
  {
    var before, last := rows[..|rows| - 1], rows[|rows| - 1];
    if c != last {
      CloseRowIn(run, before, c);
    }
  }

  lemma PivotOfOneRow(table: seq<LongRow>, run: string, c: Comparison)
    requires Group(table, run, KeyOf(c), CloseMetric) == [CloseRow(run, c)]
    requires Group(table, run, KeyOf(c), VolumeMetric) == [VolumeRow(run, c)]
    ensures PivotRow(table, run, KeyOf(c)) == c
  {
    var close, volume := Group(table, run, KeyOf(c), CloseMetric), Group(table, run, KeyOf(c), VolumeMetric);
    assert ValuesA(close) == [c.closeA] && ValuesB(close) == [c.closeB] && Differences(close) == [c.closeDifference];
    assert ValuesA(volume) == [c.volumeA] && ValuesB(volume) == [c.volumeB]
        && Differences(volume) == [c.volumeDifference];
    assert Reasons(close) == [c.reason] && Statuses(close) == [Some(StatusText(c.status))];
    MaxOfOne(c.closeA);
    MaxOfOne(c.closeB);
    MaxOfOne(c.closeDifference);
    MaxOfOne(c.volumeA);
    MaxOfOne(c.volumeB);
    MaxOfOne(c.volumeDifference);
    MaxTextOfOne(c.reason);
    MaxTextOfOne(Some(StatusText(c.status)));
  }

  lemma MaxOfOne(x: Option<real>)
    ensures MaxNumber([x]) == x
  {
  }

  lemma MaxTextOfOne(x: Option<string>)
    ensures MaxText([x]) == x
  {
  }

  /** Writing a result and pivoting the table back returns that result, whatever other runs it holds. */
  lemma PivotUndoesLongForm(table: seq<LongRow>, run: string, rows: seq<Comparison>)
    requires DistinctComparisons(rows) && OfRun(table, run) == LongRows(run, rows)
    ensures forall c :: InPivot(table, run, c) <==> c in rows
  {
    OfRunMembers(table, run);
    forall c | c in rows ensures InPivot(table, run, c) {
      PivotGroups(table, run, rows, c);
      CloseRowIn(run, rows, c);
      assert CloseRow(run, c) in table;
    }
    forall c | InPivot(table, run, c) ensures c in rows {
      var r :| r in table && r.runId == run && r.pair == KeyOf(c);
      var d := LongRowFrom(run, rows, r);
      PivotGroups(table, run, rows, d);
    }
  }

  lemma PivotGroups(table: seq<LongRow>, run: string, rows: seq<Comparison>, c: Comparison)
    requires DistinctComparisons(rows) && OfRun(table, run) == LongRows(run, rows) && c in rows
    ensures PivotRow(table, run, KeyOf(c)) == c
  {
    GroupOfRun(table, run, KeyOf(c), CloseMetric);
    GroupOfRun(table, run, KeyOf(c), VolumeMetric);
    GroupIsOneRow(run, rows, KeyOf(c), CloseMetric);
    GroupIsOneRow(run, rows, KeyOf(c), VolumeMetric);
    PivotOfOneRow(table, run, c);
  }

  lemma {:induction false} LongRowAt(run: string, rows: seq<Comparison>, i: nat)
    requires i < |rows|
    ensures |LongRows(run, rows)| == 2 * |rows|
    ensures LongRows(run, rows)[2 * i] == CloseRow(run, rows[i])
    ensures LongRows(run, rows)[2 * i + 1] == VolumeRow(run, rows[i])
  {
    var n := |rows| - 1;
    var before := LongRows(run, rows[..n]);
    LongRowsLength(run, rows[..n]);
    assert LongRows(run, rows) == before + [CloseRow(run, rows[n]), VolumeRow(run, rows[n])];
    if i < n {
      LongRowAt(run, rows[..n], i);
    }
  }

  lemma DistinctLongRows(run: string, rows: seq<Comparison>)
    requires DistinctComparisons(rows)
    ensures DistinctBy(LongRows(run, rows), ResultKeyOf)
  {
    var long := LongRows(run, rows);
    LongRowsLength(run, rows);
    forall x, y | 0 <= x < y < |long| ensures ResultKeyOf(long[x]) != ResultKeyOf(long[y]) {
      var i, j := x / 2, y / 2;
      LongRowAt(run, rows, i);
      LongRowAt(run, rows, j);
      assert x == 2 * i || x == 2 * i + 1;
      assert y == 2 * j || y == 2 * j + 1;
      assert i < j ==> KeyOf(rows[i]) != KeyOf(rows[j]);
    }
  }

  /** The primary key accepts the long form exactly when no comparison occurs twice. */
  lemma PrimaryKeyIff(run: string, rows: seq<Comparison>)
    ensures DistinctBy(LongRows(run, rows), ResultKeyOf) <==> DistinctComparisons(rows)
  {
    if DistinctComparisons(rows) {
      DistinctLongRows(run, rows);
    } else {
      var i, j :| 0 <= i < j < |rows| && KeyOf(rows[i]) == KeyOf(rows[j]);
      LongRowAt(run, rows, i);
      LongRowAt(run, rows, j);
      assert ResultKeyOf(LongRows(run, rows)[2 * i]) == ResultKeyOf(LongRows(run, rows)[2 * j]);
    }
  }
}
