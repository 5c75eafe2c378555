/**
 The serving tables and the transaction that stores a run: `persist_equity_run` and the part of
 `main` that prepares its arguments.
 */
module Database {
  import opened Wrappers
  import opened SeqFacts
  import opened Equities
  import opened Reconciliation
  import opened ProviderPairs
  import opened ResultRows
  import opened DbtModel

  const SECONDS_TO_RESOLVE: int := 86_400

  /** UUIDv5 of the logical key, taken to be injective. */
  datatype ExceptionId = ExceptionId(runId: string, pair: PairKey)

  /** A row of `equity_exceptions`; the fields that are always the same are left out. */
  datatype ExceptionRow = ExceptionRow(
    id: ExceptionId, runId: string, pair: PairKey, closeA: Option<real>, closeB: Option<real>,
    difference: Option<real>, reason: string, createdAt: int, dueAt: int)

  /** A row of `pipeline_runs`. */
  datatype RunRow = RunRow(status: RunStatus, rowCounts: seq<nat>, matches: nat, breaks: nat)

  datatype PersistOutcome = Stored | AlreadyStored | RolledBack

  // ------------------------------------------------------------ exceptions

  function Breaks(rows: seq<Comparison>): seq<Comparison> {
    if rows == [] then []
    else Breaks(rows[..|rows| - 1]) + if rows[|rows| - 1].status.Break? then [rows[|rows| - 1]] else []
  }

  function ReasonCode(c: Comparison): string {
    if c.reason.Some? && c.reason.value != [] then c.reason.value else PRICE_DIFFERENCE
  }

  /** `e` is the exception for the break `c`, created at any time. */
  predicate IsExceptionFor(run: string, e: ExceptionRow, c: Comparison) {
    && e.id == ExceptionId(run, KeyOf(c)) && e.runId == run && e.pair == KeyOf(c)
    && e.closeA == c.closeA && e.closeB == c.closeB && e.difference == c.closeDifference
    && e.reason == ReasonCode(c) && e.dueAt == e.createdAt + SECONDS_TO_RESOLVE
  }

  /** One exception per break, in order. */
  predicate AreExceptionsFor(run: string, es: seq<ExceptionRow>, rows: seq<Comparison>) {
    && |es| == |Breaks(rows)|
    && forall i :: 0 <= i < |es| ==> IsExceptionFor(run, es[i], Breaks(rows)[i])
  }

  lemma {:induction false} BreaksAre(rows: seq<Comparison>)
    ensures |Breaks(rows)| == CountOf(rows, Break)
    ensures forall c :: c in Breaks(rows) <==> c in rows && c.status.Break?
    ensures DistinctComparisons(rows) ==> DistinctComparisons(Breaks(rows))
  {
    if rows != [] {
      var before, last := rows[..|rows| - 1], rows[|rows| - 1];
      assert rows == before + [last];
      BreaksAre(before);
      if DistinctComparisons(rows) {
        forall i | 0 <= i < |Breaks(before)| ensures KeyOf(Breaks(before)[i]) != KeyOf(last) {
          assert Breaks(before)[i] in before;
        }
      }
    }
  }

  /** `create_equity_exceptions`; `clock(i)` is the time read for record number `i`. */
  method CreateEquityExceptions(run: string, rows: seq<Comparison>, clock: nat -> int) returns (es: seq<ExceptionRow>)
    ensures AreExceptionsFor(run, es, rows)
  {
    es := [];
    for k := 0 to |rows|
      invariant AreExceptionsFor(run, es, rows[..k])
    {
      assert rows[..k + 1][..k] == rows[..k];
      if rows[k].status.Break? {
        var c, now := rows[k], clock(|es|);
        es := es + [ExceptionRow(ExceptionId(run, KeyOf(c)), run, KeyOf(c), c.closeA, c.closeB,
                                 c.closeDifference, ReasonCode(c), now, now + SECONDS_TO_RESOLVE)];
      }
    }
    assert rows[..|rows|] == rows;
  }

  function IdOf(e: ExceptionRow): ExceptionId {
    e.id
  }

  lemma ExceptionsAreDistinct(run: string, es: seq<ExceptionRow>, rows: seq<Comparison>)
    requires AreExceptionsFor(run, es, rows) && DistinctComparisons(rows)
    ensures DistinctBy(es, IdOf)
  {
    BreaksAre(rows);
    forall i, j | 0 <= i < j < |es| ensures IdOf(es[i]) != IdOf(es[j]) {
      assert KeyOf(Breaks(rows)[i]) != KeyOf(Breaks(rows)[j]);
    }
  }

  // ------------------------------------------------------------ one statement

  /** `executemany` with a primary key: fails on a repeated key, or after `budget` rows. */
  method InsertMany<T(!new), K(==)>(table: seq<T>, rows: seq<T>, key: T -> K, budget: nat)
    returns (ok: bool, grown: seq<T>, left: nat)
    requires DistinctBy(table, key)
    ensures ok <==> |rows| <= budget && DistinctBy(table + rows, key)
    ensures ok ==> grown == table + rows && left == budget - |rows|
  {
    grown, left := table, budget;
    for i := 0 to |rows|
      invariant i <= budget && left == budget - i
      invariant grown == table + rows[..i] && DistinctBy(grown, key)
    {
      DistinctByTail(grown, [rows[i]], key);
      if left == 0 {
        return false, grown, left;
      }
      if exists j :: 0 <= j < |grown| && key(grown[j]) == key(rows[i]) {
        assert forall j :: 0 <= j < |grown| ==> (table + rows)[j] == grown[j];
        assert (table + rows)[|grown|] == rows[i];
        return false, grown, left;
      }
      assert table + rows[..i + 1] == grown + [rows[i]];
      grown, left := grown + [rows[i]], left - 1;
    }
    assert rows[..|rows|] == rows;
    ok := true;
  }

  // ------------------------------------------------------------ rows of one run

  function ExceptionsOf(table: seq<ExceptionRow>, run: string): seq<ExceptionRow> {
    if table == [] then []
    else
      var last := table[|table| - 1];
      ExceptionsOf(table[..|table| - 1], run) + if last.runId == run then [last] else []
  }

  lemma {:induction false} ExceptionsOfConcat(a: seq<ExceptionRow>, b: seq<ExceptionRow>, run: string)
    ensures ExceptionsOf(a + b, run) == ExceptionsOf(a, run) + ExceptionsOf(b, run)
  {
    if b == [] {
      assert a + b == a;
    } else {
      assert (a + b)[..|a| + |b| - 1] == a + b[..|b| - 1];
      ExceptionsOfConcat(a, b[..|b| - 1], run);
    }
  }

  lemma {:induction false} OfRunConcat(a: seq<LongRow>, b: seq<LongRow>, run: string)
    ensures OfRun(a + b, run) == OfRun(a, run) + OfRun(b, run)
  {
    if b == [] {
      assert a + b == a;
    } else {
      assert (a + b)[..|a| + |b| - 1] == a + b[..|b| - 1];
      OfRunConcat(a, b[..|b| - 1], run);
    }
  }

  lemma {:induction false} OfRunUniform(rows: seq<LongRow>, owner: string, run: string)
    requires forall i :: 0 <= i < |rows| ==> rows[i].runId == owner
    ensures OfRun(rows, run) == if run == owner then rows else []
  {
    if rows != [] {
      OfRunUniform(rows[..|rows| - 1], owner, run);
      assert rows == rows[..|rows| - 1] + [rows[|rows| - 1]];
    }
  }

  lemma {:induction false} ExceptionsOfUniform(rows: seq<ExceptionRow>, owner: string, run: string)
    requires forall i :: 0 <= i < |rows| ==> rows[i].runId == owner
    ensures ExceptionsOf(rows, run) == if run == owner then rows else []
  {
    if rows != [] {
      ExceptionsOfUniform(rows[..|rows| - 1], owner, run);
      assert rows == rows[..|rows| - 1] + [rows[|rows| - 1]];
    }
  }

  // ------------------------------------------------------------ staged bars

  datatype BarKey = BarKey(runId: string, source: string, symbol: string, day: int)

  function BarKeyOf(t: Staged): BarKey {
    BarKey(t.runId, t.source, t.symbol, t.day)
  }

  /** `_equity_bar_rows`. */
  function StageFrame(run: string, name: string, rows: seq<Row>): seq<Staged>
    requires AllValid(rows)
  {
    seq(|rows|, i requires 0 <= i < |rows| => Stage(run, name, rows[i]))
  }

  function StageAll(run: string, ps: seq<Provider>): seq<Staged>
    requires |ps| == 3 && AllFramesValid(ps)
  {
    StageFrame(run, NAMES[0], ps[0].rows) + StageFrame(run, NAMES[1], ps[1].rows)
        + StageFrame(run, NAMES[2], ps[2].rows)
  }

  lemma FrameKeysDiffer(run: string, name: string, rows: seq<Row>)
    requires ValidFrame(rows)
    ensures DistinctBy(StageFrame(run, name, rows), BarKeyOf)
  {
    var staged := StageFrame(run, name, rows);
    forall i, j | 0 <= i < j < |staged| ensures BarKeyOf(staged[i]) != BarKeyOf(staged[j]) {
      assert ToBars(rows)[i].key != ToBars(rows)[j].key;
    }
  }

  /** Validated frames never collide in the staging table. */
  lemma StagedKeysDiffer(run: string, ps: seq<Provider>)
    requires ThreeFrames(ps)
    ensures DistinctBy(StageAll(run, ps), BarKeyOf)
  {
    var a, b := StageFrame(run, NAMES[0], ps[0].rows), StageFrame(run, NAMES[1], ps[1].rows);
    var c := StageFrame(run, NAMES[2], ps[2].rows);
    FrameKeysDiffer(run, NAMES[0], ps[0].rows);
    FrameKeysDiffer(run, NAMES[1], ps[1].rows);
    FrameKeysDiffer(run, NAMES[2], ps[2].rows);
    assert NAMES[0] != NAMES[1] && NAMES[0] != NAMES[2] && NAMES[1] != NAMES[2] by {
      assert NAMES[0][0] == 'Y' && NAMES[1][0] == 'A' && NAMES[2][0] == 'M';
    }
    DistinctByTail(a, b, BarKeyOf);
    DistinctByTail(a + b, c, BarKeyOf);
  }

  /** The staged rows are those the dbt model reads for the run. */
  lemma StageAllRows(run: string, ps: seq<Provider>, t: Staged)
    requires ThreeFrames(ps)
    ensures t in StageAll(run, ps) <==> exists i: nat, j: nat :: IsRowOf(t, run, ps, i, j)
  {
    var a, b := StageFrame(run, NAMES[0], ps[0].rows), StageFrame(run, NAMES[1], ps[1].rows);
    var c := StageFrame(run, NAMES[2], ps[2].rows);
    if t in StageAll(run, ps) {
      if t in a {
        var j :| 0 <= j < |a| && a[j] == t;
        assert IsRowOf(t, run, ps, 0, j);
      } else if t in b {
        var j :| 0 <= j < |b| && b[j] == t;
        assert IsRowOf(t, run, ps, 1, j);
      } else {
        var j :| 0 <= j < |c| && c[j] == t;
        assert IsRowOf(t, run, ps, 2, j);
      }
    }
    if i: nat, j: nat :| IsRowOf(t, run, ps, i, j) {
      assert i == 0 ==> a[j] == t;
      assert i == 1 ==> b[j] == t;
      assert i == 2 ==> c[j] == t;
    }
  }

  lemma StagedOwner(run: string, ps: seq<Provider>)
    requires |ps| == 3 && AllFramesValid(ps)
    ensures forall i :: 0 <= i < |StageAll(run, ps)| ==> StageAll(run, ps)[i].runId == run
  {
  }

  lemma {:induction false} LongRowsOwner(run: string, rows: seq<Comparison>)
    ensures forall i :: 0 <= i < |LongRows(run, rows)| ==> LongRows(run, rows)[i].runId == run
  {
    if rows != [] {
      LongRowsOwner(run, rows[..|rows| - 1]);
    }
  }

  lemma {:induction false} OfRunAbsent(table: seq<LongRow>, run: string)
    requires forall i :: 0 <= i < |table| ==> table[i].runId != run
    ensures OfRun(table, run) == []
  {
    if table != [] {
      OfRunAbsent(table[..|table| - 1], run);
    }
  }

  lemma {:induction false} ExceptionsOfAbsent(table: seq<ExceptionRow>, run: string)
    requires forall i :: 0 <= i < |table| ==> table[i].runId != run
    ensures ExceptionsOf(table, run) == []
  {
    if table != [] {
      ExceptionsOfAbsent(table[..|table| - 1], run);
    }
  }

  lemma ThreeSourcesAreDistinct(ps: seq<Provider>)
    requires ThreeFrames(ps)
    ensures DistinctComparisons(PythonRows(ps))
  {
    var ss := ToSources(ps);
    forall i, j | 0 <= i < j < |ss| ensures ss[i].name != ss[j].name {
      NamesAreTyped(i);
      NamesAreTyped(j);
      if ss[i].name == ss[j].name {
        NamesDiffer(i, j);
      }
    }
    ComparisonsAreDistinct(HYBRID, ss);
  }

  /** The tables say about `run` what its reconciliation `rows` says. */
  ghost predicate Faithful(run: string, row: RunRow, results: seq<LongRow>, exceptions: seq<ExceptionRow>,
                           rows: seq<Comparison>)
  {
    && DistinctComparisons(rows)
    && row.matches == CountOf(rows, Match) && row.breaks == CountOf(rows, Break) && row.status == RunStatusOf(rows)
    && OfRun(results, run) == LongRows(run, rows)
    && AreExceptionsFor(run, ExceptionsOf(exceptions, run), rows)
  }

  lemma OtherRunKept(other: string, row: RunRow, results: seq<LongRow>, exceptions: seq<ExceptionRow>,
                     rows: seq<Comparison>, run: string, newResults: seq<LongRow>, newExceptions: seq<ExceptionRow>)
    requires Faithful(other, row, results, exceptions, rows) && other != run
    requires forall i :: 0 <= i < |newResults| ==> newResults[i].runId == run
    requires forall i :: 0 <= i < |newExceptions| ==> newExceptions[i].runId == run
    ensures Faithful(other, row, results + newResults, exceptions + newExceptions, rows)
  {
    OfRunConcat(results, newResults, other);
    OfRunUniform(newResults, run, other);
    ExceptionsOfConcat(exceptions, newExceptions, other);
    ExceptionsOfUniform(newExceptions, run, other);
  }

  lemma NewResultsOfRun(run: string, results: seq<LongRow>, rows: seq<Comparison>)
    requires forall i :: 0 <= i < |results| ==> results[i].runId != run
    ensures OfRun(results + LongRows(run, rows), run) == LongRows(run, rows)
  {
    LongRowsOwner(run, rows);
    OfRunConcat(results, LongRows(run, rows), run);
    OfRunUniform(LongRows(run, rows), run, run);
    OfRunAbsent(results, run);
  }

  lemma NewExceptionsOfRun(run: string, exceptions: seq<ExceptionRow>, es: seq<ExceptionRow>)
    requires forall i :: 0 <= i < |exceptions| ==> exceptions[i].runId != run
    requires forall i :: 0 <= i < |es| ==> es[i].runId == run
    ensures ExceptionsOf(exceptions + es, run) == es
  {
    ExceptionsOfConcat(exceptions, es, run);
    ExceptionsOfUniform(es, run, run);
    ExceptionsOfAbsent(exceptions, run);
  }

  lemma LoadedAfter(bars: seq<Staged>, run: string, ps: seq<Provider>)
    requires ThreeFrames(ps) && forall i :: 0 <= i < |bars| ==> bars[i].runId != run
    ensures Loaded(bars + StageAll(run, ps), run, ps)
  {
    forall t: Staged | t.runId == run
      ensures t in bars + StageAll(run, ps) <==> exists i: nat, j: nat :: IsRowOf(t, run, ps, i, j)
    {
      StageAllRows(run, ps, t);
    }
  }

  // ------------------------------------------------------------ the tables

  /** The contents of the four tables, and the frames and the reconciliation behind every stored run. */
  datatype Contents = Contents(
    runs: map<string, RunRow>, bars: seq<Staged>, results: seq<LongRow>, exceptions: seq<ExceptionRow>,
    sources: map<string, seq<Provider>>, committed: map<string, seq<Comparison>>)

  ghost predicate KeysHold(c: Contents) {
    DistinctBy(c.bars, BarKeyOf) && DistinctBy(c.results, ResultKeyOf) && DistinctBy(c.exceptions, IdOf)
  }

  /** No table mentions a run that is not stored. */
  ghost predicate NoOrphans(c: Contents) {
    && (forall i :: 0 <= i < |c.bars| ==> c.bars[i].runId in c.runs)
    && (forall i :: 0 <= i < |c.results| ==> c.results[i].runId in c.runs)
    && (forall i :: 0 <= i < |c.exceptions| ==>
          c.exceptions[i].runId in c.runs && c.exceptions[i].id.runId == c.exceptions[i].runId)
  }

  ghost predicate StoredFaithfully(c: Contents, run: string) {
    run in c.runs && run in c.committed && Faithful(run, c.runs[run], c.results, c.exceptions, c.committed[run])
  }

  ghost predicate AllStored(c: Contents) {
    && (forall run :: run in c.committed ==> run in c.runs)
    && (forall run :: run in c.runs ==> StoredFaithfully(c, run))
  }

  /** The staging table holds the run's three frames, and the stored reconciliation is theirs. */
  ghost predicate StagedFaithfully(c: Contents, run: string) {
    && run in c.sources && run in c.committed && ThreeFrames(c.sources[run])
    && Loaded(c.bars, run, c.sources[run]) && c.committed[run] == PythonRows(c.sources[run])
    && run in c.runs && CountsRows(c.runs[run], c.sources[run])
  }

  /** The row of `pipeline_runs` has the number of rows of each frame. */
  predicate CountsRows(row: RunRow, ps: seq<Provider>) {
    |row.rowCounts| == |ps| && forall i :: 0 <= i < |ps| ==> row.rowCounts[i] == |ps[i].rows|
  }

  ghost predicate AllStaged(c: Contents) {
    forall run :: run in c.runs ==> StagedFaithfully(c, run)
  }

  /** Every run is stored completely or not at all. */
  ghost predicate Consistent(c: Contents) {
    KeysHold(c) && NoOrphans(c) && AllStored(c) && AllStaged(c)
  }

  /** The tables with one more run. */
  function WithRun(c: Contents, run: string, row: RunRow, ps: seq<Provider>, rows: seq<Comparison>,
                   es: seq<ExceptionRow>): Contents
    requires |ps| == 3 && AllFramesValid(ps)
  {
    Contents(c.runs[run := row], c.bars + StageAll(run, ps), c.results + LongRows(run, rows), c.exceptions + es,
             c.sources[run := ps], c.committed[run := rows])
  }

  lemma NewBarsFit(c: Contents, run: string, ps: seq<Provider>)
    requires KeysHold(c) && NoOrphans(c) && run !in c.runs && ThreeFrames(ps)
    ensures DistinctBy(c.bars + StageAll(run, ps), BarKeyOf)
  {
    StagedKeysDiffer(run, ps);
    StagedOwner(run, ps);
    DistinctByTail(c.bars, StageAll(run, ps), BarKeyOf);
  }

  lemma NewResultsFit(c: Contents, run: string, rows: seq<Comparison>)
    requires KeysHold(c) && NoOrphans(c) && run !in c.runs && DistinctComparisons(rows)
    ensures DistinctBy(c.results + LongRows(run, rows), ResultKeyOf)
  {
    DistinctLongRows(run, rows);
    LongRowsOwner(run, rows);
    DistinctByTail(c.results, LongRows(run, rows), ResultKeyOf);
  }

  lemma NewExceptionsFit(c: Contents, run: string, rows: seq<Comparison>, es: seq<ExceptionRow>)
    requires KeysHold(c) && NoOrphans(c) && run !in c.runs && DistinctComparisons(rows)
        && AreExceptionsFor(run, es, rows)
    ensures DistinctBy(c.exceptions + es, IdOf)
  {
    ExceptionsAreDistinct(run, es, rows);
    DistinctByTail(c.exceptions, es, IdOf);
  }

  /** Nothing a validated reconciliation brings can collide with what other runs have stored. */
  lemma NewRowsFit(c: Contents, run: string, row: RunRow, ps: seq<Provider>, rows: seq<Comparison>,
                   es: seq<ExceptionRow>)
    requires KeysHold(c) && NoOrphans(c) && run !in c.runs && ThreeFrames(ps)
    requires DistinctComparisons(rows) && AreExceptionsFor(run, es, rows)
    ensures KeysHold(WithRun(c, run, row, ps, rows, es)) && NoOrphans(WithRun(c, run, row, ps, rows, es))
  {
    StagedOwner(run, ps);
    LongRowsOwner(run, rows);
    NewBarsFit(c, run, ps);
    NewResultsFit(c, run, rows);
    NewExceptionsFit(c, run, rows, es);
  }

  /** The row of `pipeline_runs` for a reconciliation. */
  predicate Summarizes(row: RunRow, rows: seq<Comparison>) {
    row.matches == CountOf(rows, Match) && row.breaks == CountOf(rows, Break) && row.status == RunStatusOf(rows)
  }

  lemma NewRunStored(c: Contents, run: string, row: RunRow, ps: seq<Provider>, rows: seq<Comparison>,
                     es: seq<ExceptionRow>)
    requires NoOrphans(c) && run !in c.runs && Summarizes(row, rows) && ThreeFrames(ps)
    requires DistinctComparisons(rows) && AreExceptionsFor(run, es, rows)
    ensures StoredFaithfully(WithRun(c, run, row, ps, rows, es), run)
  {
    NewResultsOfRun(run, c.results, rows);
    NewExceptionsOfRun(run, c.exceptions, es);
  }

  lemma OtherRunStored(c: Contents, other: string, run: string, row: RunRow, ps: seq<Provider>, rows: seq<Comparison>,
                       es: seq<ExceptionRow>)
    requires other != run && StoredFaithfully(c, other) && ThreeFrames(ps)
    requires AreExceptionsFor(run, es, rows)
    ensures StoredFaithfully(WithRun(c, run, row, ps, rows, es), other)
  {
    LongRowsOwner(run, rows);
    OtherRunKept(other, c.runs[other], c.results, c.exceptions, c.committed[other], run, LongRows(run, rows), es);
  }

  lemma AllStoredAfter(c: Contents, run: string, row: RunRow, ps: seq<Provider>, rows: seq<Comparison>,
                       es: seq<ExceptionRow>)
    requires NoOrphans(c) && AllStored(c) && run !in c.runs && Summarizes(row, rows) && ThreeFrames(ps)
    requires DistinctComparisons(rows) && AreExceptionsFor(run, es, rows)
    ensures AllStored(WithRun(c, run, row, ps, rows, es))
  {
    NewRunStored(c, run, row, ps, rows, es);
    forall other | other in c.runs ensures StoredFaithfully(WithRun(c, run, row, ps, rows, es), other) {
      OtherRunStored(c, other, run, row, ps, rows, es);
    }
  }

  lemma OtherRunLoaded(bars: seq<Staged>, newBars: seq<Staged>, other: string, run: string, ps: seq<Provider>)
    requires ThreeFrames(ps) && Loaded(bars, other, ps) && other != run
    requires forall i :: 0 <= i < |newBars| ==> newBars[i].runId == run
    ensures Loaded(bars + newBars, other, ps)
  {
    forall t: Staged | t.runId == other ensures t in bars + newBars <==> t in bars {
    }
  }

  lemma AllStagedAfter(c: Contents, run: string, row: RunRow, ps: seq<Provider>, rows: seq<Comparison>,
                       es: seq<ExceptionRow>)
    requires NoOrphans(c) && AllStaged(c) && run !in c.runs && ThreeFrames(ps) && rows == PythonRows(ps)
    requires CountsRows(row, ps)
    ensures AllStaged(WithRun(c, run, row, ps, rows, es))
  {
    StagedOwner(run, ps);
    LoadedAfter(c.bars, run, ps);
    forall other | other in c.runs ensures StagedFaithfully(WithRun(c, run, row, ps, rows, es), other) {
      OtherRunLoaded(c.bars, StageAll(run, ps), other, run, c.sources[other]);
    }
  }

  /** Storing a new run of a validated reconciliation breaks no key and keeps the tables consistent. */
  lemma CommitKeepsConsistent(c: Contents, run: string, row: RunRow, ps: seq<Provider>, rows: seq<Comparison>,
                              es: seq<ExceptionRow>)
    requires Consistent(c) && run !in c.runs && Summarizes(row, rows) && CountsRows(row, ps)
    requires ThreeFrames(ps) && rows == PythonRows(ps) && AreExceptionsFor(run, es, rows)
    ensures Consistent(WithRun(c, run, row, ps, rows, es))
  {
    ThreeSourcesAreDistinct(ps);
    NewRowsFit(c, run, row, ps, rows, es);
    AllStoredAfter(c, run, row, ps, rows, es);
    AllStagedAfter(c, run, row, ps, rows, es);
  }

  /** The inserts of a transaction succeed: within the budget, and no key is repeated. */
  ghost predicate Fits(c: Contents, newBars: seq<Staged>, newResults: seq<LongRow>, newExceptions: seq<ExceptionRow>,
                       budget: nat)
  {
    && |newBars| + |newResults| + |newExceptions| <= budget
    && DistinctBy(c.bars + newBars, BarKeyOf)
    && DistinctBy(c.results + newResults, ResultKeyOf)
    && DistinctBy(c.exceptions + newExceptions, IdOf)
  }

  /** The row of `pipeline_runs` that `main` writes. */
  function Summary(ps: seq<Provider>, rows: seq<Comparison>): RunRow
    requires |ps| == 3
  {
    RunRow(RunStatusOf(rows), [|ps[0].rows|, |ps[1].rows|, |ps[2].rows|], CountOf(rows, Match), CountOf(rows, Break))
  }

  /** A new run can be stored if the engine holds out, and leaves the tables consistent. */
  lemma ReadyToCommit(c: Contents, run: string, ps: seq<Provider>, rows: seq<Comparison>, es: seq<ExceptionRow>,
                      budget: nat)
    requires Consistent(c) && run !in c.runs
    requires ThreeFrames(ps) && rows == PythonRows(ps) && AreExceptionsFor(run, es, rows)
    ensures Consistent(WithRun(c, run, Summary(ps, rows), ps, rows, es))
    ensures Fits(c, StageAll(run, ps), LongRows(run, rows), es, budget)
            <==> |StageAll(run, ps)| + 2 * |rows| + CountOf(rows, Break) <= budget
  {
    CommitKeepsConsistent(c, run, Summary(ps, rows), ps, rows, es);
    LongRowsLength(run, rows);
    BreaksAre(rows);
    assert KeysHold(WithRun(c, run, Summary(ps, rows), ps, rows, es));
  }

  class Tables {
    var runs: map<string, RunRow>
    var bars: seq<Staged>
    var results: seq<LongRow>
    var exceptions: seq<ExceptionRow>
    ghost var sources: map<string, seq<Provider>>
    ghost var committed: map<string, seq<Comparison>>

    ghost function View(): Contents
      reads this
    {
      Contents(runs, bars, results, exceptions, sources, committed)
    }

    constructor ()
      ensures Consistent(View()) && runs == map[]
    {
      runs, bars, results, exceptions := map[], [], [], [];
      sources, committed := map[], map[];
    }

    /**
     `persist_equity_run`: one transaction of four inserts. `budget` bounds the rows the engine
     accepts before it fails.
     */
    method PersistEquityRun(run: string, row: RunRow, newBars: seq<Staged>, rows: seq<Comparison>,
                            newExceptions: seq<ExceptionRow>, budget: nat)
      returns (outcome: PersistOutcome)
      requires KeysHold(View())
      modifies this`runs, this`bars, this`results, this`exceptions
      ensures KeysHold(View())
      ensures outcome == AlreadyStored <==> run in old(runs)
      ensures outcome == Stored <==>
                run !in old(runs) && Fits(old(View()), newBars, LongRows(run, rows), newExceptions, budget)
      ensures outcome == Stored ==>
                && runs == old(runs)[run := row] && bars == old(bars) + newBars
                && results == old(results) + LongRows(run, rows) && exceptions == old(exceptions) + newExceptions
      ensures outcome != Stored ==> View() == old(View())
    {
      var resultRows := ReconciliationRows(run, rows);
      if run in runs {
        return AlreadyStored;
      }
      var before := (runs, bars, results, exceptions);
      runs := runs[run := row];
      var ok, left;
      ok, bars, left := InsertMany(bars, newBars, BarKeyOf, budget);
      if ok {
        ok, results, left := InsertMany(results, resultRows, ResultKeyOf, left);
      }
      if ok {
        ok, exceptions, left := InsertMany(exceptions, newExceptions, IdOf, left);
      }
      if !ok {
        runs, bars, results, exceptions := before.0, before.1, before.2, before.3;
        return RolledBack;
      }
      return Stored;
    }

    /** The transaction of a prepared run: complete, or no change. */
    method StoreRun(run: string, row: RunRow, ps: seq<Provider>, rows: seq<Comparison>, es: seq<ExceptionRow>,
                    budget: nat)
      returns (outcome: PersistOutcome)
      requires KeysHold(View()) && |ps| == 3 && AllFramesValid(ps)
      modifies this
      ensures outcome == AlreadyStored <==> run in old(runs)
      ensures outcome == Stored <==>
                run !in old(runs) && Fits(old(View()), StageAll(run, ps), LongRows(run, rows), es, budget)
      ensures View() == if outcome == Stored then WithRun(old(View()), run, row, ps, rows, es) else old(View())
    {
      outcome := PersistEquityRun(run, row, StageAll(run, ps), rows, es, budget);
      if outcome == Stored {
        sources, committed := sources[run := ps], committed[run := rows];
      }
    }

    /**
     The end of `main`: counts, status and exceptions of the reconciliation, then the transaction.
     Without an engine failure a new run is stored.
     */
    method CommitRun(run: string, ps: seq<Provider>, rows: seq<Comparison>, clock: nat -> int, budget: nat)
      returns (outcome: PersistOutcome, ghost es: seq<ExceptionRow>)
      requires Consistent(View()) && ThreeFrames(ps) && Reconcile(HYBRID, ps) == Ok(rows)
      modifies this
      ensures Consistent(View()) && AreExceptionsFor(run, es, rows)
      ensures exists places :: ReportAll(es, run, rows, places)
      ensures outcome == AlreadyStored <==> run in old(runs)
      ensures run !in old(runs) && |StageAll(run, ps)| + 2 * |rows| + CountOf(rows, Break) <= budget
          <==> outcome == Stored
      ensures View() == if outcome == Stored then WithRun(old(View()), run, Summary(ps, rows), ps, rows, es)
                        else old(View())
    {
      var created := CreateEquityExceptions(run, rows, clock);
      es := created;
      forall r | r in rows && r.status == Break ensures r.reason == Some(ReasonCode(r)) {
        BreakHasReason(rows, ps, r);
      }
      ghost var places := ExceptionsReport(es, run, rows);
      if run !in runs {
        ReadyToCommit(View(), run, ps, rows, es, budget);
      }
      outcome := StoreRun(run, Summary(ps, rows), ps, rows, created, budget);
    }
  }

  // ------------------------------------------------------------ what every stored run obeys

  /** The staged rows of one source. */
  ghost function StagedOf(bars: seq<Staged>, run: string, source: string): set<Staged> {
    set t | t in bars && t.runId == run && t.source == source
  }

  lemma StagedAreCounted(bars: seq<Staged>, run: string, ps: seq<Provider>, i: nat)
    requires ThreeFrames(ps) && Loaded(bars, run, ps) && i < 3
    ensures |StagedOf(bars, run, NAMES[i])| == |ps[i].rows|
  {
    var staged := StageFrame(run, NAMES[i], ps[i].rows);
    forall t | t in StagedOf(bars, run, NAMES[i]) ensures t in staged {
      var m: nat, j: nat :| IsRowOf(t, run, ps, m, j);
      NamesDiffer(m, i);
      assert staged[j] == t;
    }
    forall t | t in staged ensures t in StagedOf(bars, run, NAMES[i]) {
      var j :| 0 <= j < |staged| && staged[j] == t;
      assert IsRowOf(t, run, ps, i, j);
    }
    FrameKeysDiffer(run, NAMES[i], ps[i].rows);
    DistinctElements(staged, BarKeyOf);
    assert StagedOf(bars, run, NAMES[i]) == Elements(staged);
  }

  /** Counts, rows and exceptions of a stored run, in every state that commits can reach. */
  lemma StoredRunCounts(c: Contents, run: string)
    requires Consistent(c) && run in c.runs
    ensures var rows := c.committed[run];
            && |OfRun(c.results, run)| == 2 * |rows|
            && c.runs[run].matches == CountOf(rows, Match) && c.runs[run].breaks == CountOf(rows, Break)
            && |ExceptionsOf(c.exceptions, run)| == c.runs[run].breaks
            && DistinctBy(ExceptionsOf(c.exceptions, run), IdOf)
            && (c.runs[run].status == Clean <==> ExceptionsOf(c.exceptions, run) == [])
            && c.runs[run].matches == |Places(rows, Match)| && c.runs[run].breaks == |Places(rows, Break)|
            && |c.runs[run].rowCounts| == 3
            && forall i :: 0 <= i < 3 ==> c.runs[run].rowCounts[i] == |StagedOf(c.bars, run, NAMES[i])|
  {
    assert StoredFaithfully(c, run) && StagedFaithfully(c, run);
    CountIs(c.committed[run], Match);
    CountIs(c.committed[run], Break);
    forall i | 0 <= i < 3 ensures |StagedOf(c.bars, run, NAMES[i])| == c.runs[run].rowCounts[i] {
      StagedAreCounted(c.bars, run, c.sources[run], i);
    }
    LongRowsLength(run, c.committed[run]);
    BreaksAre(c.committed[run]);
    ExceptionsAreDistinct(run, ExceptionsOf(c.exceptions, run), c.committed[run]);
  }

  /** The exception reports the comparison: its sides and difference, why, and a day to resolve it. */
  predicate ReportsBreak(e: ExceptionRow, run: string, c: Comparison) {
    && c.status == Break && c.reason == Some(e.reason)
    && e.runId == run && e.pair.key == c.key && e.pair.sourceA == c.sourceA && e.pair.sourceB == c.sourceB
    && e.closeA == c.closeA && e.closeB == c.closeB && e.difference == c.closeDifference
    && e.dueAt == e.createdAt + 24 * 60 * 60
  }

  lemma BreakHasReason(rows: seq<Comparison>, ps: seq<Provider>, c: Comparison)
    requires ThreeFrames(ps) && rows == PythonRows(ps) && c in rows && c.status == Break
    ensures c.reason == Some(ReasonCode(c))
  {
    PythonRowsAre(ps, c);
  }

  /** The places of the BREAK rows, in order. */
  lemma {:induction false} BreakPlaces(rows: seq<Comparison>) returns (places: seq<nat>)
    ensures |places| == |Breaks(rows)|
    ensures forall k :: 0 <= k < |places| ==> places[k] < |rows| && rows[places[k]] == Breaks(rows)[k]
    ensures forall j, k :: 0 <= j < k < |places| ==> places[j] < places[k]
    ensures forall i :: 0 <= i < |rows| && rows[i].status == Break ==> i in places
  {
    if rows == [] {
      places := [];
    } else {
      var n := |rows| - 1;
      var before := BreakPlaces(rows[..n]);
      places := before + if rows[n].status.Break? then [n] else [];
      forall i | 0 <= i < |rows| && rows[i].status == Break ensures i in places {
        assert i < n ==> rows[..n][i] == rows[i];
      }
    }
  }

  /** One exception for each BREAK row, in the rows' order, and each reports its row. */
  ghost predicate ReportAll(es: seq<ExceptionRow>, run: string, rows: seq<Comparison>, places: seq<nat>) {
    && |places| == |es|
    && (forall k :: 0 <= k < |es| ==> places[k] < |rows| && ReportsBreak(es[k], run, rows[places[k]]))
    && (forall j, k :: 0 <= j < k < |places| ==> places[j] < places[k])
    && (forall i :: 0 <= i < |rows| && rows[i].status == Break ==> i in places)
  }

  lemma ExceptionsReport(es: seq<ExceptionRow>, run: string, rows: seq<Comparison>) returns (places: seq<nat>)
    requires AreExceptionsFor(run, es, rows)
    requires forall c :: c in rows && c.status == Break ==> c.reason == Some(ReasonCode(c))
    ensures ReportAll(es, run, rows, places)
  {
    places := BreakPlaces(rows);
    BreaksAre(rows);
    forall k | 0 <= k < |es| ensures ReportsBreak(es[k], run, rows[places[k]]) {
      assert IsExceptionFor(run, es[k], Breaks(rows)[k]);
      assert Breaks(rows)[k] in Breaks(rows);
    }
  }

  lemma StoredExceptionsReport(c: Contents, run: string) returns (places: seq<nat>)
    requires Consistent(c) && run in c.runs
    ensures run in c.committed && ReportAll(ExceptionsOf(c.exceptions, run), run, c.committed[run], places)
  {
    assert StoredFaithfully(c, run) && StagedFaithfully(c, run);
    var rows := c.committed[run];
    forall r | r in rows && r.status == Break ensures r.reason == Some(ReasonCode(r)) {
      BreakHasReason(rows, c.sources[run], r);
    }
    places := ExceptionsReport(ExceptionsOf(c.exceptions, run), run, rows);
  }

  /** The API's pivot of a stored run is the reconciliation that was committed. */
  lemma ApiReturnsCommittedRows(c: Contents, run: string)
    requires Consistent(c) && run in c.runs
    ensures forall r :: InPivot(c.results, run, r) <==> r in c.committed[run]
  {
    assert StoredFaithfully(c, run);
    PivotUndoesLongForm(c.results, run, c.committed[run]);
  }
}
