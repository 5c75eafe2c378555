/**
 The dbt models `stg_equity_bars`, `int_equity_pairs` and `fct_equity_reconciliation` as relations
 over the staging table, and when they agree with the Python reconciliation.
 */
module DbtModel {
  import opened Wrappers
  import opened Text
  import opened Equities
  import opened Reconciliation
  import opened ProviderPairs

  /** A row of `equity_bars_staging`. */
  datatype Staged = Staged(
    runId: string, source: string, symbol: string, day: int,
    open: real, high: real, low: real, close: real, volume: real)

  // ------------------------------------------------------------ stg_equity_bars

  function Typed(t: Staged): Staged {
    t.(source := Upper(SqlTrim(t.source)), symbol := SqlTrim(t.symbol))
  }

  /** Staging trims the spaces around source and symbol, upper-cases the source, and keeps everything else. */
  lemma TypedIff(t: Staged, u: Staged)
    ensures t == Typed(u)
            <==> (exists name :: WithoutSpaces(name, u.source) && IsUpper(t.source, name))
                 && WithoutSpaces(t.symbol, u.symbol) && t.runId == u.runId && t.day == u.day
                 && t.open == u.open && t.high == u.high && t.low == u.low
                 && t.close == u.close && t.volume == u.volume
  {
    SqlTrimIff(t.symbol, u.symbol);
    SqlTrimIff(SqlTrim(u.source), u.source);
    UpperIff(t.source, SqlTrim(u.source));
    if name :| WithoutSpaces(name, u.source) && IsUpper(t.source, name) {
      SqlTrimIff(name, u.source);
    }
  }

  predicate SameBusinessKey(t: Staged, u: Staged) {
    t.runId == u.runId && t.source == u.source && t.symbol == u.symbol && t.day == u.day
  }

  /** `t` does not come after `u` in the duplicate ranking. */
  predicate RanksFirst(t: Staged, u: Staged) {
    if t.close != u.close then t.close > u.close
    else if t.volume != u.volume then t.volume > u.volume
    else if t.open != u.open then t.open > u.open
    else if t.high != u.high then t.high > u.high
    else t.low >= u.low
  }

  /** `t` is the row of `stg_equity_bars` for its business key. */
  ghost predicate InStaging(table: seq<Staged>, t: Staged) {
    && (exists u :: u in table && t == Typed(u))
    && (forall u :: u in table && SameBusinessKey(t, Typed(u)) ==> RanksFirst(t, Typed(u)))
  }

  /** Whatever the table holds, a business key has at most one row after staging. */
  lemma StagingIsUnique(table: seq<Staged>, t: Staged, u: Staged)
    requires InStaging(table, t) && InStaging(table, u) && SameBusinessKey(t, u)
    ensures t == u
  {
    assert RanksFirst(t, u) && RanksFirst(u, t);
  }

  /** The staged row has the greatest close of its business key, among those the greatest volume, and so on. */
  lemma StagedIsGreatest(table: seq<Staged>, t: Staged, u: Staged)
    requires InStaging(table, t) && u in table && SameBusinessKey(t, Typed(u))
    ensures t.close >= u.close
    ensures t.close == u.close ==> t.volume >= u.volume
    ensures t.close == u.close && t.volume == u.volume ==> t.open >= u.open
    ensures t.close == u.close && t.volume == u.volume && t.open == u.open ==> t.high >= u.high
    ensures t.close == u.close && t.volume == u.volume && t.open == u.open && t.high == u.high ==> t.low >= u.low
  {
    assert RanksFirst(t, Typed(u));
  }

  lemma {:induction false} BestOf(table: seq<Staged>, u: Staged) returns (v: Staged)
    ensures (v == u || v in table) && SameBusinessKey(Typed(v), Typed(u)) && RanksFirst(Typed(v), Typed(u))
    ensures forall x :: x in table && SameBusinessKey(Typed(u), Typed(x)) ==> RanksFirst(Typed(v), Typed(x))
  {
    v := u;
    if table != [] {
      var last := table[|table| - 1];
      v := BestOf(table[..|table| - 1], u);
      if SameBusinessKey(Typed(u), Typed(last)) && !RanksFirst(Typed(v), Typed(last)) {
        v := last;
      }
    }
  }

  /** Every row's business key has a row after staging. */
  lemma StagingKeepsKeys(table: seq<Staged>, u: Staged) returns (t: Staged)
    requires u in table
    ensures InStaging(table, t) && SameBusinessKey(t, Typed(u))
  {
    var v := BestOf(table, u);
    t := Typed(v);
  }

  // ------------------------------------------------------------ int_equity_pairs

  const PROVIDER_PAIRS: seq<(string, string)> := [("YAHOO", "ALPACA"), ("YAHOO", "MASSIVE"), ("ALPACA", "MASSIVE")]

  predicate Belongs(t: Staged, run: string, k: Key) {
    t.runId == run && t.symbol == k.symbol && t.day == k.day
  }

  ghost predicate IsBusinessKey(table: seq<Staged>, run: string, k: Key) {
    exists t :: InStaging(table, t) && Belongs(t, run, k)
  }

  /** One result of left-joining the expected comparison with staging on one source. */
  ghost predicate LeftJoins(table: seq<Staged>, run: string, k: Key, source: string, side: Option<Staged>) {
    match side
    case Some(t) => InStaging(table, t) && Belongs(t, run, k) && t.source == source
    case None => forall t :: InStaging(table, t) && Belongs(t, run, k) ==> t.source != source
  }

  // ------------------------------------------------------------ fct_equity_reconciliation

  function SqlStatus(a: Option<real>, b: Option<real>): Status {
    if a.None? || b.None? then Break
    else if Abs(a.value - b.value) > Max(0.05, Max(Abs(a.value), Abs(b.value)) * 0.005) then Break
    else if Abs(a.value - b.value) > Max(0.01, Max(Abs(a.value), Abs(b.value)) * 0.001) then Warn
    else Match
  }

  function SqlReason(sourceA: string, sourceB: string, a: Option<real>, b: Option<real>): Option<string> {
    if a.None? then Some("MISSING_" + sourceA + "_OBSERVATION")
    else if b.None? then Some("MISSING_" + sourceB + "_OBSERVATION")
    else if Abs(a.value - b.value) > Max(0.05, Max(Abs(a.value), Abs(b.value)) * 0.005) then Some("PRICE_DIFFERENCE")
    else None
  }

  function StagedClose(t: Option<Staged>): Option<real> {
    if t.Some? then Some(t.value.close) else None
  }

  function StagedVolume(t: Option<Staged>): Option<real> {
    if t.Some? then Some(t.value.volume) else None
  }

  function FactRow(k: Key, sourceA: string, sourceB: string, a: Option<Staged>, b: Option<Staged>): Comparison {
    var ca, cb := StagedClose(a), StagedClose(b);
    Comparison(k, sourceA, sourceB, ca, cb, Minus(ca, cb),
               StagedVolume(a), StagedVolume(b), Minus(StagedVolume(a), StagedVolume(b)),
               SqlStatus(ca, cb), SqlReason(sourceA, sourceB, ca, cb))
  }

  /** `c` is a row of the fact model for run `run`. */
  ghost predicate InFact(table: seq<Staged>, run: string, c: Comparison) {
    && (c.sourceA, c.sourceB) in PROVIDER_PAIRS
    && IsBusinessKey(table, run, c.key)
    && exists a, b ::
         && LeftJoins(table, run, c.key, c.sourceA, a) && LeftJoins(table, run, c.key, c.sourceB, b)
         && c == FactRow(c.key, c.sourceA, c.sourceB, a, b)
  }

  /** What a fact says about its own columns: differences, the model's limits, and who is missing. */
  predicate JudgedFact(c: Comparison) {
    if c.closeA.None? then JudgedMissing(c, c.sourceA)
    else if c.closeB.None? then JudgedMissing(c, c.sourceB)
    else
      && c.closeDifference == Some(c.closeA.value - c.closeB.value)
      && c.volumeA.Some? && c.volumeB.Some? && c.volumeDifference == Some(c.volumeA.value - c.volumeB.value)
      && IsDailyStatus(c.status, c.closeA.value, c.closeB.value)
      && c.reason == if c.status == Break then Some("PRICE_DIFFERENCE") else None
  }

  lemma SqlStatusIs(status: Status, a: real, b: real)
    ensures status == SqlStatus(Some(a), Some(b)) <==> IsDailyStatus(status, a, b)
  {
    BeyondIff(a, b, 0.05, Some(0.005));
    BeyondIff(a, b, 0.01, Some(0.001));
  }

  lemma FactRowIff(c: Comparison, a: Option<Staged>, b: Option<Staged>)
    ensures c == FactRow(c.key, c.sourceA, c.sourceB, a, b)
            <==> c.closeA == StagedClose(a) && c.volumeA == StagedVolume(a)
                 && c.closeB == StagedClose(b) && c.volumeB == StagedVolume(b) && JudgedFact(c)
  {
    if a.Some? && b.Some? {
      SqlStatusIs(c.status, a.value.close, b.value.close);
      SqlStatusIs(SqlStatus(Some(a.value.close), Some(b.value.close)), a.value.close, b.value.close);
    }
  }

  /** Whatever the table holds, a fact's differences, status and reason follow from its closes and volumes. */
  lemma FactIsJudged(table: seq<Staged>, run: string, c: Comparison)
    requires InFact(table, run, c)
    ensures JudgedFact(c)
  {
    var a, b :| LeftJoins(table, run, c.key, c.sourceA, a) && LeftJoins(table, run, c.key, c.sourceB, b)
                && c == FactRow(c.key, c.sourceA, c.sourceB, a, b);
    FactRowIff(c, a, b);
  }

  /** One fact per business key and provider pair. */
  lemma FactIsUnique(table: seq<Staged>, run: string, c: Comparison, d: Comparison)
    requires InFact(table, run, c) && InFact(table, run, d) && KeyOf(c) == KeyOf(d)
    ensures c == d
  {
    var a, b :| LeftJoins(table, run, c.key, c.sourceA, a) && LeftJoins(table, run, c.key, c.sourceB, b)
                && c == FactRow(c.key, c.sourceA, c.sourceB, a, b);
    var a', b' :| LeftJoins(table, run, d.key, d.sourceA, a') && LeftJoins(table, run, d.key, d.sourceB, b')
                  && d == FactRow(d.key, d.sourceA, d.sourceB, a', b');
    LeftJoinIsUnique(table, run, c.key, c.sourceA, a, a');
    LeftJoinIsUnique(table, run, c.key, c.sourceB, b, b');
  }

  lemma LeftJoinIsUnique(table: seq<Staged>, run: string, k: Key, source: string, a: Option<Staged>, a': Option<Staged>)
    requires LeftJoins(table, run, k, source, a) && LeftJoins(table, run, k, source, a')
    ensures a == a'
  {
    if a.Some? && a'.Some? {
      StagingIsUnique(table, a.value, a'.value);
    }
  }

  // ------------------------------------------------------------ a loaded run

  const NAMES: seq<string> := ["YAHOO", "ALPACA", "MASSIVE"]

  /** `_equity_bar_rows`: the symbol goes into the table as the frame has it. */
  function Stage(run: string, name: string, r: Row): Staged
    requires ValidRow(r)
  {
    Staged(run, name, r.symbol.value, ToDay(r.time).day, r.open.value, r.high.value, r.low.value, r.close.value,
           r.volume.value)
  }

  /** The stored row has the cells of the frame's row: its symbol as spelled, its day and its five values. */
  lemma StageIff(t: Staged, run: string, name: string, r: Row)
    requires ValidRow(r)
    ensures t == Stage(run, name, r)
            <==> t.runId == run && t.source == name && r.symbol == Some(t.symbol) && OnDay(r.time, t.day)
                 && r.open == Number(t.open) && r.high == Number(t.high) && r.low == Number(t.low)
                 && r.close == Number(t.close) && r.volume == Number(t.volume)
  {
    DayIs(r.time, t.day);
  }

  /** The three validated frames of a run, in the batch's order. */
  ghost predicate ThreeFrames(ps: seq<Provider>) {
    && |ps| == 3 && AllFramesValid(ps)
    && forall i :: 0 <= i < 3 ==> ps[i].name == NAMES[i]
  }

  ghost predicate IsRowOf(t: Staged, run: string, ps: seq<Provider>, i: nat, j: nat)
    requires ThreeFrames(ps)
  {
    i < 3 && j < |ps[i].rows| && (assert ValidRow(ps[i].rows[j]); t == Stage(run, NAMES[i], ps[i].rows[j]))
  }

  /** The table's rows of `run` are those of the three frames; rows of other runs are arbitrary. */
  ghost predicate Loaded(table: seq<Staged>, run: string, ps: seq<Provider>)
    requires ThreeFrames(ps)
  {
    forall t: Staged :: t.runId == run ==> (t in table <==> exists i: nat, j: nat :: IsRowOf(t, run, ps, i, j))
  }

  /** The symbol reaches SQL in the spelling Python gives it. */
  predicate CanonicalSymbol(r: Row) {
    r.symbol.Some? ==> SqlTrim(r.symbol.value) == Canon(r.symbol.value)
  }

  ghost predicate CanonicalSymbols(ps: seq<Provider>) {
    forall i, j :: 0 <= i < |ps| && 0 <= j < |ps[i].rows| ==> CanonicalSymbol(ps[i].rows[j])
  }

  lemma NamesAreTyped(i: nat)
    requires i < 3
    ensures Upper(SqlTrim(NAMES[i])) == NAMES[i] && Upper(NAMES[i]) == NAMES[i]
  {
    assert forall c :: c in NAMES[i] ==> UpperChar(c) == c && c != ' ';
    TrimIs(NAMES[i], SPACES, 0, |NAMES[i]|);
    assert Upper(NAMES[i]) == NAMES[i];
  }

  /** A staged row of the run, after typing. */
  function TypedRow(run: string, name: string, r: Row): Staged
    requires ValidRow(r)
  {
    Stage(run, name, r).(symbol := SqlTrim(r.symbol.value))
  }

  lemma TypedIs(run: string, i: nat, r: Row)
    requires i < 3 && ValidRow(r)
    ensures Typed(Stage(run, NAMES[i], r)) == TypedRow(run, NAMES[i], r)
  {
    NamesAreTyped(i);
  }

  /** Validation leaves nothing for the duplicate ranking to do. */
  lemma RowsAreStaged(table: seq<Staged>, run: string, ps: seq<Provider>, i: nat, j: nat)
    requires ThreeFrames(ps) && Loaded(table, run, ps) && i < 3 && j < |ps[i].rows|
    ensures InStaging(table, TypedRow(run, NAMES[i], ps[i].rows[j]))
  {
    var r := ps[i].rows[j];
    var s := Stage(run, NAMES[i], r);
    var t := TypedRow(run, NAMES[i], r);
    TypedIs(run, i, r);
    assert IsRowOf(s, run, ps, i, j);
    assert s in table;
    forall u | u in table && SameBusinessKey(t, Typed(u)) ensures RanksFirst(t, Typed(u)) {
      var i': nat, j': nat :| IsRowOf(u, run, ps, i', j');
      var r' := ps[i'].rows[j'];
      TypedIs(run, i', r');
      assert i' == i;
      CanonAfterSqlTrim(r.symbol.value);
      CanonAfterSqlTrim(r'.symbol.value);
      assert ToBars(ps[i].rows)[j].key == ToBars(ps[i].rows)[j'].key;
      assert j == j';
    }
  }

  lemma StagedComesFromRow(table: seq<Staged>, run: string, ps: seq<Provider>, t: Staged) returns (i: nat, j: nat)
    requires ThreeFrames(ps) && Loaded(table, run, ps) && InStaging(table, t) && t.runId == run
    ensures i < 3 && j < |ps[i].rows| && ValidRow(ps[i].rows[j]) && t == TypedRow(run, NAMES[i], ps[i].rows[j])
  {
    var u :| u in table && t == Typed(u);
    i, j :| IsRowOf(u, run, ps, i, j);
    TypedIs(run, i, ps[i].rows[j]);
  }

  // ------------------------------------------------------------ the join, provider by provider

  function BarsOf(ps: seq<Provider>, i: nat): seq<Bar>
    requires i < |ps| && ValidFrame(ps[i].rows)
  {
    ToBars(ps[i].rows)
  }

  lemma NamesDiffer(i: nat, j: nat)
    requires i < 3 && j < 3 && NAMES[i] == NAMES[j]
    ensures i == j
  {
    assert NAMES[0][0] == 'Y' && NAMES[1][0] == 'A' && NAMES[2][0] == 'M';
  }

  /** With canonical symbols a staged row is filed under the key of its bar. */
  lemma StagedKey(table: seq<Staged>, run: string, ps: seq<Provider>, t: Staged, k: Key) returns (i: nat, j: nat)
    requires ThreeFrames(ps) && Loaded(table, run, ps) && CanonicalSymbols(ps)
    requires InStaging(table, t) && Belongs(t, run, k)
    ensures i < 3 && j < |ps[i].rows| && ValidRow(ps[i].rows[j])
    ensures t.source == NAMES[i] && BarsOf(ps, i)[j].key == k && At(BarsOf(ps, i), k) == Some(BarsOf(ps, i)[j])
    ensures t.close == BarsOf(ps, i)[j].close && t.volume == BarsOf(ps, i)[j].volume
  {
    i, j := StagedComesFromRow(table, run, ps, t);
    assert CanonicalSymbol(ps[i].rows[j]);
    AtUnique(BarsOf(ps, i), j);
  }

  /** The staged row of a bar. */
  lemma BarIsStaged(table: seq<Staged>, run: string, ps: seq<Provider>, i: nat, k: Key) returns (t: Staged)
    requires ThreeFrames(ps) && Loaded(table, run, ps) && CanonicalSymbols(ps) && i < 3
    requires At(BarsOf(ps, i), k).Some?
    ensures InStaging(table, t) && Belongs(t, run, k) && t.source == NAMES[i]
  {
    var j :| 0 <= j < |BarsOf(ps, i)| && BarsOf(ps, i)[j] == At(BarsOf(ps, i), k).value;
    RowsAreStaged(table, run, ps, i, j);
    assert CanonicalSymbol(ps[i].rows[j]);
    t := TypedRow(run, NAMES[i], ps[i].rows[j]);
  }

  /** A left join on a source finds what the source's frame has for the key. */
  lemma LeftJoinIsAt(table: seq<Staged>, run: string, ps: seq<Provider>, i: nat, k: Key, side: Option<Staged>)
    requires ThreeFrames(ps) && Loaded(table, run, ps) && CanonicalSymbols(ps) && i < 3
    requires LeftJoins(table, run, k, NAMES[i], side)
    ensures StagedClose(side) == Close(At(BarsOf(ps, i), k)) && StagedVolume(side) == Volume(At(BarsOf(ps, i), k))
  {
    if side.Some? {
      var i', j := StagedKey(table, run, ps, side.value, k);
      NamesDiffer(i, i');
    } else if At(BarsOf(ps, i), k).Some? {
      var t := BarIsStaged(table, run, ps, i, k);
    }
  }

  /** A left join always has a result. */
  lemma LeftJoinExists(table: seq<Staged>, run: string, k: Key, source: string)
    ensures exists side :: LeftJoins(table, run, k, source, side)
  {
    if t :| InStaging(table, t) && Belongs(t, run, k) && t.source == source {
      assert LeftJoins(table, run, k, source, Some(t));
    } else {
      assert LeftJoins(table, run, k, source, None);
    }
  }

  ghost predicate HeldBySome(ps: seq<Provider>, k: Key)
    requires ThreeFrames(ps)
  {
    k in Keys(BarsOf(ps, 0)) + Keys(BarsOf(ps, 1)) + Keys(BarsOf(ps, 2))
  }

  lemma HeldIsAt(bars: seq<Bar>, k: Key)
    ensures k in Keys(bars) <==> At(bars, k).Some?
  {
  }

  lemma HolderOf(ps: seq<Provider>, k: Key) returns (i: nat)
    requires ThreeFrames(ps) && HeldBySome(ps, k)
    ensures i < 3 && At(BarsOf(ps, i), k).Some?
  {
    i := if k in Keys(BarsOf(ps, 0)) then 0 else if k in Keys(BarsOf(ps, 1)) then 1 else 2;
    HeldIsAt(BarsOf(ps, i), k);
  }

  lemma BusinessKeysAre(table: seq<Staged>, run: string, ps: seq<Provider>, k: Key)
    requires ThreeFrames(ps) && Loaded(table, run, ps) && CanonicalSymbols(ps)
    ensures IsBusinessKey(table, run, k) <==> HeldBySome(ps, k)
  {
    if t :| InStaging(table, t) && Belongs(t, run, k) {
      var i, j := StagedKey(table, run, ps, t, k);
      HeldIsAt(BarsOf(ps, i), k);
      assert i == 0 || i == 1 || i == 2;
    }
    if HeldBySome(ps, k) {
      var i := HolderOf(ps, k);
      var t := BarIsStaged(table, run, ps, i, k);
    }
  }

  // ------------------------------------------------------------ agreement

  /** The SQL case expressions are the Python columns, except when both sides are absent. */
  lemma CaseExpressionsAgree(sourceA: string, sourceB: string, a: Option<real>, b: Option<real>)
    ensures SqlStatus(a, b) == StatusOf(HYBRID, a, b)
    ensures a.Some? || b.Some? ==>
              SqlReason(sourceA, sourceB, a, b) == ReasonOf(StatusOf(HYBRID, a, b), sourceA, sourceB, a, b)
  {
  }

  /** `c` is the fact row of the pair `p` for its key, in terms of the frames. */
  ghost predicate IsFactOf(ps: seq<Provider>, c: Comparison, p: Pair)
    requires ThreeFrames(ps)
  {
    && InRange(p, 3) && c.sourceA == NAMES[p.a] && c.sourceB == NAMES[p.b] && HeldBySome(ps, c.key)
    && var a, b := At(BarsOf(ps, p.a), c.key), At(BarsOf(ps, p.b), c.key);
       if a.Some? || b.Some? then c == CompareAt(HYBRID, NAMES[p.a], NAMES[p.b], c.key, a, b)
       else c == FactRow(c.key, NAMES[p.a], NAMES[p.b], None, None)
  }

  lemma PairNames(p: Pair)
    requires InRange(p, 3)
    ensures (NAMES[p.a], NAMES[p.b]) in PROVIDER_PAIRS
  {
    assert p == Pair(0, 1) || p == Pair(0, 2) || p == Pair(1, 2);
    assert PROVIDER_PAIRS[0] in PROVIDER_PAIRS && PROVIDER_PAIRS[1] in PROVIDER_PAIRS
        && PROVIDER_PAIRS[2] in PROVIDER_PAIRS;
  }

  lemma PairOfNames(sourceA: string, sourceB: string) returns (p: Pair)
    requires (sourceA, sourceB) in PROVIDER_PAIRS
    ensures InRange(p, 3) && sourceA == NAMES[p.a] && sourceB == NAMES[p.b]
  {
    var i :| 0 <= i < |PROVIDER_PAIRS| && PROVIDER_PAIRS[i] == (sourceA, sourceB);
    p := if i == 0 then Pair(0, 1) else if i == 1 then Pair(0, 2) else Pair(1, 2);
  }

  lemma JoinedFact(table: seq<Staged>, run: string, ps: seq<Provider>, k: Key, p: Pair, a: Option<Staged>,
                   b: Option<Staged>)
    requires ThreeFrames(ps) && Loaded(table, run, ps) && CanonicalSymbols(ps) && InRange(p, 3) && HeldBySome(ps, k)
    requires LeftJoins(table, run, k, NAMES[p.a], a) && LeftJoins(table, run, k, NAMES[p.b], b)
    ensures IsFactOf(ps, FactRow(k, NAMES[p.a], NAMES[p.b], a, b), p)
  {
    LeftJoinIsAt(table, run, ps, p.a, k, a);
    LeftJoinIsAt(table, run, ps, p.b, k, b);
    CaseExpressionsAgree(NAMES[p.a], NAMES[p.b], StagedClose(a), StagedClose(b));
  }

  /** The fact model of a loaded run with canonical symbols. */
  lemma FactIs(table: seq<Staged>, run: string, ps: seq<Provider>, c: Comparison)
    requires ThreeFrames(ps) && Loaded(table, run, ps) && CanonicalSymbols(ps)
    ensures InFact(table, run, c) <==> exists p :: IsFactOf(ps, c, p)
  {
    BusinessKeysAre(table, run, ps, c.key);
    if InFact(table, run, c) {
      var a, b :| LeftJoins(table, run, c.key, c.sourceA, a) && LeftJoins(table, run, c.key, c.sourceB, b)
                  && c == FactRow(c.key, c.sourceA, c.sourceB, a, b);
      var p := PairOfNames(c.sourceA, c.sourceB);
      JoinedFact(table, run, ps, c.key, p, a, b);
    }
    if p :| IsFactOf(ps, c, p) {
      PairNames(p);
      LeftJoinExists(table, run, c.key, NAMES[p.a]);
      LeftJoinExists(table, run, c.key, NAMES[p.b]);
      var a :| LeftJoins(table, run, c.key, NAMES[p.a], a);
      var b :| LeftJoins(table, run, c.key, NAMES[p.b], b);
      JoinedFact(table, run, ps, c.key, p, a, b);
    }
  }

  /** Some frame says a bar of the key. */
  ghost predicate SaidBySomeone(ps: seq<Provider>, k: Key) {
    exists i, b :: 0 <= i < |ps| && b in AllTold(ps)[i] && b.key == k
  }

  /** `c` is a fact, in terms of the frames' cells: a row for each key that a frame says and each pair of names. */
  ghost predicate SaysFact(ps: seq<Provider>, c: Comparison) {
    && ((c.sourceA == "YAHOO" && c.sourceB == "ALPACA" && SaysSides(ps, c, 0, 1))
        || (c.sourceA == "YAHOO" && c.sourceB == "MASSIVE" && SaysSides(ps, c, 0, 2))
        || (c.sourceA == "ALPACA" && c.sourceB == "MASSIVE" && SaysSides(ps, c, 1, 2)))
    && SaidBySomeone(ps, c.key)
    && JudgedFact(c)
  }

  ghost predicate SaysSides(ps: seq<Provider>, c: Comparison, i: nat, j: nat) {
    && i < |ps| && j < |ps|
    && SideIs(Told(ps[i].rows), c.key, c.closeA, c.volumeA) && SideIs(Told(ps[j].rows), c.key, c.closeB, c.volumeB)
  }

  lemma SidesSay(ps: seq<Provider>, c: Comparison, p: Pair)
    requires ThreeFrames(ps) && InRange(p, 3)
    ensures SaysSides(ps, c, p.a, p.b)
            <==> c.closeA == Close(At(BarsOf(ps, p.a), c.key)) && c.volumeA == Volume(At(BarsOf(ps, p.a), c.key))
                 && c.closeB == Close(At(BarsOf(ps, p.b), c.key)) && c.volumeB == Volume(At(BarsOf(ps, p.b), c.key))
  {
    SourceTells(ps[p.a]);
    SourceTells(ps[p.b]);
    SideIff(BarsOf(ps, p.a), Told(ps[p.a].rows), c.key, c.closeA, c.volumeA);
    SideIff(BarsOf(ps, p.b), Told(ps[p.b].rows), c.key, c.closeB, c.volumeB);
  }

  lemma HeldIsSaid(ps: seq<Provider>, k: Key)
    requires ThreeFrames(ps)
    ensures HeldBySome(ps, k) <==> SaidBySomeone(ps, k)
  {
    SourceTells(ps[0]);
    SourceTells(ps[1]);
    SourceTells(ps[2]);
    if HeldBySome(ps, k) {
      var i := HolderOf(ps, k);
      assert At(BarsOf(ps, i), k).value in AllTold(ps)[i];
    }
    if i, b :| 0 <= i < |ps| && b in AllTold(ps)[i] && b.key == k {
      assert b in BarsOf(ps, i);
      assert i == 0 || i == 1 || i == 2;
    }
  }

  lemma JudgedAlike(c: Comparison)
    requires c.closeA.Some? || c.closeB.Some?
    ensures Judged(HYBRID, c) <==> JudgedFact(c)
  {
    if c.closeA.Some? && c.closeB.Some? {
      HybridIs(c.status, c.closeA.value, c.closeB.value);
    }
  }

  lemma FactOfSays(ps: seq<Provider>, c: Comparison, p: Pair)
    requires ThreeFrames(ps) && InRange(p, 3) && c.sourceA == NAMES[p.a] && c.sourceB == NAMES[p.b]
    ensures IsFactOf(ps, c, p) <==> SaysSides(ps, c, p.a, p.b) && SaidBySomeone(ps, c.key) && JudgedFact(c)
  {
    var a, b := At(BarsOf(ps, p.a), c.key), At(BarsOf(ps, p.b), c.key);
    HeldIsSaid(ps, c.key);
    SidesSay(ps, c, p);
    if a.Some? || b.Some? {
      JudgedIff(HYBRID, c, a, b);
      if c.closeA.Some? || c.closeB.Some? {
        JudgedAlike(c);
      }
    } else {
      FactRowIff(c, None, None);
    }
  }

  /** The fact model of a loaded run with canonical symbols, in terms of the frames' cells and the model's limits. */
  lemma FactSays(table: seq<Staged>, run: string, ps: seq<Provider>, c: Comparison)
    requires ThreeFrames(ps) && Loaded(table, run, ps) && CanonicalSymbols(ps)
    ensures InFact(table, run, c) <==> SaysFact(ps, c)
  {
    FactIs(table, run, ps, c);
    SaysOfPair(ps, c, Pair(0, 1));
    SaysOfPair(ps, c, Pair(0, 2));
    SaysOfPair(ps, c, Pair(1, 2));
    if p :| IsFactOf(ps, c, p) {
      assert p == Pair(0, 1) || p == Pair(0, 2) || p == Pair(1, 2);
    }
  }

  lemma SaysOfPair(ps: seq<Provider>, c: Comparison, p: Pair)
    requires ThreeFrames(ps) && InRange(p, 3)
    ensures IsFactOf(ps, c, p)
            <==> c.sourceA == NAMES[p.a] && c.sourceB == NAMES[p.b]
                 && SaysSides(ps, c, p.a, p.b) && SaidBySomeone(ps, c.key) && JudgedFact(c)
  {
    if c.sourceA == NAMES[p.a] && c.sourceB == NAMES[p.b] {
      FactOfSays(ps, c, p);
    }
  }

  /** The batch's result for the three frames. */
  function PythonRows(ps: seq<Provider>): seq<Comparison>
    requires AllFramesValid(ps)
  {
    CompareAll(HYBRID, ToSources(ps))
  }

  lemma PythonPair(ps: seq<Provider>, p: Pair, c: Comparison)
    requires ThreeFrames(ps) && InRange(p, 3)
    ensures c in PairRows(HYBRID, ToSources(ps), p)
            <==> c.key in Keys(BarsOf(ps, p.a)) + Keys(BarsOf(ps, p.b))
                 && c == CompareAt(HYBRID, NAMES[p.a], NAMES[p.b], c.key,
                                   At(BarsOf(ps, p.a), c.key), At(BarsOf(ps, p.b), c.key))
  {
    NamesAreTyped(p.a);
    NamesAreTyped(p.b);
    PairIsExact(HYBRID, NAMES[p.a], BarsOf(ps, p.a), NAMES[p.b], BarsOf(ps, p.b));
  }

  /** A row has at least one side. */
  predicate Sided(c: Comparison) {
    c.closeA.Some? || c.closeB.Some?
  }

  lemma PythonRowsAre(ps: seq<Provider>, c: Comparison)
    requires ThreeFrames(ps)
    ensures c in PythonRows(ps) <==> Sided(c) && exists p :: IsFactOf(ps, c, p)
  {
    if c in PythonRows(ps) {
      var p := PairOfRow(HYBRID, ToSources(ps), c);
      PythonPair(ps, p, c);
      PairIsFact(ps, p, c);
    }
    if p :| Sided(c) && IsFactOf(ps, c, p) {
      PairIsFact(ps, p, c);
      PythonPair(ps, p, c);
      RowOfPair(HYBRID, ToSources(ps), c, p);
    }
  }

  lemma PairIsFact(ps: seq<Provider>, p: Pair, c: Comparison)
    requires ThreeFrames(ps) && InRange(p, 3)
    ensures Sided(c) && IsFactOf(ps, c, p)
            <==> c.key in Keys(BarsOf(ps, p.a)) + Keys(BarsOf(ps, p.b))
                 && c == CompareAt(HYBRID, NAMES[p.a], NAMES[p.b], c.key,
                                   At(BarsOf(ps, p.a), c.key), At(BarsOf(ps, p.b), c.key))
  {
    HeldIsAt(BarsOf(ps, p.a), c.key);
    HeldIsAt(BarsOf(ps, p.b), c.key);
    assert p == Pair(0, 1) || p == Pair(0, 2) || p == Pair(1, 2);
  }

  /** The two implementations give the same rows, leaving out facts without any side. */
  ghost predicate Agree(table: seq<Staged>, run: string, ps: seq<Provider>)
    requires ThreeFrames(ps)
  {
    forall c :: InFact(table, run, c) && Sided(c) <==> c in PythonRows(ps)
  }

  lemma CanonicalSymbolsAgree(table: seq<Staged>, run: string, ps: seq<Provider>)
    requires ThreeFrames(ps) && Loaded(table, run, ps) && CanonicalSymbols(ps)
    ensures Agree(table, run, ps)
  {
    forall c ensures InFact(table, run, c) && Sided(c) <==> c in PythonRows(ps) {
      FactIs(table, run, ps, c);
      PythonRowsAre(ps, c);
    }
  }

  /** A symbol that SQL spells differently yields a fact under a key Python never uses. */
  lemma OtherSpellingDisagrees(table: seq<Staged>, run: string, ps: seq<Provider>, i: nat, j: nat)
    requires ThreeFrames(ps) && Loaded(table, run, ps) && i < 3 && j < |ps[i].rows|
    requires !CanonicalSymbol(ps[i].rows[j])
    ensures !Agree(table, run, ps)
  {
    var t := TypedRow(run, NAMES[i], ps[i].rows[j]);
    var k := Key(t.symbol, t.day);
    var p := if i == 2 then Pair(0, 2) else Pair(i, i + 1);
    RowsAreStaged(table, run, ps, i, j);
    PairNames(p);
    LeftJoinExists(table, run, k, NAMES[p.a]);
    LeftJoinExists(table, run, k, NAMES[p.b]);
    var a :| LeftJoins(table, run, k, NAMES[p.a], a);
    var b :| LeftJoins(table, run, k, NAMES[p.b], b);
    var c := FactRow(k, NAMES[p.a], NAMES[p.b], a, b);
    assert Belongs(t, run, k);
    assert InFact(table, run, c) && Sided(c);
    if c in PythonRows(ps) {
      PythonRowsAre(ps, c);
      PythonKeysAreCanonical(ps, k);
      CanonAfterSqlTrim(ps[i].rows[j].symbol.value);
    }
  }

  lemma PythonKeysAreCanonical(ps: seq<Provider>, k: Key)
    requires ThreeFrames(ps) && HeldBySome(ps, k)
    ensures Canon(k.symbol) == k.symbol
  {
    var i := if k in Keys(BarsOf(ps, 0)) then 0 else if k in Keys(BarsOf(ps, 1)) then 1 else 2;
    var b :| b in BarsOf(ps, i) && b.key == k;
    var j :| 0 <= j < |ps[i].rows| && BarsOf(ps, i)[j] == b;
    CanonIdempotent(ps[i].rows[j].symbol.value);
  }

  /**
   For validated frames and whatever else the table holds, the fact model and the Python result
   agree exactly when every stored symbol, trimmed by SQL, is already spelled canonically.
   */
  lemma AgreeIff(table: seq<Staged>, run: string, ps: seq<Provider>)
    requires ThreeFrames(ps) && Loaded(table, run, ps)
    ensures Agree(table, run, ps) <==> CanonicalSymbols(ps)
  {
    if CanonicalSymbols(ps) {
      CanonicalSymbolsAgree(table, run, ps);
    } else {
      var i, j :| 0 <= i < |ps| && 0 <= j < |ps[i].rows| && !CanonicalSymbol(ps[i].rows[j]);
      OtherSpellingDisagrees(table, run, ps, i, j);
    }
  }

  /** Only the provider outside the pair `p` has the key. */
  ghost predicate HeldByThirdOnly(ps: seq<Provider>, p: Pair, k: Key)
    requires ThreeFrames(ps) && InRange(p, 3)
  {
    && k in Keys(BarsOf(ps, 3 - p.a - p.b))
    && k !in Keys(BarsOf(ps, p.a)) && k !in Keys(BarsOf(ps, p.b))
  }

  lemma UnsidedFact(ps: seq<Provider>, p: Pair, c: Comparison)
    requires ThreeFrames(ps) && InRange(p, 3)
    ensures IsFactOf(ps, c, p) && !Sided(c)
            <==> HeldByThirdOnly(ps, p, c.key) && c == FactRow(c.key, NAMES[p.a], NAMES[p.b], None, None)
  {
    HeldIsAt(BarsOf(ps, p.a), c.key);
    HeldIsAt(BarsOf(ps, p.b), c.key);
    assert p == Pair(0, 1) || p == Pair(0, 2) || p == Pair(1, 2);
  }

  /** The facts Python does not have: keys held only by the provider outside the pair, all BREAK. */
  lemma ExtraFactsAre(table: seq<Staged>, run: string, ps: seq<Provider>, p: Pair, c: Comparison)
    requires ThreeFrames(ps) && Loaded(table, run, ps) && CanonicalSymbols(ps) && InRange(p, 3)
    requires c.sourceA == NAMES[p.a] && c.sourceB == NAMES[p.b]
    ensures InFact(table, run, c) && !Sided(c)
            <==> HeldByThirdOnly(ps, p, c.key) && c == FactRow(c.key, NAMES[p.a], NAMES[p.b], None, None)
    ensures InFact(table, run, c) && !Sided(c) ==> c.status == Break && c.reason == Some(MissingReason(NAMES[p.a]))
  {
    FactIs(table, run, ps, c);
    UnsidedFact(ps, p, c);
    if q :| IsFactOf(ps, c, q) {
      NamesDiffer(p.a, q.a);
      NamesDiffer(p.b, q.b);
      assert q == p;
    }
  }
}
