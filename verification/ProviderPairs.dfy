/**
 `reconcile_equity_bars` and `reconcile_equity_sources`: columns overwritten pass by pass, and a
 loop over all provider pairs.
 */
module ProviderPairs {
  import opened Wrappers
  import opened Text
  import opened SeqFacts
  import opened Equities
  import opened Reconciliation

  datatype Provider = Provider(name: string, rows: seq<Row>)

  /** A provider whose frame has been validated. */
  datatype Source = Source(name: string, bars: seq<Bar>)

  function ToSource(p: Provider): Source
    requires ValidFrame(p.rows)
  {
    Source(Upper(p.name), ToBars(p.rows))
  }

  predicate AllFramesValid(ps: seq<Provider>) {
    forall i :: 0 <= i < |ps| ==> ValidFrame(ps[i].rows)
  }

  function ToSources(ps: seq<Provider>): (sources: seq<Source>)
    requires AllFramesValid(ps)
    ensures |sources| == |ps|
  {
    seq(|ps|, i requires 0 <= i < |ps| => ToSource(ps[i]))
  }

  /** Indices of two providers. */
  datatype Pair = Pair(a: nat, b: nat)

  /** The pairs from (i, j) on: (i, j), (i, j + 1), ..., (i + 1, i + 2), ... */
  function CombinationsFrom(n: nat, i: nat, j: nat): seq<Pair>
    requires i < j
    decreases n - i, n - j
  {
    if i >= n then []
    else if j >= n then CombinationsFrom(n, i + 1, i + 2)
    else [Pair(i, j)] + CombinationsFrom(n, i, j + 1)
  }

  /** `itertools.combinations(range(n), 2)`. */
  function Combinations(n: nat): seq<Pair> {
    CombinationsFrom(n, 0, 1)
  }

  predicate InRange(p: Pair, n: nat) {
    p.a < p.b < n
  }

  predicate NotBefore(p: Pair, i: nat, j: nat) {
    p.a > i || (p.a == i && p.b >= j)
  }

  predicate Before(p: Pair, q: Pair) {
    p.a < q.a || (p.a == q.a && p.b < q.b)
  }

  ghost predicate Lexicographic(pairs: seq<Pair>) {
    forall k, m :: 0 <= k < m < |pairs| ==> Before(pairs[k], pairs[m])
  }

  lemma {:induction false} CombinationsFromAre(n: nat, i: nat, j: nat)
    requires i < j
    ensures forall p :: p in CombinationsFrom(n, i, j) <==> InRange(p, n) && NotBefore(p, i, j)
    ensures NoDuplicates(CombinationsFrom(n, i, j))
    ensures Lexicographic(CombinationsFrom(n, i, j))
    decreases n - i, n - j
  {
    if i < n {
      if j >= n {
        CombinationsFromAre(n, i + 1, i + 2);
      } else {
        CombinationsFromAre(n, i, j + 1);
        var rest := CombinationsFrom(n, i, j + 1);
        assert Pair(i, j) !in rest;
        forall m | 0 <= m < |rest| ensures Before(Pair(i, j), rest[m]) {
          assert rest[m] in rest;
        }
      }
    }
  }

  ghost predicate AllInRange(pairs: seq<Pair>, n: nat) {
    forall k :: 0 <= k < |pairs| ==> InRange(pairs[k], n)
  }

  lemma CombinationsAre(n: nat)
    ensures AllInRange(Combinations(n), n) && NoDuplicates(Combinations(n)) && Lexicographic(Combinations(n))
    ensures forall p :: InRange(p, n) ==> p in Combinations(n)
  {
    CombinationsFromAre(n, 0, 1);
    forall k | 0 <= k < |Combinations(n)| ensures InRange(Combinations(n)[k], n) {
      assert Combinations(n)[k] in Combinations(n);
    }
  }

  function PairRows(tol: Tolerances, ss: seq<Source>, pair: Pair): seq<Comparison>
    requires InRange(pair, |ss|)
  {
    ComparePair(tol, ss[pair.a].name, ss[pair.a].bars, ss[pair.b].name, ss[pair.b].bars)
  }

  /** The rows of every pair of providers, pair by pair. */
  function Blocks(tol: Tolerances, ss: seq<Source>): seq<seq<Comparison>> {
    CombinationsAre(|ss|);
    var pairs := Combinations(|ss|);
    seq(|pairs|, k requires 0 <= k < |pairs| => PairRows(tol, ss, pairs[k]))
  }

  /** The result for validated frames. */
  function CompareAll(tol: Tolerances, ss: seq<Source>): seq<Comparison> {
    Concat(Blocks(tol, ss))
  }

  function Reconcile(tol: Tolerances, ps: seq<Provider>): Result<seq<Comparison>, ReconciliationError> {
    if |ps| < 2 then Err(TooFewProviders)
    else if !tol.Valid() then Err(BadTolerances)
    else if !AllFramesValid(ps) then Err(InvalidBars)
    else Ok(CompareAll(tol, ToSources(ps)))
  }

  // ------------------------------------------------------------ the two functions as loops

  /** All MATCH, then BREAK where the difference is missing or above its limit, then WARN. */
  method StatusColumn(tol: Tolerances, rows: seq<Merged>) returns (status: array<Status>)
    ensures fresh(status) && status.Length == |rows|
    ensures forall i :: 0 <= i < |rows| ==> status[i] == StatusOf(tol, Close(rows[i].a), Close(rows[i].b))
    ensures tol.Valid() ==>
              forall i :: 0 <= i < |rows| ==> IsStatusOf(tol, status[i], Close(rows[i].a), Close(rows[i].b))
  {
    status := new Status[|rows|](_ => Match);
    for i := 0 to |rows|
      invariant forall k :: 0 <= k < |rows| ==>
        status[k] == if k < i then StatusOf(tol.(warn := None), Close(rows[k].a), Close(rows[k].b)) else Match
    {
      var a, b := Close(rows[i].a), Close(rows[i].b);
      var difference := Minus(a, b);
      if difference.None? {
        status[i] := Break;
      } else if Abs(difference.value) > Limit(tol.close, tol.breakPct, a.value, b.value) {
        status[i] := Break;
      }
    }
    if tol.warn.Some? {
      for i := 0 to |rows|
        invariant forall k :: 0 <= k < |rows| ==>
          status[k] == StatusOf(if k < i then tol else tol.(warn := None), Close(rows[k].a), Close(rows[k].b))
      {
        var a, b := Close(rows[i].a), Close(rows[i].b);
        var difference := Minus(a, b);
        if difference.Some? {
          var d := Abs(difference.value);
          if d > Limit(tol.warn.value, tol.warnPct, a.value, b.value)
             && d <= Limit(tol.close, tol.breakPct, a.value, b.value) {
            status[i] := Warn;
          }
        }
      }
    }
    if tol.Valid() {
      forall i | 0 <= i < |rows| ensures IsStatusOf(tol, status[i], Close(rows[i].a), Close(rows[i].b)) {
        StatusIff(tol, status[i], Close(rows[i].a), Close(rows[i].b));
      }
    }
  }

  /** Nothing, then the absent sides, then PRICE_DIFFERENCE on the remaining breaks. */
  method ReasonColumn(rows: seq<Merged>, status: array<Status>, sourceA: string, sourceB: string)
    returns (reason: array<Option<string>>)
    requires status.Length == |rows|
    ensures fresh(reason) && reason.Length == |rows|
    ensures forall i :: 0 <= i < |rows| ==>
              reason[i] == ReasonOf(status[i], sourceA, sourceB, Close(rows[i].a), Close(rows[i].b))
  {
    reason := new Option<string>[|rows|](_ => None);
    for i := 0 to |rows|
      invariant forall k :: 0 <= k < |rows| ==>
        reason[k] == if k < i && rows[k].a.None? then Some(MissingReason(sourceA)) else None
    {
      if rows[i].a.None? {
        reason[i] := Some(MissingReason(sourceA));
      }
    }
    for i := 0 to |rows|
      invariant forall k :: 0 <= k < |rows| ==>
        reason[k] == if k < i && rows[k].b.None? then Some(MissingReason(sourceB))
                     else if rows[k].a.None? then Some(MissingReason(sourceA)) else None
    {
      if rows[i].b.None? {
        reason[i] := Some(MissingReason(sourceB));
      }
    }
    for i := 0 to |rows|
      invariant forall k :: 0 <= k < |rows| ==>
        reason[k] == if rows[k].b.None? then Some(MissingReason(sourceB))
                     else if rows[k].a.None? then Some(MissingReason(sourceA))
                     else if k < i && status[k].Break? then Some(PRICE_DIFFERENCE) else None
    {
      if status[i].Break? && rows[i].a.Some? && rows[i].b.Some? {
        reason[i] := Some(PRICE_DIFFERENCE);
      }
    }
  }

  /** One provider pair, from raw frames to finished rows. */
  method ReconcileEquityBars(tol: Tolerances, a: Provider, b: Provider)
    returns (r: Result<seq<Comparison>, ReconciliationError>)
    ensures !tol.Valid() ==> r == Err(BadTolerances)
    ensures tol.Valid() && !(ValidFrame(a.rows) && ValidFrame(b.rows)) ==> r == Err(InvalidBars)
    ensures tol.Valid() && ValidFrame(a.rows) && ValidFrame(b.rows) ==>
              r == Ok(ComparePair(tol, Upper(a.name), ToBars(a.rows), Upper(b.name), ToBars(b.rows)))
    ensures r.Ok? <==> !BadLimits(tol) && !BadFrame(a) && !BadFrame(b)
    ensures r.Ok? ==> AreComparisonsOf(tol, a, b, r.value)
  {
    PairReconciles(tol, a, b);
    if !tol.Valid() {
      return Err(BadTolerances);
    }
    if !ValidFrame(a.rows) || !ValidFrame(b.rows) {
      return Err(InvalidBars);
    }
    var sourceA, sourceB := Upper(a.name), Upper(b.name);
    var merged := OuterJoin(ToBars(a.rows), ToBars(b.rows));
    var status := StatusColumn(tol, merged);
    var reason := ReasonColumn(merged, status, sourceA, sourceB);
    ghost var whole := ComparePair(tol, sourceA, ToBars(a.rows), sourceB, ToBars(b.rows));
    var rows := [];
    for i := 0 to |merged|
      invariant rows == whole[..i]
    {
      var m := merged[i];
      rows := rows + [Comparison(m.key, sourceA, sourceB, Close(m.a), Close(m.b), Minus(Close(m.a), Close(m.b)),
                                 Volume(m.a), Volume(m.b), Minus(Volume(m.a), Volume(m.b)), status[i], reason[i])];
    }
    assert whole[..|merged|] == whole;
    r := Ok(rows);
  }

  method ReconcileEquitySources(tol: Tolerances, ps: seq<Provider>)
    returns (r: Result<seq<Comparison>, ReconciliationError>)
    ensures r == Reconcile(tol, ps)
    ensures Reconciles(tol, ps, r)
  {
    ReconcileReconciles(tol, ps);
    if |ps| < 2 {
      return Err(TooFewProviders);
    }
    var pairs := Combinations(|ps|);
    CombinationsAre(|ps|);
    ghost var blocks := if AllFramesValid(ps) then Blocks(tol, ToSources(ps)) else [];
    var results := [];
    for k := 0 to |pairs|
      invariant forall m :: 0 <= m < k ==> ValidFrame(ps[pairs[m].a].rows) && ValidFrame(ps[pairs[m].b].rows)
      invariant k > 0 ==> tol.Valid()
      invariant AllFramesValid(ps) ==> results == Concat(blocks[..k])
    {
      var pair := ReconcileEquityBars(tol, ps[pairs[k].a], ps[pairs[k].b]);
      if pair.Err? {
        return pair;
      }
      if AllFramesValid(ps) {
        assert blocks[k] == pair.value;
        ConcatSnoc(blocks, k);
      }
      results := results + pair.value;
    }
    PairsCoverAll(ps, pairs);
    assert blocks[..|pairs|] == blocks;
    r := Ok(results);
  }

  // ------------------------------------------------------------ the result, from the frames' cells

  /** What the frame says: the bars that its rows hold. */
  ghost function Told(rows: seq<Row>): iset<Bar> {
    iset b | SaidBySome(rows, b)
  }

  ghost predicate SaidBySome(rows: seq<Row>, b: Bar) {
    exists i :: 0 <= i < |rows| && Says(rows[i], b)
  }

  /** `c` compares two of the sources. */
  ghost predicate ComparesTwo(tol: Tolerances, names: seq<string>, told: seq<iset<Bar>>, c: Comparison)
    requires |names| == |told|
  {
    exists i, j :: 0 <= i < j < |names| && Compares(tol, c, names[i], told[i], names[j], told[j])
  }

  /** The sources are called like this, in upper case, and hold the bars they tell. */
  ghost predicate Tells(ss: seq<Source>, names: seq<string>, told: seq<iset<Bar>>) {
    && |ss| == |names| == |told|
    && forall i :: 0 <= i < |ss| ==>
         ss[i].name == Upper(names[i]) && UniqueKeys(ss[i].bars) && forall b :: b in told[i] <==> b in ss[i].bars
  }

  lemma PairRowsCompare(tol: Tolerances, ss: seq<Source>, names: seq<string>, told: seq<iset<Bar>>, p: Pair,
                        c: Comparison)
    requires tol.Valid() && Tells(ss, names, told) && InRange(p, |ss|)
    ensures c in PairRows(tol, ss, p) <==> Compares(tol, c, names[p.a], told[p.a], names[p.b], told[p.b])
  {
    PairCompares(tol, names[p.a], ss[p.a].bars, told[p.a], names[p.b], ss[p.b].bars, told[p.b], c);
  }

  /** The whole result is the comparisons of two sources, and nothing else. */
  lemma CompareAllIff(tol: Tolerances, ss: seq<Source>, names: seq<string>, told: seq<iset<Bar>>, c: Comparison)
    requires tol.Valid() && Tells(ss, names, told)
    ensures c in CompareAll(tol, ss) <==> ComparesTwo(tol, names, told, c)
  {
    if c in CompareAll(tol, ss) {
      var p := PairOfRow(tol, ss, c);
      PairRowsCompare(tol, ss, names, told, p, c);
    }
    if i, j :| 0 <= i < j < |names| && Compares(tol, c, names[i], told[i], names[j], told[j]) {
      var p := Pair(i, j);
      PairRowsCompare(tol, ss, names, told, p, c);
      RowOfPair(tol, ss, c, p);
    }
  }

  ghost function NamesOf(ps: seq<Provider>): (names: seq<string>)
    ensures |names| == |ps|
  {
    seq(|ps|, i requires 0 <= i < |ps| => ps[i].name)
  }

  ghost function AllTold(ps: seq<Provider>): (told: seq<iset<Bar>>)
    ensures |told| == |ps|
  {
    seq(|ps|, i requires 0 <= i < |ps| => Told(ps[i].rows))
  }

  /** The limits that are refused. */
  predicate BadLimits(tol: Tolerances) {
    || tol.close < 0.0
    || (tol.warn.Some? && (tol.warn.value < 0.0 || tol.warn.value > tol.close))
    || (tol.breakPct.Some? && tol.breakPct.value < 0.0)
    || (tol.warnPct.Some? && tol.warnPct.value < 0.0)
    || (tol.warnPct.Some? && tol.breakPct.Some? && tol.warnPct.value > tol.breakPct.value)
  }

  /** A frame that is refused: a column of text, a flawed row or a repeated observation. */
  ghost predicate BadFrame(p: Provider) {
    !AllNumeric(p.rows) || Unusable(p.rows)
  }

  ghost predicate SomeBadFrame(ps: seq<Provider>) {
    exists i :: 0 <= i < |ps| && BadFrame(ps[i])
  }

  ghost predicate AreComparisonsOf(tol: Tolerances, a: Provider, b: Provider, rows: seq<Comparison>) {
    forall c :: c in rows <==> Compares(tol, c, a.name, Told(a.rows), b.name, Told(b.rows))
  }

  /** The rows are the comparisons of what two of the frames say, and nothing else. */
  ghost predicate AreComparisons(tol: Tolerances, ps: seq<Provider>, rows: seq<Comparison>) {
    forall c :: c in rows <==> ComparesTwo(tol, NamesOf(ps), AllTold(ps), c)
  }

  /** The result in terms of the frames' cells. */
  ghost predicate Reconciles(tol: Tolerances, ps: seq<Provider>, r: Result<seq<Comparison>, ReconciliationError>) {
    if |ps| < 2 then r == Err(TooFewProviders)
    else if BadLimits(tol) then r == Err(BadTolerances)
    else if SomeBadFrame(ps) then r == Err(InvalidBars)
    else r.Ok? && AreComparisons(tol, ps, r.value) && (DifferBeyondCase(NamesOf(ps)) ==> DistinctComparisons(r.value))
  }

  /** No two names are the same but for case. */
  ghost predicate DifferBeyondCase(names: seq<string>) {
    forall i, j :: 0 <= i < j < |names| ==> !SameLetters(names[i], names[j])
  }

  lemma SourceTells(p: Provider)
    requires ValidFrame(p.rows)
    ensures UniqueKeys(ToBars(p.rows)) && forall b :: b in Told(p.rows) <==> b in ToBars(p.rows)
  {
    ToldIs(p.rows, ToBars(p.rows)) by {
      ValidFrameIff(p.rows);
    }
  }

  lemma SourcesDiffer(ss: seq<Source>, names: seq<string>, told: seq<iset<Bar>>)
    requires Tells(ss, names, told) && DifferBeyondCase(names)
    ensures AllUnique(ss) && DistinctNames(ss)
  {
    forall i, j | 0 <= i < j < |ss| ensures ss[i].name != ss[j].name {
      UpperAgreesIff(names[i], names[j]);
    }
  }

  lemma PairReconciles(tol: Tolerances, a: Provider, b: Provider)
    ensures !BadLimits(tol) && !BadFrame(a) && !BadFrame(b) <==> tol.Valid() && ValidFrame(a.rows) && ValidFrame(b.rows)
    ensures tol.Valid() && ValidFrame(a.rows) && ValidFrame(b.rows) ==>
              AreComparisonsOf(tol, a, b,
                               ComparePair(tol, Upper(a.name), ToBars(a.rows), Upper(b.name), ToBars(b.rows)))
  {
    ValidFrameIff(a.rows);
    ValidFrameIff(b.rows);
    if tol.Valid() && ValidFrame(a.rows) && ValidFrame(b.rows) {
      SourceTells(a);
      SourceTells(b);
      forall c ensures c in ComparePair(tol, Upper(a.name), ToBars(a.rows), Upper(b.name), ToBars(b.rows))
                       <==> Compares(tol, c, a.name, Told(a.rows), b.name, Told(b.rows))
      {
        PairCompares(tol, a.name, ToBars(a.rows), Told(a.rows), b.name, ToBars(b.rows), Told(b.rows), c);
      }
    }
  }

  lemma ReconcileReconciles(tol: Tolerances, ps: seq<Provider>)
    ensures Reconciles(tol, ps, Reconcile(tol, ps))
  {
    forall i | 0 <= i < |ps| ensures BadFrame(ps[i]) <==> !ValidFrame(ps[i].rows) {
      ValidFrameIff(ps[i].rows);
    }
    if AllFramesValid(ps) && tol.Valid() {
      var ss := ToSources(ps);
      forall i | 0 <= i < |ps|
        ensures UniqueKeys(ss[i].bars) && forall b :: b in AllTold(ps)[i] <==> b in ss[i].bars
      {
        SourceTells(ps[i]);
      }
      forall c ensures c in CompareAll(tol, ss) <==> ComparesTwo(tol, NamesOf(ps), AllTold(ps), c) {
        CompareAllIff(tol, ss, NamesOf(ps), AllTold(ps), c);
      }
      if DifferBeyondCase(NamesOf(ps)) {
        SourcesDiffer(ss, NamesOf(ps), AllTold(ps));
        ComparisonsAreDistinct(tol, ss);
      }
    }
  }

  /** The rows of the frame say the bars that were read from it, and no other. */
  lemma ToldIs(rows: seq<Row>, bars: seq<Bar>)
    requires Parses(rows, bars)
    ensures forall b :: b in Told(rows) <==> b in bars
  {
    forall b | b in Told(rows) ensures b in bars {
      var i :| 0 <= i < |rows| && Says(rows[i], b);
      SaysOnce(rows[i], b, bars[i]);
    }
    forall i | 0 <= i < |bars| ensures bars[i] in Told(rows) {
      assert Says(rows[i], bars[i]);
    }
  }

  lemma SaysOnce(r: Row, a: Bar, b: Bar)
    requires Says(r, a) && Says(r, b)
    ensures a == b
  {
    CanonIff(a.key.symbol, r.symbol.value);
    CanonIff(b.key.symbol, r.symbol.value);
  }

  /** With two or more providers, validating every pair validates every frame. */
  lemma PairsCoverAll(ps: seq<Provider>, pairs: seq<Pair>)
    requires |ps| >= 2 && pairs == Combinations(|ps|) && AllInRange(pairs, |ps|)
    requires forall m :: 0 <= m < |pairs| ==> ValidFrame(ps[pairs[m].a].rows) && ValidFrame(ps[pairs[m].b].rows)
    ensures pairs != [] && AllFramesValid(ps)
  {
    CombinationsAre(|ps|);
    forall i | 0 <= i < |ps| ensures ValidFrame(ps[i].rows) && pairs != [] {
      var pair := if i == 0 then Pair(0, 1) else Pair(0, i);
      assert pair in pairs;
      var m :| 0 <= m < |pairs| && pairs[m] == pair;
    }
  }

  // ------------------------------------------------------------ laws of the whole result

  ghost predicate SameBars(ss: seq<Source>, ss': seq<Source>) {
    |ss| == |ss'|
    && forall i :: 0 <= i < |ss| ==> ss[i].name == ss'[i].name && multiset(ss[i].bars) == multiset(ss'[i].bars)
  }

  ghost predicate AllUnique(ss: seq<Source>) {
    forall i :: 0 <= i < |ss| ==> UniqueKeys(ss[i].bars)
  }

  /** The order of the rows inside the providers' frames does not matter. */
  lemma ReconciliationIsOrderFree(tol: Tolerances, ss: seq<Source>, ss': seq<Source>)
    requires AllUnique(ss) && SameBars(ss, ss')
    ensures multiset(CompareAll(tol, ss)) == multiset(CompareAll(tol, ss'))
  {
    CombinationsAre(|ss|);
    var pairs := Combinations(|ss|);
    forall k | 0 <= k < |pairs| ensures multiset(Blocks(tol, ss)[k]) == multiset(Blocks(tol, ss')[k]) {
      var Pair(p, q) := pairs[k];
      PairIsOrderFree(tol, ss[p].name, ss[p].bars, ss'[p].bars, ss[q].name, ss[q].bars, ss'[q].bars);
    }
    ConcatPermutes(Blocks(tol, ss), Blocks(tol, ss'));
  }

  datatype PairKey = PairKey(key: Key, sourceA: string, sourceB: string)

  function KeyOf(c: Comparison): PairKey {
    PairKey(c.key, c.sourceA, c.sourceB)
  }

  ghost predicate DistinctComparisons(rows: seq<Comparison>) {
    DistinctBy(rows, KeyOf)
  }

  ghost predicate DistinctNames(ss: seq<Source>) {
    forall i, j :: 0 <= i < j < |ss| ==> ss[i].name != ss[j].name
  }

  ghost predicate FromPair(ss: seq<Source>, c: Comparison, pair: Pair) {
    InRange(pair, |ss|) && c.sourceA == ss[pair.a].name && c.sourceB == ss[pair.b].name
  }

  lemma PairIsNamed(tol: Tolerances, ss: seq<Source>, pair: Pair, c: Comparison)
    requires InRange(pair, |ss|) && c in PairRows(tol, ss, pair)
    ensures FromPair(ss, c, pair)
  {
  }

  lemma OnePairIsDistinct(tol: Tolerances, ss: seq<Source>, pair: Pair)
    requires InRange(pair, |ss|) && AllUnique(ss)
    ensures DistinctComparisons(PairRows(tol, ss, pair))
  {
    PairIsExact(tol, ss[pair.a].name, ss[pair.a].bars, ss[pair.b].name, ss[pair.b].bars);
  }

  /** A row of the result is a row of one of the pairs. */
  lemma PairOfRow(tol: Tolerances, ss: seq<Source>, c: Comparison) returns (pair: Pair)
    requires c in CompareAll(tol, ss)
    ensures InRange(pair, |ss|) && c in PairRows(tol, ss, pair)
  {
    CombinationsAre(|ss|);
    var k := BlockOf(Blocks(tol, ss), c);
    pair := Combinations(|ss|)[k];
  }

  lemma RowOfPair(tol: Tolerances, ss: seq<Source>, c: Comparison, pair: Pair)
    requires InRange(pair, |ss|) && c in PairRows(tol, ss, pair)
    ensures c in CompareAll(tol, ss)
  {
    CombinationsAre(|ss|);
    assert pair in Combinations(|ss|);
    var k :| 0 <= k < |Combinations(|ss|)| && Combinations(|ss|)[k] == pair;
    InBlock(Blocks(tol, ss), c, k);
  }

  /** No comparison occurs twice: symbol, date and provider pair identify a result row. */
  lemma ComparisonsAreDistinct(tol: Tolerances, ss: seq<Source>)
    requires AllUnique(ss) && DistinctNames(ss)
    ensures DistinctComparisons(CompareAll(tol, ss))
  {
    CombinationsAre(|ss|);
    var pairs, blocks := Combinations(|ss|), Blocks(tol, ss);
    forall k | 0 <= k < |blocks| ensures DistinctBy(blocks[k], KeyOf) {
      OnePairIsDistinct(tol, ss, pairs[k]);
    }
    forall k, m, c, d | 0 <= k < m < |blocks| && c in blocks[k] && d in blocks[m] ensures KeyOf(c) != KeyOf(d) {
      PairIsNamed(tol, ss, pairs[k], c);
      PairIsNamed(tol, ss, pairs[m], d);
    }
    ConcatDistinct(blocks, KeyOf);
  }
}
