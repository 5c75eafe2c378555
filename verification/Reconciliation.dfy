/**
 The pairwise reconciliation of provider frames: a full outer join and a status per joined row.

 The join is relational (each left row meets every right row of its key) and the status column is
 overwritten pass by pass; both are proved equal to a row-by-row comparison keyed by symbol and day.
 */
module Reconciliation {
  import opened Wrappers
  import opened Text
  import opened SeqFacts
  import opened Equities

  datatype Status = Match | Warn | Break

  datatype Tolerances = Tolerances(
    close: real, warn: Option<real>, breakPct: Option<real>, warnPct: Option<real>)
  {
    predicate Valid() {
      && close >= 0.0
      && (warn.Some? ==> 0.0 <= warn.value <= close)
      && (breakPct.Some? ==> breakPct.value >= 0.0)
      && (warnPct.Some? ==> warnPct.value >= 0.0)
      && (warnPct.Some? && breakPct.Some? ==> warnPct.value <= breakPct.value)
    }
  }

  /** The limits of the daily batch. */
  const HYBRID: Tolerances := Tolerances(0.05, Some(0.01), Some(0.005), Some(0.001))

  datatype Comparison = Comparison(
    key: Key, sourceA: string, sourceB: string,
    closeA: Option<real>, closeB: Option<real>, closeDifference: Option<real>,
    volumeA: Option<real>, volumeB: Option<real>, volumeDifference: Option<real>,
    status: Status, reason: Option<string>)

  datatype ReconciliationError = TooFewProviders | BadTolerances | InvalidBars

  // ------------------------------------------------------------ one comparison

  function Abs(x: real): real {
    if x < 0.0 then -x else x
  }

  function Max(x: real, y: real): real {
    if x < y then y else x
  }

  function Minus(a: Option<real>, b: Option<real>): Option<real> {
    if a.Some? && b.Some? then Some(a.value - b.value) else None
  }

  /** The absolute floor, or the percentage of the larger price where that is more. */
  function Limit(floor: real, pct: Option<real>, a: real, b: real): real {
    if pct.None? then floor else Max(floor, Max(Abs(a), Abs(b)) * pct.value)
  }

  function StatusOf(tol: Tolerances, a: Option<real>, b: Option<real>): Status {
    if a.None? || b.None? then Break
    else
      var d := Abs(a.value - b.value);
      if d > Limit(tol.close, tol.breakPct, a.value, b.value) then Break
      else if tol.warn.Some? && d > Limit(tol.warn.value, tol.warnPct, a.value, b.value) then Warn
      else Match
  }

  function MissingReason(source: string): string {
    "MISSING_" + source + "_OBSERVATION"
  }

  const PRICE_DIFFERENCE: string := "PRICE_DIFFERENCE"

  function ReasonOf(status: Status, sourceA: string, sourceB: string, a: Option<real>, b: Option<real>): Option<string>
  {
    if b.None? then Some(MissingReason(sourceB))
    else if a.None? then Some(MissingReason(sourceA))
    else if status.Break? then Some(PRICE_DIFFERENCE)
    else None
  }

  function Close(b: Option<Bar>): Option<real> {
    if b.Some? then Some(b.value.close) else None
  }

  function Volume(b: Option<Bar>): Option<real> {
    if b.Some? then Some(b.value.volume) else None
  }

  /** The row for one key, from the two sides' bars of that key. */
  function CompareAt(tol: Tolerances, sourceA: string, sourceB: string, k: Key, a: Option<Bar>,
                     b: Option<Bar>)
    : Comparison
  {
    var status := StatusOf(tol, Close(a), Close(b));
    Comparison(k, sourceA, sourceB, Close(a), Close(b), Minus(Close(a), Close(b)),
               Volume(a), Volume(b), Minus(Volume(a), Volume(b)),
               status, ReasonOf(status, sourceA, sourceB, Close(a), Close(b)))
  }

  // ------------------------------------------------------------ what a comparison says

  /** The two differ by more than `t`. */
  predicate Exceeds(a: real, b: real, t: real) {
    a - b > t || b - a > t
  }

  /** They differ by more than the share `p` of either, whatever the signs. */
  predicate ExceedsShare(a: real, b: real, p: real) {
    && Exceeds(a, b, a * p) && Exceeds(a, b, -(a * p))
    && Exceeds(a, b, b * p) && Exceeds(a, b, -(b * p))
  }

  /** They differ by more than the absolute limit and, where one is given, by more than the share. */
  predicate Beyond(a: real, b: real, floor: real, share: Option<real>) {
    Exceeds(a, b, floor) && (share.Some? ==> ExceedsShare(a, b, share.value))
  }

  /** The status of two closes, one of which may be absent. */
  predicate IsStatusOf(tol: Tolerances, status: Status, a: Option<real>, b: Option<real>) {
    if a.None? || b.None? then status == Break
    else
      && (status == Break <==> Beyond(a.value, b.value, tol.close, tol.breakPct))
      && (status == Warn <==> !Beyond(a.value, b.value, tol.close, tol.breakPct)
                              && tol.warn.Some? && Beyond(a.value, b.value, tol.warn.value, tol.warnPct))
  }

  /** Differences, status and reason of a comparison of two closes. */
  predicate JudgedBoth(tol: Tolerances, c: Comparison, a: real, b: real) {
    && c.closeDifference == Some(a - b)
    && c.volumeA.Some? && c.volumeB.Some? && c.volumeDifference == Some(c.volumeA.value - c.volumeB.value)
    && IsStatusOf(tol, c.status, Some(a), Some(b))
    && c.reason == if c.status == Break then Some("PRICE_DIFFERENCE") else None
  }

  /** A comparison with an absent side: a BREAK that names it. */
  predicate JudgedMissing(c: Comparison, absent: string) {
    && c.closeDifference == None && c.volumeDifference == None && c.status == Break
    && c.reason == Some("MISSING_" + absent + "_OBSERVATION")
    && (c.volumeA.Some? <==> c.closeA.Some?) && (c.volumeB.Some? <==> c.closeB.Some?)
  }

  predicate Judged(tol: Tolerances, c: Comparison) {
    if c.closeB.None? then JudgedMissing(c, c.sourceB)
    else if c.closeA.None? then JudgedMissing(c, c.sourceA)
    else JudgedBoth(tol, c, c.closeA.value, c.closeB.value)
  }

  lemma ProductGrows(x: real, y: real, p: real)
    requires x <= y && p >= 0.0
    ensures x * p <= y * p
  {
  }

  lemma ShareOf(x: real, p: real)
    requires p >= 0.0
    ensures Abs(x) * p == Max(x * p, -(x * p)) >= 0.0
  {
    ProductGrows(0.0, Abs(x), p);
  }

  lemma LargerShare(a: real, b: real, p: real)
    requires p >= 0.0
    ensures Max(Abs(a), Abs(b)) * p == Max(Abs(a) * p, Abs(b) * p)
  {
    if Abs(a) < Abs(b) {
      ProductGrows(Abs(a), Abs(b), p);
    } else {
      ProductGrows(Abs(b), Abs(a), p);
    }
  }

  lemma ExceedsBoth(a: real, b: real, s: real, t: real)
    ensures Abs(a - b) > Max(s, t) <==> Exceeds(a, b, s) && Exceeds(a, b, t)
  {
  }

  lemma ShareIff(a: real, b: real, p: real)
    requires p >= 0.0
    ensures ExceedsShare(a, b, p) <==> Exceeds(a, b, Max(Abs(a), Abs(b)) * p)
  {
    ShareOf(a, p);
    ShareOf(b, p);
    LargerShare(a, b, p);
    ExceedsBoth(a, b, a * p, -(a * p));
    ExceedsBoth(a, b, b * p, -(b * p));
    ExceedsBoth(a, b, Abs(a) * p, Abs(b) * p);
  }

  lemma BeyondShareIff(a: real, b: real, floor: real, p: real)
    requires p >= 0.0
    ensures Beyond(a, b, floor, Some(p)) <==> Abs(a - b) > Limit(floor, Some(p), a, b)
  {
    var l := Max(Abs(a), Abs(b)) * p;
    assert Limit(floor, Some(p), a, b) == Max(floor, l);
    ExceedsBoth(a, b, floor, l);
    assert Beyond(a, b, floor, Some(p)) <==> Exceeds(a, b, floor) && Exceeds(a, b, l) by {
      ShareIff(a, b, p);
    }
  }

  lemma BeyondIff(a: real, b: real, floor: real, share: Option<real>)
    requires share.Some? ==> share.value >= 0.0
    ensures Beyond(a, b, floor, share) <==> Abs(a - b) > Limit(floor, share, a, b)
  {
    if share.Some? {
      BeyondShareIff(a, b, floor, share.value);
    }
  }

  lemma StatusIff(tol: Tolerances, status: Status, a: Option<real>, b: Option<real>)
    requires tol.Valid()
    ensures status == StatusOf(tol, a, b) <==> IsStatusOf(tol, status, a, b)
  {
    if a.Some? && b.Some? {
      BeyondIff(a.value, b.value, tol.close, tol.breakPct);
      if tol.warn.Some? {
        BeyondIff(a.value, b.value, tol.warn.value, tol.warnPct);
      }
    }
  }

  /** The comparison of two sides is the one row over their closes and volumes that is judged so. */
  lemma JudgedIff(tol: Tolerances, c: Comparison, a: Option<Bar>, b: Option<Bar>)
    requires tol.Valid()
    ensures c == CompareAt(tol, c.sourceA, c.sourceB, c.key, a, b)
            <==> c.closeA == Close(a) && c.volumeA == Volume(a) && c.closeB == Close(b) && c.volumeB == Volume(b)
                 && Judged(tol, c)
  {
    StatusIff(tol, c.status, Close(a), Close(b));
  }

  /** The daily limits: 5 cents and half a percent for a BREAK, one cent and a tenth of a percent for a WARN. */
  predicate IsDailyStatus(status: Status, a: real, b: real) {
    && (status == Break <==> Exceeds(a, b, 0.05) && ExceedsShare(a, b, 0.005))
    && (status == Warn <==> !(Exceeds(a, b, 0.05) && ExceedsShare(a, b, 0.005))
                            && Exceeds(a, b, 0.01) && ExceedsShare(a, b, 0.001))
  }

  lemma HybridIs(status: Status, a: real, b: real)
    ensures IsStatusOf(HYBRID, status, Some(a), Some(b)) <==> IsDailyStatus(status, a, b)
  {
  }

  /** What a source says of a key: the close and volume of its bar, or nothing. */
  ghost predicate SideIs(told: iset<Bar>, k: Key, close: Option<real>, volume: Option<real>) {
    if close.Some? then exists b :: b in told && b.key == k && close == Some(b.close) && volume == Some(b.volume)
    else volume == None && forall b :: b in told ==> b.key != k
  }

  /** `c` compares what the sources `a` and `b` say of its key, of which one says something. */
  ghost predicate Compares(tol: Tolerances, c: Comparison, nameA: string, a: iset<Bar>, nameB: string, b: iset<Bar>) {
    && IsUpper(c.sourceA, nameA) && IsUpper(c.sourceB, nameB)
    && SideIs(a, c.key, c.closeA, c.volumeA) && SideIs(b, c.key, c.closeB, c.volumeB)
    && (c.closeA.Some? || c.closeB.Some?)
    && Judged(tol, c)
  }

  // ------------------------------------------------------------ the join

  datatype Merged = Merged(key: Key, a: Option<Bar>, b: Option<Bar>)

  function At(bars: seq<Bar>, k: Key): (r: Option<Bar>)
    ensures r.Some? ==> r.value in bars && r.value.key == k
    ensures r.None? ==> forall b :: b in bars ==> b.key != k
  {
    if bars == [] then None
    else if bars[0].key == k then Some(bars[0])
    else At(bars[1..], k)
  }

  function Matches(l: Bar, right: seq<Bar>): seq<Merged> {
    if right == [] then []
    else (if right[0].key == l.key then [Merged(l.key, Some(l), Some(right[0]))] else []) + Matches(l, right[1..])
  }

  function LeftRows(left: seq<Bar>, right: seq<Bar>): seq<Merged> {
    if left == [] then []
    else
      var m := Matches(left[0], right);
      (if m == [] then [Merged(left[0].key, Some(left[0]), None)] else m) + LeftRows(left[1..], right)
  }

  function RightOnlyRows(left: seq<Bar>, right: seq<Bar>): seq<Merged> {
    if right == [] then []
    else (if At(left, right[0].key).None? then [Merged(right[0].key, None, Some(right[0]))] else [])
         + RightOnlyRows(left, right[1..])
  }

  /** `pd.merge(..., how="outer")` on the business key. */
  function OuterJoin(left: seq<Bar>, right: seq<Bar>): seq<Merged> {
    LeftRows(left, right) + RightOnlyRows(left, right)
  }

  function Keys(bars: seq<Bar>): set<Key> {
    set b | b in bars :: b.key
  }

  /** One row per key of either side, holding exactly the two sides' bars of that key. */
  ghost predicate JoinsByKey(rows: seq<Merged>, left: seq<Bar>, right: seq<Bar>) {
    && (forall i :: 0 <= i < |rows| ==>
          rows[i].key in Keys(left) + Keys(right)
          && rows[i].a == At(left, rows[i].key) && rows[i].b == At(right, rows[i].key))
    && (forall k :: k in Keys(left) + Keys(right) ==> exists i :: 0 <= i < |rows| && rows[i].key == k)
    && (forall i, j :: 0 <= i < j < |rows| ==> rows[i].key != rows[j].key)
  }

  lemma AtUnique(bars: seq<Bar>, i: nat)
    requires UniqueKeys(bars) && i < |bars|
    ensures At(bars, bars[i].key) == Some(bars[i])
  {
    var r := At(bars, bars[i].key);
    assert bars[i] in bars;
  }

  lemma {:induction false} MatchesIsAt(l: Bar, right: seq<Bar>)
    requires UniqueKeys(right)
    ensures Matches(l, right) == match At(right, l.key)
                                 case None => []
                                 case Some(r) => [Merged(l.key, Some(l), Some(r))]
  {
    if right != [] {
      MatchesIsAt(l, right[1..]);
      assert forall b :: b in right[1..] ==> b.key != right[0].key;
    }
  }

  lemma {:induction false} LeftRowsAre(left: seq<Bar>, right: seq<Bar>)
    requires UniqueKeys(right)
    ensures |LeftRows(left, right)| == |left|
    ensures forall i :: 0 <= i < |left| ==>
              LeftRows(left, right)[i] == Merged(left[i].key, Some(left[i]), At(right, left[i].key))
  {
    if left != [] {
      MatchesIsAt(left[0], right);
      var rest := LeftRows(left[1..], right);
      LeftRowsAre(left[1..], right);
      assert LeftRows(left, right) == [Merged(left[0].key, Some(left[0]), At(right, left[0].key))] + rest;
    }
  }

  lemma {:induction false} RightOnlyRowsAre(left: seq<Bar>, right: seq<Bar>)
    requires UniqueKeys(right)
    ensures forall i :: 0 <= i < |RightOnlyRows(left, right)| ==>
              var m := RightOnlyRows(left, right)[i];
              && m.a.None? && m.b.Some? && m.b.value in right && m.b.value.key == m.key
              && At(left, m.key).None?
    ensures forall r :: r in right && At(left, r.key).None? ==>
              Merged(r.key, None, Some(r)) in RightOnlyRows(left, right)
    ensures forall i, j :: 0 <= i < j < |RightOnlyRows(left, right)| ==>
              RightOnlyRows(left, right)[i].key != RightOnlyRows(left, right)[j].key
  {
    if right != [] {
      var rest := RightOnlyRows(left, right[1..]);
      RightOnlyRowsAre(left, right[1..]);
      assert right == [right[0]] + right[1..];
      forall i | 0 <= i < |rest| ensures rest[i].key != right[0].key {
        assert rest[i].b.value in right[1..];
      }
      if At(left, right[0].key).None? {
        assert RightOnlyRows(left, right) == [Merged(right[0].key, None, Some(right[0]))] + rest;
      } else {
        assert RightOnlyRows(left, right) == rest;
      }
    }
  }

  lemma JoinedRowsAre(left: seq<Bar>, right: seq<Bar>)
    requires UniqueKeys(left) && UniqueKeys(right)
    ensures forall i :: 0 <= i < |OuterJoin(left, right)| ==>
              var m := OuterJoin(left, right)[i];
              m.key in Keys(left) + Keys(right) && m.a == At(left, m.key) && m.b == At(right, m.key)
  {
    var l, r, rows := LeftRows(left, right), RightOnlyRows(left, right), OuterJoin(left, right);
    LeftRowsAre(left, right);
    RightOnlyRowsAre(left, right);
    forall i | 0 <= i < |rows|
      ensures var m := rows[i];
              m.key in Keys(left) + Keys(right) && m.a == At(left, m.key) && m.b == At(right, m.key)
    {
      if i < |l| {
        AtUnique(left, i);
        assert rows[i] == l[i];
      } else {
        var m := r[i - |l|];
        var j :| 0 <= j < |right| && right[j] == m.b.value;
        AtUnique(right, j);
        assert rows[i] == m;
      }
    }
  }

  lemma JoinCoversLeft(left: seq<Bar>, right: seq<Bar>, b: Bar)
    requires UniqueKeys(right) && b in left
    ensures exists i :: 0 <= i < |OuterJoin(left, right)| && OuterJoin(left, right)[i].key == b.key
  {
    LeftRowsAre(left, right);
    var i :| 0 <= i < |left| && left[i] == b;
    assert OuterJoin(left, right)[i].key == b.key;
  }

  lemma {:induction false} RightOnlyRowOf(left: seq<Bar>, right: seq<Bar>, b: Bar) returns (i: nat)
    requires b in right && At(left, b.key).None?
    ensures i < |RightOnlyRows(left, right)| && RightOnlyRows(left, right)[i].key == b.key
  {
    var head := if At(left, right[0].key).None? then 1 else 0;
    if right[0] == b {
      i := 0;
    } else {
      i := RightOnlyRowOf(left, right[1..], b);
      i := head + i;
    }
  }

  lemma JoinCoversRight(left: seq<Bar>, right: seq<Bar>, b: Bar)
    requires b in right && At(left, b.key).None?
    ensures exists i :: 0 <= i < |OuterJoin(left, right)| && OuterJoin(left, right)[i].key == b.key
  {
    var l, r := LeftRows(left, right), RightOnlyRows(left, right);
    var i := RightOnlyRowOf(left, right, b);
    assert (l + r)[|l| + i] == r[i];
    assert OuterJoin(left, right)[|l| + i].key == b.key;
  }

  lemma JoinCovers(left: seq<Bar>, right: seq<Bar>, k: Key)
    requires UniqueKeys(left) && UniqueKeys(right) && k in Keys(left) + Keys(right)
    ensures exists i :: 0 <= i < |OuterJoin(left, right)| && OuterJoin(left, right)[i].key == k
  {
    if k in Keys(left) {
      var b :| b in left && b.key == k;
      JoinCoversLeft(left, right, b);
    } else {
      var b :| b in right && b.key == k;
      JoinCoversRight(left, right, b);
    }
  }

  lemma JoinedKeysDiffer(left: seq<Bar>, right: seq<Bar>, i: nat, j: nat)
    requires UniqueKeys(left) && UniqueKeys(right) && i < j < |OuterJoin(left, right)|
    ensures OuterJoin(left, right)[i].key != OuterJoin(left, right)[j].key
  {
    var l, r, rows := LeftRows(left, right), RightOnlyRows(left, right), OuterJoin(left, right);
    LeftRowsAre(left, right);
    RightOnlyRowsAre(left, right);
    if i < |l| {
      assert rows[i] == l[i] && left[i] in left;
      if j >= |l| {
        assert rows[j] == r[j - |l|];
      }
    } else {
      assert rows[i] == r[i - |l|] && rows[j] == r[j - |l|];
    }
  }

  /** The relational join of two validated frames is the keyed union of their bars. */
  lemma OuterJoinIsKeyed(left: seq<Bar>, right: seq<Bar>)
    requires UniqueKeys(left) && UniqueKeys(right)
    ensures JoinsByKey(OuterJoin(left, right), left, right)
  {
    JoinedRowsAre(left, right);
    forall k | k in Keys(left) + Keys(right)
      ensures exists i :: 0 <= i < |OuterJoin(left, right)| && OuterJoin(left, right)[i].key == k
    {
      JoinCovers(left, right, k);
    }
    forall i, j | 0 <= i < j < |OuterJoin(left, right)|
      ensures OuterJoin(left, right)[i].key != OuterJoin(left, right)[j].key
    {
      JoinedKeysDiffer(left, right, i, j);
    }
  }

  // ------------------------------------------------------------ pairs of providers

  function ComparePair(tol: Tolerances, sourceA: string, a: seq<Bar>, sourceB: string,
                       b: seq<Bar>)
    : (r: seq<Comparison>)
    ensures |r| == |OuterJoin(a, b)|
  {
    var rows := OuterJoin(a, b);
    seq(|rows|, i requires 0 <= i < |rows| => CompareAt(tol, sourceA, sourceB, rows[i].key, rows[i].a, rows[i].b))
  }

  /** The rows are one comparison per key of either side, and nothing else. */
  ghost predicate ComparesByKey(
    rows: seq<Comparison>, tol: Tolerances, sourceA: string, a: seq<Bar>, sourceB: string, b: seq<Bar>)
  {
    && (forall c :: c in rows <==>
          c.key in Keys(a) + Keys(b) && c == CompareAt(tol, sourceA, sourceB, c.key, At(a, c.key), At(b, c.key)))
    && (forall i, j :: 0 <= i < j < |rows| ==> rows[i].key != rows[j].key)
  }

  /** Each key of the union of the two frames is compared exactly once. */
  lemma PairIsExact(tol: Tolerances, sourceA: string, a: seq<Bar>, sourceB: string, b: seq<Bar>)
    requires UniqueKeys(a) && UniqueKeys(b)
    ensures ComparesByKey(ComparePair(tol, sourceA, a, sourceB, b), tol, sourceA, a, sourceB, b)
  {
    var joined, rows := OuterJoin(a, b), ComparePair(tol, sourceA, a, sourceB, b);
    OuterJoinIsKeyed(a, b);
    forall c | c in rows
      ensures c.key in Keys(a) + Keys(b) && c == CompareAt(tol, sourceA, sourceB, c.key, At(a, c.key), At(b, c.key))
    {
      var i :| 0 <= i < |rows| && rows[i] == c;
      assert joined[i].key == c.key;
    }
    forall c: Comparison
      | c.key in Keys(a) + Keys(b) && c == CompareAt(tol, sourceA, sourceB, c.key, At(a, c.key), At(b, c.key))
      ensures c in rows
    {
      var i :| 0 <= i < |joined| && joined[i].key == c.key;
      assert rows[i] == c;
    }
    forall i, j | 0 <= i < j < |rows| ensures rows[i].key != rows[j].key {
      assert joined[i].key != joined[j].key;
    }
  }

  lemma SideIff(bars: seq<Bar>, told: iset<Bar>, k: Key, close: Option<real>, volume: Option<real>)
    requires UniqueKeys(bars) && forall b :: b in told <==> b in bars
    ensures SideIs(told, k, close, volume) <==> close == Close(At(bars, k)) && volume == Volume(At(bars, k))
  {
    if b :| b in told && b.key == k {
      var i :| 0 <= i < |bars| && bars[i] == b;
      AtUnique(bars, i);
    }
    if At(bars, k).Some? {
      assert At(bars, k).value in told;
    }
  }

  /** The rows of a pair are the comparisons of what the two frames say, and nothing else. */
  lemma PairCompares(tol: Tolerances, nameA: string, a: seq<Bar>, toldA: iset<Bar>,
                     nameB: string, b: seq<Bar>, toldB: iset<Bar>, c: Comparison)
    requires tol.Valid() && UniqueKeys(a) && UniqueKeys(b)
    requires (forall x :: x in toldA <==> x in a) && forall x :: x in toldB <==> x in b
    ensures c in ComparePair(tol, Upper(nameA), a, Upper(nameB), b) <==> Compares(tol, c, nameA, toldA, nameB, toldB)
  {
    PairIsExact(tol, Upper(nameA), a, Upper(nameB), b);
    UpperIff(c.sourceA, nameA);
    UpperIff(c.sourceB, nameB);
    SideIff(a, toldA, c.key, c.closeA, c.volumeA);
    SideIff(b, toldB, c.key, c.closeB, c.volumeB);
    JudgedIff(tol, c, At(a, c.key), At(b, c.key));
    KeysAre(a, c.key);
    KeysAre(b, c.key);
  }

  lemma KeysAre(bars: seq<Bar>, k: Key)
    ensures k in Keys(bars) <==> Close(At(bars, k)).Some?
  {
  }

  /** A key that only one of the frames has: one row, a BREAK without differences that names the absent provider. */
  lemma OneSidedIsBreak(tol: Tolerances, sourceA: string, a: seq<Bar>, sourceB: string, b: seq<Bar>, k: Key)
    returns (c: Comparison)
    requires UniqueKeys(a) && UniqueKeys(b) && (k in Keys(a)) != (k in Keys(b))
    ensures var rows := ComparePair(tol, sourceA, a, sourceB, b);
            c in rows && forall d :: d in rows && d.key == k ==> d == c
    ensures c.key == k && c.status == Break && c.closeDifference == None && c.volumeDifference == None
    ensures c.reason == Some(MissingReason(if k in Keys(a) then sourceB else sourceA))
    ensures c.closeA.Some? <==> k in Keys(a)
  {
    PairIsExact(tol, sourceA, a, sourceB, b);
    c := CompareAt(tol, sourceA, sourceB, k, At(a, k), At(b, k));
    assert At(a, k).Some? <==> k in Keys(a);
    assert At(b, k).Some? <==> k in Keys(b);
  }

  function Negated(x: Option<real>): Option<real> {
    if x.None? then None else Some(-x.value)
  }

  /** The same comparison seen from the other side. */
  function Mirror(c: Comparison): Comparison {
    Comparison(c.key, c.sourceB, c.sourceA, c.closeB, c.closeA, Negated(c.closeDifference),
               c.volumeB, c.volumeA, Negated(c.volumeDifference), c.status, c.reason)
  }

  /** Swapping the providers negates the differences and keeps every status and reason. */
  lemma SwapMirrors(tol: Tolerances, sourceA: string, a: seq<Bar>, sourceB: string, b: seq<Bar>)
    requires UniqueKeys(a) && UniqueKeys(b)
    ensures forall c :: c in ComparePair(tol, sourceA, a, sourceB, b)
                        <==> Mirror(c) in ComparePair(tol, sourceB, b, sourceA, a)
  {
    PairIsExact(tol, sourceA, a, sourceB, b);
    PairIsExact(tol, sourceB, b, sourceA, a);
    var rows, swapped := ComparePair(tol, sourceA, a, sourceB, b), ComparePair(tol, sourceB, b, sourceA, a);
    forall c ensures c in rows <==> Mirror(c) in swapped {
      if c.key in Keys(a) + Keys(b) {
        var x, y := At(a, c.key), At(b, c.key);
        assert x.Some? || y.Some?;
        MirrorAt(tol, sourceA, sourceB, c.key, x, y);
        MirrorInjective(c, CompareAt(tol, sourceA, sourceB, c.key, x, y));
      }
    }
  }

  lemma LimitIsSymmetric(floor: real, pct: Option<real>, a: real, b: real)
    ensures Limit(floor, pct, a, b) == Limit(floor, pct, b, a)
  {
    assert Max(Abs(a), Abs(b)) == Max(Abs(b), Abs(a));
  }

  lemma StatusIsSymmetric(tol: Tolerances, a: Option<real>, b: Option<real>)
    ensures StatusOf(tol, a, b) == StatusOf(tol, b, a)
  {
    if a.Some? && b.Some? {
      LimitIsSymmetric(tol.close, tol.breakPct, a.value, b.value);
      if tol.warn.Some? {
        LimitIsSymmetric(tol.warn.value, tol.warnPct, a.value, b.value);
      }
    }
  }

  lemma MirrorAt(tol: Tolerances, sourceA: string, sourceB: string, k: Key, a: Option<Bar>, b: Option<Bar>)
    requires a.Some? || b.Some?
    ensures CompareAt(tol, sourceB, sourceA, k, b, a) == Mirror(CompareAt(tol, sourceA, sourceB, k, a, b))
  {
    StatusIsSymmetric(tol, Close(a), Close(b));
  }

  lemma MirrorInjective(c: Comparison, d: Comparison)
    ensures Mirror(c) == Mirror(d) ==> c == d
  {
    assert Mirror(Mirror(c)) == c && Mirror(Mirror(d)) == d;
  }

  // ------------------------------------------------------------ row order

  lemma AtIsOrderFree(a: seq<Bar>, a': seq<Bar>, k: Key)
    requires UniqueKeys(a) && UniqueKeys(a') && multiset(a) == multiset(a')
    ensures At(a, k) == At(a', k)
  {
    PermutationKeepsElements(a, a');
    if At(a, k).Some? {
      assert At(a, k).value in a';
      var i :| 0 <= i < |a'| && a'[i] == At(a, k).value;
      AtUnique(a', i);
    }
  }

  lemma UniqueKeysIsOrderFree(a: seq<Bar>, a': seq<Bar>)
    requires UniqueKeys(a) && multiset(a) == multiset(a')
    ensures UniqueKeys(a')
  {
    PermutationKeepsElements(a, a');
    assert NoDuplicates(a);
    forall i, j | 0 <= i < j < |a'| ensures a'[i].key != a'[j].key {
      if a'[i].key == a'[j].key {
        assert a'[i] in a && a'[j] in a;
        assert a'[i] == a'[j];
        assert a' == a'[..j] + a'[j..];
        assert a'[i] in multiset(a'[..j]) && a'[i] in multiset(a'[j..]) by {
          assert a'[..j][i] == a'[i] && a'[j..][0] == a'[j];
        }
        assert multiset(a')[a'[i]] >= 2;
        CountWithoutDuplicates(a, a'[i]);
      }
    }
  }

  lemma PairIsOrderFree(tol: Tolerances, sourceA: string, a: seq<Bar>, a': seq<Bar>,
                        sourceB: string, b: seq<Bar>, b': seq<Bar>)
    requires UniqueKeys(a) && UniqueKeys(b)
    requires multiset(a) == multiset(a') && multiset(b) == multiset(b')
    ensures multiset(ComparePair(tol, sourceA, a, sourceB, b)) == multiset(ComparePair(tol, sourceA, a', sourceB, b'))
  {
    UniqueKeysIsOrderFree(a, a');
    UniqueKeysIsOrderFree(b, b');
    PermutationKeepsElements(a, a');
    PermutationKeepsElements(b, b');
    PairIsExact(tol, sourceA, a, sourceB, b);
    PairIsExact(tol, sourceA, a', sourceB, b');
    var rows, rows' := ComparePair(tol, sourceA, a, sourceB, b), ComparePair(tol, sourceA, a', sourceB, b');
    assert Keys(a) == Keys(a') && Keys(b) == Keys(b');
    forall c ensures c in rows <==> c in rows' {
      AtIsOrderFree(a, a', c.key);
      AtIsOrderFree(b, b', c.key);
    }
    SameElementsPermute(rows, rows');
  }

  // ------------------------------------------------------------ counts

  /** How many rows have status `s`. */
  function CountOf(rows: seq<Comparison>, s: Status): nat {
    if rows == [] then 0 else CountOf(rows[..|rows| - 1], s) + if rows[|rows| - 1].status == s then 1 else 0
  }

  predicate HasStatus(rows: seq<Comparison>, s: Status, i: int) {
    0 <= i < |rows| && rows[i].status == s
  }

  /** The places of the rows with status `s`. */
  ghost function Places(rows: seq<Comparison>, s: Status): set<int> {
    set i | 0 <= i < |rows| && HasStatus(rows, s, i)
  }

  lemma {:induction false} CountIs(rows: seq<Comparison>, s: Status)
    ensures CountOf(rows, s) == |Places(rows, s)|
  {
    if rows == [] {
      assert Places(rows, s) == {};
    } else {
      var before, last := rows[..|rows| - 1], rows[|rows| - 1];
      CountIs(before, s);
      PlacesSnoc(before, last, s);
      assert rows == before + [last];
    }
  }

  lemma PlacesSnoc(rows: seq<Comparison>, c: Comparison, s: Status)
    ensures Places(rows + [c], s) == Places(rows, s) + if c.status == s then {|rows|} else {}
    ensures |rows| !in Places(rows, s)
  {
    forall i ensures HasStatus(rows + [c], s, i) <==> HasStatus(rows, s, i) || (i == |rows| && c.status == s) {
    }
  }

  /** SUCCESS or SUCCESS_WITH_BREAKS. */
  datatype RunStatus = Clean | WithBreaks

  function RunStatusOf(rows: seq<Comparison>): RunStatus {
    if CountOf(rows, Break) == 0 then Clean else WithBreaks
  }
}
