/**
 Daily equity bars: normalization, validation and the pairwise reconciliation.

 Prices are reals, a missing value is `None`, dates are day numbers. Frames are sequences of rows.
 */
module Equities {
  import opened Wrappers
  import opened Text

  // ------------------------------------------------------------ rows and bars

  /** A trade date as it arrives: unparsable, an instant in UTC seconds, or already a day. */
  datatype Stamp = NoTime | Instant(seconds: int) | Day(day: int)

  const SECONDS_PER_DAY: int := 86_400

  /** `pd.to_datetime(..., utc=True).dt.date`. */
  function ToDay(t: Stamp): Stamp {
    match t
    case Instant(s) => Day(s / SECONDS_PER_DAY)
    case _ => t
  }

  /** A cell of a value column; text comes with the number that pandas reads in it, if any. */
  datatype Cell = Null | Number(value: real) | Text(reading: Option<real>)

  /** `pd.to_numeric(..., errors="coerce")`. */
  function ToNumber(c: Cell): Cell {
    match c
    case Text(Some(x)) => Number(x)
    case Text(None) => Null
    case _ => c
  }

  /** One row of a provider frame; any cell may be null. */
  datatype Row = Row(
    symbol: Option<string>, time: Stamp, open: Cell, high: Cell, low: Cell, close: Cell, volume: Cell)

  /** A provider's answer: a table, or a frame without the required columns. */
  datatype RawFrame = MissingColumns | Table(rows: seq<Row>)

  datatype Key = Key(symbol: string, day: int)

  /** A validated row. */
  datatype Bar = Bar(key: Key, open: real, high: real, low: real, close: real, volume: real)

  function NormalizeRow(r: Row): Row {
    Row(if r.symbol.None? then None else Some(Canon(r.symbol.value)), ToDay(r.time),
        ToNumber(r.open), ToNumber(r.high), ToNumber(r.low), ToNumber(r.close), ToNumber(r.volume))
  }

  function NormalizeRows(rows: seq<Row>): (n: seq<Row>)
    ensures |n| == |rows|
  {
    seq(|rows|, i requires 0 <= i < |rows| => NormalizeRow(rows[i]))
  }

  predicate ValidRow(r: Row) {
    && r.symbol.Some? && Strip(r.symbol.value) != []
    && !r.time.NoTime?
    && r.open.Number? && r.high.Number? && r.low.Number? && r.close.Number? && r.volume.Number?
    && r.open.value >= 0.0 && r.high.value >= 0.0 && r.low.value >= 0.0 && r.close.value >= 0.0
    && r.volume.value >= 0.0
    && r.high.value >= r.open.value && r.high.value >= r.close.value && r.high.value >= r.low.value
    && r.low.value <= r.open.value && r.low.value <= r.close.value
  }

  function ToBar(r: Row): Bar
    requires ValidRow(r)
  {
    Bar(Key(Canon(r.symbol.value), ToDay(r.time).day),
        r.open.value, r.high.value, r.low.value, r.close.value, r.volume.value)
  }

  function FromBar(b: Bar): Row {
    Row(Some(b.key.symbol), Day(b.key.day),
        Number(b.open), Number(b.high), Number(b.low), Number(b.close), Number(b.volume))
  }

  function FromBars(bars: seq<Bar>): (rows: seq<Row>)
    ensures |rows| == |bars|
  {
    seq(|bars|, i requires 0 <= i < |bars| => FromBar(bars[i]))
  }

  predicate AllValid(rows: seq<Row>) {
    forall i :: 0 <= i < |rows| ==> ValidRow(rows[i])
  }

  function ToBars(rows: seq<Row>): (bars: seq<Bar>)
    requires AllValid(rows)
    ensures |bars| == |rows|
  {
    seq(|rows|, i requires 0 <= i < |rows| => ToBar(rows[i]))
  }

  predicate UniqueKeys(bars: seq<Bar>) {
    forall i, j :: 0 <= i < j < |bars| ==> bars[i].key != bars[j].key
  }

  /** `validate_equity_bars` does not raise. */
  predicate ValidFrame(rows: seq<Row>) {
    AllValid(rows) && UniqueKeys(ToBars(rows))
  }

  /** `normalize_equity_dataframe` followed by `validate_equity_bars`; `None` stands for `ValueError`. */
  function Canonicalize(raw: RawFrame): Option<seq<Bar>> {
    match raw
    case MissingColumns => None
    case Table(rows) =>
      if ValidFrame(NormalizeRows(rows)) then Some(ToBars(NormalizeRows(rows))) else None
  }

  /** No value cell holds text, so that the columns are numeric. */
  predicate Numeric(r: Row) {
    !r.open.Text? && !r.high.Text? && !r.low.Text? && !r.close.Text? && !r.volume.Text?
  }

  /** Normalization may be repeated; it makes text numeric and does nothing else to validity. */
  lemma NormalizeRowIdempotent(r: Row)
    ensures NormalizeRow(NormalizeRow(r)) == NormalizeRow(r) && Numeric(NormalizeRow(r))
    ensures ValidRow(r) <==> Numeric(r) && ValidRow(NormalizeRow(r))
    ensures ValidRow(r) ==> ToBar(NormalizeRow(r)) == ToBar(r) && FromBar(ToBar(r)) == NormalizeRow(r)
  {
    if r.symbol.Some? {
      CanonIdempotent(r.symbol.value);
      StripOfCanon(r.symbol.value);
    }
  }

  lemma StripOfCanon(s: string)
    ensures Strip(Canon(s)) == Canon(s)
    ensures Canon(s) == [] <==> Strip(s) == []
  {
    UpperKeepsTrim(Strip(s));
    TrimInTwoSteps(s, WHITESPACE, WHITESPACE);
  }

  predicate AllNumeric(rows: seq<Row>) {
    forall i :: 0 <= i < |rows| ==> Numeric(rows[i])
  }

  /** Frames: a second normalization changes nothing, and a first one keeps bars and their keys. */
  lemma NormalizeIdempotent(rows: seq<Row>)
    ensures NormalizeRows(NormalizeRows(rows)) == NormalizeRows(rows)
    ensures ValidFrame(rows) <==> AllNumeric(rows) && ValidFrame(NormalizeRows(rows))
    ensures AllValid(rows) ==> AllValid(NormalizeRows(rows)) && ToBars(NormalizeRows(rows)) == ToBars(rows)
                               && FromBars(ToBars(rows)) == NormalizeRows(rows)
  {
    var normal := NormalizeRows(rows);
    forall i | 0 <= i < |rows|
      ensures NormalizeRow(normal[i]) == normal[i] && (ValidRow(rows[i]) <==> Numeric(rows[i]) && ValidRow(normal[i]))
      ensures ValidRow(rows[i]) ==> ToBar(normal[i]) == ToBar(rows[i]) && FromBar(ToBar(rows[i])) == normal[i]
    {
      NormalizeRowIdempotent(rows[i]);
    }
    assert AllValid(rows) <==> AllNumeric(rows) && AllValid(normal);
    if AllValid(rows) {
      assert ToBars(normal) == ToBars(rows);
    }
  }

  /** A bar that came out of validation. */
  predicate Canonical(b: Bar) {
    ValidRow(FromBar(b)) && ToBar(FromBar(b)) == b && NormalizeRow(FromBar(b)) == FromBar(b)
  }

  lemma BarsAreCanonical(rows: seq<Row>)
    requires AllValid(rows)
    ensures forall b :: b in ToBars(rows) ==> Canonical(b)
  {
    forall i | 0 <= i < |rows| ensures Canonical(ToBars(rows)[i]) {
      NormalizeRowIdempotent(rows[i]);
      NormalizeRowIdempotent(NormalizeRow(rows[i]));
    }
  }

  lemma CanonicalizeGivesCanonical(raw: RawFrame)
    requires Canonicalize(raw).Some?
    ensures UniqueKeys(Canonicalize(raw).value)
    ensures forall b :: b in Canonicalize(raw).value ==> Canonical(b)
  {
    BarsAreCanonical(NormalizeRows(raw.rows));
  }

  /** Archiving canonical bars and reading them back for another normalization changes nothing. */
  lemma CanonicalBarsSurvive(bars: seq<Bar>)
    requires forall b :: b in bars ==> Canonical(b)
    ensures NormalizeRows(FromBars(bars)) == FromBars(bars)
    ensures AllValid(FromBars(bars)) && ToBars(FromBars(bars)) == bars
    ensures ValidFrame(FromBars(bars)) <==> UniqueKeys(bars)
  {
    forall i | 0 <= i < |bars|
      ensures NormalizeRow(FromBar(bars[i])) == FromBar(bars[i]) && ValidRow(FromBar(bars[i]))
              && ToBar(FromBar(bars[i])) == bars[i]
    {
      assert Canonical(bars[i]);
    }
  }

  // ------------------------------------------------------------ what a payload says

  /** The cell holds the number, or text that reads as it. */
  predicate Reads(c: Cell, x: real) {
    c == Number(x) || c == Text(Some(x))
  }

  /** A null cell, or text that is no number. */
  predicate Unreadable(c: Cell) {
    c == Null || c == Text(None)
  }

  /** The stamp falls on the day: days have 86400 seconds. */
  predicate OnDay(t: Stamp, d: int) {
    t == Day(d) || (t.Instant? && 86_400 * d <= t.seconds < 86_400 * (d + 1))
  }

  /** The row's cells say what the bar holds. */
  ghost predicate Says(r: Row, b: Bar) {
    && r.symbol.Some? && Spells(b.key.symbol, r.symbol.value) && OnDay(r.time, b.key.day)
    && Reads(r.open, b.open) && Reads(r.high, b.high) && Reads(r.low, b.low) && Reads(r.close, b.close)
    && Reads(r.volume, b.volume)
  }

  predicate Sensible(b: Bar) {
    && b.key.symbol != []
    && b.open >= 0.0 && b.high >= 0.0 && b.low >= 0.0 && b.close >= 0.0 && b.volume >= 0.0
    && b.low <= b.open <= b.high && b.low <= b.close <= b.high
  }

  /** One sensible bar per row, with the row's values, and no symbol twice on a day. */
  ghost predicate Parses(rows: seq<Row>, bars: seq<Bar>) {
    && |bars| == |rows|
    && (forall i :: 0 <= i < |rows| ==> Says(rows[i], bars[i]) && Sensible(bars[i]))
    && (forall i, j :: 0 <= i < j < |bars| ==> bars[i].key != bars[j].key)
  }

  ghost predicate Negative(c: Cell) {
    exists x :: Reads(c, x) && x < 0.0
  }

  ghost predicate Below(c: Cell, d: Cell) {
    exists x, y :: Reads(c, x) && Reads(d, y) && x < y
  }

  /** A missing or unreadable cell, a negative value, or a price outside low and high. */
  ghost predicate Flawed(r: Row) {
    || r.symbol.None? || (forall i :: 0 <= i < |r.symbol.value| ==> White(r.symbol.value[i])) || r.time.NoTime?
    || Unreadable(r.open) || Unreadable(r.high) || Unreadable(r.low) || Unreadable(r.close) || Unreadable(r.volume)
    || Negative(r.open) || Negative(r.high) || Negative(r.low) || Negative(r.close) || Negative(r.volume)
    || Below(r.high, r.open) || Below(r.high, r.low) || Below(r.high, r.close)
    || Below(r.open, r.low) || Below(r.close, r.low)
  }

  /** The same symbol, in whatever spelling, on the same day. */
  ghost predicate SameObservation(r: Row, r': Row) {
    && r.symbol.Some? && r'.symbol.Some? && SameSpelling(r.symbol.value, r'.symbol.value)
    && exists d :: OnDay(r.time, d) && OnDay(r'.time, d)
  }

  /** Two rows of the table are observations of the same symbol and day. */
  ghost predicate Repeats(rows: seq<Row>) {
    exists i, j :: 0 <= i < j < |rows| && SameObservation(rows[i], rows[j])
  }

  /** No bars can be made of the table. */
  ghost predicate Unusable(rows: seq<Row>) {
    (exists i :: 0 <= i < |rows| && Flawed(rows[i])) || Repeats(rows)
  }

  ghost predicate Rejected(raw: RawFrame) {
    raw == MissingColumns || Unusable(raw.rows)
  }

  lemma DayIs(t: Stamp, d: int)
    ensures ToDay(t) == Day(d) <==> OnDay(t, d)
  {
  }

  /** The bar of a normalized valid row is the one sensible bar that the row's cells say. */
  lemma BarOfRow(r: Row, b: Bar)
    ensures ValidRow(NormalizeRow(r)) && ToBar(NormalizeRow(r)) == b <==> Says(r, b) && Sensible(b)
  {
    var n := NormalizeRow(r);
    DayIs(r.time, b.key.day);
    if r.symbol.Some? {
      StripOfCanon(r.symbol.value);
      CanonIdempotent(r.symbol.value);
      CanonIff(b.key.symbol, r.symbol.value);
    }
  }

  lemma FlawedIff(r: Row)
    ensures Flawed(r) <==> !ValidRow(NormalizeRow(r))
  {
    NegativeIff(r.open);
    NegativeIff(r.high);
    NegativeIff(r.low);
    NegativeIff(r.close);
    NegativeIff(r.volume);
    BelowIff(r.high, r.open);
    BelowIff(r.high, r.low);
    BelowIff(r.high, r.close);
    BelowIff(r.open, r.low);
    BelowIff(r.close, r.low);
    if r.symbol.Some? {
      StripOfCanon(r.symbol.value);
      BlankIff(r.symbol.value);
    }
  }

  lemma NegativeIff(c: Cell)
    ensures Negative(c) <==> ToNumber(c).Number? && ToNumber(c).value < 0.0
  {
    if ToNumber(c).Number? {
      assert Reads(c, ToNumber(c).value);
    }
  }

  lemma BelowIff(c: Cell, d: Cell)
    ensures Below(c, d) <==> ToNumber(c).Number? && ToNumber(d).Number? && ToNumber(c).value < ToNumber(d).value
  {
    if ToNumber(c).Number? && ToNumber(d).Number? {
      assert Reads(c, ToNumber(c).value) && Reads(d, ToNumber(d).value);
    }
  }

  lemma SameObservationIff(r: Row, r': Row)
    requires ValidRow(NormalizeRow(r)) && ValidRow(NormalizeRow(r'))
    ensures SameObservation(r, r') <==> ToBar(NormalizeRow(r)).key == ToBar(NormalizeRow(r')).key
  {
    CanonIdempotent(r.symbol.value);
    CanonIdempotent(r'.symbol.value);
    CanonAgreesIff(r.symbol.value, r'.symbol.value);
    DayIs(r.time, ToDay(r.time).day);
    DayIs(r'.time, ToDay(r.time).day);
    if d :| OnDay(r.time, d) && OnDay(r'.time, d) {
      DayIs(r.time, d);
      DayIs(r'.time, d);
    }
  }

  /** A payload's bars are what its rows say, one for one. */
  lemma CanonicalizeIff(raw: RawFrame, bars: seq<Bar>)
    ensures Canonicalize(raw) == Some(bars) <==> raw.Table? && Parses(raw.rows, bars)
  {
    if raw.Table? {
      forall i | 0 <= i < |raw.rows| && i < |bars|
        ensures ValidRow(NormalizeRow(raw.rows[i])) && ToBar(NormalizeRow(raw.rows[i])) == bars[i]
                <==> Says(raw.rows[i], bars[i]) && Sensible(bars[i])
      {
        BarOfRow(raw.rows[i], bars[i]);
      }
      if Parses(raw.rows, bars) {
        assert ToBars(NormalizeRows(raw.rows)) == bars;
      }
    }
  }

  /** A payload is refused exactly for a flawed row, a repeated observation or missing columns. */
  lemma CanonicalizeFailsIff(raw: RawFrame)
    ensures Canonicalize(raw) == None <==> Rejected(raw)
  {
    if raw.Table? {
      UnusableIff(raw.rows);
    }
  }

  lemma RepeatsIff(rows: seq<Row>)
    requires AllValid(NormalizeRows(rows))
    ensures Repeats(rows) <==> !UniqueKeys(ToBars(NormalizeRows(rows)))
  {
    var bars := ToBars(NormalizeRows(rows));
    forall i, j | 0 <= i < j < |rows| ensures SameObservation(rows[i], rows[j]) <==> bars[i].key == bars[j].key {
      assert ValidRow(NormalizeRows(rows)[i]) && ValidRow(NormalizeRows(rows)[j]);
      SameObservationIff(rows[i], rows[j]);
    }
  }

  lemma UnusableIff(rows: seq<Row>)
    ensures Unusable(rows) <==> !ValidFrame(NormalizeRows(rows))
  {
    forall i | 0 <= i < |rows| ensures Flawed(rows[i]) <==> !ValidRow(NormalizeRows(rows)[i]) {
      FlawedIff(rows[i]);
    }
    if AllValid(NormalizeRows(rows)) {
      RepeatsIff(rows);
    }
  }

  /** For a frame that is already numeric, validation alone gives the same bars. */
  lemma ValidFrameIff(rows: seq<Row>)
    ensures ValidFrame(rows) <==> AllNumeric(rows) && !Unusable(rows)
    ensures ValidFrame(rows) ==> Parses(rows, ToBars(rows))
  {
    NormalizeIdempotent(rows);
    UnusableIff(rows);
    if ValidFrame(rows) {
      CanonicalizeIff(Table(rows), ToBars(rows));
    }
  }
}
