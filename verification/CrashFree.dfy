/**
 The result of an attempt that is never interrupted, from the archived payloads: in terms of their
 normalized frames and in terms of the cells themselves.
 */
module CrashFree {
  import opened Wrappers
  import opened Text
  import opened SeqFacts
  import opened Equities
  import opened Reconciliation
  import opened ProviderPairs
  import opened Recovery

  /** The canonical form of every archived payload that has one. */
  function CanonicalFrames(raw: map<Slot, RawFrame>): map<Slot, seq<Bar>> {
    map slot | slot in raw && Canonicalize(raw[slot]).Some? :: Canonicalize(raw[slot]).value
  }

  /** The providers' frames of an attempt that is never interrupted and pools in plan order. */
  function CrashFreeSources(plan: Plan, raw: map<Slot, RawFrame>): (ss: seq<Source>)
    ensures |ss| == |plan.providers|
  {
    seq(|plan.providers|, i requires 0 <= i < |plan.providers| =>
      Source(Upper(plan.providers[i]), Pool(plan.slots, CanonicalFrames(raw), plan.providers[i])))
  }

  function CrashFreeResult(plan: Plan, raw: map<Slot, RawFrame>): seq<Comparison> {
    CompareAll(HYBRID, CrashFreeSources(plan, raw))
  }

  lemma {:induction false} PoolDependsOnSlots(slots: seq<Slot>, frames: map<Slot, seq<Bar>>,
                                              frames': map<Slot, seq<Bar>>, name: string)
    requires forall slot :: slot in slots ==> slot in frames && slot in frames' && frames[slot] == frames'[slot]
    ensures Pool(slots, frames, name) == Pool(slots, frames', name)
  {
    if slots != [] {
      PoolDependsOnSlots(slots[..|slots| - 1], frames, frames', name);
      assert slots[|slots| - 1] in slots;
    }
  }

  lemma SamePayloads(plan: Plan, raw: map<Slot, RawFrame>, raw': map<Slot, RawFrame>)
    requires forall slot :: slot in plan.slots ==> slot in raw && slot in raw' && raw'[slot] == raw[slot]
    requires forall slot :: slot in plan.slots ==> Canonicalize(raw[slot]).Some?
    ensures CrashFreeSources(plan, raw) == CrashFreeSources(plan, raw')
  {
    forall i | 0 <= i < |plan.providers|
      ensures CrashFreeSources(plan, raw)[i] == CrashFreeSources(plan, raw')[i]
    {
      PoolDependsOnSlots(plan.slots, CanonicalFrames(raw), CanonicalFrames(raw'), plan.providers[i]);
    }
  }

  lemma {:induction false} PoolHas(slots: seq<Slot>, frames: map<Slot, seq<Bar>>, name: string, b: Bar)
    ensures b in Pool(slots, frames, name)
            <==> exists slot :: slot in slots && slot.provider == name && slot in frames && b in frames[slot]
  {
    if slots != [] {
      var before, last := slots[..|slots| - 1], slots[|slots| - 1];
      PoolHas(before, frames, name, b);
      assert slots == before + [last];
    }
  }

  // ------------------------------------------------------------ the result, from the archived cells

  /** An archived row of the provider says the bar. */
  ghost predicate Archived(plan: Plan, raw: map<Slot, RawFrame>, name: string, b: Bar) {
    exists slot ::
      slot in plan.slots && slot.provider == name && slot in raw && raw[slot].Table? && SaidBySome(raw[slot].rows, b)
  }

  /** What the archived payloads say, provider by provider. */
  ghost function AllArchivedBars(plan: Plan, raw: map<Slot, RawFrame>): (told: seq<iset<Bar>>)
    ensures |told| == |plan.providers|
  {
    seq(|plan.providers|, i requires 0 <= i < |plan.providers| => iset b | Archived(plan, raw, plan.providers[i], b))
  }

  /** The rows are the comparisons of what the archived payloads of two providers say, and nothing else. */
  ghost predicate ComparesArchives(plan: Plan, raw: map<Slot, RawFrame>, rows: seq<Comparison>) {
    forall c :: c in rows <==> ComparesTwo(HYBRID, plan.providers, AllArchivedBars(plan, raw), c)
  }

  ghost predicate AllReadable(plan: Plan, raw: map<Slot, RawFrame>) {
    forall slot :: slot in plan.slots ==> slot in raw && !Rejected(raw[slot])
  }

  lemma ReadableIff(plan: Plan, raw: map<Slot, RawFrame>)
    ensures AllReadable(plan, raw)
            <==> forall slot :: slot in plan.slots ==> slot in raw && Canonicalize(raw[slot]).Some?
  {
    forall slot | slot in raw ensures Canonicalize(raw[slot]).Some? <==> !Rejected(raw[slot]) {
      CanonicalizeFailsIff(raw[slot]);
    }
  }

  lemma ReadBars(raw: RawFrame, b: Bar)
    requires Canonicalize(raw).Some?
    ensures raw.Table? && (b in Canonicalize(raw).value <==> SaidBySome(raw.rows, b))
  {
    var bars := Canonicalize(raw).value;
    CanonicalizeIff(raw, bars);
    ToldIs(raw.rows, bars);
    assert b in Told(raw.rows) <==> SaidBySome(raw.rows, b);
  }

  /** The archives are sound when each normalized frame is what the cells of its raw payload say. */
  lemma PartitionsSoundIff(parts: Archives)
    ensures PartitionsSound(parts) <==>
              forall slot :: slot in parts.normalized ==>
                slot in parts.raw && parts.raw[slot].Table? && Parses(parts.raw[slot].rows, parts.normalized[slot])
  {
    forall slot | slot in parts.normalized && slot in parts.raw
      ensures Canonicalize(parts.raw[slot]) == Some(parts.normalized[slot])
              <==> parts.raw[slot].Table? && Parses(parts.raw[slot].rows, parts.normalized[slot])
    {
      CanonicalizeIff(parts.raw[slot], parts.normalized[slot]);
    }
  }

  lemma PoolSays(plan: Plan, raw: map<Slot, RawFrame>, name: string, b: Bar)
    requires AllReadable(plan, raw)
    ensures b in Pool(plan.slots, CanonicalFrames(raw), name) <==> Archived(plan, raw, name, b)
  {
    ReadableIff(plan, raw);
    PoolHas(plan.slots, CanonicalFrames(raw), name, b);
    forall slot | slot in plan.slots
      ensures raw[slot].Table? && (b in CanonicalFrames(raw)[slot] <==> SaidBySome(raw[slot].rows, b))
    {
      ReadBars(raw[slot], b);
    }
  }

  /** The crash-free result in terms of the archived cells. */
  lemma CrashFreeResultIs(plan: Plan, raw: map<Slot, RawFrame>)
    requires AllReadable(plan, raw) && AllUnique(CrashFreeSources(plan, raw))
    ensures ComparesArchives(plan, raw, CrashFreeResult(plan, raw))
  {
    var ss, told := CrashFreeSources(plan, raw), AllArchivedBars(plan, raw);
    forall i | 0 <= i < |ss| ensures forall b :: b in told[i] <==> b in ss[i].bars {
      forall b ensures b in told[i] <==> b in ss[i].bars {
        PoolSays(plan, raw, plan.providers[i], b);
      }
    }
    forall c ensures c in CrashFreeResult(plan, raw) <==> ComparesTwo(HYBRID, plan.providers, told, c) {
      CompareAllIff(HYBRID, ss, plan.providers, told, c);
    }
  }

  /** The comparison shows the bar of `name` against what `other` has. */
  predicate Shows(c: Comparison, name: string, other: string, b: Bar) {
    && c.key == b.key
    && ((IsUpper(c.sourceA, name) && IsUpper(c.sourceB, other)
         && c.closeA == Some(b.close) && c.volumeA == Some(b.volume))
        || (IsUpper(c.sourceA, other) && IsUpper(c.sourceB, name)
            && c.closeB == Some(b.close) && c.volumeB == Some(b.volume)))
  }

  lemma RowIsCompared(plan: Plan, raw: map<Slot, RawFrame>, slot: Slot, j: nat, other: string)
    returns (b: Bar, c: Comparison)
    requires plan.Valid() && AllReadable(plan, raw) && AllUnique(CrashFreeSources(plan, raw))
    requires slot in plan.slots && other in plan.providers && other != slot.provider
    requires raw[slot].Table? && j < |raw[slot].rows|
    ensures Says(raw[slot].rows[j], b) && c in CrashFreeResult(plan, raw)
    ensures Shows(c, slot.provider, other, b)
  {
    var ss := CrashFreeSources(plan, raw);
    var m :| 0 <= m < |plan.slots| && plan.slots[m] == slot;
    var p :| 0 <= p < |plan.providers| && plan.providers[p] == slot.provider;
    var q :| 0 <= q < |plan.providers| && plan.providers[q] == other;
    ReadableIff(plan, raw);
    b := Canonicalize(raw[slot]).value[j];
    CanonicalizeIff(raw[slot], Canonicalize(raw[slot]).value);
    PoolHas(plan.slots, CanonicalFrames(raw), slot.provider, b);
    assert ss[p].name == Upper(plan.providers[p]) && ss[q].name == Upper(plan.providers[q]);
    c := BarIsCompared(ss, p, q, b);
    UpperIff(ss[p].name, slot.provider);
    UpperIff(ss[q].name, other);
  }

  /** A source's bar is a side of a comparison with each other source. */
  lemma BarIsCompared(ss: seq<Source>, p: nat, q: nat, b: Bar) returns (c: Comparison)
    requires AllUnique(ss) && p < |ss| && q < |ss| && p != q && b in ss[p].bars
    ensures c in CompareAll(HYBRID, ss) && c.key == b.key
    ensures if p < q then c.sourceA == ss[p].name && c.sourceB == ss[q].name
                          && c.closeA == Some(b.close) && c.volumeA == Some(b.volume)
            else c.sourceA == ss[q].name && c.sourceB == ss[p].name
                 && c.closeB == Some(b.close) && c.volumeB == Some(b.volume)
  {
    var pair := if p < q then Pair(p, q) else Pair(q, p);
    var x, y := ss[pair.a], ss[pair.b];
    AtIs(ss[p].bars, b);
    c := CompareAt(HYBRID, x.name, y.name, b.key, At(x.bars, b.key), At(y.bars, b.key));
    PairIsExact(HYBRID, x.name, x.bars, y.name, y.bars);
    RowOfPair(HYBRID, ss, c, pair);
  }

  lemma AtIs(bars: seq<Bar>, b: Bar)
    requires UniqueKeys(bars) && b in bars
    ensures At(bars, b.key) == Some(b) && b.key in Keys(bars)
  {
    var i :| 0 <= i < |bars| && bars[i] == b;
    AtUnique(bars, i);
  }

  // ------------------------------------------------------------ payloads that can be committed

  /** The archived payloads are complete, well-formed, and give every provider one bar per key. */
  ghost predicate GoodPayloads(plan: Plan, raw: map<Slot, RawFrame>) {
    && (forall slot :: slot in plan.slots ==> slot in raw && Canonicalize(raw[slot]).Some?)
    && AllUnique(CrashFreeSources(plan, raw))
  }

  ghost predicate NoCommonKey(a: seq<Bar>, b: seq<Bar>) {
    forall x, y :: x in a && y in b ==> x.key != y.key
  }

  lemma ConcatUnique(a: seq<Bar>, b: seq<Bar>)
    requires UniqueKeys(a) && UniqueKeys(b) && NoCommonKey(a, b)
    ensures UniqueKeys(a + b)
  {
    forall i, j | 0 <= i < j < |a + b| ensures (a + b)[i].key != (a + b)[j].key {
      if i < |a| && |a| <= j {
        assert a[i] in a && b[j - |a|] in b;
      }
    }
  }

  lemma {:induction false} PoolIsUnique(slots: seq<Slot>, frames: map<Slot, seq<Bar>>, name: string)
    requires NoDuplicates(slots)
    requires forall s :: s in slots && s in frames ==> UniqueKeys(frames[s])
    requires forall s, t :: s in slots && t in slots && s != t && s.provider == t.provider
                            && s in frames && t in frames ==>
               NoCommonKey(frames[s], frames[t])
    ensures UniqueKeys(Pool(slots, frames, name))
  {
    if slots != [] {
      var before, last := slots[..|slots| - 1], slots[|slots| - 1];
      PoolIsUnique(before, frames, name);
      if last.provider == name && last in frames {
        var pooled := Pool(before, frames, name);
        forall x, y | x in pooled && y in frames[last] ensures x.key != y.key {
          PoolHas(before, frames, name, x);
          var s :| s in before && s.provider == name && s in frames && x in frames[s];
          assert s in slots && last in slots && s != last;
          assert NoCommonKey(frames[s], frames[last]);
        }
        ConcatUnique(pooled, frames[last]);
      }
    }
  }

  lemma {:induction false} UniquePoolSplits(slots: seq<Slot>, frames: map<Slot, seq<Bar>>, name: string,
                                            s: Slot, t: Slot)
    requires UniqueKeys(Pool(slots, frames, name)) && s in slots && t in slots && s != t
    requires s.provider == t.provider == name && s in frames && t in frames
    ensures NoCommonKey(frames[s], frames[t])
  {
    var before, last := slots[..|slots| - 1], slots[|slots| - 1];
    var pooled := Pool(before, frames, name);
    assert UniqueKeys(pooled) by {
      assert pooled == Pool(slots, frames, name)[..|pooled|];
    }
    if s != last && t != last {
      UniquePoolSplits(before, frames, name, s, t);
    } else {
      var other := if s == last then t else s;
      assert other in before;
      NoKeyTwice(pooled, frames[last]);
      forall x | x in frames[other] ensures x in pooled {
        PoolHas(before, frames, name, x);
      }
    }
  }

  lemma NoKeyTwice(a: seq<Bar>, b: seq<Bar>)
    requires UniqueKeys(a + b)
    ensures NoCommonKey(a, b)
  {
    forall x, y | x in a && y in b ensures x.key != y.key {
      var i :| 0 <= i < |a| && a[i] == x;
      var j :| 0 <= j < |b| && b[j] == y;
      assert (a + b)[i] == x && (a + b)[|a| + j] == y;
    }
  }

  /** No row of one table is an observation that the other has. */
  ghost predicate Apart(rows: seq<Row>, rows': seq<Row>) {
    forall i, j :: 0 <= i < |rows| && 0 <= j < |rows'| ==> !SameObservation(rows[i], rows'[j])
  }

  /** Two partitions of one provider have payloads apart from each other. */
  ghost predicate ApartAt(raw: map<Slot, RawFrame>, s: Slot, t: Slot) {
    s in raw && t in raw && raw[s].Table? && raw[t].Table? && Apart(raw[s].rows, raw[t].rows)
  }

  /** Every payload is readable, and no two partitions of a provider bring the same observation. */
  ghost predicate GoodCells(plan: Plan, raw: map<Slot, RawFrame>) {
    && AllReadable(plan, raw)
    && forall s, t :: s in plan.slots && t in plan.slots && s != t && s.provider == t.provider ==> ApartAt(raw, s, t)
  }

  lemma ApartIff(raw: RawFrame, raw': RawFrame)
    requires Canonicalize(raw).Some? && Canonicalize(raw').Some?
    ensures raw.Table? && raw'.Table?
    ensures Apart(raw.rows, raw'.rows) <==> NoCommonKey(Canonicalize(raw).value, Canonicalize(raw').value)
  {
    var bars, bars' := Canonicalize(raw).value, Canonicalize(raw').value;
    forall i, j | 0 <= i < |bars| && 0 <= j < |bars'|
      ensures SameObservation(raw.rows[i], raw'.rows[j]) <==> bars[i].key == bars'[j].key
    {
      assert ValidRow(NormalizeRows(raw.rows)[i]) && ValidRow(NormalizeRows(raw'.rows)[j]);
      SameObservationIff(raw.rows[i], raw'.rows[j]);
    }
    KeysApartIff(bars, bars');
  }

  lemma KeysApartIff(a: seq<Bar>, b: seq<Bar>)
    ensures NoCommonKey(a, b) <==> forall i, j :: 0 <= i < |a| && 0 <= j < |b| ==> a[i].key != b[j].key
  {
    if NoCommonKey(a, b) {
      forall i, j | 0 <= i < |a| && 0 <= j < |b| ensures a[i].key != b[j].key {
        assert a[i] in a && b[j] in b;
      }
    }
  }

  lemma GoodPayloadsIff(plan: Plan, raw: map<Slot, RawFrame>)
    requires plan.WellFormed()
    ensures GoodPayloads(plan, raw) <==> GoodCells(plan, raw)
  {
    ReadableIff(plan, raw);
    if AllReadable(plan, raw) {
      var frames := CanonicalFrames(raw);
      forall s, t | s in plan.slots && t in plan.slots
        ensures ApartAt(raw, s, t) <==> NoCommonKey(frames[s], frames[t])
      {
        ApartIff(raw[s], raw[t]);
      }
      forall s | s in plan.slots ensures UniqueKeys(frames[s]) {
        CanonicalizeGivesCanonical(raw[s]);
      }
      if GoodCells(plan, raw) {
        forall i | 0 <= i < |plan.providers| ensures UniqueKeys(CrashFreeSources(plan, raw)[i].bars) {
          PoolIsUnique(plan.slots, frames, plan.providers[i]);
        }
      }
      if GoodPayloads(plan, raw) {
        forall s, t | s in plan.slots && t in plan.slots && s != t && s.provider == t.provider
          ensures ApartAt(raw, s, t)
        {
          var m :| 0 <= m < |plan.slots| && plan.slots[m] == s;
          var i :| 0 <= i < |plan.providers| && plan.providers[i] == s.provider;
          assert UniqueKeys(CrashFreeSources(plan, raw)[i].bars);
          UniquePoolSplits(plan.slots, frames, s.provider, s, t);
        }
      }
    }
  }
}
