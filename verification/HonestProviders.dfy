/**
 When a run cannot be blocked by its data: providers that answer well-formed frames for no other
 symbols than those asked for.
 */
module HonestProviders {
  import opened Text
  import opened Equities
  import opened Recovery
  import opened CrashFree
  import opened Partitions

  /** The row's symbol is one of these, in whatever spelling. */
  ghost predicate About(r: Row, symbols: seq<string>) {
    r.symbol.Some? && exists s :: s in symbols && Spells(s, r.symbol.value)
  }

  /** Every partition's payload is readable and mentions only the partition's symbols. */
  ghost predicate Honest(parts: seq<WorkPartition>, raw: map<Slot, RawFrame>) {
    forall w :: w in parts ==>
      && w.slot in raw && !Rejected(raw[w.slot])
      && forall i :: 0 <= i < |raw[w.slot].rows| ==> About(raw[w.slot].rows[i], w.symbols)
  }

  lemma HonestFrame(parts: seq<WorkPartition>, raw: map<Slot, RawFrame>, w: WorkPartition)
    requires Honest(parts, raw) && w in parts
    ensures w.slot in raw && Canonicalize(raw[w.slot]).Some?
    ensures forall b :: b in Canonicalize(raw[w.slot]).value ==> b.key.symbol in w.symbols
  {
    CanonicalizeFailsIff(raw[w.slot]);
    var bars, rows := Canonicalize(raw[w.slot]).value, raw[w.slot].rows;
    CanonicalizeIff(raw[w.slot], bars);
    forall i | 0 <= i < |bars| ensures bars[i].key.symbol in w.symbols {
      assert About(rows[i], w.symbols) && Says(rows[i], bars[i]);
      var s :| s in w.symbols && Spells(s, rows[i].symbol.value);
      CanonIff(s, rows[i].symbol.value);
      CanonIff(bars[i].key.symbol, rows[i].symbol.value);
    }
  }

  lemma PartitionOfSlot(parts: seq<WorkPartition>, providers: seq<string>, slot: Slot) returns (w: WorkPartition)
    requires slot in PlanOf(providers, parts).slots
    ensures w in parts && w.slot == slot
  {
    var i :| 0 <= i < |parts| && parts[i].slot == slot;
    w := parts[i];
  }

  lemma SlotsShareNoKey(symbols: seq<string>, providers: seq<string>, bucketCount: int, hash: string -> nat,
                        raw: map<Slot, RawFrame>, v: WorkPartition, w: WorkPartition)
    requires Build(symbols, providers, bucketCount, hash).Ok?
    requires Honest(Build(symbols, providers, bucketCount, hash).value, raw)
    requires v in Build(symbols, providers, bucketCount, hash).value
        && w in Build(symbols, providers, bucketCount, hash).value
    requires v.slot != w.slot && v.slot.provider == w.slot.provider
    ensures v.slot in CanonicalFrames(raw) && w.slot in CanonicalFrames(raw)
    ensures NoCommonKey(CanonicalFrames(raw)[v.slot], CanonicalFrames(raw)[w.slot])
  {
    var parts := Build(symbols, providers, bucketCount, hash).value;
    HonestFrame(parts, raw, v);
    HonestFrame(parts, raw, w);
    PartitionIs(symbols, providers, bucketCount, hash, v);
    forall x, y | x in CanonicalFrames(raw)[v.slot] && y in CanonicalFrames(raw)[w.slot] ensures x.key != y.key {
      if x.key == y.key {
        PartitionsCoverExactly(symbols, providers, bucketCount, hash, v.slot.provider, x.key.symbol);
      }
    }
  }

  lemma HonestPlan(symbols: seq<string>, providers: seq<string>, bucketCount: int, hash: string -> nat,
                   raw: map<Slot, RawFrame>)
    requires Build(symbols, providers, bucketCount, hash).Ok?
    requires Honest(Build(symbols, providers, bucketCount, hash).value, raw)
    ensures var plan := PlanOf(providers, Build(symbols, providers, bucketCount, hash).value);
            && plan.WellFormed()
            && forall slot :: slot in plan.slots ==>
                 slot in raw && Canonicalize(raw[slot]).Some? && UniqueKeys(Canonicalize(raw[slot]).value)
  {
    var parts := Build(symbols, providers, bucketCount, hash).value;
    PlanIsWellFormed(symbols, providers, bucketCount, hash);
    forall slot | slot in PlanOf(providers, parts).slots
      ensures slot in raw && Canonicalize(raw[slot]).Some? && UniqueKeys(Canonicalize(raw[slot]).value)
    {
      var w := PartitionOfSlot(parts, providers, slot);
      HonestFrame(parts, raw, w);
      CanonicalizeGivesCanonical(raw[slot]);
    }
  }

  lemma HonestSlotsApart(symbols: seq<string>, providers: seq<string>, bucketCount: int, hash: string -> nat,
                         raw: map<Slot, RawFrame>)
    requires Build(symbols, providers, bucketCount, hash).Ok?
    requires Honest(Build(symbols, providers, bucketCount, hash).value, raw)
    ensures var slots := PlanOf(providers, Build(symbols, providers, bucketCount, hash).value).slots;
            forall s, t :: s in slots && t in slots && s != t && s.provider == t.provider
                           && s in CanonicalFrames(raw) && t in CanonicalFrames(raw) ==>
              NoCommonKey(CanonicalFrames(raw)[s], CanonicalFrames(raw)[t])
  {
    var parts, frames := Build(symbols, providers, bucketCount, hash).value, CanonicalFrames(raw);
    var slots := PlanOf(providers, parts).slots;
    forall s, t | s in slots && t in slots && s != t && s.provider == t.provider && s in frames && t in frames
      ensures NoCommonKey(frames[s], frames[t])
    {
      var v := PartitionOfSlot(parts, providers, s);
      var w := PartitionOfSlot(parts, providers, t);
      SlotsShareNoKey(symbols, providers, bucketCount, hash, raw, v, w);
    }
  }

  /** Honest answers, one per partition, always reconcile: the run can be committed. */
  lemma HonestPayloadsAreGood(symbols: seq<string>, providers: seq<string>, bucketCount: int, hash: string -> nat,
                              raw: map<Slot, RawFrame>)
    requires Build(symbols, providers, bucketCount, hash).Ok? && |FirstOccurrences(CanonAll(providers))| >= 2
    requires Honest(Build(symbols, providers, bucketCount, hash).value, raw)
    ensures GoodCells(PlanOf(providers, Build(symbols, providers, bucketCount, hash).value), raw)
  {
    var parts := Build(symbols, providers, bucketCount, hash).value;
    var plan, frames := PlanOf(providers, parts), CanonicalFrames(raw);
    HonestPlan(symbols, providers, bucketCount, hash, raw);
    HonestSlotsApart(symbols, providers, bucketCount, hash, raw);
    forall i | 0 <= i < |plan.providers| ensures UniqueKeys(CrashFreeSources(plan, raw)[i].bars) {
      PoolIsUnique(plan.slots, frames, plan.providers[i]);
    }
    GoodPayloadsIff(plan, raw);
  }
}
