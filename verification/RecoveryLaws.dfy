/** What every history of attempts, crashes and retries of one batch run obeys. */
module RecoveryLaws {
  import opened Wrappers
  import opened SeqFacts
  import opened Equities
  import opened Reconciliation
  import opened ProviderPairs
  import opened Recovery
  import opened CrashFree

  // ------------------------------------------------------------ immutability

  /** Nothing archived or committed in `d` is gone or different in `d'`. */
  ghost predicate Grows(d: Disk, d': Disk) {
    && (forall slot :: slot in d.parts.raw ==> slot in d'.parts.raw && d'.parts.raw[slot] == d.parts.raw[slot])
    && (forall slot :: slot in d.parts.normalized ==>
          slot in d'.parts.normalized && d'.parts.normalized[slot] == d.parts.normalized[slot])
    && (forall name :: name in d.sourceRaw ==> name in d'.sourceRaw && d'.sourceRaw[name] == d.sourceRaw[name])
    && (forall name :: name in d.sourceNormalized ==>
          name in d'.sourceNormalized && d'.sourceNormalized[name] == d.sourceNormalized[name])
    && (d.results.Some? ==> d'.results == d.results)
    && (d.run.Some? ==> d'.run == d.run)
  }

  lemma StepGrows(plan: Plan, s: State, e: Event)
    requires Step(plan, s, e).Some?
    ensures Grows(s.disk, Step(plan, s, e).value.disk)
  {
  }

  /** Archives and committed runs never change, whatever happens. */
  lemma {:induction false} ArchivesNeverChange(plan: Plan, s: State, events: seq<Event>)
    requires Run(plan, s, events).Some?
    ensures Grows(s.disk, Run(plan, s, events).value.disk)
  {
    if events != [] {
      var before := events[..|events| - 1];
      ArchivesNeverChange(plan, s, before);
      StepGrows(plan, Run(plan, s, before).value, events[|events| - 1]);
    }
  }

  // ------------------------------------------------------------ provider calls

  lemma StepCalls(plan: Plan, s: State, e: Event, slot: Slot)
    requires plan.Valid() && Sound(plan, s) && Step(plan, s, e).Some? && slot in s.disk.parts.raw
    ensures multiset(Step(plan, s, e).value.calls)[slot] == multiset(s.calls)[slot]
  {
    if e.Work? {
      assert WorkerSound(s.disk.parts, e.slot, s.process.workers[e.slot]);
    }
  }

  /** Once the raw payload of a partition is archived its provider is never called for it again. */
  lemma {:induction false} NeverFetchedAgain(plan: Plan, s: State, events: seq<Event>, slot: Slot)
    requires plan.Valid() && Sound(plan, s) && Run(plan, s, events).Some? && slot in s.disk.parts.raw
    ensures multiset(Run(plan, s, events).value.calls)[slot] == multiset(s.calls)[slot]
  {
    if events != [] {
      var before := events[..|events| - 1];
      NeverFetchedAgain(plan, s, before, slot);
      RunPreserves(plan, s, before);
      ArchivesNeverChange(plan, s, before);
      StepCalls(plan, Run(plan, s, before).value, events[|events| - 1], slot);
    }
  }

  // ------------------------------------------------------------ the manifest

  /** The unguarded update only ever repeats what a SUCCESS entry says. */
  lemma FinishKeepsSuccess(plan: Plan, d: Disk, slot: Slot, outcome: Outcome, other: Slot)
    requires DiskSound(plan, d) && WorkerSound(d.parts, slot, Done(outcome))
    requires other in d.manifest && d.manifest[other].status.Success?
    ensures other in Finish(d, slot, outcome).manifest && Finish(d, slot, outcome).manifest[other] == d.manifest[other]
  {
  }

  lemma FinishingKeepsSuccess(plan: Plan, s: State, slot: Slot)
    requires plan.Valid() && Sound(plan, s) && s.process.Finishing? && MainStep(plan, s.disk, s.process).Some?
    requires slot in s.disk.manifest && s.disk.manifest[slot].status.Success?
    ensures var d := MainStep(plan, s.disk, s.process).value.0;
            slot in d.manifest && d.manifest[slot] == s.disk.manifest[slot]
  {
    var Finishing(workers, completed, k, _, _) := s.process;
    if k < |completed| {
      var finished := completed[k];
      assert finished in completed;
      assert WorkerSound(s.disk.parts, finished, workers[finished]);
      FinishKeepsSuccess(plan, s.disk, finished, workers[finished].outcome, slot);
    }
  }

  lemma OtherStepsKeepSuccess(plan: Plan, d: Disk, p: Process, slot: Slot)
    requires !p.Finishing? && MainStep(plan, d, p).Some?
    requires slot in d.manifest && d.manifest[slot].status.Success?
    ensures var d' := MainStep(plan, d, p).value.0;
            slot in d'.manifest && d'.manifest[slot] == d.manifest[slot]
  {
  }

  lemma StepKeepsSuccess(plan: Plan, s: State, e: Event, slot: Slot)
    requires plan.Valid() && Sound(plan, s) && Step(plan, s, e).Some?
    requires slot in s.disk.manifest && s.disk.manifest[slot].status.Success?
    ensures var t := Step(plan, s, e).value;
            slot in t.disk.manifest && t.disk.manifest[slot] == s.disk.manifest[slot]
  {
    if e.Advance? {
      if s.process.Finishing? {
        FinishingKeepsSuccess(plan, s, slot);
      } else {
        OtherStepsKeepSuccess(plan, s.disk, s.process, slot);
      }
    }
  }

  /**
   A partition that reached SUCCESS keeps its whole manifest entry, attempts and row count included,
   and the row count is that of its archive.
   */
  lemma {:induction false} SuccessIsFinal(plan: Plan, s: State, events: seq<Event>, slot: Slot)
    requires plan.Valid() && Sound(plan, s) && Run(plan, s, events).Some?
    requires slot in s.disk.manifest && s.disk.manifest[slot].status.Success?
    ensures var t := Run(plan, s, events).value;
            && slot in t.disk.manifest && t.disk.manifest[slot] == s.disk.manifest[slot]
            && slot in t.disk.parts.normalized
            && t.disk.manifest[slot].rowCount == Some(|t.disk.parts.normalized[slot]|)
  {
    RunPreserves(plan, s, events);
    if events != [] {
      var before := events[..|events| - 1];
      SuccessIsFinal(plan, s, before, slot);
      RunPreserves(plan, s, before);
      StepKeepsSuccess(plan, Run(plan, s, before).value, events[|events| - 1], slot);
    }
  }

  /** A retry of a committed run does nothing at all. */
  lemma {:induction false} CompletedRunIsNoOp(plan: Plan, s: State, events: seq<Event>)
    requires s.process.Idle? && s.disk.run.Some? && Run(plan, s, events).Some?
    ensures Run(plan, s, events) == Some(s)
  {
    if events != [] {
      CompletedRunIsNoOp(plan, s, events[..|events| - 1]);
    }
  }

  /** The attempt reads the run archives, reconciles them or stores the result. */
  predicate Reuses(p: Process) {
    p.Idle? || p.Comparing? || p.Storing?
  }

  lemma ReuseStep(plan: Plan, s: State, e: Event)
    requires HasAll(plan.providers, s.disk.sourceNormalized) && Reuses(s.process) && Step(plan, s, e).Some?
    ensures var t := Step(plan, s, e).value;
            && Reuses(t.process) && t.calls == s.calls && t.disk.parts == s.disk.parts
            && t.disk.manifest == s.disk.manifest && t.disk.sourceNormalized == s.disk.sourceNormalized
  {
  }

  /** Complete run archives are reused: no retry after that touches a partition, its manifest row or its provider. */
  lemma {:induction false} CompleteArchivesAreReused(plan: Plan, s: State, events: seq<Event>)
    requires HasAll(plan.providers, s.disk.sourceNormalized) && Reuses(s.process) && Run(plan, s, events).Some?
    ensures var t := Run(plan, s, events).value;
            && Reuses(t.process) && t.calls == s.calls && t.disk.parts == s.disk.parts
            && t.disk.manifest == s.disk.manifest && t.disk.sourceNormalized == s.disk.sourceNormalized
  {
    if events != [] {
      var before := events[..|events| - 1];
      CompleteArchivesAreReused(plan, s, before);
      ReuseStep(plan, Run(plan, s, before).value, events[|events| - 1]);
    }
  }

  // ------------------------------------------------------------ the result

  lemma NormalizedFramesAgree(plan: Plan, parts: Archives, name: string)
    requires PartitionsSound(parts) && AllNormalized(plan, parts.normalized)
    ensures Pool(plan.slots, parts.normalized, name) == Pool(plan.slots, CanonicalFrames(parts.raw), name)
  {
    forall slot | slot in plan.slots
      ensures slot in parts.normalized && slot in CanonicalFrames(parts.raw)
              && parts.normalized[slot] == CanonicalFrames(parts.raw)[slot]
    {
      var i :| 0 <= i < |plan.slots| && plan.slots[i] == slot;
    }
    PoolDependsOnSlots(plan.slots, parts.normalized, CanonicalFrames(parts.raw), name);
  }

  /** With every partition normalized, a provider's run archive holds the crash-free pool. */
  lemma ArchiveHoldsCrashFreePool(plan: Plan, d: Disk, name: string)
    requires DiskSound(plan, d) && name in d.sourceNormalized
    ensures AllValid(d.sourceNormalized[name])
    ensures multiset(ToBars(d.sourceNormalized[name])) == multiset(Pool(plan.slots, CanonicalFrames(d.parts.raw), name))
  {
    assert name in d.sourceRaw;
    NormalizedFramesAgree(plan, d.parts, name);
  }

  lemma SourcesMatch(plan: Plan, d: Disk)
    requires DiskSound(plan, d) && HasAll(plan.providers, d.sourceNormalized)
    requires AllFramesValid(FramesOf(plan.providers, d.sourceNormalized))
    ensures AllUnique(ToSources(FramesOf(plan.providers, d.sourceNormalized)))
    ensures SameBars(ToSources(FramesOf(plan.providers, d.sourceNormalized)), CrashFreeSources(plan, d.parts.raw))
  {
    forall i | 0 <= i < |plan.providers|
      ensures multiset(ToBars(d.sourceNormalized[plan.providers[i]]))
              == multiset(Pool(plan.slots, CanonicalFrames(d.parts.raw), plan.providers[i]))
    {
      ArchiveHoldsCrashFreePool(plan, d, plan.providers[i]);
    }
  }

  lemma {:induction false} CountIsOrderFree(rows: seq<Comparison>, rows': seq<Comparison>, s: Status)
    requires multiset(rows) == multiset(rows')
    ensures CountOf(rows, s) == CountOf(rows', s)
  {
    if rows == [] {
      PermutationKeepsElements(rows, rows');
    } else {
      var rest, x := rows[..|rows| - 1], rows[|rows| - 1];
      assert rows == rest + [x];
      var a, b := CutOut(rest, x, rows');
      CountIsOrderFree(rest, a + b, s);
      CountWithout(a, x, b, s);
    }
  }

  lemma {:induction false} CountWithout(a: seq<Comparison>, x: Comparison, b: seq<Comparison>, s: Status)
    ensures CountOf(a + [x] + b, s) == CountOf(a + b, s) + if x.status == s then 1 else 0
  {
    if b == [] {
      assert a + [x] + b == a + [x] && a + b == a;
      assert (a + [x])[..|a|] == a;
    } else {
      var c := b[..|b| - 1];
      assert (a + [x] + b)[..|a| + |b|] == a + [x] + c && (a + b)[..|a| + |b| - 1] == a + c;
      CountWithout(a, x, c, s);
    }
  }

  /** Symbol, date and provider pair identify a committed row. */
  lemma CommittedRowsDiffer(plan: Plan, d: Disk)
    requires DiskSound(plan, d) && d.run.Some? && DifferBeyondCase(plan.providers)
    ensures DistinctComparisons(d.run.value.rows)
  {
    var ps := FramesOf(plan.providers, d.sourceNormalized);
    assert NamesOf(ps) == plan.providers;
    ReconcileReconciles(HYBRID, ps);
  }

  /**
   Whatever the crashes, retries, failures and completion orders were: the rows a run commits are
   the reconciliation of the normalized first payload of each partition, which compares what the rows
   archived for one provider say with what those of another say, and its counts and status are those
   of its rows.
   */
  lemma CommittedRunIsCrashFree(plan: Plan, events: seq<Event>)
    requires plan.Valid() && Run(plan, FRESH, events).Some? && Run(plan, FRESH, events).value.disk.run.Some?
    ensures var d := Run(plan, FRESH, events).value.disk;
            var record := d.run.value;
            && AllReadable(plan, d.parts.raw)
            && ComparesArchives(plan, d.parts.raw, record.rows)
            && (DifferBeyondCase(plan.providers) ==> DistinctComparisons(record.rows))
            && multiset(record.rows) == multiset(CrashFreeResult(plan, d.parts.raw))
            && record.matches == CountOf(CrashFreeResult(plan, d.parts.raw), Match) == |Places(record.rows, Match)|
            && record.breaks == CountOf(CrashFreeResult(plan, d.parts.raw), Break) == |Places(record.rows, Break)|
            && (record.status == Clean <==> forall c :: c in record.rows ==> c.status != Break)
  {
    RunPreserves(plan, FRESH, events);
    CommittedDisk(plan, Run(plan, FRESH, events).value.disk);
    CommittedIs(plan, Run(plan, FRESH, events).value.disk);
  }

  lemma {:induction false} NoneCounted(rows: seq<Comparison>, s: Status)
    ensures CountOf(rows, s) == 0 <==> forall c :: c in rows ==> c.status != s
  {
    if rows != [] {
      NoneCounted(rows[..|rows| - 1], s);
      assert rows == rows[..|rows| - 1] + [rows[|rows| - 1]];
    }
  }

  lemma CommittedIs(plan: Plan, d: Disk)
    requires plan.Valid() && DiskSound(plan, d) && d.run.Some?
    ensures AllReadable(plan, d.parts.raw)
    ensures ComparesArchives(plan, d.parts.raw, d.run.value.rows)
    ensures ComparesArchives(plan, d.parts.raw, CrashFreeResult(plan, d.parts.raw))
    ensures DifferBeyondCase(plan.providers) ==> DistinctComparisons(d.run.value.rows)
    ensures multiset(d.run.value.rows) == multiset(CrashFreeResult(plan, d.parts.raw))
    ensures d.run.value.matches == |Places(d.run.value.rows, Match)|
    ensures d.run.value.breaks == |Places(d.run.value.rows, Break)|
    ensures d.run.value.status == Clean <==> forall c :: c in d.run.value.rows ==> c.status != Break
  {
    var rows, raw := d.run.value.rows, d.parts.raw;
    CommittedDisk(plan, d);
    ReadableIff(plan, raw);
    CrashFreeResultIs(plan, raw);
    PermutationKeepsElements(rows, CrashFreeResult(plan, raw));
    CountIs(rows, Match);
    CountIs(rows, Break);
    NoneCounted(rows, Break);
    if DifferBeyondCase(plan.providers) {
      CommittedRowsDiffer(plan, d);
    }
  }

  /** Every archived row is a side of a committed comparison with each other provider. */
  lemma EveryRowIsCompared(plan: Plan, events: seq<Event>, slot: Slot, j: nat, other: string)
    returns (b: Bar, c: Comparison)
    requires plan.Valid() && Run(plan, FRESH, events).Some? && Run(plan, FRESH, events).value.disk.run.Some?
    requires slot in plan.slots && other in plan.providers && other != slot.provider
    requires var raw := Run(plan, FRESH, events).value.disk.parts.raw;
             slot in raw && raw[slot].Table? && j < |raw[slot].rows|
    ensures var d := Run(plan, FRESH, events).value.disk;
            && Says(d.parts.raw[slot].rows[j], b) && c in d.run.value.rows
            && Shows(c, slot.provider, other, b)
  {
    RunPreserves(plan, FRESH, events);
    var d := Run(plan, FRESH, events).value.disk;
    CommittedDisk(plan, d);
    CommittedIs(plan, d);
    b, c := RowIsCompared(plan, d.parts.raw, slot, j, other);
    PermutationKeepsElements(d.run.value.rows, CrashFreeResult(plan, d.parts.raw));
  }

  lemma CommittedDisk(plan: Plan, d: Disk)
    requires plan.Valid() && DiskSound(plan, d) && d.run.Some?
    ensures forall slot :: slot in plan.slots ==> slot in d.parts.raw && Canonicalize(d.parts.raw[slot]).Some?
    ensures AllUnique(CrashFreeSources(plan, d.parts.raw))
    ensures var expected := CrashFreeResult(plan, d.parts.raw);
            && multiset(d.run.value.rows) == multiset(expected)
            && d.run.value.matches == CountOf(expected, Match)
            && d.run.value.breaks == CountOf(expected, Break)
            && (d.run.value.status == Clean <==> CountOf(expected, Break) == 0)
  {
    var frames, rows := FramesOf(plan.providers, d.sourceNormalized), d.run.value.rows;
    SourcesMatch(plan, d);
    ReconciliationIsOrderFree(HYBRID, ToSources(frames), CrashFreeSources(plan, d.parts.raw));
    CountIsOrderFree(rows, CrashFreeResult(plan, d.parts.raw), Match);
    CountIsOrderFree(rows, CrashFreeResult(plan, d.parts.raw), Break);
    AllArchived(plan, d);
    SameBarsUnique(ToSources(frames), CrashFreeSources(plan, d.parts.raw));
  }

  lemma AllArchived(plan: Plan, d: Disk)
    requires plan.Valid() && DiskSound(plan, d) && HasAll(plan.providers, d.sourceNormalized)
    ensures forall slot :: slot in plan.slots ==> slot in d.parts.raw && Canonicalize(d.parts.raw[slot]).Some?
  {
    assert plan.providers[0] in d.sourceRaw;
    forall slot | slot in plan.slots ensures slot in d.parts.normalized {
      var i :| 0 <= i < |plan.slots| && plan.slots[i] == slot;
    }
  }

  lemma SameBarsUnique(ss: seq<Source>, ss': seq<Source>)
    requires SameBars(ss, ss') && AllUnique(ss)
    ensures AllUnique(ss')
  {
    forall i | 0 <= i < |ss'| ensures UniqueKeys(ss'[i].bars) {
      UniqueKeysIsOrderFree(ss[i].bars, ss'[i].bars);
    }
  }

  /** A malformed payload, once archived, keeps its partition from SUCCESS and the run from committing, for good. */
  lemma MalformedPayloadIsFinal(plan: Plan, s: State, events: seq<Event>, slot: Slot)
    requires plan.Valid() && Sound(plan, s) && Run(plan, s, events).Some?
    requires slot in plan.slots && slot in s.disk.parts.raw && Rejected(s.disk.parts.raw[slot])
    ensures var d := Run(plan, s, events).value.disk;
            d.run.None? && !(slot in d.manifest && d.manifest[slot].status.Success?)
  {
    CanonicalizeFailsIff(s.disk.parts.raw[slot]);
    RunPreserves(plan, s, events);
    ArchivesNeverChange(plan, s, events);
    var d := Run(plan, s, events).value.disk;
    if d.run.Some? {
      CommittedDisk(plan, d);
    }
  }
}
