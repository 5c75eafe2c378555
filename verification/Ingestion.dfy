/**
 The checkpointed ingestion as the program runs it: a lake of write-once partition archives, a
 manifest table, a worker per partition, and the loop over the outcomes. One schedule of the step
 system in `Recovery`: workers run one after the other, in any order.
 */
module Ingestion {
  import opened Wrappers
  import opened SeqFacts
  import opened Equities
  import opened Partitions
  import opened Recovery

  /** What the outside world does to one worker: the provider's answer and the fate of both writes. */
  datatype Script = Script(fetch: Answer, rawWritten: bool, normalizedWritten: bool)

  function AnswerFor(w: Worker, script: Script): Answer {
    match w
    case NeedsFetch => script.fetch
    case Fetched(_) => if script.rawWritten then Data(MissingColumns) else Failure
    case HasCanonical(_) => if script.normalizedWritten then Data(MissingColumns) else Failure
    case _ => Failure
  }

  /** A worker's steps from `w` to its outcome. */
  function RunWorker(parts: Archives, slot: Slot, w: Worker, script: Script, called: bool): (Outcome, Archives, bool)
    decreases WorkerRank(w)
  {
    if w.Done? then (w.outcome, parts, called)
    else
      var (w', parts', c) := WorkerStep(parts, slot, w, AnswerFor(w, script));
      RunWorker(parts', slot, w', script, called || c)
  }

  /** A worker running to its end keeps the archives sound and leaves a matching outcome. */
  lemma {:induction false} RunWorkerSound(parts: Archives, slot: Slot, w: Worker, script: Script, called: bool)
    requires PartitionsSound(parts) && WorkerSound(parts, slot, w)
    ensures var (outcome, parts', c) := RunWorker(parts, slot, w, script, called);
            && PartitionsSound(parts') && WorkerSound(parts', slot, Done(outcome)) && Adds(parts, parts', slot)
            && (c && !called ==> slot !in parts.raw)
    decreases WorkerRank(w)
  {
    if !w.Done? {
      WorkerStepSound(parts, slot, w, AnswerFor(w, script));
      var (w', parts', c) := WorkerStep(parts, slot, w, AnswerFor(w, script));
      RunWorkerSound(parts', slot, w', script, called || c);
    }
  }

  ghost predicate AgreeAt(parts: Archives, parts': Archives, slot: Slot) {
    && (slot in parts.raw <==> slot in parts'.raw)
    && (slot in parts.raw ==> parts.raw[slot] == parts'.raw[slot])
    && (slot in parts.normalized <==> slot in parts'.normalized)
    && (slot in parts.normalized ==> parts.normalized[slot] == parts'.normalized[slot])
  }

  /** What a worker does depends on its own partition's archives only. */
  lemma {:induction false} RunWorkerIsLocal(parts: Archives, parts': Archives, slot: Slot, w: Worker, script: Script,
                                            called: bool)
    requires AgreeAt(parts, parts', slot)
    ensures var (o, after, c) := RunWorker(parts, slot, w, script, called);
            var (o', after', c') := RunWorker(parts', slot, w, script, called);
            o == o' && c == c' && AgreeAt(after, after', slot)
    decreases WorkerRank(w)
  {
    if !w.Done? {
      var (next, after, c) := WorkerStep(parts, slot, w, AnswerFor(w, script));
      var (next', after', c') := WorkerStep(parts', slot, w, AnswerFor(w, script));
      assert next == next' && c == c' && AgreeAt(after, after', slot);
      RunWorkerIsLocal(after, after', slot, next, script, called || c);
    }
  }

  /** The second half of a worker: normalize, validate, archive. */
  lemma FromRaw(parts: Archives, slot: Slot, raw: RawFrame, script: Script, called: bool)
    ensures RunWorker(parts, slot, HasRaw(raw), script, called)
            == match Canonicalize(raw)
               case None => (Broken, parts, called)
               case Some(frame) =>
                 if !script.normalizedWritten || slot in parts.normalized then (Broken, parts, called)
                 else (Loaded(frame), parts.(normalized := parts.normalized[slot := frame]), called)
  {
    if Canonicalize(raw).Some? {
      var frame := Canonicalize(raw).value;
      assert RunWorker(parts, slot, HasRaw(raw), script, called)
          == RunWorker(parts, slot, HasCanonical(frame), script, called);
      var (w, parts', c) := WorkerStep(parts, slot, HasCanonical(frame), AnswerFor(HasCanonical(frame), script));
      assert RunWorker(parts, slot, HasCanonical(frame), script, called) == RunWorker(parts', slot, w, script, called);
      assert RunWorker(parts', slot, w, script, called) == (w.outcome, parts', called);
    }
  }

  /** What a worker does, from the cells of its payload: the outcome, the archives it leaves, the provider's call. */
  ghost predicate Executes(before: Archives, after: Archives, slot: Slot, script: Script, outcome: Outcome,
                           called: bool)
  {
    if slot in before.normalized then
      outcome == Loaded(before.normalized[slot]) && after == before && !called
    else
      && (called <==> slot !in before.raw)
      && (slot in after.raw <==> slot in before.raw || (script.fetch.Data? && script.rawWritten))
      && after.raw == (if slot !in before.raw && slot in after.raw then before.raw[slot := script.fetch.raw]
                       else before.raw)
      && (outcome == Broken <==> slot !in after.raw || Rejected(after.raw[slot]) || !script.normalizedWritten)
      && after.normalized == (if outcome.Loaded? then before.normalized[slot := outcome.frame] else before.normalized)
      && (outcome.Loaded? ==> after.raw[slot].Table? && Parses(after.raw[slot].rows, outcome.frame))
  }

  lemma RawExecutes(before: Archives, parts: Archives, slot: Slot, script: Script, called: bool)
    requires slot !in before.normalized && parts.normalized == before.normalized && slot in parts.raw
    requires called <==> slot !in before.raw
    requires parts.raw == if called then before.raw[slot := parts.raw[slot]] else before.raw
    requires called ==> script.fetch == Data(parts.raw[slot]) && script.rawWritten
    ensures var (outcome, after, c) := RunWorker(parts, slot, HasRaw(parts.raw[slot]), script, called);
            Executes(before, after, slot, script, outcome, c)
  {
    var raw := parts.raw[slot];
    FromRaw(parts, slot, raw, script, called);
    CanonicalizeFailsIff(raw);
    if Canonicalize(raw).Some? {
      CanonicalizeIff(raw, Canonicalize(raw).value);
    }
  }

  lemma RunWorkerExecutes(before: Archives, slot: Slot, script: Script)
    ensures var (outcome, after, called) := RunWorker(before, slot, Start, script, false);
            Executes(before, after, slot, script, outcome, called)
  {
    if slot !in before.normalized {
      assert RunWorker(before, slot, Start, script, false) == RunWorker(before, slot, NotNormalized, script, false);
      if slot in before.raw {
        RawExecutes(before, before, slot, script, false);
      } else {
        FetchExecutes(before, slot, script);
      }
    }
  }

  lemma FetchExecutes(before: Archives, slot: Slot, script: Script)
    requires slot !in before.normalized && slot !in before.raw
    ensures var (outcome, after, called) := RunWorker(before, slot, NotNormalized, script, false);
            Executes(before, after, slot, script, outcome, called)
  {
    assert RunWorker(before, slot, NotNormalized, script, false) == RunWorker(before, slot, NeedsFetch, script, false);
    if script.fetch.Data? {
      var raw := script.fetch.raw;
      assert RunWorker(before, slot, NeedsFetch, script, false)
          == RunWorker(before, slot, Fetched(raw), script, true);
      if script.rawWritten {
        var parts := before.(raw := before.raw[slot := raw]);
        assert RunWorker(before, slot, Fetched(raw), script, true) == RunWorker(parts, slot, HasRaw(raw), script, true);
        RawExecutes(before, parts, slot, script, true);
      }
    }
  }

  class Lake {
    var raw: map<Slot, RawFrame>
    var normalized: map<Slot, seq<Bar>>

    function View(): Archives
      reads this
    {
      Archives(raw, normalized)
    }

    /** `write_partition_once` on the raw layer; false stands for the raised error. */
    method WriteRawOnce(slot: Slot, frame: RawFrame, written: bool) returns (ok: bool)
      modifies this`raw
      ensures ok <==> written && slot !in old(raw)
      ensures raw == if ok then old(raw)[slot := frame] else old(raw)
    {
      if slot in raw || !written {
        return false;
      }
      raw := raw[slot := frame];
      return true;
    }

    /** `write_partition_once` on the normalized layer. */
    method WriteNormalizedOnce(slot: Slot, frame: seq<Bar>, written: bool) returns (ok: bool)
      modifies this`normalized
      ensures ok <==> written && slot !in old(normalized)
      ensures normalized == if ok then old(normalized)[slot := frame] else old(normalized)
    {
      if slot in normalized || !written {
        return false;
      }
      normalized := normalized[slot := frame];
      return true;
    }

    /** `_execute_partition_inner`, with the early return, the checkpoint order and the error path. */
    method ExecutePartition(slot: Slot, script: Script) returns (outcome: Outcome, called: bool)
      modifies this
      ensures (outcome, View(), called) == RunWorker(old(View()), slot, Start, script, false)
      ensures called <==> slot !in old(normalized) && slot !in old(raw)
      ensures Executes(old(View()), View(), slot, script, outcome, called)
    {
      RunWorkerExecutes(View(), slot, script);
      called := false;
      if slot in normalized {
        return Loaded(normalized[slot]), called;
      }
      var payload;
      if slot in raw {
        payload := raw[slot];
      } else {
        called := true;
        ghost var before := View();
        assert RunWorker(before, slot, Start, script, false) == RunWorker(before, slot, NotNormalized, script, false)
            == RunWorker(before, slot, NeedsFetch, script, false);
        if script.fetch.Failure? {
          return Broken, called;
        }
        payload := script.fetch.raw;
        assert RunWorker(before, slot, NeedsFetch, script, false)
            == RunWorker(before, slot, Fetched(payload), script, true);
        var ok := WriteRawOnce(slot, payload, script.rawWritten);
        if !ok {
          return Broken, called;
        }
      }
      assert RunWorker(old(View()), slot, Start, script, false)
          == RunWorker(View(), slot, HasRaw(payload), script, called);
      FromRaw(View(), slot, payload, script, called);
      var canonical := Canonicalize(payload);
      if canonical.None? {
        return Broken, called;
      }
      var ok := WriteNormalizedOnce(slot, canonical.value, script.normalizedWritten);
      if !ok {
        return Broken, called;
      }
      return Loaded(canonical.value), called;
    }
  }

  // ------------------------------------------------------------ the manifest

  /** The rows after the first `k` slots have been registered. */
  function RegisterAll(rows: map<Slot, Entry>, slots: seq<Slot>, k: nat): map<Slot, Entry>
    requires k <= |slots|
  {
    if k == 0 then rows else Registered(RegisterAll(rows, slots, k - 1), slots[k - 1])
  }

  function MarkAll(rows: map<Slot, Entry>, slots: seq<Slot>, k: nat): map<Slot, Entry>
    requires k <= |slots|
  {
    if k == 0 then rows else MarkedRunning(MarkAll(rows, slots, k - 1), slots[k - 1])
  }

  function FinishAll(rows: map<Slot, Entry>, slots: seq<Slot>, outcomes: seq<Outcome>, k: nat): map<Slot, Entry>
    requires k <= |slots| == |outcomes|
  {
    if k == 0 then rows else Finished(FinishAll(rows, slots, outcomes, k - 1), slots[k - 1], outcomes[k - 1])
  }

  class Manifest {
    var rows: map<Slot, Entry>

    /** New partitions start PENDING; existing rows, whatever their state, stay. */
    method Register(slots: seq<Slot>)
      modifies this
      ensures rows == RegisterAll(old(rows), slots, |slots|)
    {
      for k := 0 to |slots|
        invariant rows == RegisterAll(old(rows), slots, k)
      {
        if slots[k] !in rows {
          rows := rows[slots[k] := Entry(Pending, 0, None)];
        }
      }
    }

    method MarkRunning(slot: Slot)
      modifies this
      ensures rows == MarkedRunning(old(rows), slot)
    {
      if slot in rows && !rows[slot].status.Success? {
        rows := rows[slot := Entry(Running, rows[slot].attempts + 1, rows[slot].rowCount)];
      }
    }

    /** No guard on the previous status. */
    method Finish(slot: Slot, outcome: Outcome)
      modifies this
      ensures rows == Finished(old(rows), slot, outcome)
    {
      if slot in rows {
        var e := rows[slot];
        rows := rows[slot := if outcome.Broken? then Entry(Failed, e.attempts, Some(0))
                             else Entry(Success, e.attempts, Some(|outcome.frame|))];
      }
    }
  }

  lemma {:induction false} RegisterAllIs(rows: map<Slot, Entry>, slots: seq<Slot>, k: nat)
    requires k <= |slots|
    ensures var all := RegisterAll(rows, slots, k);
            && (forall slot :: slot in all <==> slot in rows || slot in slots[..k])
            && forall slot :: slot in all ==> all[slot] == if slot in rows then rows[slot] else Entry(Pending, 0, None)
  {
    if k > 0 {
      RegisterAllIs(rows, slots, k - 1);
      assert slots[..k] == slots[..k - 1] + [slots[k - 1]];
    }
  }

  lemma {:induction false} MarkAllIs(rows: map<Slot, Entry>, slots: seq<Slot>, k: nat)
    requires k <= |slots| && NoDuplicates(slots)
    ensures var all := MarkAll(rows, slots, k);
            && all.Keys == rows.Keys
            && forall slot :: slot in rows ==>
                 all[slot] == if slot in slots[..k] && !rows[slot].status.Success?
                              then Entry(Running, rows[slot].attempts + 1, rows[slot].rowCount) else rows[slot]
  {
    if k > 0 {
      MarkAllIs(rows, slots, k - 1);
      assert slots[..k] == slots[..k - 1] + [slots[k - 1]];
    }
  }

  /** Where the manifest stands for a partition whose outcome has been recorded. */
  ghost predicate Recorded(rows: map<Slot, Entry>, normalized: map<Slot, seq<Bar>>, slot: Slot) {
    && slot in rows
    && if slot in normalized then rows[slot].status == Success && rows[slot].rowCount == Some(|normalized[slot]|)
       else rows[slot].status == Failed && rows[slot].rowCount == Some(0)
  }

  /** The workers' outcomes agree with what is archived. */
  ghost predicate OutcomesSound(parts: Archives, order: seq<Slot>, outcomes: seq<Outcome>) {
    |outcomes| <= |order| && forall i :: 0 <= i < |outcomes| ==> WorkerSound(parts, order[i], Done(outcomes[i]))
  }

  /** A worker started on `before` gave this outcome, and `after` holds what it left for its partition. */
  ghost predicate RanFrom(before: Archives, after: Archives, slot: Slot, script: Script, outcome: Outcome) {
    var (o, parts, called) := RunWorker(before, slot, Start, script, false);
    o == outcome && AgreeAt(parts, after, slot)
  }

  /** The first `k` workers of the order have run on `before`, and nothing else has changed. */
  ghost predicate AllRan(before: Archives, after: Archives, order: seq<Slot>, scripts: seq<Script>,
                         outcomes: seq<Outcome>, k: nat)
    requires k <= |order| == |scripts|
  {
    && |outcomes| == k
    && (forall i :: 0 <= i < k ==> RanFrom(before, after, order[i], scripts[i], outcomes[i]))
    && (forall slot :: slot !in order[..k] ==> AgreeAt(before, after, slot))
  }

  lemma RanLast(before: Archives, middle: Archives, after: Archives, slot: Slot, script: Script, outcome: Outcome)
    requires AgreeAt(before, middle, slot)
    requires RunWorker(middle, slot, Start, script, false).0 == outcome
    requires RunWorker(middle, slot, Start, script, false).1 == after
    ensures RanFrom(before, after, slot, script, outcome)
  {
    RunWorkerIsLocal(before, middle, slot, Start, script, false);
  }

  lemma RanEarlier(before: Archives, middle: Archives, after: Archives, slot: Slot, script: Script, outcome: Outcome)
    requires RanFrom(before, middle, slot, script, outcome) && AgreeAt(middle, after, slot)
    ensures RanFrom(before, after, slot, script, outcome)
  {
  }

  lemma RanOneMore(before: Archives, middle: Archives, after: Archives, order: seq<Slot>, scripts: seq<Script>,
                   outcomes: seq<Outcome>, k: nat, outcome: Outcome)
    requires k < |order| == |scripts| && NoDuplicates(order)
    requires AllRan(before, middle, order, scripts, outcomes, k)
    requires RanFrom(before, after, order[k], scripts[k], outcome)
    requires forall slot :: slot != order[k] ==> AgreeAt(middle, after, slot)
    ensures AllRan(before, after, order, scripts, outcomes + [outcome], k + 1)
  {
    assert order[..k + 1] == order[..k] + [order[k]];
    forall i | 0 <= i < k ensures RanFrom(before, after, order[i], scripts[i], outcomes[i]) {
      RanEarlier(before, middle, after, order[i], scripts[i], outcomes[i]);
    }
    forall slot | slot !in order[..k + 1] ensures AgreeAt(before, after, slot) {
      assert AgreeAt(before, middle, slot) && AgreeAt(middle, after, slot);
    }
  }

  lemma RanSound(before: Archives, after: Archives, slot: Slot, script: Script, outcome: Outcome)
    requires PartitionsSound(before) && RanFrom(before, after, slot, script, outcome)
    ensures WorkerSound(after, slot, Done(outcome)) && KeptAt(before, after, slot)
  {
    RunWorkerSound(before, slot, Start, script, false);
  }

  /** Each worker of the pool did what its partition's cells call for. */
  lemma RanExecutes(before: Archives, after: Archives, slot: Slot, script: Script, outcome: Outcome)
    returns (parts: Archives, called: bool)
    requires RanFrom(before, after, slot, script, outcome)
    ensures Executes(before, parts, slot, script, outcome, called) && AgreeAt(parts, after, slot)
  {
    RunWorkerExecutes(before, slot, script);
    parts, called := RunWorker(before, slot, Start, script, false).1, RunWorker(before, slot, Start, script, false).2;
  }

  /** What had been archived for the partition is still there. */
  ghost predicate KeptAt(before: Archives, after: Archives, slot: Slot) {
    && (slot in before.raw ==> slot in after.raw && after.raw[slot] == before.raw[slot])
    && (slot in before.normalized ==> slot in after.normalized && after.normalized[slot] == before.normalized[slot])
  }

  /** Outcomes agree with the archives, and no archive has changed. */
  lemma AllRanSound(before: Archives, after: Archives, order: seq<Slot>, scripts: seq<Script>, outcomes: seq<Outcome>)
    requires |order| == |scripts| && PartitionsSound(before) && AllRan(before, after, order, scripts, outcomes, |order|)
    ensures OutcomesSound(after, order, outcomes)
    ensures forall slot :: KeptAt(before, after, slot)
  {
    forall i | 0 <= i < |order|
      ensures WorkerSound(after, order[i], Done(outcomes[i])) && KeptAt(before, after, order[i])
    {
      RanSound(before, after, order[i], scripts[i], outcomes[i]);
    }
    assert order[..|order|] == order;
    forall slot ensures KeptAt(before, after, slot) {
      if slot in order {
        var i :| 0 <= i < |order| && order[i] == slot;
      } else {
        assert AgreeAt(before, after, slot);
      }
    }
  }

  /** The worker pool, one worker after the other in completion order; `calls` are the provider calls made. */
  method RunWorkers(lake: Lake, order: seq<Slot>, scripts: seq<Script>)
    returns (outcomes: seq<Outcome>, calls: seq<Slot>)
    requires PartitionsSound(lake.View()) && NoDuplicates(order) && |scripts| == |order|
    modifies lake
    ensures PartitionsSound(lake.View())
    ensures AllRan(old(lake.View()), lake.View(), order, scripts, outcomes, |order|)
    ensures NoDuplicates(calls) && forall slot :: slot in calls <==> slot in order && slot !in old(lake.raw)
  {
    ghost var start := lake.View();
    outcomes, calls := [], [];
    for k := 0 to |order|
      invariant PartitionsSound(lake.View())
      invariant AllRan(start, lake.View(), order, scripts, outcomes, k)
      invariant NoDuplicates(calls) && forall slot :: slot in calls <==> slot in order[..k] && slot !in start.raw
    {
      ghost var before := lake.View();
      RunWorkerSound(before, order[k], Start, scripts[k], false);
      assert AgreeAt(start, before, order[k]);
      var outcome, called := lake.ExecutePartition(order[k], scripts[k]);
      RanLast(start, before, lake.View(), order[k], scripts[k], outcome);
      RanOneMore(start, before, lake.View(), order, scripts, outcomes, k, outcome);
      assert order[..k + 1] == order[..k] + [order[k]];
      outcomes := outcomes + [outcome];
      calls := calls + if called then [order[k]] else [];
    }
    assert order[..|order|] == order;
  }

  // ------------------------------------------------------------ before the workers start

  function Announced(rows: map<Slot, Entry>, slots: seq<Slot>): map<Slot, Entry> {
    MarkAll(RegisterAll(rows, slots, |slots|), slots, |slots|)
  }

  /** Register everything, then mark everything, before any worker starts. */
  method Announce(manifest: Manifest, slots: seq<Slot>)
    modifies manifest
    ensures manifest.rows == Announced(old(manifest.rows), slots)
  {
    manifest.Register(slots);
    ghost var registered := manifest.rows;
    for k := 0 to |slots|
      invariant manifest.rows == MarkAll(registered, slots, k)
    {
      manifest.MarkRunning(slots[k]);
    }
  }

  /** Every slot has a row and one more attempt; successful rows and those of other runs are as before. */
  lemma AnnouncedIs(rows: map<Slot, Entry>, slots: seq<Slot>)
    requires NoDuplicates(slots)
    ensures var all := Announced(rows, slots);
            && (forall slot :: slot in all <==> slot in rows || slot in slots)
            && (forall slot :: slot in slots && slot !in rows ==> all[slot].attempts == 1)
            && (forall slot :: slot in slots && slot in rows && rows[slot].status != Success ==>
                  all[slot].attempts == rows[slot].attempts + 1)
            && (forall slot :: slot in rows && (slot !in slots || rows[slot].status.Success?) ==>
                  all[slot] == rows[slot])
            && (forall slot :: slot in all && all[slot].status.Success? ==> slot in rows && rows[slot].status.Success?)
  {
    RegisterAllIs(rows, slots, |slots|);
    MarkAllIs(RegisterAll(rows, slots, |slots|), slots, |slots|);
    assert slots[..|slots|] == slots;
  }

  /** A finished row differs from the announced one in status and row count only. */
  ghost predicate SameAttempts(rows: map<Slot, Entry>, rows': map<Slot, Entry>, finished: seq<Slot>) {
    && rows'.Keys == rows.Keys
    && (forall slot :: slot in rows ==> rows'[slot].attempts == rows[slot].attempts)
    && (forall slot :: slot in rows && slot !in finished ==> rows'[slot] == rows[slot])
  }

  lemma AnnouncedSound(first: map<Slot, Entry>, announced: map<Slot, Entry>, before: Archives, after: Archives)
    requires ManifestSound(first, before.normalized) && forall slot :: KeptAt(before, after, slot)
    requires forall slot :: slot in announced && announced[slot].status.Success? ==>
               slot in first && first[slot] == announced[slot]
    ensures ManifestSound(announced, after.normalized)
  {
    forall slot | slot in announced && announced[slot].status.Success?
      ensures slot in after.normalized && announced[slot].rowCount == Some(|after.normalized[slot]|)
    {
      assert KeptAt(before, after, slot);
    }
  }

  /** The unguarded update writes back what a successful row already said. */
  lemma SuccessIsRestored(first: map<Slot, Entry>, announced: map<Slot, Entry>, last: map<Slot, Entry>,
                          before: Archives, after: Archives, slots: seq<Slot>)
    requires ManifestSound(first, before.normalized) && SameAttempts(announced, last, slots)
    requires forall slot :: KeptAt(before, after, slot)
    requires forall slot :: slot in first && (slot !in slots || first[slot].status.Success?) ==>
               slot in announced && announced[slot] == first[slot]
    requires forall slot :: slot in slots ==> Recorded(last, after.normalized, slot)
    ensures forall slot :: slot in first && (slot !in slots || first[slot].status.Success?) ==>
              slot in last && last[slot] == first[slot]
  {
    forall slot | slot in first && first[slot].status.Success? && slot in slots ensures last[slot] == first[slot] {
      assert KeptAt(before, after, slot);
    }
  }

  lemma OrderHasNoDuplicates(plan: Plan, order: seq<Slot>)
    requires NoDuplicates(plan.slots) && multiset(order) == multiset(plan.slots)
    ensures NoDuplicates(order)
  {
    forall i, j | 0 <= i < j < |order| ensures order[i] != order[j] {
      if order[i] == order[j] {
        assert order == order[..j] + order[j..];
        assert order[..j][i] == order[i] && order[j..][0] == order[i];
        assert order[i] in multiset(order[..j]) && order[i] in multiset(order[j..]);
        CountWithoutDuplicates(plan.slots, order[i]);
      }
    }
  }

  lemma RecordedOneMore(parts: Archives, rows: map<Slot, Entry>, order: seq<Slot>, k: nat, outcome: Outcome)
    requires k < |order| && NoDuplicates(order) && order[k] in rows && ManifestSound(rows, parts.normalized)
    requires forall i :: 0 <= i < k ==> Recorded(rows, parts.normalized, order[i])
    requires WorkerSound(parts, order[k], Done(outcome))
    ensures var rows' := Finished(rows, order[k], outcome);
            && ManifestSound(rows', parts.normalized)
            && forall i :: 0 <= i <= k ==> Recorded(rows', parts.normalized, order[i])
  {
  }

  /** Where the loop over the outcomes stands after the first `k` of them. */
  ghost predicate FinishedSoFar(plan: Plan, parts: Archives, rows: map<Slot, Entry>, order: seq<Slot>, k: nat,
                                failures: seq<Slot>, frames: map<string, seq<Bar>>)
    requires k <= |order|
  {
    && (forall slot :: slot in plan.slots ==> slot in rows)
    && ManifestSound(rows, parts.normalized)
    && (forall i :: 0 <= i < k ==> Recorded(rows, parts.normalized, order[i]))
    && (forall slot :: slot in failures <==> slot in order[..k] && slot !in parts.normalized)
    && FramesSound(plan, parts.normalized, order[..k], failures != [], frames)
  }

  /** One turn of the loop. */
  method FinishOne(plan: Plan, manifest: Manifest, order: seq<Slot>, k: nat, outcome: Outcome, failures: seq<Slot>,
                   frames: map<string, seq<Bar>>, ghost parts: Archives)
    returns (failures': seq<Slot>, frames': map<string, seq<Bar>>)
    requires plan.WellFormed() && NoDuplicates(order) && k < |order| && order[k] in plan.slots
    requires WorkerSound(parts, order[k], Done(outcome))
    requires FinishedSoFar(plan, parts, manifest.rows, order, k, failures, frames)
    modifies manifest
    ensures FinishedSoFar(plan, parts, manifest.rows, order, k + 1, failures', frames')
    ensures SameAttempts(old(manifest.rows), manifest.rows, [order[k]])
    ensures manifest.rows == Finished(old(manifest.rows), order[k], outcome)
  {
    var slot := order[k];
    ProviderOfSlot(plan, slot);
    assert order[..k + 1] == order[..k] + [slot];
    FrameAppended(plan, parts, order[..k], slot, failures != [], frames, outcome);
    RecordedOneMore(parts, manifest.rows, order, k, outcome);
    manifest.Finish(slot, outcome);
    if outcome.Broken? {
      failures', frames' := failures + [slot], frames;
    } else {
      failures', frames' := failures, frames[slot.provider := frames[slot.provider] + outcome.frame];
    }
  }

  lemma AllFinished(plan: Plan, parts: Archives, rows: map<Slot, Entry>, order: seq<Slot>,
                    failures: seq<Slot>, frames: map<string, seq<Bar>>)
    requires plan.WellFormed() && multiset(order) == multiset(plan.slots)
    requires FinishedSoFar(plan, parts, rows, order, |order|, failures, frames)
    ensures forall slot :: slot in plan.slots ==> Recorded(rows, parts.normalized, slot)
    ensures forall slot :: slot in failures <==> slot in plan.slots && slot !in parts.normalized
    ensures failures == [] <==> AllNormalized(plan, parts.normalized)
    ensures failures == [] ==> FramesPooled(plan, parts.normalized, frames)
                               && forall name :: name in frames ==> frames[name] == Pool(order, parts.normalized, name)
  {
    PermutationKeepsElements(order, plan.slots);
    assert order[..|order|] == order;
    if failures == [] {
      AllPooled(plan, parts.normalized, order, frames);
    } else {
      assert failures[0] in failures;
    }
  }

  lemma SameAttemptsStill(first: map<Slot, Entry>, rows: map<Slot, Entry>, rows': map<Slot, Entry>, slots: seq<Slot>,
                          slot: Slot)
    requires SameAttempts(first, rows, slots) && SameAttempts(rows, rows', [slot]) && slot in slots
    ensures SameAttempts(first, rows', slots)
  {
  }

  /** The loop over the outcomes: manifest rows, frames per provider, failures. */
  method FinishOutcomes(plan: Plan, manifest: Manifest, order: seq<Slot>, outcomes: seq<Outcome>, ghost parts: Archives)
    returns (failures: seq<Slot>, frames: map<string, seq<Bar>>)
    requires plan.WellFormed() && multiset(order) == multiset(plan.slots) && |outcomes| == |order|
        && NoDuplicates(order)
    requires OutcomesSound(parts, order, outcomes)
    requires ManifestSound(manifest.rows, parts.normalized)
    requires forall slot :: slot in plan.slots ==> slot in manifest.rows
    modifies manifest
    ensures FinishedSoFar(plan, parts, manifest.rows, order, |order|, failures, frames)
    ensures SameAttempts(old(manifest.rows), manifest.rows, plan.slots)
    ensures manifest.rows == FinishAll(old(manifest.rows), order, outcomes, |order|)
  {
    PermutationKeepsElements(order, plan.slots);
    failures, frames := [], map name | name in plan.providers :: [];
    for k := 0 to |order|
      invariant FinishedSoFar(plan, parts, manifest.rows, order, k, failures, frames)
      invariant SameAttempts(old(manifest.rows), manifest.rows, plan.slots)
      invariant manifest.rows == FinishAll(old(manifest.rows), order, outcomes, k)
    {
      assert order[k] in order;
      ghost var rows := manifest.rows;
      failures, frames := FinishOne(plan, manifest, order, k, outcomes[k], failures, frames, parts);
      SameAttemptsStill(old(manifest.rows), rows, manifest.rows, plan.slots, order[k]);
    }
  }

  /**
   The run of a given plan: it returns frames exactly when every partition is normalized by then, and
   the frames are the pools in completion order; otherwise it names exactly the other partitions.
   Every worker has run on the archives as they were, the provider has been called once for each
   partition without a raw archive and for no other, and rows of successful partitions are as before.
   */
  method IngestPlan(plan: Plan, lake: Lake, manifest: Manifest, order: seq<Slot>, scripts: seq<Script>)
    returns (r: Result<map<string, seq<Bar>>, seq<Slot>>, outcomes: seq<Outcome>, calls: seq<Slot>)
    requires plan.WellFormed() && multiset(order) == multiset(plan.slots) && |scripts| == |order|
    requires PartitionsSound(lake.View()) && ManifestSound(manifest.rows, lake.normalized)
    modifies lake, manifest
    ensures PartitionsSound(lake.View()) && ManifestSound(manifest.rows, lake.normalized)
    ensures AllRan(old(lake.View()), lake.View(), order, scripts, outcomes, |order|)
    ensures NoDuplicates(calls) && forall slot :: slot in calls <==> slot in plan.slots && slot !in old(lake.raw)
    ensures |outcomes| == |order|
    ensures manifest.rows == FinishAll(Announced(old(manifest.rows), plan.slots), order, outcomes, |order|)
    ensures forall slot :: slot in plan.slots ==> Recorded(manifest.rows, lake.normalized, slot)
    ensures forall slot :: slot in plan.slots && slot !in old(manifest.rows) ==>
              slot in manifest.rows && manifest.rows[slot].attempts == 1
    ensures forall slot ::
              slot in plan.slots && slot in old(manifest.rows) && old(manifest.rows)[slot].status != Success ==>
              slot in manifest.rows && manifest.rows[slot].attempts == old(manifest.rows)[slot].attempts + 1
    ensures forall slot ::
              slot in old(manifest.rows) && (slot !in plan.slots || old(manifest.rows)[slot].status.Success?) ==>
              slot in manifest.rows && manifest.rows[slot] == old(manifest.rows)[slot]
    ensures r.Ok? <==> AllNormalized(plan, lake.normalized)
    ensures r.Ok? ==> FramesPooled(plan, lake.normalized, r.value)
                      && forall name :: name in r.value ==> r.value[name] == Pool(order, lake.normalized, name)
    ensures r.Err? ==> forall slot :: slot in r.error <==> slot in plan.slots && slot !in lake.normalized
  {
    PermutationKeepsElements(order, plan.slots);
    OrderHasNoDuplicates(plan, order);
    AnnouncedIs(manifest.rows, plan.slots);
    Announce(manifest, plan.slots);
    ghost var before := lake.View();
    outcomes, calls := RunWorkers(lake, order, scripts);
    AllRanSound(before, lake.View(), order, scripts, outcomes);
    ghost var announced := manifest.rows;
    AnnouncedSound(old(manifest.rows), announced, before, lake.View());
    var failures, frames := FinishOutcomes(plan, manifest, order, outcomes, lake.View());
    AllFinished(plan, lake.View(), manifest.rows, order, failures, frames);
    SuccessIsRestored(old(manifest.rows), announced, manifest.rows, before, lake.View(), plan.slots);
    r := if failures != [] then Err(failures) else Ok(frames);
  }

  datatype IngestError = BadWorkerCount | BadPartitions(error: PartitionError) | FailedPartitions(slots: seq<Slot>)

  /**
   `ingest_equity_partitions`, from the configured symbols and the adapters by name. `order` is the
   order of completion, and `scripts` what happens to each worker.
   */
  method IngestEquityPartitions(symbols: seq<string>, providers: seq<string>, bucketCount: int, maxWorkers: int,
                                hash: string -> nat, lake: Lake, manifest: Manifest,
                                order: seq<Slot>, scripts: seq<Script>)
    returns (r: Result<map<string, seq<Bar>>, IngestError>, calls: seq<Slot>)
    requires PartitionsSound(lake.View()) && ManifestSound(manifest.rows, lake.normalized) && |scripts| == |order|
    requires Build(symbols, providers, bucketCount, hash).Ok? ==>
               multiset(order) == multiset(PlanOf(providers, Build(symbols, providers, bucketCount, hash).value).slots)
    modifies lake, manifest
    ensures PartitionsSound(lake.View()) && ManifestSound(manifest.rows, lake.normalized)
    ensures !(1 <= maxWorkers <= 64) ==> r == Err(BadWorkerCount)
    ensures 1 <= maxWorkers <= 64 && Build(symbols, providers, bucketCount, hash).Err? ==>
              r == Err(BadPartitions(Build(symbols, providers, bucketCount, hash).error))
    ensures r.Err? && !r.error.FailedPartitions? ==>
              calls == [] && lake.View() == old(lake.View()) && manifest.rows == old(manifest.rows)
    ensures 1 <= maxWorkers <= 64 && Build(symbols, providers, bucketCount, hash).Ok? ==>
              var plan := PlanOf(providers, Build(symbols, providers, bucketCount, hash).value);
              && (forall slot :: slot in calls <==> slot in plan.slots && slot !in old(lake.raw)) && NoDuplicates(calls)
              && (forall slot :: slot in plan.slots ==> Recorded(manifest.rows, lake.normalized, slot))
              && (r.Ok? <==> AllNormalized(plan, lake.normalized))
              && (r.Ok? ==> FramesPooled(plan, lake.normalized, r.value))
              && (r.Err? ==> r.error.FailedPartitions?
                             && forall slot ::
                                  slot in r.error.slots <==> slot in plan.slots && slot !in lake.normalized)
  {
    calls := [];
    if !(1 <= maxWorkers <= 64) {
      return Err(BadWorkerCount), calls;
    }
    var partitions := BuildWorkPartitions(symbols, providers, bucketCount, hash);
    if partitions.Err? {
      return Err(BadPartitions(partitions.error)), calls;
    }
    var plan := PlanOf(providers, partitions.value);
    PlanIsWellFormed(symbols, providers, bucketCount, hash);
    var result, outcomes;
    result, outcomes, calls := IngestPlan(plan, lake, manifest, order, scripts);
    r := match result case Ok(frames) => Ok(frames) case Err(slots) => Err(FailedPartitions(slots));
  }
}
