/**
 One logical batch run, from any number of interrupted attempts.

 `Step` is the atomic step of an attempt: a manifest statement, a provider call, one archive file,
 one transaction. Partition workers interleave freely, a provider answers what it likes, a write may
 fail, and `Crash` may come between any two steps; what is on disk then is all that is left.
 */
module Recovery {
  import opened Wrappers
  import opened SeqFacts
  import opened Equities
  import opened Reconciliation
  import opened ProviderPairs

  // ------------------------------------------------------------ state

  /** One bucket of symbols at one provider: the identity of a work partition within the run. */
  datatype Slot = Slot(provider: string, bucket: nat)

  datatype Plan = Plan(providers: seq<string>, slots: seq<Slot>) {
    ghost predicate WellFormed() {
      && NoDuplicates(providers) && NoDuplicates(slots)
      && forall i :: 0 <= i < |slots| ==> slots[i].provider in providers
    }

    /** Enough providers for a reconciliation. */
    ghost predicate Valid() {
      WellFormed() && |providers| >= 2
    }
  }

  datatype PartitionStatus = Pending | Running | Success | Failed

  /** A row of `work_partitions`. */
  datatype Entry = Entry(status: PartitionStatus, attempts: nat, rowCount: Option<nat>)

  /** What the final transaction stores. */
  datatype RunRecord = RunRecord(frames: seq<Provider>, rows: seq<Comparison>, matches: nat, breaks: nat,
                                 status: RunStatus)

  /** The partition archives of both layers. */
  datatype Archives = Archives(raw: map<Slot, RawFrame>, normalized: map<Slot, seq<Bar>>)

  /** Everything that survives a crash. */
  datatype Disk = Disk(
    parts: Archives,
    manifest: map<Slot, Entry>,
    sourceRaw: map<string, seq<Row>>,          // run archives per provider, layer raw
    sourceNormalized: map<string, seq<Row>>,   // run archives per provider, layer normalized
    results: Option<seq<Comparison>>,          // archived reconciliation
    run: Option<RunRecord>)                    // committed run

  datatype Outcome = Loaded(frame: seq<Bar>) | Broken

  /** Where a partition worker stands. */
  datatype Worker =
    | Start
    | NotNormalized
    | NeedsFetch
    | Fetched(raw: RawFrame)
    | HasRaw(raw: RawFrame)
    | HasCanonical(frame: seq<Bar>)
    | Done(outcome: Outcome)

  /** Where the attempt stands; `Idle` when none is running. */
  datatype Process =
    | Idle
    | Registering(k: nat)
    | Marking(k: nat)
    | Ingesting(workers: map<Slot, Worker>, completed: seq<Slot>)
    | Finishing(workers: map<Slot, Worker>, completed: seq<Slot>, k: nat, failed: bool, frames: map<string, seq<Bar>>)
    | Archiving(frames: map<string, seq<Bar>>, done: seq<Provider>, raw: Option<seq<Row>>)
    | Comparing(bars: seq<Provider>)
    | Storing(bars: seq<Provider>, rows: seq<Comparison>, archived: bool)

  /** `calls` records every provider call of every attempt. */
  datatype State = State(disk: Disk, process: Process, calls: seq<Slot>)

  /** A provider's answer, or the fate of a write. */
  datatype Answer = Data(raw: RawFrame) | Failure

  datatype Event =
    | Advance                              // the main thread's next step
    | Work(slot: Slot, answer: Answer)     // a worker's next step
    | Crash

  // ------------------------------------------------------------ steps

  function Record(bars: seq<Provider>, rows: seq<Comparison>): RunRecord {
    RunRecord(bars, rows, CountOf(rows, Match), CountOf(rows, Break), RunStatusOf(rows))
  }

  predicate HasAll(providers: seq<string>, m: map<string, seq<Row>>) {
    forall i :: 0 <= i < |providers| ==> providers[i] in m
  }

  function FramesOf(providers: seq<string>, m: map<string, seq<Row>>): seq<Provider>
    requires HasAll(providers, m)
  {
    seq(|providers|, i requires 0 <= i < |providers| => Provider(providers[i], m[providers[i]]))
  }

  /** The start of `main`: nothing to do, reuse complete archives, or ingest. */
  function BeginAttempt(plan: Plan, d: Disk): Process {
    if d.run.Some? then Idle
    else if HasAll(plan.providers, d.sourceNormalized) then Comparing(FramesOf(plan.providers, d.sourceNormalized))
    else Registering(0)
  }

  /** `INSERT ... ON CONFLICT DO NOTHING`. */
  function Registered(rows: map<Slot, Entry>, slot: Slot): map<Slot, Entry> {
    if slot in rows then rows else rows[slot := Entry(Pending, 0, None)]
  }

  /** `UPDATE ... WHERE status <> 'SUCCESS'`. */
  function MarkedRunning(rows: map<Slot, Entry>, slot: Slot): map<Slot, Entry> {
    if slot !in rows || rows[slot].status.Success? then rows
    else rows[slot := rows[slot].(status := Running, attempts := rows[slot].attempts + 1)]
  }

  /** The unguarded `UPDATE` of `finish_work_partition`. */
  function Finished(rows: map<Slot, Entry>, slot: Slot, outcome: Outcome): map<Slot, Entry> {
    if slot !in rows then rows
    else
      var (status, count) := if outcome.Broken? then (Failed, 0) else (Success, |outcome.frame|);
      rows[slot := Entry(status, rows[slot].attempts, Some(count))]
  }

  function Register(d: Disk, slot: Slot): Disk {
    d.(manifest := Registered(d.manifest, slot))
  }

  function MarkRunning(d: Disk, slot: Slot): Disk {
    d.(manifest := MarkedRunning(d.manifest, slot))
  }

  function Finish(d: Disk, slot: Slot, outcome: Outcome): Disk {
    d.(manifest := Finished(d.manifest, slot, outcome))
  }

  /** One step of `_execute_partition_inner`: the worker, its archives, and whether the provider was called. */
  function WorkerStep(parts: Archives, slot: Slot, w: Worker, answer: Answer): (Worker, Archives, bool)
    requires !w.Done?
  {
    match w
    case Start =>
      (if slot in parts.normalized then Done(Loaded(parts.normalized[slot])) else NotNormalized, parts, false)
    case NotNormalized =>
      (if slot in parts.raw then HasRaw(parts.raw[slot]) else NeedsFetch, parts, false)
    case NeedsFetch =>
      (if answer.Data? then Fetched(answer.raw) else Done(Broken), parts, true)
    case Fetched(raw) =>
      if answer.Failure? || slot in parts.raw then (Done(Broken), parts, false)
      else (HasRaw(raw), parts.(raw := parts.raw[slot := raw]), false)
    case HasRaw(raw) =>
      (match Canonicalize(raw) case Some(frame) => HasCanonical(frame) case None => Done(Broken), parts, false)
    case HasCanonical(frame) =>
      if answer.Failure? || slot in parts.normalized then (Done(Broken), parts, false)
      else (Done(Loaded(frame)), parts.(normalized := parts.normalized[slot := frame]), false)
  }

  /** How many steps a worker has left at most. */
  function WorkerRank(w: Worker): nat {
    match w
    case Start => 6
    case NotNormalized => 5
    case NeedsFetch => 4
    case Fetched(_) => 3
    case HasRaw(_) => 2
    case HasCanonical(_) => 1
    case Done(_) => 0
  }

  /** One step of the loop over `archive_equity_source`. */
  function ArchiveStep(plan: Plan, d: Disk, p: Process): (Disk, Process)
    requires p.Archiving? && |p.done| < |plan.providers|
  {
    var name := plan.providers[|p.done|];
    match p.raw
    case None =>
      if name in d.sourceRaw then (d, p.(raw := Some(d.sourceRaw[name])))
      else
        var rows := FromBars(if name in p.frames then p.frames[name] else []);
        (d.(sourceRaw := d.sourceRaw[name := rows]), p.(raw := Some(rows)))
    case Some(raw) =>
      if name in d.sourceNormalized then
        (d, Archiving(p.frames, p.done + [Provider(name, d.sourceNormalized[name])], None))
      else
        var rows := NormalizeRows(raw);
        (d.(sourceNormalized := d.sourceNormalized[name := rows]),
         Archiving(p.frames, p.done + [Provider(name, rows)], None))
  }

  /** The main thread's next step; waiting for workers is no step. */
  function MainStep(plan: Plan, d: Disk, p: Process): Option<(Disk, Process)> {
    match p
    case Idle => Some((d, BeginAttempt(plan, d)))
    case Registering(k) =>
      if k < |plan.slots| then Some((Register(d, plan.slots[k]), Registering(k + 1))) else Some((d, Marking(0)))
    case Marking(k) =>
      if k < |plan.slots| then Some((MarkRunning(d, plan.slots[k]), Marking(k + 1)))
      else Some((d, Ingesting(map slot | slot in plan.slots :: Start, [])))
    case Ingesting(workers, completed) =>
      if |completed| < |plan.slots| then None
      else Some((d, Finishing(workers, completed, 0, false, map name | name in plan.providers :: [])))
    case Finishing(workers, completed, k, failed, frames) =>
      if k < |completed| then
        var slot := completed[k];
        if slot in workers && workers[slot].Done? && slot.provider in frames then
          var outcome := workers[slot].outcome;
          Some((Finish(d, slot, outcome),
                if outcome.Broken? then Finishing(workers, completed, k + 1, true, frames)
                else Finishing(workers, completed, k + 1, failed,
                               frames[slot.provider := frames[slot.provider] + outcome.frame])))
        else None
      else Some((d, if failed then Idle else Archiving(frames, [], None)))
    case Archiving(_, done, _) =>
      if |done| < |plan.providers| then Some(ArchiveStep(plan, d, p)) else Some((d, Comparing(done)))
    case Comparing(bars) =>
      Some((d, match Reconcile(HYBRID, bars) case Ok(rows) => Storing(bars, rows, false) case Err(_) => Idle))
    case Storing(bars, rows, archived) =>
      if !archived then Some((if d.results.Some? then d else d.(results := Some(rows)), Storing(bars, rows, true)))
      else Some((if d.run.Some? then d else d.(run := Some(Record(bars, rows))), Idle))
  }

  function Step(plan: Plan, s: State, e: Event): Option<State> {
    match e
    case Crash => Some(State(s.disk, Idle, s.calls))
    case Advance =>
      (match MainStep(plan, s.disk, s.process)
       case Some((d, p)) => Some(State(d, p, s.calls))
       case None => None)
    case Work(slot, answer) =>
      if s.process.Ingesting? && slot in s.process.workers && !s.process.workers[slot].Done? then
        var (w, parts, called) := WorkerStep(s.disk.parts, slot, s.process.workers[slot], answer);
        Some(State(s.disk.(parts := parts),
                   Ingesting(s.process.workers[slot := w], s.process.completed + if w.Done? then [slot] else []),
                   s.calls + if called then [slot] else []))
      else None
  }

  const EMPTY_DISK: Disk := Disk(Archives(map[], map[]), map[], map[], map[], None, None)

  const FRESH: State := State(EMPTY_DISK, Idle, [])

  /** The state after a history of events, if every one of them was possible. */
  function Run(plan: Plan, s: State, events: seq<Event>): Option<State> {
    if events == [] then Some(s)
    else
      match Run(plan, s, events[..|events| - 1])
      case None => None
      case Some(t) => Step(plan, t, events[|events| - 1])
  }

  // ------------------------------------------------------------ what the archives say

  /** The canonical bars of one provider, partition by partition in plan order. */
  function Pool(slots: seq<Slot>, frames: map<Slot, seq<Bar>>, name: string): seq<Bar> {
    if slots == [] then []
    else
      var last := slots[|slots| - 1];
      Pool(slots[..|slots| - 1], frames, name) + if last.provider == name && last in frames then frames[last] else []
  }

  ghost predicate AllNormalized(plan: Plan, normalized: map<Slot, seq<Bar>>) {
    forall i :: 0 <= i < |plan.slots| ==> plan.slots[i] in normalized
  }

  /** The rows are the provider's pooled bars, in some order. */
  ghost predicate HoldsPool(plan: Plan, normalized: map<Slot, seq<Bar>>, name: string, rows: seq<Row>) {
    && AllValid(rows) && FromBars(ToBars(rows)) == rows
    && multiset(ToBars(rows)) == multiset(Pool(plan.slots, normalized, name))
  }

  // ------------------------------------------------------------ the invariant

  ghost predicate PartitionsSound(parts: Archives) {
    forall slot :: slot in parts.normalized ==>
      slot in parts.raw && Canonicalize(parts.raw[slot]) == Some(parts.normalized[slot])
  }

  ghost predicate ManifestSound(manifest: map<Slot, Entry>, normalized: map<Slot, seq<Bar>>) {
    forall slot :: slot in manifest && manifest[slot].status.Success? ==>
      slot in normalized && manifest[slot].rowCount == Some(|normalized[slot]|)
  }

  ghost predicate SourceRawSound(plan: Plan, normalized: map<Slot, seq<Bar>>, sourceRaw: map<string, seq<Row>>) {
    forall name :: name in sourceRaw ==>
      AllNormalized(plan, normalized) && HoldsPool(plan, normalized, name, sourceRaw[name])
  }

  ghost predicate SourceNormalizedSound(sourceRaw: map<string, seq<Row>>, sourceNormalized: map<string, seq<Row>>) {
    forall name :: name in sourceNormalized ==> name in sourceRaw && sourceNormalized[name] == sourceRaw[name]
  }

  /** The result that the run archives determine. */
  ghost predicate IsResult(plan: Plan, sourceNormalized: map<string, seq<Row>>, rows: seq<Comparison>) {
    && HasAll(plan.providers, sourceNormalized)
    && Reconcile(HYBRID, FramesOf(plan.providers, sourceNormalized)) == Ok(rows)
  }

  ghost predicate ResultsSound(plan: Plan, sourceNormalized: map<string, seq<Row>>,
                               results: Option<seq<Comparison>>, run: Option<RunRecord>) {
    && (results.Some? ==> IsResult(plan, sourceNormalized, results.value))
    && (run.Some? ==>
          && IsResult(plan, sourceNormalized, run.value.rows)
          && run.value == Record(FramesOf(plan.providers, sourceNormalized), run.value.rows)
          && results == Some(run.value.rows))
  }

  ghost predicate DiskSound(plan: Plan, d: Disk) {
    && PartitionsSound(d.parts)
    && ManifestSound(d.manifest, d.parts.normalized)
    && SourceRawSound(plan, d.parts.normalized, d.sourceRaw)
    && SourceNormalizedSound(d.sourceRaw, d.sourceNormalized)
    && ResultsSound(plan, d.sourceNormalized, d.results, d.run)
  }

  /** What a worker has in memory agrees with what it has archived. */
  ghost predicate WorkerSound(parts: Archives, slot: Slot, w: Worker) {
    match w
    case Start => true
    case NotNormalized => slot !in parts.normalized
    case NeedsFetch => slot !in parts.normalized && slot !in parts.raw
    case Fetched(_) => slot !in parts.normalized && slot !in parts.raw
    case HasRaw(raw) => slot !in parts.normalized && slot in parts.raw && parts.raw[slot] == raw
    case HasCanonical(frame) => slot !in parts.normalized && slot in parts.raw
        && Canonicalize(parts.raw[slot]) == Some(frame)
    case Done(Loaded(frame)) => slot in parts.normalized && parts.normalized[slot] == frame
    case Done(Broken) => slot !in parts.normalized
  }

  ghost predicate WorkersSound(plan: Plan, parts: Archives, workers: map<Slot, Worker>, completed: seq<Slot>) {
    && (forall slot :: slot in workers <==> slot in plan.slots)
    && (forall slot :: slot in workers ==> WorkerSound(parts, slot, workers[slot]))
    && NoDuplicates(completed)
    && (forall slot :: slot in completed <==> slot in workers && workers[slot].Done?)
  }

  /** The bars loaded so far for one provider, in completion order. */
  ghost predicate FramesSound(plan: Plan, normalized: map<Slot, seq<Bar>>, seen: seq<Slot>, failed: bool,
                              frames: map<string, seq<Bar>>) {
    && (forall name :: name in frames <==> name in plan.providers)
    && (failed || forall slot :: slot in seen ==> slot in normalized)
    && (!failed ==> forall name :: name in frames ==> frames[name] == Pool(seen, normalized, name))
  }

  /** Each provider's concatenated frame holds its pool, in completion order. */
  ghost predicate FramesPooled(plan: Plan, normalized: map<Slot, seq<Bar>>, frames: map<string, seq<Bar>>) {
    forall name :: name in plan.providers ==>
      name in frames && multiset(frames[name]) == multiset(Pool(plan.slots, normalized, name))
  }

  /** The providers archived so far, with what their run archive says. */
  ghost predicate ArchivedSoFar(plan: Plan, sourceNormalized: map<string, seq<Row>>, done: seq<Provider>) {
    && |done| <= |plan.providers|
    && forall i :: 0 <= i < |done| ==>
         && done[i].name == plan.providers[i] && done[i].name in sourceNormalized
         && done[i].rows == sourceNormalized[done[i].name]
  }

  ghost predicate ProcessSound(plan: Plan, d: Disk, p: Process) {
    match p
    case Idle => true
    case Registering(k) => d.run.None? && k <= |plan.slots|
    case Marking(k) => d.run.None? && k <= |plan.slots|
    case Ingesting(workers, completed) => d.run.None? && WorkersSound(plan, d.parts, workers, completed)
    case Finishing(workers, completed, k, failed, frames) =>
      && d.run.None? && WorkersSound(plan, d.parts, workers, completed) && |completed| == |plan.slots|
          && k <= |completed|
      && FramesSound(plan, d.parts.normalized, completed[..k], failed, frames)
    case Archiving(frames, done, raw) =>
      && d.run.None? && AllNormalized(plan, d.parts.normalized) && |done| <= |plan.providers|
      && FramesPooled(plan, d.parts.normalized, frames) && ArchivedSoFar(plan, d.sourceNormalized, done)
      && (raw.Some? ==> |done| < |plan.providers| && plan.providers[|done|] in d.sourceRaw
                        && raw.value == d.sourceRaw[plan.providers[|done|]])
    case Comparing(bars) =>
      d.run.None? && HasAll(plan.providers, d.sourceNormalized) && bars == FramesOf(plan.providers, d.sourceNormalized)
    case Storing(bars, rows, archived) =>
      && d.run.None? && IsResult(plan, d.sourceNormalized, rows) && bars == FramesOf(plan.providers, d.sourceNormalized)
      && (archived ==> d.results == Some(rows))
  }

  ghost predicate Sound(plan: Plan, s: State) {
    DiskSound(plan, s.disk) && ProcessSound(plan, s.disk, s.process)
  }

  // ------------------------------------------------------------ pools

  lemma PoolSnoc(slots: seq<Slot>, slot: Slot, frames: map<Slot, seq<Bar>>, name: string)
    ensures Pool(slots + [slot], frames, name)
            == Pool(slots, frames, name) + if slot.provider == name && slot in frames then frames[slot] else []
  {
    assert (slots + [slot])[..|slots|] == slots;
  }

  lemma {:induction false} PoolWithout(a: seq<Slot>, x: Slot, b: seq<Slot>, frames: map<Slot, seq<Bar>>, name: string)
    ensures multiset(Pool(a + [x] + b, frames, name))
            == multiset(Pool([x], frames, name)) + multiset(Pool(a + b, frames, name))
  {
    if b == [] {
      assert a + [x] + b == a + [x] && a + b == a;
      PoolSnoc(a, x, frames, name);
      PoolSnoc([], x, frames, name);
    } else {
      var c, y := b[..|b| - 1], b[|b| - 1];
      assert a + [x] + b == (a + [x] + c) + [y] && a + b == (a + c) + [y];
      PoolSnoc(a + [x] + c, y, frames, name);
      PoolSnoc(a + c, y, frames, name);
      PoolWithout(a, x, c, frames, name);
    }
  }

  lemma PoolLast(slots: seq<Slot>, x: Slot, frames: map<Slot, seq<Bar>>, name: string)
    ensures multiset(Pool(slots + [x], frames, name))
            == multiset(Pool([x], frames, name)) + multiset(Pool(slots, frames, name))
  {
    PoolWithout(slots, x, [], frames, name);
    assert slots + [x] + [] == slots + [x] && slots + [] == slots;
  }

  /** The order in which partitions complete does not change what is pooled. */
  lemma {:induction false} PoolIsOrderFree(slots: seq<Slot>, slots': seq<Slot>, frames: map<Slot, seq<Bar>>,
                                           name: string)
    requires multiset(slots) == multiset(slots')
    ensures multiset(Pool(slots, frames, name)) == multiset(Pool(slots', frames, name))
  {
    if slots == [] {
      PermutationKeepsElements(slots, slots');
    } else {
      var rest, x := slots[..|slots| - 1], slots[|slots| - 1];
      assert slots == rest + [x];
      var a, b := CutOut(rest, x, slots');
      calc {
        multiset(Pool(slots, frames, name));
        { PoolLast(rest, x, frames, name); }
        multiset(Pool([x], frames, name)) + multiset(Pool(rest, frames, name));
        { PoolIsOrderFree(rest, a + b, frames, name); }
        multiset(Pool([x], frames, name)) + multiset(Pool(a + b, frames, name));
        { PoolWithout(a, x, b, frames, name); }
        multiset(Pool(slots', frames, name));
      }
    }
  }

  lemma {:induction false} PoolIsCanonical(slots: seq<Slot>, parts: Archives, name: string)
    requires PartitionsSound(parts)
    ensures forall b :: b in Pool(slots, parts.normalized, name) ==> Canonical(b)
  {
    if slots != [] {
      PoolIsCanonical(slots[..|slots| - 1], parts, name);
      var last := slots[|slots| - 1];
      if last in parts.normalized {
        CanonicalizeGivesCanonical(parts.raw[last]);
      }
    }
  }

  /** As many different slots as the plan has, all from the plan, are all of the plan's slots. */
  lemma AllCompleted(slots: seq<Slot>, completed: seq<Slot>)
    requires NoDuplicates(slots) && NoDuplicates(completed)
    requires forall slot :: slot in completed ==> slot in slots
    ensures |completed| <= |slots|
    ensures |completed| == |slots| ==> multiset(completed) == multiset(slots)
  {
    var m, n := multiset(completed), multiset(slots);
    forall x ensures m[x] <= n[x] {
      CountWithoutDuplicates(completed, x);
      CountWithoutDuplicates(slots, x);
    }
    assert |n - m| == |n| - |m|;
    assert n == m + (n - m);
  }

  // ------------------------------------------------------------ one worker step

  /** A worker touches its own partition archives only, and only adds. */
  ghost predicate Adds(parts: Archives, parts': Archives, slot: Slot) {
    && (forall other :: other in parts.raw ==> other in parts'.raw && parts'.raw[other] == parts.raw[other])
    && (forall other :: other in parts'.raw && other != slot ==> other in parts.raw)
    && (forall other :: other in parts.normalized ==>
          other in parts'.normalized && parts'.normalized[other] == parts.normalized[other])
    && (forall other :: other in parts'.normalized && other != slot ==> other in parts.normalized)
  }

  lemma WorkerStepSound(parts: Archives, slot: Slot, w: Worker, answer: Answer)
    requires PartitionsSound(parts) && WorkerSound(parts, slot, w) && !w.Done?
    ensures var (w', parts', called) := WorkerStep(parts, slot, w, answer);
            && WorkerSound(parts', slot, w') && PartitionsSound(parts') && Adds(parts, parts', slot)
            && (slot in parts.normalized ==> parts' == parts)
            && (called ==> slot !in parts.raw)
  {
  }

  lemma WorkersStaySound(plan: Plan, parts: Archives, parts': Archives, workers: map<Slot, Worker>,
                         completed: seq<Slot>,
                         slot: Slot, w: Worker)
    requires WorkersSound(plan, parts, workers, completed) && slot in workers && !workers[slot].Done?
    requires Adds(parts, parts', slot) && WorkerSound(parts', slot, w)
    ensures WorkersSound(plan, parts', workers[slot := w], completed + if w.Done? then [slot] else [])
  {
    var updated := workers[slot := w];
    forall other | other in updated ensures WorkerSound(parts', other, updated[other]) {
      if other != slot {
        assert WorkerSound(parts, other, workers[other]);
      }
    }
  }

  /** Run archives exist only once every partition is normalized, so no worker can disturb them. */
  lemma NoRunArchivesBefore(plan: Plan, d: Disk, slot: Slot)
    requires plan.Valid() && DiskSound(plan, d)
    requires slot in plan.slots && slot !in d.parts.normalized
    ensures d.sourceRaw == map[] && d.sourceNormalized == map[] && d.results.None? && d.run.None?
  {
    assert !AllNormalized(plan, d.parts.normalized);
    assert forall name :: name !in d.sourceRaw;
    assert plan.providers[0] !in d.sourceNormalized;
  }

  lemma WorkStepKeepsDisk(plan: Plan, d: Disk, parts: Archives, slot: Slot)
    requires plan.Valid() && DiskSound(plan, d) && slot in plan.slots
    requires PartitionsSound(parts) && Adds(d.parts, parts, slot)
    requires slot in d.parts.normalized ==> parts == d.parts
    ensures DiskSound(plan, d.(parts := parts))
  {
    if slot !in d.parts.normalized {
      NoRunArchivesBefore(plan, d, slot);
    }
  }

  lemma WorkPreserves(plan: Plan, s: State, slot: Slot, answer: Answer)
    requires plan.Valid() && Sound(plan, s) && Step(plan, s, Work(slot, answer)).Some?
    ensures Sound(plan, Step(plan, s, Work(slot, answer)).value)
  {
    var workers, completed := s.process.workers, s.process.completed;
    var (w, parts, called) := WorkerStep(s.disk.parts, slot, workers[slot], answer);
    WorkerStepSound(s.disk.parts, slot, workers[slot], answer);
    WorkStepKeepsDisk(plan, s.disk, parts, slot);
    WorkersStaySound(plan, s.disk.parts, parts, workers, completed, slot, w);
  }

  // ------------------------------------------------------------ one main step

  lemma ManifestStepSound(plan: Plan, d: Disk, slot: Slot)
    requires DiskSound(plan, d)
    ensures DiskSound(plan, Register(d, slot)) && DiskSound(plan, MarkRunning(d, slot))
  {
  }

  lemma FinishSound(plan: Plan, d: Disk, slot: Slot, outcome: Outcome)
    requires DiskSound(plan, d) && WorkerSound(d.parts, slot, Done(outcome))
    ensures DiskSound(plan, Finish(d, slot, outcome))
  {
  }

  lemma IngestingStarts(plan: Plan, parts: Archives)
    ensures WorkersSound(plan, parts, map slot | slot in plan.slots :: Start, [])
  {
  }

  lemma FrameAppended(plan: Plan, parts: Archives, seen: seq<Slot>, slot: Slot,
                      failed: bool, frames: map<string, seq<Bar>>, outcome: Outcome)
    requires FramesSound(plan, parts.normalized, seen, failed, frames) && slot.provider in frames
    requires WorkerSound(parts, slot, Done(outcome))
    ensures outcome.Broken? ==> FramesSound(plan, parts.normalized, seen + [slot], true, frames)
    ensures outcome.Loaded? ==>
              FramesSound(plan, parts.normalized, seen + [slot], failed,
                          frames[slot.provider := frames[slot.provider] + outcome.frame])
  {
    forall name | name in frames
      ensures Pool(seen + [slot], parts.normalized, name)
              == Pool(seen, parts.normalized, name)
                 + if slot.provider == name && slot in parts.normalized then parts.normalized[slot] else []
    {
      PoolSnoc(seen, slot, parts.normalized, name);
    }
  }

  lemma ProviderOfSlot(plan: Plan, slot: Slot)
    requires plan.WellFormed() && slot in plan.slots
    ensures slot.provider in plan.providers
  {
    var i :| 0 <= i < |plan.slots| && plan.slots[i] == slot;
  }

  lemma FinishingPreserves(plan: Plan, s: State)
    requires plan.Valid() && Sound(plan, s) && s.process.Finishing? && s.process.k < |s.process.completed|
    ensures Step(plan, s, Advance).Some? && Sound(plan, Step(plan, s, Advance).value)
  {
    var Finishing(workers, completed, k, failed, frames) := s.process;
    var d, slot := s.disk, completed[k];
    assert slot in completed;
    ProviderOfSlot(plan, slot);
    assert WorkerSound(d.parts, slot, workers[slot]);
    var outcome := workers[slot].outcome;
    assert completed[..k + 1] == completed[..k] + [slot];
    FrameAppended(plan, d.parts, completed[..k], slot, failed, frames, outcome);
    FinishSound(plan, d, slot, outcome);
  }

  /** With nothing failed, the frames in completion order hold the pools in plan order. */
  lemma AllPooled(plan: Plan, normalized: map<Slot, seq<Bar>>, order: seq<Slot>, frames: map<string, seq<Bar>>)
    requires multiset(order) == multiset(plan.slots) && FramesSound(plan, normalized, order, false, frames)
    ensures AllNormalized(plan, normalized) && FramesPooled(plan, normalized, frames)
  {
    PermutationKeepsElements(order, plan.slots);
    forall name | name in plan.providers
      ensures multiset(frames[name]) == multiset(Pool(plan.slots, normalized, name))
    {
      PoolIsOrderFree(order, plan.slots, normalized, name);
    }
    forall i | 0 <= i < |plan.slots| ensures plan.slots[i] in normalized {
      assert plan.slots[i] in order;
    }
  }

  lemma FinishedPreserves(plan: Plan, s: State)
    requires plan.Valid() && Sound(plan, s) && s.process.Finishing? && s.process.k == |s.process.completed|
    ensures Sound(plan, Step(plan, s, Advance).value)
  {
    var Finishing(workers, completed, k, failed, frames) := s.process;
    if !failed {
      assert completed[..k] == completed;
      AllCompleted(plan.slots, completed);
      AllPooled(plan, s.disk.parts.normalized, completed, frames);
    }
  }

  lemma CanonicalRows(plan: Plan, parts: Archives, name: string, bars: seq<Bar>)
    requires PartitionsSound(parts) && multiset(bars) == multiset(Pool(plan.slots, parts.normalized, name))
    ensures HoldsPool(plan, parts.normalized, name, FromBars(bars)) && NormalizeRows(FromBars(bars)) == FromBars(bars)
  {
    PoolIsCanonical(plan.slots, parts, name);
    PermutationKeepsElements(bars, Pool(plan.slots, parts.normalized, name));
    CanonicalBarsSurvive(bars);
  }

  /** A second normalization of an archived frame finds nothing to do. */
  lemma ArchivedIsNormalized(plan: Plan, d: Disk, name: string)
    requires DiskSound(plan, d) && name in d.sourceRaw
    ensures NormalizeRows(d.sourceRaw[name]) == d.sourceRaw[name]
  {
    CanonicalRows(plan, d.parts, name, ToBars(d.sourceRaw[name]));
  }

  /** There is no result as long as a provider's run archive is missing. */
  lemma NoResultsBefore(plan: Plan, d: Disk, name: string)
    requires DiskSound(plan, d) && name in plan.providers && name !in d.sourceNormalized
    ensures d.results.None? && d.run.None?
  {
    var i :| 0 <= i < |plan.providers| && plan.providers[i] == name;
  }

  lemma RawArchived(plan: Plan, d: Disk, name: string, rows: seq<Row>)
    requires DiskSound(plan, d) && AllNormalized(plan, d.parts.normalized)
    requires name in plan.providers && name !in d.sourceRaw && HoldsPool(plan, d.parts.normalized, name, rows)
    ensures DiskSound(plan, d.(sourceRaw := d.sourceRaw[name := rows]))
  {
    NoResultsBefore(plan, d, name);
  }

  lemma NormalizedArchived(plan: Plan, d: Disk, name: string)
    requires DiskSound(plan, d) && name in plan.providers && name in d.sourceRaw && name !in d.sourceNormalized
    ensures DiskSound(plan, d.(sourceNormalized := d.sourceNormalized[name := d.sourceRaw[name]]))
  {
    NoResultsBefore(plan, d, name);
  }

  lemma ArchivedOneMore(plan: Plan, m: map<string, seq<Row>>, done: seq<Provider>, name: string, rows: seq<Row>)
    requires ArchivedSoFar(plan, m, done) && |done| < |plan.providers| && plan.providers[|done|] == name
    requires NoDuplicates(plan.providers)
    ensures name in m ==> ArchivedSoFar(plan, m, done + [Provider(name, m[name])])
    ensures name !in m ==> ArchivedSoFar(plan, m[name := rows], done + [Provider(name, rows)])
  {
  }

  lemma RawStepSound(plan: Plan, d: Disk, p: Process)
    requires plan.Valid() && DiskSound(plan, d) && p.Archiving? && ProcessSound(plan, d, p)
    requires |p.done| < |plan.providers| && p.raw.None?
    ensures var (d', p') := ArchiveStep(plan, d, p); DiskSound(plan, d') && ProcessSound(plan, d', p')
  {
    var name := plan.providers[|p.done|];
    assert name in plan.providers;
    if name !in d.sourceRaw {
      CanonicalRows(plan, d.parts, name, p.frames[name]);
      RawArchived(plan, d, name, FromBars(p.frames[name]));
    }
  }

  lemma NormalizedStepSound(plan: Plan, d: Disk, p: Process)
    requires plan.Valid() && DiskSound(plan, d) && p.Archiving? && ProcessSound(plan, d, p)
    requires |p.done| < |plan.providers| && p.raw.Some?
    ensures var (d', p') := ArchiveStep(plan, d, p); DiskSound(plan, d') && ProcessSound(plan, d', p')
  {
    var name := plan.providers[|p.done|];
    assert name in plan.providers;
    if name !in d.sourceNormalized {
      ArchivedIsNormalized(plan, d, name);
      NormalizedArchived(plan, d, name);
    }
    ArchivedOneMore(plan, d.sourceNormalized, p.done, name, p.raw.value);
  }

  lemma ArchivingPreserves(plan: Plan, s: State)
    requires plan.Valid() && Sound(plan, s) && s.process.Archiving? && |s.process.done| < |plan.providers|
    ensures Sound(plan, Step(plan, s, Advance).value)
  {
    if s.process.raw.None? {
      RawStepSound(plan, s.disk, s.process);
    } else {
      NormalizedStepSound(plan, s.disk, s.process);
    }
  }

  lemma FramesAre(providers: seq<string>, m: map<string, seq<Row>>, done: seq<Provider>)
    requires |done| == |providers|
    requires forall i :: 0 <= i < |done| ==>
               done[i].name == providers[i] && done[i].name in m && done[i].rows == m[done[i].name]
    ensures HasAll(providers, m) && done == FramesOf(providers, m)
  {
  }

  lemma ArchivedPreserves(plan: Plan, s: State)
    requires plan.Valid() && Sound(plan, s) && s.process.Archiving? && |s.process.done| == |plan.providers|
    ensures Sound(plan, Step(plan, s, Advance).value)
  {
    FramesAre(plan.providers, s.disk.sourceNormalized, s.process.done);
  }

  lemma AdvancePreserves(plan: Plan, s: State)
    requires plan.Valid() && Sound(plan, s) && Step(plan, s, Advance).Some?
    ensures Sound(plan, Step(plan, s, Advance).value)
  {
    match s.process
    case Idle =>
    case Registering(k) =>
      if k < |plan.slots| { ManifestStepSound(plan, s.disk, plan.slots[k]); }
    case Marking(k) =>
      if k < |plan.slots| {
        ManifestStepSound(plan, s.disk, plan.slots[k]);
      } else {
        IngestingStarts(plan, s.disk.parts);
      }
    case Ingesting(workers, completed) =>
      AllCompleted(plan.slots, completed);
    case Finishing(_, completed, k, _, _) =>
      if k < |completed| { FinishingPreserves(plan, s); } else { FinishedPreserves(plan, s); }
    case Archiving(_, done, _) =>
      if |done| < |plan.providers| { ArchivingPreserves(plan, s); } else { ArchivedPreserves(plan, s); }
    case Comparing(bars) =>
    case Storing(bars, rows, archived) =>
  }

  /** Every step of every attempt keeps the invariant. */
  lemma StepPreserves(plan: Plan, s: State, e: Event)
    requires plan.Valid() && Sound(plan, s) && Step(plan, s, e).Some?
    ensures Sound(plan, Step(plan, s, e).value)
  {
    match e
    case Crash =>
    case Advance => AdvancePreserves(plan, s);
    case Work(slot, answer) => WorkPreserves(plan, s, slot, answer);
  }

  /** The invariant holds in every state that any history of attempts can reach. */
  lemma {:induction false} RunPreserves(plan: Plan, s: State, events: seq<Event>)
    requires plan.Valid() && Sound(plan, s) && Run(plan, s, events).Some?
    ensures Sound(plan, Run(plan, s, events).value)
  {
    if events != [] {
      var before := events[..|events| - 1];
      RunPreserves(plan, s, before);
      StepPreserves(plan, Run(plan, s, before).value, events[|events| - 1]);
    }
  }
}
