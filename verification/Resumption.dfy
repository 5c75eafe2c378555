/**
 What an interrupted run can still become: with every raw payload archived, some continuation
 commits the run if and only if the payloads themselves are good, and that continuation needs
 neither a provider call nor a fresh start.
 */
module Resumption {
  import opened Wrappers
  import opened SeqFacts
  import opened Equities
  import opened Reconciliation
  import opened ProviderPairs
  import opened Recovery
  import opened CrashFree
  import opened RecoveryLaws

  /** Nothing has gone wrong in the current attempt. */
  ghost predicate Healthy(p: Process) {
    match p
    case Ingesting(workers, _) => forall slot :: slot in workers ==> workers[slot] != Done(Broken)
    case Finishing(workers, _, _, failed, _) =>
      !failed && forall slot :: slot in workers ==> workers[slot] != Done(Broken)
    case _ => true
  }

  ghost predicate OnTrack(plan: Plan, s: State) {
    Sound(plan, s) && GoodPayloads(plan, s.disk.parts.raw) && Healthy(s.process)
  }

  // ------------------------------------------------------------ a bound on the remaining steps

  function WorkLeft(slots: seq<Slot>, workers: map<Slot, Worker>): nat {
    if slots == [] then 0
    else
      var last := slots[|slots| - 1];
      WorkLeft(slots[..|slots| - 1], workers) + if last in workers then WorkerRank(workers[last]) else 0
  }

  lemma {:induction false} WorkLeftBound(slots: seq<Slot>, workers: map<Slot, Worker>)
    ensures WorkLeft(slots, workers) <= 6 * |slots|
  {
    if slots != [] {
      WorkLeftBound(slots[..|slots| - 1], workers);
    }
  }

  lemma {:induction false} WorkLeftDrops(slots: seq<Slot>, workers: map<Slot, Worker>, slot: Slot, w: Worker)
    requires slot in workers && WorkerRank(w) < WorkerRank(workers[slot])
    ensures WorkLeft(slots, workers[slot := w]) <= WorkLeft(slots, workers)
    ensures slot in slots ==> WorkLeft(slots, workers[slot := w]) < WorkLeft(slots, workers)
  {
    if slots != [] {
      WorkLeftDrops(slots[..|slots| - 1], workers, slot, w);
    }
  }

  /** At most this many steps until the attempt is over, when nothing interferes. */
  function StepsLeft(plan: Plan, p: Process): int {
    var n, m := |plan.slots|, |plan.providers|;
    match p
    case Idle => 0
    case Storing(_, _, archived) => if archived then 1 else 2
    case Comparing(_) => 3
    case Archiving(_, done, raw) => 4 + 2 * (m - |done|) - if raw.Some? then 1 else 0
    case Finishing(_, completed, k, _, _) => 5 + 2 * m + (n - k)
    case Ingesting(workers, _) => 6 + 2 * m + n + WorkLeft(plan.slots, workers)
    case Marking(k) => 7 + 2 * m + 7 * n + (n - k)
    case Registering(k) => 8 + 2 * m + 8 * n + (n - k)
  }

  // ------------------------------------------------------------ one step forward

  /** `t` is one step closer to the end, without a provider call, and ends only by committing. */
  ghost predicate Forward(plan: Plan, s: State, e: Event, t: State) {
    && Step(plan, s, e) == Some(t) && !e.Crash?
    && Healthy(t.process) && t.calls == s.calls && t.disk.parts.raw == s.disk.parts.raw
    && (t.process.Idle? ==> t.disk.run.Some?)
    && (s.process.Idle? || StepsLeft(plan, t.process) < StepsLeft(plan, s.process))
  }

  lemma UnfinishedWorker(plan: Plan, parts: Archives, workers: map<Slot, Worker>, completed: seq<Slot>)
    returns (slot: Slot)
    requires plan.Valid() && WorkersSound(plan, parts, workers, completed) && |completed| < |plan.slots|
    ensures slot in plan.slots && slot in workers && !workers[slot].Done?
  {
    if forall other :: other in workers ==> workers[other].Done? {
      SameElementsPermute(completed, plan.slots);
      PermutationKeepsElements(completed, plan.slots);
    }
    slot :| slot in workers && !workers[slot].Done?;
  }

  /** A worker with a good raw archive gets on whenever its writes succeed, and asks no provider. */
  lemma WorkerForward(parts: Archives, slot: Slot, w: Worker, answer: Answer)
    requires PartitionsSound(parts) && WorkerSound(parts, slot, w) && !w.Done? && answer.Data?
    requires slot in parts.raw && Canonicalize(parts.raw[slot]).Some?
    ensures var (w', parts', called) := WorkerStep(parts, slot, w, answer);
            !called && w' != Done(Broken) && WorkerRank(w') < WorkerRank(w) && parts'.raw == parts.raw
  {
  }

  lemma WorkForward(plan: Plan, s: State, slot: Slot, answer: Answer)
    requires plan.Valid() && OnTrack(plan, s) && s.process.Ingesting? && answer.Data?
    requires slot in s.process.workers && !s.process.workers[slot].Done?
    ensures Step(plan, s, Work(slot, answer)).Some?
    ensures Forward(plan, s, Work(slot, answer), Step(plan, s, Work(slot, answer)).value)
  {
    var w := s.process.workers[slot];
    WorkerForward(s.disk.parts, slot, w, answer);
    var (w', parts, called) := WorkerStep(s.disk.parts, slot, w, answer);
    WorkLeftDrops(plan.slots, s.process.workers, slot, w');
  }

  lemma IngestingForward(plan: Plan, s: State)
    requires match s.process
             case Registering(k) => k <= |plan.slots|
             case Marking(k) => k <= |plan.slots|
             case _ => false
    ensures Step(plan, s, Advance).Some? && Forward(plan, s, Advance, Step(plan, s, Advance).value)
  {
    WorkLeftBound(plan.slots, map slot | slot in plan.slots :: Start);
  }

  lemma CompletedForward(plan: Plan, s: State)
    requires plan.Valid() && OnTrack(plan, s) && s.process.Ingesting? && |s.process.completed| >= |plan.slots|
    ensures Step(plan, s, Advance).Some? && Forward(plan, s, Advance, Step(plan, s, Advance).value)
  {
    AllCompleted(plan.slots, s.process.completed);
  }

  lemma FinishingForward(plan: Plan, s: State)
    requires plan.Valid() && OnTrack(plan, s) && s.process.Finishing?
    ensures Step(plan, s, Advance).Some? && Forward(plan, s, Advance, Step(plan, s, Advance).value)
  {
    if s.process.k < |s.process.completed| {
      var slot := s.process.completed[s.process.k];
      assert slot in s.process.completed;
      ProviderOfSlot(plan, slot);
    }
  }

  lemma ArchivingForward(plan: Plan, s: State)
    requires s.process.Archiving? && |s.process.done| <= |plan.providers|
    requires s.process.raw.Some? ==> |s.process.done| < |plan.providers|
    ensures Step(plan, s, Advance).Some? && Forward(plan, s, Advance, Step(plan, s, Advance).value)
  {
  }

  /** Good payloads give frames that the reconciliation accepts. */
  lemma GoodFramesReconcile(plan: Plan, d: Disk)
    requires plan.Valid() && DiskSound(plan, d) && HasAll(plan.providers, d.sourceNormalized)
    requires GoodPayloads(plan, d.parts.raw)
    ensures Reconcile(HYBRID, FramesOf(plan.providers, d.sourceNormalized)).Ok?
  {
    var frames := FramesOf(plan.providers, d.sourceNormalized);
    forall i | 0 <= i < |frames| ensures ValidFrame(frames[i].rows) {
      var name := plan.providers[i];
      ArchiveHoldsCrashFreePool(plan, d, name);
      assert UniqueKeys(CrashFreeSources(plan, d.parts.raw)[i].bars);
      UniqueKeysIsOrderFree(CrashFreeSources(plan, d.parts.raw)[i].bars, ToBars(d.sourceNormalized[name]));
    }
  }

  lemma FinalForward(plan: Plan, s: State)
    requires plan.Valid() && OnTrack(plan, s) && (s.process.Comparing? || s.process.Storing?)
    ensures Step(plan, s, Advance).Some? && Forward(plan, s, Advance, Step(plan, s, Advance).value)
  {
    if s.process.Comparing? {
      GoodFramesReconcile(plan, s.disk);
    }
  }

  lemma StartForward(plan: Plan, s: State)
    requires plan.Valid() && OnTrack(plan, s) && s.process.Idle? && s.disk.run.None?
    ensures Step(plan, s, Advance).Some? && Forward(plan, s, Advance, Step(plan, s, Advance).value)
  {
  }

  /** No attempt that goes well takes more steps. */
  function StepBound(plan: Plan): nat {
    8 + 2 * |plan.providers| + 9 * |plan.slots|
  }

  lemma StepsLeftIsBounded(plan: Plan, s: State)
    requires Sound(plan, s)
    ensures 0 <= StepsLeft(plan, s.process) <= StepBound(plan)
  {
    if s.process.Ingesting? {
      WorkLeftBound(plan.slots, s.process.workers);
    }
  }

  /** Nothing goes wrong: no crash, and every write succeeds. */
  predicate Smooth(e: Event) {
    match e
    case Advance => true
    case Work(_, answer) => answer.Data?
    case Crash => false
  }

  predicate AllSmooth(events: seq<Event>) {
    forall i :: 0 <= i < |events| ==> Smooth(events[i])
  }

  lemma AdvanceForward(plan: Plan, s: State)
    requires plan.Valid() && OnTrack(plan, s) && s.disk.run.None?
    requires s.process.Ingesting? ==> |s.process.completed| >= |plan.slots|
    ensures Step(plan, s, Advance).Some? && Forward(plan, s, Advance, Step(plan, s, Advance).value)
  {
    match s.process {
      case Idle => StartForward(plan, s);
      case Registering(_) => IngestingForward(plan, s);
      case Marking(_) => IngestingForward(plan, s);
      case Ingesting(_, _) => CompletedForward(plan, s);
      case Finishing(_, _, _, _, _) => FinishingForward(plan, s);
      case Archiving(_, _, _) => ArchivingForward(plan, s);
      case Comparing(_) => FinalForward(plan, s);
      case Storing(_, _, _) => FinalForward(plan, s);
    }
  }

  /** With good payloads every smooth step, whoever takes it, comes closer to the commit and calls no provider. */
  lemma SmoothStepForward(plan: Plan, s: State, e: Event)
    requires plan.Valid() && OnTrack(plan, s) && s.disk.run.None? && Smooth(e) && Step(plan, s, e).Some?
    ensures Forward(plan, s, e, Step(plan, s, e).value) && OnTrack(plan, Step(plan, s, e).value)
  {
    StepPreserves(plan, s, e);
    match e {
      case Advance => AdvanceForward(plan, s);
      case Work(slot, answer) => WorkForward(plan, s, slot, answer);
    }
  }

  /** Whatever the attempt is doing, some smooth step is possible. */
  lemma StepForward(plan: Plan, s: State) returns (e: Event, t: State)
    requires plan.Valid() && OnTrack(plan, s) && s.disk.run.None?
    ensures Smooth(e) && Forward(plan, s, e, t) && OnTrack(plan, t)
  {
    if s.process.Ingesting? && |s.process.completed| < |plan.slots| {
      var slot := UnfinishedWorker(plan, s.disk.parts, s.process.workers, s.process.completed);
      e := Work(slot, Data(MissingColumns));
      WorkForward(plan, s, slot, e.answer);
    } else {
      e := Advance;
      AdvanceForward(plan, s);
    }
    SmoothStepForward(plan, s, e);
    t := Step(plan, s, e).value;
  }

  // ------------------------------------------------------------ all the way

  lemma RunSnoc(plan: Plan, s: State, events: seq<Event>, e: Event)
    ensures Run(plan, s, events + [e]) == match Run(plan, s, events) case None => None case Some(t) => Step(plan, t, e)
  {
    assert (events + [e])[..|events|] == events;
  }

  lemma {:induction false} RunCons(plan: Plan, s: State, e: Event, events: seq<Event>)
    requires Step(plan, s, e).Some?
    ensures Run(plan, s, [e] + events) == Run(plan, Step(plan, s, e).value, events)
  {
    if events == [] {
      assert [e] + events == [e] && [e][..0] == [];
    } else {
      var before, last := events[..|events| - 1], events[|events| - 1];
      RunCons(plan, s, e, before);
      assert [e] + events == ([e] + before) + [last];
      RunSnoc(plan, s, [e] + before, last);
    }
  }

  lemma {:induction false} CompletesFrom(plan: Plan, s: State) returns (events: seq<Event>)
    requires plan.Valid() && OnTrack(plan, s) && s.disk.run.None? && !s.process.Idle?
    ensures Run(plan, s, events).Some? && AllSmooth(events)
    ensures var t := Run(plan, s, events).value; t.disk.run.Some? && t.calls == s.calls
    decreases StepsLeft(plan, s.process)
  {
    StepsLeftIsBounded(plan, s);
    var e, t := StepForward(plan, s);
    var rest := [];
    if t.disk.run.None? {
      rest := CompletesFrom(plan, t);
    }
    RunCons(plan, s, e, rest);
    events := [e] + rest;
  }

  /** The attempt never gets stuck: some smooth schedule commits. */
  lemma RetryCommits(plan: Plan, s: State) returns (events: seq<Event>)
    requires plan.Valid() && Sound(plan, s) && s.process.Idle? && s.disk.run.None?
    requires GoodCells(plan, s.disk.parts.raw)
    ensures Run(plan, s, events).Some? && AllSmooth(events)
    ensures var t := Run(plan, s, events).value; t.disk.run.Some? && t.calls == s.calls
  {
    GoodPayloadsIff(plan, s.disk.parts.raw);
    var e, t := StepForward(plan, s);
    var rest := [];
    if t.disk.run.None? {
      rest := CompletesFrom(plan, t);
    }
    RunCons(plan, s, e, rest);
    events := [e] + rest;
  }

  /** Where a smooth schedule stands: committed, or closer to it with every step. */
  lemma {:induction false} ScheduleProgresses(plan: Plan, s: State, events: seq<Event>)
    requires plan.Valid() && OnTrack(plan, s) && s.disk.run.None?
    requires AllSmooth(events) && Run(plan, s, events).Some?
    ensures var t := Run(plan, s, events).value;
            && Sound(plan, t) && t.calls == s.calls
            && (t.disk.run.None? ==>
                  OnTrack(plan, t) && (t.process.Idle? ==> events == [])
                  && |events| + StepsLeft(plan, t.process) <= StepBound(plan) + 1)
  {
    if events == [] {
      StepsLeftIsBounded(plan, s);
    } else {
      var n := |events| - 1;
      ScheduleProgresses(plan, s, events[..n]);
      var u, t := Run(plan, s, events[..n]).value, Run(plan, s, events).value;
      StepPreserves(plan, u, events[n]);
      if u.disk.run.None? {
        SmoothStepForward(plan, u, events[n]);
        StepsLeftIsBounded(plan, t);
      }
    }
  }

  /**
   After any interruption, good payloads on disk are enough: every schedule of steps, in any order,
   commits within a fixed number of them as long as nothing goes wrong, and calls no provider.
   */
  lemma EveryScheduleCommits(plan: Plan, s: State, events: seq<Event>)
    requires plan.Valid() && Sound(plan, s) && s.process.Idle? && s.disk.run.None?
    requires GoodCells(plan, s.disk.parts.raw)
    requires AllSmooth(events) && Run(plan, s, events).Some?
    ensures var t := Run(plan, s, events).value;
            && t.calls == s.calls
            && (|events| > 9 * |plan.slots| + 2 * |plan.providers| + 9 ==> t.disk.run.Some?)
  {
    GoodPayloadsIff(plan, s.disk.parts.raw);
    ScheduleProgresses(plan, s, events);
    StepsLeftIsBounded(plan, Run(plan, s, events).value);
  }

  /** A crash can come at any time, and what happens after it depends on nothing but the disk. */
  lemma AfterCrashOnlyDiskCounts(plan: Plan, s: State, t: State, events: seq<Event>)
    requires s.disk == t.disk && s.calls == t.calls
    ensures Run(plan, s, [Crash]).Some? && Run(plan, s, [Crash]).value.disk == s.disk
    ensures Run(plan, s, [Crash] + events) == Run(plan, t, [Crash] + events)
  {
    RunCons(plan, s, Crash, events);
    RunCons(plan, t, Crash, events);
    RunCons(plan, s, Crash, []);
    assert [Crash] + [] == [Crash];
  }

  ghost predicate CanCommit(plan: Plan, s: State) {
    exists events :: Run(plan, s, events).Some? && Run(plan, s, events).value.disk.run.Some?
  }

  /**
   With all raw payloads archived, an interrupted run can still commit exactly when they are good:
   none has a flawed row, and no provider brings an observation twice.
   */
  lemma CanCommitIff(plan: Plan, s: State)
    requires plan.Valid() && Sound(plan, s) && s.process.Idle?
    requires forall slot :: slot in plan.slots ==> slot in s.disk.parts.raw
    ensures CanCommit(plan, s) <==> GoodCells(plan, s.disk.parts.raw)
  {
    GoodPayloadsIff(plan, s.disk.parts.raw);
    if events :| Run(plan, s, events).Some? && Run(plan, s, events).value.disk.run.Some? {
      var t := Run(plan, s, events).value;
      RunPreserves(plan, s, events);
      ArchivesNeverChange(plan, s, events);
      CommittedDisk(plan, t.disk);
      SamePayloads(plan, s.disk.parts.raw, t.disk.parts.raw);
    }
    if GoodCells(plan, s.disk.parts.raw) {
      if s.disk.run.Some? {
        assert Run(plan, s, []) == Some(s);
      } else {
        var events := RetryCommits(plan, s);
      }
    }
  }
}
