/**
 The worker pool of `ingest_equity_partitions` under any schedule: every interleaving of worker steps
 in `Recovery` ends as if the workers had run one after the other, in their order of completion, as
 `Ingestion` runs them; and the steps around the pool do to the manifest what its methods do.
 */
module Schedules {
  import opened SeqFacts
  import opened Equities
  import opened Ingestion
  import opened Recovery
  import opened Wrappers

  // ------------------------------------------------------------ one worker among others

  /** The scripts agree on everything a worker in state `w` may have met already. */
  predicate AgreeSoFar(script: Script, script': Script, w: Worker) {
    && (WorkerRank(w) < 4 ==> script.fetch == script'.fetch)
    && (WorkerRank(w) < 3 ==> script.rawWritten == script'.rawWritten)
    && (WorkerRank(w) < 1 ==> script.normalizedWritten == script'.normalizedWritten)
  }

  /** The script after a worker in state `w` has met `answer`. */
  function Learned(script: Script, w: Worker, answer: Answer): Script {
    match w
    case NeedsFetch => script.(fetch := answer)
    case Fetched(_) => script.(rawWritten := answer.Data?)
    case HasCanonical(_) => script.(normalizedWritten := answer.Data?)
    case _ => script
  }

  lemma ScriptedStep(parts: Archives, slot: Slot, w: Worker, answer: Answer, script: Script, script': Script)
    requires !w.Done? && AgreeSoFar(Learned(script, w, answer), script', WorkerStep(parts, slot, w, answer).0)
    ensures WorkerStep(parts, slot, w, AnswerFor(w, script')) == WorkerStep(parts, slot, w, answer)
    ensures AgreeSoFar(script, script', w)
  {
  }

  lemma {:induction false} CallsDoNotMatter(parts: Archives, slot: Slot, w: Worker, script: Script, c: bool, c': bool)
    ensures RunWorker(parts, slot, w, script, c).0 == RunWorker(parts, slot, w, script, c').0
    ensures RunWorker(parts, slot, w, script, c).1 == RunWorker(parts, slot, w, script, c').1
    decreases WorkerRank(w)
  {
    if !w.Done? {
      var (next, after, called) := WorkerStep(parts, slot, w, AnswerFor(w, script));
      CallsDoNotMatter(after, slot, next, script, c || called, c' || called);
    }
  }

  /** Going on from `w` comes to the same as starting over on `before`. */
  ghost predicate EndsAlike(before: Archives, parts: Archives, slot: Slot, w: Worker, script: Script) {
    var (o, after, c) := RunWorker(before, slot, Start, script, false);
    var (o', after', c') := RunWorker(parts, slot, w, script, false);
    o == o' && AgreeAt(after, after', slot)
  }

  /** A worker that has come to `w` on `parts` has followed the script from `before`. */
  ghost predicate Follows(before: Archives, parts: Archives, slot: Slot, w: Worker, script: Script) {
    forall script' :: AgreeSoFar(script, script', w) ==> EndsAlike(before, parts, slot, w, script')
  }

  lemma FollowsOneStep(before: Archives, parts: Archives, slot: Slot, w: Worker, script: Script, answer: Answer)
    requires !w.Done? && Follows(before, parts, slot, w, script)
    ensures var (w', parts', called) := WorkerStep(parts, slot, w, answer);
            Follows(before, parts', slot, w', Learned(script, w, answer))
  {
    var (w', parts', called) := WorkerStep(parts, slot, w, answer);
    forall script' | AgreeSoFar(Learned(script, w, answer), script', w')
      ensures EndsAlike(before, parts', slot, w', script')
    {
      ScriptedStep(parts, slot, w, answer, script, script');
      assert EndsAlike(before, parts, slot, w, script');
      CallsDoNotMatter(parts', slot, w', script', called, false);
    }
  }

  lemma FollowsBesides(before: Archives, parts: Archives, parts': Archives, slot: Slot, w: Worker, script: Script)
    requires Follows(before, parts, slot, w, script) && AgreeAt(parts, parts', slot)
    ensures Follows(before, parts', slot, w, script)
  {
    forall script' | AgreeSoFar(script, script', w) ensures EndsAlike(before, parts', slot, w, script') {
      assert EndsAlike(before, parts, slot, w, script');
      RunWorkerIsLocal(parts, parts', slot, w, script', false);
    }
  }

  lemma FollowedToTheEnd(before: Archives, parts: Archives, slot: Slot, outcome: Outcome, script: Script)
    requires Follows(before, parts, slot, Done(outcome), script)
    ensures RanFrom(before, parts, slot, script, outcome)
  {
    assert EndsAlike(before, parts, slot, Done(outcome), script);
  }

  lemma StepIsLocal(parts: Archives, slot: Slot, w: Worker, answer: Answer, other: Slot)
    requires !w.Done? && other != slot
    ensures AgreeAt(parts, WorkerStep(parts, slot, w, answer).1, other)
  {
  }

  // ------------------------------------------------------------ all workers

  function Starts(plan: Plan): map<Slot, Worker> {
    map slot | slot in plan.slots :: Start
  }

  predicate OnlyWork(events: seq<Event>) {
    forall i :: 0 <= i < |events| ==> events[i].Work?
  }

  /** Every worker has followed its script, and the other slots' archives are as before. */
  ghost predicate AllFollow(before: Archives, parts: Archives, workers: map<Slot, Worker>, scripts: map<Slot, Script>) {
    && workers.Keys == scripts.Keys
    && (forall slot :: slot in workers ==> Follows(before, parts, slot, workers[slot], scripts[slot]))
    && (forall slot :: slot !in workers ==> AgreeAt(before, parts, slot))
  }

  lemma AllFollowOneStep(before: Archives, parts: Archives, workers: map<Slot, Worker>, scripts: map<Slot, Script>,
                         slot: Slot, answer: Answer)
    requires AllFollow(before, parts, workers, scripts) && slot in workers && !workers[slot].Done?
    ensures var (w, parts', called) := WorkerStep(parts, slot, workers[slot], answer);
            AllFollow(before, parts', workers[slot := w],
                      scripts[slot := Learned(scripts[slot], workers[slot], answer)])
  {
    var (w, parts', called) := WorkerStep(parts, slot, workers[slot], answer);
    FollowsOneStep(before, parts, slot, workers[slot], scripts[slot], answer);
    forall other | other in workers && other != slot
      ensures Follows(before, parts', other, workers[other], scripts[other])
    {
      StepIsLocal(parts, slot, workers[slot], answer, other);
      FollowsBesides(before, parts, parts', other, workers[other], scripts[other]);
    }
    forall other | other !in workers ensures AgreeAt(before, parts', other) {
      StepIsLocal(parts, slot, workers[slot], answer, other);
      assert AgreeAt(before, parts, other);
    }
  }

  /** Whatever the schedule, each worker follows a script of its own. */
  lemma {:induction false} InterleavingFollows(plan: Plan, s: State, events: seq<Event>)
    returns (scripts: map<Slot, Script>)
    requires s.process == Ingesting(Starts(plan), []) && OnlyWork(events) && Run(plan, s, events).Some?
    ensures var t := Run(plan, s, events).value;
            && t.process.Ingesting? && AllFollow(s.disk.parts, t.disk.parts, t.process.workers, scripts)
            && t.disk == s.disk.(parts := t.disk.parts)
  {
    if events == [] {
      scripts := map slot | slot in plan.slots :: Script(Failure, false, false);
    } else {
      var n := |events| - 1;
      var earlier := InterleavingFollows(plan, s, events[..n]);
      var t := Run(plan, s, events[..n]).value;
      var Work(slot, answer) := events[n];
      AllFollowOneStep(s.disk.parts, t.disk.parts, t.process.workers, earlier, slot, answer);
      scripts := earlier[slot := Learned(earlier[slot], t.process.workers[slot], answer)];
    }
  }

  /**
   Any interleaving of the workers leaves the archives and outcomes of a run of the workers one
   after the other, in the order in which they completed.
   */
  lemma InterleavingIsSequential(plan: Plan, s: State, events: seq<Event>)
    returns (scripts: seq<Script>, outcomes: seq<Outcome>)
    requires plan.Valid() && Sound(plan, s) && s.process == Ingesting(Starts(plan), [])
    requires OnlyWork(events) && Run(plan, s, events).Some?
    requires |Run(plan, s, events).value.process.completed| == |plan.slots|
    ensures var t := Run(plan, s, events).value;
            && multiset(t.process.completed) == multiset(plan.slots) && |scripts| == |plan.slots|
            && AllRan(s.disk.parts, t.disk.parts, t.process.completed, scripts, outcomes, |plan.slots|)
            && (forall i :: 0 <= i < |outcomes| ==>
                  var slot := t.process.completed[i];
                  slot in t.process.workers && t.process.workers[slot] == Done(outcomes[i]))
            && t.disk == s.disk.(parts := t.disk.parts)
  {
    var followed := InterleavingFollows(plan, s, events);
    RunPreserves(plan, s, events);
    var t := Run(plan, s, events).value;
    var workers, completed := t.process.workers, t.process.completed;
    AllCompleted(plan.slots, completed);
    PermutationKeepsElements(completed, plan.slots);
    assert forall i :: 0 <= i < |completed| ==> completed[i] in completed;
    scripts := seq(|completed|, i requires 0 <= i < |completed| => followed[completed[i]]);
    outcomes := seq(|completed|, i requires 0 <= i < |completed| => workers[completed[i]].outcome);
    forall i | 0 <= i < |completed|
      ensures RanFrom(s.disk.parts, t.disk.parts, completed[i], scripts[i], outcomes[i])
    {
      assert workers[completed[i]] == Done(outcomes[i]);
      FollowedToTheEnd(s.disk.parts, t.disk.parts, completed[i], outcomes[i], scripts[i]);
    }
    assert completed[..|completed|] == completed;
  }

  // ------------------------------------------------------------ before and after the pool

  function Iterate(step: State -> Option<State>, s: State, n: nat): Option<State> {
    if n == 0 then Some(s)
    else
      match Iterate(step, s, n - 1)
      case None => None
      case Some(t) => step(t)
  }

  function WithManifest(d: Disk, rows: map<Slot, Entry>): Disk {
    d.(manifest := rows)
  }

  ghost predicate RegistersSlots(step: State -> Option<State>, slots: seq<Slot>) {
    && (forall d: Disk, k: nat, calls: seq<Slot> | k < |slots| ::
          step(State(d, Registering(k), calls))
          == Some(State(WithManifest(d, Registered(d.manifest, slots[k])), Registering(k + 1), calls)))
    && (forall d: Disk, calls: seq<Slot> ::
          step(State(d, Registering(|slots|), calls)) == Some(State(d, Marking(0), calls)))
  }

  ghost predicate MarksSlots(step: State -> Option<State>, slots: seq<Slot>, workers: map<Slot, Worker>) {
    && (forall d: Disk, k: nat, calls: seq<Slot> | k < |slots| ::
          step(State(d, Marking(k), calls))
          == Some(State(WithManifest(d, MarkedRunning(d.manifest, slots[k])), Marking(k + 1), calls)))
    && (forall d: Disk, calls: seq<Slot> ::
          step(State(d, Marking(|slots|), calls)) == Some(State(d, Ingesting(workers, []), calls)))
  }

  /** A main thread that registers slot after slot, marks slot after slot, and starts the workers. */
  ghost predicate Announces(step: State -> Option<State>, slots: seq<Slot>, workers: map<Slot, Worker>) {
    RegistersSlots(step, slots) && MarksSlots(step, slots, workers)
  }

  lemma {:induction false} RegisteringRun(step: State -> Option<State>, slots: seq<Slot>, workers: map<Slot, Worker>,
                                          d: Disk, calls: seq<Slot>, k: nat)
    requires Announces(step, slots, workers) && k <= |slots|
    ensures Iterate(step, State(d, Registering(0), calls), k)
            == Some(State(WithManifest(d, RegisterAll(d.manifest, slots, k)), Registering(k), calls))
  {
    if k > 0 {
      var j: nat, before := k - 1, WithManifest(d, RegisterAll(d.manifest, slots, k - 1));
      RegisteringRun(step, slots, workers, d, calls, j);
      assert step(State(before, Registering(j), calls))
          == Some(State(WithManifest(before, Registered(before.manifest, slots[j])), Registering(j + 1), calls));
    }
  }

  lemma {:induction false} MarkingRun(step: State -> Option<State>, slots: seq<Slot>, workers: map<Slot, Worker>,
                                      d: Disk, calls: seq<Slot>, k: nat)
    requires Announces(step, slots, workers) && k <= |slots|
    ensures var registered := RegisterAll(d.manifest, slots, |slots|);
            Iterate(step, State(d, Registering(0), calls), |slots| + 1 + k)
            == Some(State(WithManifest(d, MarkAll(registered, slots, k)), Marking(k), calls))
  {
    if k == 0 {
      RegisteringRun(step, slots, workers, d, calls, |slots|);
    } else {
      var j: nat := k - 1;
      var before := WithManifest(d, MarkAll(RegisterAll(d.manifest, slots, |slots|), slots, j));
      MarkingRun(step, slots, workers, d, calls, j);
      assert step(State(before, Marking(j), calls))
          == Some(State(WithManifest(before, MarkedRunning(before.manifest, slots[j])), Marking(j + 1), calls));
    }
  }

  lemma AnnouncedBySteps(step: State -> Option<State>, slots: seq<Slot>, workers: map<Slot, Worker>, d: Disk,
                         calls: seq<Slot>)
    requires Announces(step, slots, workers)
    ensures Iterate(step, State(d, Registering(0), calls), 2 * |slots| + 2)
            == Some(State(WithManifest(d, Announced(d.manifest, slots)), Ingesting(workers, []), calls))
  {
    var announced := WithManifest(d, Announced(d.manifest, slots));
    MarkingRun(step, slots, workers, d, calls, |slots|);
    assert Iterate(step, State(d, Registering(0), calls), 2 * |slots| + 1)
        == Some(State(announced, Marking(|slots|), calls));
  }

  /** Where the loop over the outcomes stands after the first `k` of them. */
  predicate RecordedTo(s: State, d: Disk, workers: map<Slot, Worker>, completed: seq<Slot>, names: set<string>, k: nat)
  {
    && s.disk == d && s.process.Finishing? && s.process.workers == workers && s.process.completed == completed
    && s.process.k == k && s.process.frames.Keys == names
  }

  /** From `s`, where `k` outcomes have been recorded, the main thread records the next one. */
  ghost predicate RecordsNext(step: State -> Option<State>, workers: map<Slot, Worker>, completed: seq<Slot>,
                              outcomes: seq<Outcome>, names: set<string>, s: State, k: nat)
    requires |completed| == |outcomes|
  {
    k < |completed| && RecordedTo(s, s.disk, workers, completed, names, k) ==>
      && step(s).Some?
      && RecordedTo(step(s).value, WithManifest(s.disk, Finished(s.disk.manifest, completed[k], outcomes[k])),
                    workers, completed, names, k + 1)
  }

  /** A main thread that records the outcomes of the completed workers one by one. */
  ghost predicate Records(step: State -> Option<State>, workers: map<Slot, Worker>, completed: seq<Slot>,
                          outcomes: seq<Outcome>, names: set<string>)
    requires |completed| == |outcomes|
  {
    forall s: State, k: nat :: RecordsNext(step, workers, completed, outcomes, names, s, k)
  }

  lemma {:induction false} RecordedBySteps(step: State -> Option<State>, workers: map<Slot, Worker>,
                                           completed: seq<Slot>,
                                           outcomes: seq<Outcome>, names: set<string>, s: State, k: nat)
    requires k <= |completed| == |outcomes| && Records(step, workers, completed, outcomes, names)
    requires RecordedTo(s, s.disk, workers, completed, names, 0)
    ensures Iterate(step, s, k).Some?
    ensures RecordedTo(Iterate(step, s, k).value,
                       WithManifest(s.disk, FinishAll(s.disk.manifest, completed, outcomes, k)),
                       workers, completed, names, k)
  {
    if k > 0 {
      var j: nat := k - 1;
      RecordedBySteps(step, workers, completed, outcomes, names, s, j);
      var t := Iterate(step, s, j).value;
      assert RecordsNext(step, workers, completed, outcomes, names, t, j);
    }
  }

  function Advances(n: nat): seq<Event> {
    seq(n, i => Advance)
  }

  function Advancing(plan: Plan): State -> Option<State> {
    s => Step(plan, s, Advance)
  }

  lemma {:induction false} IterateIsRun(plan: Plan, s: State, n: nat)
    ensures Run(plan, s, Advances(n)) == Iterate(Advancing(plan), s, n)
  {
    if n > 0 {
      IterateIsRun(plan, s, n - 1);
      assert Advances(n)[..n - 1] == Advances(n - 1);
    }
  }

  lemma PlanRegisters(plan: Plan)
    ensures RegistersSlots(Advancing(plan), plan.slots)
  {
  }

  lemma PlanMarks(plan: Plan)
    ensures MarksSlots(Advancing(plan), plan.slots, Starts(plan))
  {
  }

  lemma PlanRecords(plan: Plan, workers: map<Slot, Worker>, completed: seq<Slot>, outcomes: seq<Outcome>,
                    names: set<string>)
    requires |completed| == |outcomes|
    requires forall i :: 0 <= i < |completed| ==>
               completed[i] in workers && workers[completed[i]] == Done(outcomes[i]) && completed[i].provider in names
    ensures Records(Advancing(plan), workers, completed, outcomes, names)
  {
    forall s: State, k: nat ensures RecordsNext(Advancing(plan), workers, completed, outcomes, names, s, k) {
      if k < |completed| && RecordedTo(s, s.disk, workers, completed, names, k) {
        var slot := completed[k];
        assert slot in workers && workers[slot] == Done(outcomes[k]) && slot.provider in s.process.frames;
      }
    }
  }

  /** The steps of the system up to the start of the pool leave the manifest that `Announce` leaves. */
  lemma AnnouncingRun(plan: Plan, d: Disk, calls: seq<Slot>)
    ensures Run(plan, State(d, Registering(0), calls), Advances(2 * |plan.slots| + 2))
            == Some(State(WithManifest(d, Announced(d.manifest, plan.slots)), Ingesting(Starts(plan), []), calls))
  {
    PlanRegisters(plan);
    PlanMarks(plan);
    AnnouncedBySteps(Advancing(plan), plan.slots, Starts(plan), d, calls);
    IterateIsRun(plan, State(d, Registering(0), calls), 2 * |plan.slots| + 2);
  }

  /** The steps of the system over the outcomes leave the manifest that `FinishOutcomes` leaves. */
  lemma FinishingRun(plan: Plan, d: Disk, calls: seq<Slot>, workers: map<Slot, Worker>, completed: seq<Slot>,
                     frames: map<string, seq<Bar>>, outcomes: seq<Outcome>)
    requires |completed| == |outcomes|
    requires forall i :: 0 <= i < |completed| ==>
               completed[i] in workers && workers[completed[i]] == Done(outcomes[i]) && completed[i].provider in frames
    ensures var r := Run(plan, State(d, Finishing(workers, completed, 0, false, frames), calls), Advances(|completed|));
            && r.Some? && r.value.process.Finishing? && r.value.process.k == |completed|
            && r.value.disk == WithManifest(d, FinishAll(d.manifest, completed, outcomes, |completed|))
  {
    PlanRecords(plan, workers, completed, outcomes, frames.Keys);
    var start := State(d, Finishing(workers, completed, 0, false, frames), calls);
    RecordedBySteps(Advancing(plan), workers, completed, outcomes, frames.Keys, start, |completed|);
    IterateIsRun(plan, start, |completed|);
  }
}
