/**
 From provider payloads to what readers see: a committed run as the API and the dbt fact serve it.
 */
module ServedResult {
  import opened Wrappers
  import opened Text
  import opened SeqFacts
  import opened Equities
  import opened Reconciliation
  import opened ProviderPairs
  import opened DbtModel
  import opened ResultRows
  import opened Database
  import opened Recovery
  import opened CrashFree
  import opened RecoveryLaws

  /** The API's pivot of a run and the two-sided part of its dbt fact are the same rows. */
  ghost predicate ServedAlike(c: Contents, run: string) {
    forall r :: InPivot(c.results, run, r) <==> InFact(c.bars, run, r) && Sided(r)
  }

  /** `rows` is what the pivot gives. */
  ghost predicate Serves(results: seq<LongRow>, run: string, rows: seq<Comparison>) {
    forall r :: InPivot(results, run, r) <==> r in rows
  }

  /** `rows` is what the two-sided part of the fact gives. */
  ghost predicate Explains(bars: seq<Staged>, run: string, rows: seq<Comparison>) {
    forall r :: InFact(bars, run, r) && Sided(r) <==> r in rows
  }

  lemma AlikeIffExplained(c: Contents, run: string, rows: seq<Comparison>)
    requires Serves(c.results, run, rows)
    ensures ServedAlike(c, run) <==> Explains(c.bars, run, rows)
  {
  }

  lemma StoredRunServes(c: Contents, run: string)
    requires Consistent(c) && run in c.runs
    ensures run in c.sources && run in c.committed && ThreeFrames(c.sources[run])
    ensures c.committed[run] == PythonRows(c.sources[run]) && DbtModel.Loaded(c.bars, run, c.sources[run])
    ensures Serves(c.results, run, c.committed[run])
  {
    assert StagedFaithfully(c, run);
    ApiReturnsCommittedRows(c, run);
  }

  lemma ExplainsIff(bars: seq<Staged>, run: string, ps: seq<Provider>, rows: seq<Comparison>)
    requires ThreeFrames(ps) && DbtModel.Loaded(bars, run, ps) && rows == PythonRows(ps)
    ensures Explains(bars, run, rows) <==> CanonicalSymbols(ps)
  {
    AgreeIff(bars, run, ps);
    assert Explains(bars, run, PythonRows(ps)) <==> Agree(bars, run, ps);
  }

  /** For a stored run both readers agree exactly when its frames spell symbols canonically. */
  lemma ServedAlikeIff(c: Contents, run: string)
    requires Consistent(c) && run in c.runs
    ensures run in c.sources && (ServedAlike(c, run) <==> CanonicalSymbols(c.sources[run]))
  {
    StoredRunServes(c, run);
    ExplainsIff(c.bars, run, c.sources[run], c.committed[run]);
    AlikeIffExplained(c, run, c.committed[run]);
  }

  lemma NormalizedIsCanonical(ps: seq<Provider>)
    requires forall i :: 0 <= i < |ps| ==> NormalizeRows(ps[i].rows) == ps[i].rows
    ensures CanonicalSymbols(ps)
  {
    forall i, j | 0 <= i < |ps| && 0 <= j < |ps[i].rows| ensures CanonicalSymbol(ps[i].rows[j]) {
      var r := ps[i].rows[j];
      assert r == NormalizeRows(ps[i].rows)[j];
      if r.symbol.Some? {
        CanonIsTrimmed(r.symbol.value);
        CanonIdempotent(r.symbol.value);
      }
    }
  }

  /** The frames of a run are normalized, because they come from its normalized archives. */
  lemma RunFramesAreCanonical(plan: Plan, d: Disk)
    requires DiskSound(plan, d) && d.run.Some?
    ensures CanonicalSymbols(d.run.value.frames)
  {
    var frames := d.run.value.frames;
    forall i | 0 <= i < |frames| ensures NormalizeRows(frames[i].rows) == frames[i].rows {
      ArchivedIsNormalized(plan, d, plan.providers[i]);
    }
    NormalizedIsCanonical(frames);
  }

  /** The rows of a committed run are its frames' reconciliation and, in some order, the crash-free one. */
  lemma RunRowsAre(plan: Plan, d: Disk)
    requires plan.Valid() && DiskSound(plan, d) && d.run.Some?
    ensures Reconcile(HYBRID, d.run.value.frames) == Ok(d.run.value.rows)
    ensures forall r :: r in d.run.value.rows <==> r in CrashFreeResult(plan, d.parts.raw)
  {
    CommittedDisk(plan, d);
    PermutationKeepsElements(d.run.value.rows, CrashFreeResult(plan, d.parts.raw));
  }

  lemma SameElements(c: Contents, run: string, rows: seq<Comparison>)
    requires run in c.sources && run in c.committed && ThreeFrames(c.sources[run]) && CanonicalSymbols(c.sources[run])
    requires c.committed[run] == PythonRows(c.sources[run]) && DbtModel.Loaded(c.bars, run, c.sources[run])
    requires Serves(c.results, run, c.committed[run])
    requires forall r :: r in c.committed[run] <==> r in rows
    ensures Serves(c.results, run, rows) && Explains(c.bars, run, rows)
  {
    ExplainsIff(c.bars, run, c.sources[run], c.committed[run]);
    forall r ensures InPivot(c.results, run, r) <==> r in rows {
      assert r in c.committed[run] <==> r in rows;
    }
    forall r ensures InFact(c.bars, run, r) && Sided(r) <==> r in rows {
      assert r in c.committed[run] <==> r in rows;
    }
  }

  lemma SoundRunIsServed(plan: Plan, d: Disk, c: Contents, run: string)
    requires plan.Valid() && DiskSound(plan, d) && d.run.Some?
    requires Consistent(c) && run in c.runs && run in c.sources && c.sources[run] == d.run.value.frames
    ensures Serves(c.results, run, CrashFreeResult(plan, d.parts.raw))
    ensures Explains(c.bars, run, CrashFreeResult(plan, d.parts.raw))
  {
    RunRowsAre(plan, d);
    RunFramesAreCanonical(plan, d);
    StoredRunServes(c, run);
    SameElements(c, run, CrashFreeResult(plan, d.parts.raw));
  }

  // ------------------------------------------------------------ batch and database together

  /** The batch of one run, and the tables it shares with all other runs. */
  datatype System = System(batch: State, tables: Contents)

  datatype Move =
    | Batch(event: Event, exceptions: seq<ExceptionRow>)   // a step of the run; the exceptions matter to its commit
    | Elsewhere(run: string, ps: seq<Provider>, rows: seq<Comparison>, exceptions: seq<ExceptionRow>)

  /** The last step of the batch: the one that `persist_equity_run` makes in the tables. */
  predicate Commits(s: State, e: Event) {
    e.Advance? && s.process.Storing? && s.process.archived && s.disk.run.None?
  }

  /** A validated result that is stored for the first time. */
  ghost predicate Storable(c: Contents, run: string, ps: seq<Provider>, rows: seq<Comparison>, es: seq<ExceptionRow>) {
    run !in c.runs && ThreeFrames(ps) && Reconcile(HYBRID, ps) == Ok(rows) && AreExceptionsFor(run, es, rows)
  }

  function Store(c: Contents, run: string, ps: seq<Provider>, rows: seq<Comparison>, es: seq<ExceptionRow>): Contents
    requires |ps| == 3 && AllFramesValid(ps)
  {
    WithRun(c, run, Summary(ps, rows), ps, rows, es)
  }

  /** The tables change where the batch commits, and when another run is stored. */
  ghost predicate Moves(plan: Plan, run: string, s: System, m: Move, s': System) {
    match m
    case Batch(e, es) =>
      && Step(plan, s.batch, e) == Some(s'.batch)
      && if Commits(s.batch, e) then
           var Storing(bars, rows, _) := s.batch.process;
           Storable(s.tables, run, bars, rows, es) && s'.tables == Store(s.tables, run, bars, rows, es)
         else s'.tables == s.tables
    case Elsewhere(other, ps, rows, es) =>
      s'.batch == s.batch && other != run
      && Storable(s.tables, other, ps, rows, es) && s'.tables == Store(s.tables, other, ps, rows, es)
  }

  /** Batch and tables agree on whether the run is committed, and on what was. */
  ghost predicate Linked(plan: Plan, run: string, s: System) {
    && Sound(plan, s.batch) && Consistent(s.tables)
    && (s.batch.disk.run.Some? <==> run in s.tables.runs)
    && (s.batch.disk.run.Some? ==>
          var record := s.batch.disk.run.value;
          && run in s.tables.sources && s.tables.sources[run] == record.frames && s.tables.committed[run] == record.rows
          && s.tables.runs[run] == Summary(record.frames, record.rows))
  }

  /** What the batch is about to store is a validated result of its three frames. */
  lemma ReadyToStore(plan: Plan, s: State)
    requires Sound(plan, s) && plan.providers == NAMES && s.process.Storing?
    ensures ThreeFrames(s.process.bars) && Reconcile(HYBRID, s.process.bars) == Ok(s.process.rows) && s.disk.run.None?
  {
  }

  lemma CommitStep(plan: Plan, s: State, e: Event)
    requires Commits(s, e)
    ensures Step(plan, s, e)
            == Some(State(s.disk.(run := Some(Record(s.process.bars, s.process.rows))), Idle, s.calls))
  {
  }

  lemma OtherStepsKeepRun(plan: Plan, s: State, e: Event)
    requires Step(plan, s, e).Some? && !Commits(s, e)
    ensures Step(plan, s, e).value.disk.run == s.disk.run
  {
  }

  lemma StoringKeepsConsistent(c: Contents, run: string, ps: seq<Provider>, rows: seq<Comparison>,
                               es: seq<ExceptionRow>)
    requires Consistent(c) && Storable(c, run, ps, rows, es)
    ensures Consistent(Store(c, run, ps, rows, es))
  {
    ReadyToCommit(c, run, ps, rows, es, 0);
  }

  lemma MoveKeepsLink(plan: Plan, run: string, s: System, m: Move, s': System)
    requires plan.Valid() && plan.providers == NAMES && Linked(plan, run, s) && Moves(plan, run, s, m, s')
    ensures Linked(plan, run, s')
  {
    match m {
      case Batch(e, es) =>
        StepPreserves(plan, s.batch, e);
        if Commits(s.batch, e) {
          ReadyToStore(plan, s.batch);
          CommitStep(plan, s.batch, e);
          StoringKeepsConsistent(s.tables, run, s.batch.process.bars, s.batch.process.rows, es);
        } else {
          OtherStepsKeepRun(plan, s.batch, e);
        }
      case Elsewhere(other, ps, rows, es) =>
        StoringKeepsConsistent(s.tables, other, ps, rows, es);
    }
  }

  /** A history of the system, one state per move and one before. */
  ghost predicate History(plan: Plan, run: string, states: seq<System>, moves: seq<Move>) {
    && |states| == |moves| + 1
    && states[0].batch == FRESH && Consistent(states[0].tables) && run !in states[0].tables.runs
    && forall i :: 0 <= i < |moves| ==> Moves(plan, run, states[i], moves[i], states[i + 1])
  }

  lemma {:induction false} HistoryKeepsLink(plan: Plan, run: string, states: seq<System>, moves: seq<Move>, k: nat)
    requires plan.Valid() && plan.providers == NAMES && History(plan, run, states, moves) && k < |states|
    ensures Linked(plan, run, states[k])
  {
    if k > 0 {
      HistoryKeepsLink(plan, run, states, moves, k - 1);
      MoveKeepsLink(plan, run, states[k - 1], moves[k - 1], states[k]);
    }
  }

  /** Of a run that is not stored neither reader shows anything. */
  lemma NothingServed(c: Contents, run: string)
    requires NoOrphans(c) && run !in c.runs
    ensures Serves(c.results, run, []) && Explains(c.bars, run, [])
  {
    forall x | x in c.results ensures x.runId in c.runs {
      var i :| 0 <= i < |c.results| && c.results[i] == x;
    }
    forall t | t in c.bars ensures t.runId in c.runs {
      var i :| 0 <= i < |c.bars| && c.bars[i] == t;
    }
    forall t | InStaging(c.bars, t) ensures t.runId in c.runs {
      var u :| u in c.bars && t == Typed(u);
    }
  }

  /** Both readers show the comparisons of what the archived payloads of two providers say, and nothing else. */
  ghost predicate ServesArchives(c: Contents, run: string, plan: Plan, raw: map<Slot, RawFrame>) {
    forall r ::
      && (InPivot(c.results, run, r) <==> ComparesTwo(HYBRID, plan.providers, AllArchivedBars(plan, raw), r))
      && (InFact(c.bars, run, r) && Sided(r) <==> ComparesTwo(HYBRID, plan.providers, AllArchivedBars(plan, raw), r))
  }

  lemma ArchivesAreServed(c: Contents, run: string, plan: Plan, raw: map<Slot, RawFrame>, rows: seq<Comparison>)
    requires Serves(c.results, run, rows) && Explains(c.bars, run, rows) && ComparesArchives(plan, raw, rows)
    ensures ServesArchives(c, run, plan, raw)
  {
    forall r
      ensures InPivot(c.results, run, r) <==> ComparesTwo(HYBRID, plan.providers, AllArchivedBars(plan, raw), r)
      ensures InFact(c.bars, run, r) && Sided(r)
              <==> ComparesTwo(HYBRID, plan.providers, AllArchivedBars(plan, raw), r)
    {
      assert r in rows <==> ComparesTwo(HYBRID, plan.providers, AllArchivedBars(plan, raw), r);
      assert InPivot(c.results, run, r) <==> r in rows;
      assert InFact(c.bars, run, r) && Sided(r) <==> r in rows;
    }
  }

  /**
   The whole path. Whatever crashes, retries and completion orders a run goes through, and whatever
   other runs are stored meanwhile: once it is committed, the API and the dbt fact both serve exactly
   the reconciliation of the normalized first payload of each partition, which compares what the rows
   archived for two providers say; before that, nothing of it.
   */
  lemma ServedRunIsCrashFree(plan: Plan, run: string, states: seq<System>, moves: seq<Move>, k: nat)
    requires plan.Valid() && plan.providers == NAMES && History(plan, run, states, moves) && k < |states|
    ensures var d, c := states[k].batch.disk, states[k].tables;
            if d.run.Some? then
              && Serves(c.results, run, CrashFreeResult(plan, d.parts.raw))
              && Explains(c.bars, run, CrashFreeResult(plan, d.parts.raw))
              && AllReadable(plan, d.parts.raw)
              && ServesArchives(c, run, plan, d.parts.raw)
            else
              Serves(c.results, run, []) && Explains(c.bars, run, [])
  {
    HistoryKeepsLink(plan, run, states, moves, k);
    var d, c := states[k].batch.disk, states[k].tables;
    if d.run.Some? {
      SoundRunIsServed(plan, d, c, run);
      CommittedIs(plan, d);
      ArchivesAreServed(c, run, plan, d.parts.raw, CrashFreeResult(plan, d.parts.raw));
    } else {
      NothingServed(c, run);
    }
  }

  lemma CommitMoves(plan: Plan, run: string, s: State, c: Contents, es: seq<ExceptionRow>)
    requires plan.providers == NAMES && Linked(plan, run, System(s, c)) && s.process.Storing? && s.process.archived
    requires AreExceptionsFor(run, es, s.process.rows)
    ensures ThreeFrames(s.process.bars) && Reconcile(HYBRID, s.process.bars) == Ok(s.process.rows) && run !in c.runs
    ensures Step(plan, s, Advance).Some?
    ensures Moves(plan, run, System(s, c), Batch(Advance, es),
                  System(Step(plan, s, Advance).value, Store(c, run, s.process.bars, s.process.rows, es)))
  {
    ReadyToStore(plan, s);
    CommitStep(plan, s, Advance);
  }

  lemma CrashMoves(plan: Plan, run: string, s: State, c: Contents, es: seq<ExceptionRow>)
    ensures Step(plan, s, Crash).Some?
    ensures Moves(plan, run, System(s, c), Batch(Crash, es), System(Step(plan, s, Crash).value, c))
  {
  }

  /**
   The end of `main` as the program runs it: from a state about to commit, `CommitRun` makes exactly
   the move of the system, and when the engine fails it is a crash of the attempt.
   */
  method CommitReached(plan: Plan, run: string, tables: Tables, ghost s: State, ps: seq<Provider>,
                       rows: seq<Comparison>,
                       clock: nat -> int, budget: nat) returns (outcome: PersistOutcome, ghost es: seq<ExceptionRow>)
    requires plan.Valid() && plan.providers == NAMES && Linked(plan, run, System(s, tables.View()))
    requires s.process == Storing(ps, rows, true)
    modifies tables
    ensures outcome != AlreadyStored
    ensures outcome == Stored ==>
              && Step(plan, s, Advance).Some?
              && Moves(plan, run, System(s, old(tables.View())), Batch(Advance, es),
                       System(Step(plan, s, Advance).value, tables.View()))
    ensures outcome == RolledBack ==>
              && Step(plan, s, Crash).Some?
              && Moves(plan, run, System(s, old(tables.View())), Batch(Crash, es),
                       System(Step(plan, s, Crash).value, tables.View()))
  {
    ReadyToStore(plan, s);
    ghost var before := tables.View();
    outcome, es := tables.CommitRun(run, ps, rows, clock, budget);
    CommitMoves(plan, run, s, before, es);
    CrashMoves(plan, run, s, before, es);
  }
}
