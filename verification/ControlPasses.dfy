/** What happens inside one pass of the runner, over every run: where the instrument is, what a pause and an abort do,
    and when a pass leaves an ordinal behind without exposing it. */
module ControlPasses {
  import I = Instrument
  import opened Control
  import opened ControlSafety
  import opened ControlRuns

  // -------------------------------------------------------------- the instrument in a pass

  predicate Live(status: SequenceStatus) { status == Running || status == Pausing || status == Aborting }

  /** Between two exposures the instrument is READY for a live sequence, or parked in STANDBY. */
  predicate AtRest(instrument: I.InstrumentState, s: Sequence) {
    && (instrument == I.Standby || (instrument == I.Ready && Live(s.status)))
    && (s.status == Running && s.completed < s.expected ==> instrument == I.Ready)
  }

  /** Instrument and sequence at each point of a pass. */
  ghost predicate Placed(w: World) {
    w.pc.Idle? || w.pc.Failing? || (
      && w.pc.id in w.db.sequences
      && var s := w.db.sequences[w.pc.id];
         match w.pc
         case Prepare(_) => Live(s.status)
         case TakeSecond(_, _, _) => w.db.instrument == I.Exposing && Live(s.status)
         case After(_, _) =>
           && AtRest(w.db.instrument, s)
           && (Live(s.status) || s.status == Queued || s.status == Paused || s.status == Aborted)
         case _ => AtRest(w.db.instrument, s) && (Live(s.status) || s.status == Queued))
  }

  /** Other processes change the sequence in flight by actions and by recovery only. */
  lemma {:induction false} ForeignKeepsPlace(w: World, event: Event)
    requires Located(w) && Placed(w) && !event.Work?
    ensures Placed(Next(w, event))
  {
    match event {
      case RecoverL0(e) =>
      case Act(id, action) =>
      case _ =>
    }
  }

  ghost predicate PlacedOutcome(o: Outcome) { o.Done? ==> Placed(World(o.db, o.pc)) }

  lemma {:induction false} StopIsPlaced(db: Db, id: Id, ordinal: nat, next: Pc)
    requires id in db.sequences && (next == Idle || next == After(id, ordinal))
    requires db.instrument == I.Standby || db.instrument == I.Ready || db.instrument == I.Exposing
    ensures PlacedOutcome(MarkAborted(db, id, next))
    ensures db.instrument != I.Exposing ==> PlacedOutcome(MarkPaused(db, id, next))
  {}

  lemma {:induction false} TakeFirstIsPlaced(db: Db, id: Id, ordinal: nat, input: Input)
    requires id in db.sequences && AtRest(db.instrument, db.sequences[id])
    ensures PlacedOutcome(TakeFirstStep(db, id, ordinal, input))
  {
    StopIsPlaced(db, id, ordinal, After(id, ordinal));
  }

  lemma {:induction false} CountedIsPlaced(db: Db, id: Id, ordinal: nat, e: nat, input: Input)
    requires id in db.sequences && e < |db.exposures| && db.instrument == I.Exposing
    requires Live(db.sequences[id].status) && db.sequences[id].status != Aborting
    ensures PlacedOutcome(TakeSecondStep(db, id, ordinal, e, input))
  {
    var last := if db.sequences[id].completed + 1 >= db.sequences[id].expected then I.Standby else I.Ready;
    assert I.From(I.Exposing).Then(I.Reading).Then(last) == I.Along([I.Exposing, I.Reading, last]);
  }

  lemma {:induction false} TakeSecondIsPlaced(db: Db, id: Id, ordinal: nat, e: nat, input: Input)
    requires id in db.sequences && e < |db.exposures| && db.instrument == I.Exposing && Live(db.sequences[id].status)
    ensures PlacedOutcome(TakeSecondStep(db, id, ordinal, e, input))
  {
    if db.sequences[id].status == Aborting {
      StopIsPlaced(db.(exposures := WithStatus(db.exposures, e, Lost)), id, ordinal, After(id, ordinal));
    } else {
      CountedIsPlaced(db, id, ordinal, e, input);
    }
  }

  lemma {:induction false} WorkIsPlaced(w: World, input: Input)
    requires Located(w) && Placed(w)
    ensures PlacedOutcome(Transaction(w, input))
  {
    match w.pc {
      case Prepare(id) => I.PreparationIsLegal(w.db.instrument, input.preparation);
      case TakeFirst(id, ordinal) => TakeFirstIsPlaced(w.db, id, ordinal, input);
      case TakeSecond(id, ordinal, e) => TakeSecondIsPlaced(w.db, id, ordinal, e, input);
      case Check(id, ordinal) => StopIsPlaced(w.db, id, ordinal, Idle);
      case After(id, ordinal) => StopIsPlaced(w.db, id, ordinal, Idle);
      case _ =>
    }
  }

  lemma {:induction false} EventKeepsPlace(w: World, event: Event)
    requires Located(w) && Placed(w)
    ensures Placed(Next(w, event))
  {
    if event.Work? {
      WorkIsPlaced(w, event.input);
    } else {
      ForeignKeepsPlace(w, event);
    }
  }

  lemma {:induction false} LooseRunIsPlaced(states: seq<World>, events: seq<Event>, k: nat)
    requires IsLooseRun(states, events) && k < |states|
    ensures Placed(states[k])
    decreases k
  {
    if k > 0 {
      LooseRunIsPlaced(states, events, k - 1);
      assert Steps(states, events, k - 1);
      EventKeepsPlace(states[k - 1], events[k - 1]);
    }
  }

  /** Facts about state k of a run, and about the step out of it. */
  lemma {:induction false} RunFacts(states: seq<World>, events: seq<Event>, k: nat)
    requires IsRun(states, events) && k < |states|
    ensures Inv(states[k]) && Placed(states[k])
    ensures k < |events| ==> Enabled(states[k], events[k]) && states[k + 1] == Next(states[k], events[k])
  {
    RunInvariant(states, events, k);
    forall j | 0 <= j < |events|
      ensures Steps(states, events, j)
    {
      assert Follows(states, events, j);
    }
    LooseRunIsPlaced(states, events, k);
    if k < |events| {
      assert Follows(states, events, k);
    }
  }

  // ------------------------------------------------------------------- pause and abort

  /** The runner looks at the status of its sequence: before and after an exposure that is still open, and at the end. */
  predicate LooksAtStatus(w: World) {
    || (w.pc.Check? && !IsCommitted(w.db.exposures, w.pc.id, w.pc.ordinal))
    || w.pc.TakeFirst? || w.pc.After? || w.pc.Final?
  }

  /** In every run a requested pause takes effect at the next look whose transaction commits: the sequence is paused and
      the instrument parked, and no row changes. */
  lemma {:induction false} PauseTakesEffect(states: seq<World>, events: seq<Event>, k: nat)
    requires IsRun(states, events) && k < |events| && LooksAtStatus(states[k])
    requires states[k].pc.id in states[k].db.sequences && states[k].db.sequences[states[k].pc.id].status == Pausing
    requires events[k].Work? && events[k].input.databaseOk
    ensures states[k].pc.id in states[k + 1].db.sequences && states[k + 1].db.sequences[states[k].pc.id].status == Paused
    ensures states[k + 1].db.instrument == I.Standby && states[k + 1].db.exposures == states[k].db.exposures
    ensures states[k + 1].pc == if states[k].pc.TakeFirst? then After(states[k].pc.id, states[k].pc.ordinal) else Idle
  {
    RunFacts(states, events, k);
  }

  /** In every run a requested abort takes effect at the next look whose transaction commits, whatever was going on: the
      sequence is aborted and the instrument parked. */
  lemma {:induction false} AbortTakesEffect(states: seq<World>, events: seq<Event>, k: nat)
    requires IsRun(states, events) && k < |events| && LooksAtStatus(states[k])
    requires states[k].pc.id in states[k].db.sequences && states[k].db.sequences[states[k].pc.id].status == Aborting
    requires events[k].Work? && events[k].input.databaseOk
    ensures states[k].pc.id in states[k + 1].db.sequences && states[k + 1].db.sequences[states[k].pc.id].status == Aborted
    ensures states[k + 1].db.instrument == I.Standby && states[k + 1].db.exposures == states[k].db.exposures
    ensures states[k + 1].pc == if states[k].pc.TakeFirst? then After(states[k].pc.id, states[k].pc.ordinal) else Idle
  {
    RunFacts(states, events, k);
  }

  /** An abort during an exposure takes effect exactly when the detector accepts it and the transaction commits; then the
      row is given up, the instrument parked, and nothing is counted. Otherwise the sequence fails. */
  lemma {:induction false} AbortDuringExposureIff(states: seq<World>, events: seq<Event>, k: nat)
    requires IsRun(states, events) && k < |events| && states[k].pc.TakeSecond? && events[k].Work?
    requires states[k].pc.id in states[k].db.sequences && states[k].db.sequences[states[k].pc.id].status == Aborting
    ensures var (id, e, after) := (states[k].pc.id, states[k].pc.exposure, states[k + 1]);
      && e < |states[k].db.exposures| && id in after.db.sequences
      && (events[k].input.abortOk && events[k].input.databaseOk <==>
            after.db.sequences[id].status == Aborted && after.db.instrument == I.Standby
            && after.db.exposures == WithStatus(states[k].db.exposures, e, Lost)
            && after.db.sequences[id].completed == states[k].db.sequences[id].completed)
      && (!(events[k].input.abortOk && events[k].input.databaseOk) <==> after.pc == Failing(id))
  {
    RunFacts(states, events, k);
  }

  /** In every run the first exposure transaction fails its sequence exactly when the sequence has been queued again
      meanwhile, or still runs and the move or the commit fails. */
  lemma {:induction false} ExposureFailsToBeginIff(states: seq<World>, events: seq<Event>, k: nat)
    requires IsRun(states, events) && k < |events| && states[k].pc.TakeFirst? && events[k].Work?
    ensures states[k].pc.id in states[k].db.sequences
    ensures var (s, input) := (states[k].db.sequences[states[k].pc.id], events[k].input);
      states[k + 1].pc == Failing(states[k].pc.id) <==>
        s.status == Queued || !input.databaseOk || (s.status == Running && !(input.moveOk && input.withinTolerance))
  {
    RunFacts(states, events, k);
    var db, id, ordinal := states[k].db, states[k].pc.id, states[k].pc.ordinal;
    if db.sequences[id].status == Running {
      CounterMeaning(db, id);
      assert !CommittedAt(db.exposures, id, ordinal);
      assert db.sequences[id].completed < db.sequences[id].expected;
    }
  }

  predicate Captured(input: Input) { input.exposeOk && input.guiderLocked && input.storageOk }

  /** What a completed exposure leaves: its row committed and registered, its sequence counted up, and the instrument parked
      once every ordinal is committed. */
  ghost predicate Completed(before: Db, after: Db, id: Id, e: nat)
    requires id in before.sequences && e < |before.exposures| && id in after.sequences
  {
    && after.exposures == WithStatus(before.exposures, e, Committed)
    && after.raws == before.raws + {e} && after.files == before.files + {e}
    && after.sequences == before.sequences[id := before.sequences[id].(completed := before.sequences[id].completed + 1)]
    && (after.instrument == I.Standby <==> AllCommitted(after.exposures, id, after.sequences[id].expected))
    && (after.instrument == I.Ready <==> !AllCommitted(after.exposures, id, after.sequences[id].expected))
  }

  lemma {:induction false} CommitsAndCounts(db: Db, id: Id, ordinal: nat, e: nat, input: Input)
    requires id in db.sequences && e < |db.exposures| && db.exposures[e].owner == id
    requires db.instrument == I.Exposing && db.sequences[id].status != Aborting && e !in db.raws && Captured(input)
    ensures var parked := db.sequences[id].completed + 1 >= db.sequences[id].expected;
      && TakeSecondStep(db, id, ordinal, e, input).Done?
      && TakeSecondStep(db, id, ordinal, e, input).pc == After(id, ordinal)
      && TakeSecondStep(db, id, ordinal, e, input).db
         == Committing(db, e, db.files + {e}).(instrument := if parked then I.Standby else I.Ready)
  {
    var s := db.sequences[id];
    var last := if s.completed + 1 >= s.expected then I.Standby else I.Ready;
    assert I.From(I.Exposing).Then(I.Reading) == I.Along([I.Exposing, I.Reading]);
    assert I.From(I.Exposing).Then(I.Reading).Then(last) == I.Along([I.Exposing, I.Reading, last]);
    assert db.exposures[e := db.exposures[e].(status := Reading)][e := db.exposures[e].(status := Committed)]
        == WithStatus(db.exposures, e, Committed);
  }

  lemma {:induction false} ExposureCompletes(db: Db, id: Id, ordinal: nat, e: nat, input: Input)
    requires Good(db) && id in db.sequences && e < |db.exposures| && db.exposures[e].owner == id
    requires db.instrument == I.Exposing && db.sequences[id].status != Aborting && e !in db.raws && Captured(input)
    ensures var o := TakeSecondStep(db, id, ordinal, e, input);
      o.Done? && o.pc == After(id, ordinal) && id in o.db.sequences && Completed(db, o.db, id, e)
  {
    CommitsAndCounts(db, id, ordinal, e, input);
    CommitKeeps(db, e, db.files + {e});
    CounterMeaning(Committing(db, e, db.files + {e}), id);
  }

  /** In every run, when the sequence is not being aborted, the second exposure transaction fails it exactly when the
      detector does not expose, the guide lock is lost, the file cannot be stored, or the transaction does not commit; then
      nothing changes but the store, which keeps a file that was written. Otherwise the row is committed and counted, and
      the instrument is parked exactly when that was the last open ordinal. */
  lemma {:induction false} ExposureFailsToEndIff(states: seq<World>, events: seq<Event>, k: nat)
    requires IsRun(states, events) && k < |events| && states[k].pc.TakeSecond? && events[k].Work?
    requires states[k].pc.id in states[k].db.sequences && states[k].db.sequences[states[k].pc.id].status != Aborting
    ensures var (before, after, input, pc) := (states[k].db, states[k + 1].db, events[k].input, states[k].pc);
      && pc.exposure < |before.exposures| && pc.exposure !in before.raws && pc.id in after.sequences
      && (states[k + 1].pc == Failing(pc.id) <==> !(Captured(input) && input.databaseOk))
      && (!(Captured(input) && input.databaseOk) ==>
            after == before.(files := if Captured(input) then before.files + {pc.exposure} else before.files))
      && (Captured(input) && input.databaseOk ==>
            states[k + 1].pc == After(pc.id, pc.ordinal) && Completed(before, after, pc.id, pc.exposure))
  {
    RunFacts(states, events, k);
    var db, id, e := states[k].db, states[k].pc.id, states[k].pc.exposure;
    assert db.exposures[e].status != Committed;
    if Captured(events[k].input) {
      ExposureCompletes(db, id, states[k].pc.ordinal, e, events[k].input);
    }
  }

  // ------------------------------------------------------------- beginning and end of a pass

  /** In every run the preparation fails its sequence exactly when the instrument cannot be prepared or the transaction does
      not commit; otherwise the instrument is READY and the first ordinal comes next. */
  lemma {:induction false} PreparationFailsIff(states: seq<World>, events: seq<Event>, k: nat)
    requires IsRun(states, events) && k < |events| && states[k].pc.Prepare? && events[k].Work?
    ensures states[k].pc.id in states[k].db.sequences
    ensures var (db, id, input) := (states[k].db, states[k].pc.id, events[k].input);
      && (states[k + 1].pc == Failing(id) <==> !(I.CanPrepare(db.instrument, input.preparation) && input.databaseOk))
      && (I.CanPrepare(db.instrument, input.preparation) && input.databaseOk ==>
            states[k + 1].db == db.(instrument := I.Ready) && states[k + 1].pc == NextOrdinal(db.sequences[id], id, 0))
  {
    RunFacts(states, events, k);
    I.PreparationIsLegal(states[k].db.instrument, events[k].input.preparation);
    I.PreparesIff(states[k].db.instrument, events[k].input.preparation);
  }

  /** What the beginning of an exposure leaves: the row of the ordinal, reused or inserted, is under exposure. */
  ghost predicate Begun(before: Db, after: Db, id: Id, ordinal: nat, e: nat) {
    && e < |after.exposures| && after.exposures[e] == Exposure(id, ordinal, Exposing)
    && after == before.(instrument := I.Exposing, exposures := after.exposures)
    && if exists i :: 0 <= i < |before.exposures| && before.exposures[i].owner == id && before.exposures[i].ordinal == ordinal
       then e < |before.exposures| && before.exposures[e].owner == id && before.exposures[e].ordinal == ordinal
            && after.exposures == before.exposures[e := after.exposures[e]]
       else after.exposures == before.exposures + [after.exposures[e]]
  }

  lemma {:induction false} BeginsExposure(db: Db, id: Id, ordinal: nat, input: Input)
    requires id in db.sequences && db.sequences[id].status == Running && db.instrument == I.Ready
    requires input.moveOk && input.withinTolerance && !CommittedAt(db.exposures, id, ordinal)
    ensures var o := TakeFirstStep(db, id, ordinal, input);
      o.Done? && o.pc.TakeSecond? && o.pc == TakeSecond(id, ordinal, o.pc.exposure) && Begun(db, o.db, id, ordinal, o.pc.exposure)
  {
    assert I.From(I.Ready).Then(I.Exposing) == I.Along([I.Ready, I.Exposing]);
    var row := Latest(db.exposures, id, ordinal);
    forall i | 0 <= i < |db.exposures| && db.exposures[i].owner == id && db.exposures[i].ordinal == ordinal
      ensures Retakeable(db.exposures[i], id, ordinal)
    {
      if db.exposures[i].status == Committed {
        assert false;
      }
    }
  }

  /** In every run, when it does begin, exactly the row of the ordinal changes, and the instrument is EXPOSING. */
  lemma {:induction false} ExposureBegins(states: seq<World>, events: seq<Event>, k: nat)
    requires IsRun(states, events) && k < |events| && states[k].pc.TakeFirst? && events[k].Work?
    requires events[k].input.moveOk && events[k].input.withinTolerance && events[k].input.databaseOk
    requires states[k].pc.id in states[k].db.sequences && states[k].db.sequences[states[k].pc.id].status == Running
    ensures states[k + 1].pc.TakeSecond? && states[k + 1].pc.id == states[k].pc.id
    ensures states[k + 1].pc.ordinal == states[k].pc.ordinal
    ensures Begun(states[k].db, states[k + 1].db, states[k].pc.id, states[k].pc.ordinal, states[k + 1].pc.exposure)
  {
    RunFacts(states, events, k);
    var db, id, ordinal := states[k].db, states[k].pc.id, states[k].pc.ordinal;
    CounterMeaning(db, id);
    assert !CommittedAt(db.exposures, id, ordinal);
    BeginsExposure(db, id, ordinal, events[k].input);
  }

  /** Every row of the sequence that is not committed is lost, and no other row changes. */
  ghost predicate GivenUp(before: seq<Exposure>, after: seq<Exposure>, id: Id) {
    && |after| == |before|
    && forall i :: 0 <= i < |before| ==>
         after[i] == if before[i].owner == id && before[i].status != Committed then before[i].(status := Lost) else before[i]
  }

  predicate Works(w: World, event: Event, pc: Pc) { w.pc == pc && event.Work? && event.input.databaseOk }

  ghost predicate StatusOf(db: Db, id: Id, status: SequenceStatus) { id in db.sequences && db.sequences[id].status == status }

  lemma {:induction false} OnlyOwnStatus(states: seq<World>, events: seq<Event>, k: nat, id: Id)
    requires IsRun(states, events) && k < |events| && events[k].Work? && id in states[k].db.sequences
    requires states[k].pc.Idle? || states[k].pc.id != id
    ensures id in states[k + 1].db.sequences && states[k + 1].db.sequences[id] == states[k].db.sequences[id]
  {
    RunFacts(states, events, k);
    OthersUntouched(states[k], events[k].input, id);
  }

  /** In every run a sequence succeeds exactly by a final transaction that commits while it is running, and fails exactly by
      a failing transaction that commits; one that does not commit changes nothing and ends the pass. */
  lemma {:induction false} EndsIff(states: seq<World>, events: seq<Event>, k: nat, id: Id)
    requires IsRun(states, events) && k < |events| && id in states[k].db.sequences
    ensures !StatusOf(states[k].db, id, Succeeded) ==>
      (StatusOf(states[k + 1].db, id, Succeeded) <==>
         Works(states[k], events[k], Final(id)) && StatusOf(states[k].db, id, Running))
    ensures !StatusOf(states[k].db, id, Failed) ==>
      (StatusOf(states[k + 1].db, id, Failed) <==> Works(states[k], events[k], Failing(id)))
    ensures Works(states[k], events[k], Failing(id)) ==>
      && states[k + 1].pc == Idle && states[k + 1].db.instrument == I.SafeFault
      && GivenUp(states[k].db.exposures, states[k + 1].db.exposures, id)
    ensures states[k].pc == Failing(id) && events[k].Work? && !events[k].input.databaseOk ==>
      states[k + 1] == World(states[k].db, Idle)
  {
    RunFacts(states, events, k);
    if events[k].Work? {
      if states[k].pc.Idle? || states[k].pc.id != id {
        OnlyOwnStatus(states, events, k, id);
      } else {
        OwnStatus(states[k], events[k].input);
      }
    }
  }

  lemma {:induction false} OwnStatus(w: World, input: Input)
    requires Located(w) && Placed(w) && !w.pc.Idle?
    ensures w.pc.id in Worked(w, input).db.sequences
    ensures !StatusOf(w.db, w.pc.id, Succeeded) ==> (StatusOf(Worked(w, input).db, w.pc.id, Succeeded) <==>
      w.pc.Final? && input.databaseOk && StatusOf(w.db, w.pc.id, Running))
    ensures !StatusOf(w.db, w.pc.id, Failed) ==> (StatusOf(Worked(w, input).db, w.pc.id, Failed) <==>
      w.pc.Failing? && input.databaseOk)
    ensures w.pc.Failing? && input.databaseOk ==>
      && Worked(w, input).pc == Idle && Worked(w, input).db.instrument == I.SafeFault
      && GivenUp(w.db.exposures, Worked(w, input).db.exposures, w.pc.id)
    ensures w.pc.Failing? && !input.databaseOk ==> Worked(w, input) == World(w.db, Idle)
  {
    match w.pc {
      case TakeFirst(id, ordinal) => TakesOwnStatus(w.db, id, ordinal, 0, input);
      case TakeSecond(id, ordinal, e) => TakesOwnStatus(w.db, id, ordinal, e, input);
      case _ =>
    }
  }

  /** The exposure transactions never end a sequence other than by stopping it. */
  lemma {:induction false} TakesOwnStatus(db: Db, id: Id, ordinal: nat, e: nat, input: Input)
    requires id in db.sequences
    ensures Unended(db, TakeFirstStep(db, id, ordinal, input), id)
    ensures e < |db.exposures| ==> Unended(db, TakeSecondStep(db, id, ordinal, e, input), id)
  {}

  ghost predicate Unended(db: Db, o: Outcome, id: Id) {
    o.Done? ==>
      && (StatusOf(o.db, id, Succeeded) ==> StatusOf(db, id, Succeeded))
      && (StatusOf(o.db, id, Failed) ==> StatusOf(db, id, Failed))
  }

  /** In every run a user action is accepted exactly in these states of a sequence, and otherwise changes nothing: a sequence can
      be stopped unless it has not begun or has ended, and be paused unless it is being stopped already. */
  lemma {:induction false} ActionIff(states: seq<World>, events: seq<Event>, k: nat, id: Id, action: Action)
    requires IsRun(states, events) && k < |events| && events[k] == Act(id, action) && id in states[k].db.sequences
    ensures id in states[k + 1].db.sequences
    ensures var (before, after) := (states[k].db.sequences[id].status, states[k + 1].db.sequences[id].status);
      match action
      case Start => after == if before == Validated then Queued else before
      case Pause => after == if before in {Queued, Running} then Pausing else before
      case Resume =>
        after == if before == Paused || (before == Failed && states[k].db.instrument != I.SafeFault) then Queued else before
      case Abort => after == if before == Paused then Aborted else if before in {Queued, Running, Pausing} then Aborting else before
    ensures states[k + 1].db.exposures == states[k].db.exposures && states[k + 1].db.instrument == states[k].db.instrument
    ensures states[k + 1].pc == states[k].pc
  {
    RunFacts(states, events, k);
  }

  /** The runner looks at a sequence with this status. */
  predicate Sees(w: World, event: Event, id: Id, status: SequenceStatus) {
    && !w.pc.Idle? && w.pc.id == id && LooksAtStatus(w) && event.Work? && event.input.databaseOk
    && id in w.db.sequences && w.db.sequences[id].status == status
  }

  /** The runner is about to expose for a sequence that is being aborted, and the detector accepts it. */
  predicate AbortsExposure(w: World, event: Event, id: Id) {
    && w.pc.TakeSecond? && w.pc.id == id && event.Work? && event.input.databaseOk && event.input.abortOk
    && id in w.db.sequences && w.db.sequences[id].status == Aborting
  }

  lemma {:induction false} OwnStop(w: World, input: Input)
    requires Located(w) && Placed(w) && !w.pc.Idle?
    ensures w.pc.id in Worked(w, input).db.sequences
    ensures !StatusOf(w.db, w.pc.id, Paused) ==>
      (StatusOf(Worked(w, input).db, w.pc.id, Paused) <==> Sees(w, Work(input), w.pc.id, Pausing))
    ensures !StatusOf(w.db, w.pc.id, Aborted) ==>
      (StatusOf(Worked(w, input).db, w.pc.id, Aborted) <==>
         Sees(w, Work(input), w.pc.id, Aborting) || AbortsExposure(w, Work(input), w.pc.id))
    ensures StatusOf(Worked(w, input).db, w.pc.id, Running) ==> StatusOf(w.db, w.pc.id, Running)
  {}

  /** In every run a sequence starts to run exactly by a poll of the idle runner while it is queued, is paused exactly by a look at
      it while it is pausing, and is aborted exactly by a look at it while it is aborting, by the detector giving up its
      exposure, or by the request itself when it is paused. */
  lemma {:induction false} StopsIff(states: seq<World>, events: seq<Event>, k: nat, id: Id)
    requires IsRun(states, events) && k < |events| && id in states[k].db.sequences
    ensures !StatusOf(states[k].db, id, Running) ==>
      (StatusOf(states[k + 1].db, id, Running) <==>
         events[k] == Poll(id) && states[k].pc.Idle? && StatusOf(states[k].db, id, Queued))
    ensures !StatusOf(states[k].db, id, Paused) ==>
      (StatusOf(states[k + 1].db, id, Paused) <==> Sees(states[k], events[k], id, Pausing))
    ensures !StatusOf(states[k].db, id, Aborted) ==>
      (StatusOf(states[k + 1].db, id, Aborted) <==>
         || Sees(states[k], events[k], id, Aborting) || AbortsExposure(states[k], events[k], id)
         || (events[k] == Act(id, Abort) && StatusOf(states[k].db, id, Paused)))
  {
    RunFacts(states, events, k);
    if events[k].Work? {
      if states[k].pc.Idle? || states[k].pc.id != id {
        OnlyOwnStatus(states, events, k, id);
      } else {
        OwnStop(states[k], events[k].input);
      }
    }
  }
}
