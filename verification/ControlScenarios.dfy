/** Concrete runs of the control plane: a pause and a resume that make the runner pass over an ordinal, a pause after which the
    optics are requested again under the same key, and recoveries during a retake that let a sequence succeed without its
    exposure or with two rows for it. */
module ControlScenarios {
  import I = Instrument
  import opened Control
  import opened ControlRuns
  import opened ControlKeys
  import opened ControlSkips

  const ID: Id := "s"

  /** Devices, store and database answer as hoped for. */
  const FINE: Input := Input(I.Preparation(true, true, true, true, true), true, true, true, true, true, true, true)

  /** The same, but the database refuses the commit. */
  const REFUSED: Input := FINE.(databaseOk := false)

  ghost predicate Leads(w: World, event: Event, next: World) { Located(w) && next == Next(w, event) }

  ghost predicate LeadsAt(states: seq<World>, events: seq<Event>, k: nat)
    requires |states| == |events| + 1 && k < |events|
  {
    Leads(states[k], events[k], states[k + 1])
  }

  /** A list of states in which each leads to the next is a loose run, and a run when every event is enabled. */
  lemma {:induction false} Chain(states: seq<World>, events: seq<Event>)
    requires |states| == |events| + 1 && states[0] == EMPTY
    requires forall k :: 0 <= k < |events| ==> LeadsAt(states, events, k)
    ensures IsLooseRun(states, events)
    ensures (forall k :: 0 <= k < |events| ==> !events[k].RecoverL0?) ==> IsRun(states, events)
  {
    forall k | 0 <= k < |events|
      ensures Steps(states, events, k) && (!events[k].RecoverL0? ==> Follows(states, events, k))
    {
      assert LeadsAt(states, events, k);
    }
  }

  // -------------------------------------------------------------- passing over an ordinal

  /** A polarimetric sequence of one group, of which nothing was exposed. */
  function Unexposed(status: SequenceStatus, instrument: I.InstrumentState, pc: Pc): World {
    World(Db(instrument, map[ID := Sequence(status, 0, 1, 4, 4, 0)], [], {}, {}), pc)
  }

  const PAUSE_EVENTS: seq<Event> :=
    [Create(ID, 1, true), Act(ID, Start), Poll(ID), Work(FINE), Work(FINE), Act(ID, Pause),
     Work(FINE), Act(ID, Resume), Work(FINE), Work(FINE), Work(FINE), Work(FINE)]

  const PAUSE_STATES: seq<World> :=
    [EMPTY,
     Unexposed(Validated, I.Offline, Idle),
     Unexposed(Queued, I.Offline, Idle),
     Unexposed(Running, I.Offline, Prepare(ID)),
     Unexposed(Running, I.Ready, Check(ID, 1)),
     Unexposed(Running, I.Ready, TakeFirst(ID, 1)),
     Unexposed(Pausing, I.Ready, TakeFirst(ID, 1)),
     Unexposed(Paused, I.Standby, After(ID, 1)),
     Unexposed(Queued, I.Standby, After(ID, 1)),
     Unexposed(Queued, I.Standby, Check(ID, 2)),
     Unexposed(Queued, I.Standby, TakeFirst(ID, 2)),
     Unexposed(Queued, I.Standby, Failing(ID)),
     Unexposed(Failed, I.SafeFault, Idle)]

  lemma {:induction false} FineTrack()
    ensures I.PrepareInstrument(I.Offline, FINE.preparation) == I.Along([I.Offline, I.Initializing, I.Standby,
        I.Preparing, I.Ready])
  {}

  lemma {:induction false} PauseIsQueued()
    ensures LeadsAt(PAUSE_STATES, PAUSE_EVENTS, 0)
    ensures LeadsAt(PAUSE_STATES, PAUSE_EVENTS, 1)
    ensures LeadsAt(PAUSE_STATES, PAUSE_EVENTS, 2)
  {}

  lemma {:induction false} PausePrepares()
    ensures LeadsAt(PAUSE_STATES, PAUSE_EVENTS, 3)
  {
    FineTrack();
  }

  lemma {:induction false} PauseIsTaken()
    ensures LeadsAt(PAUSE_STATES, PAUSE_EVENTS, 5)
    ensures LeadsAt(PAUSE_STATES, PAUSE_EVENTS, 6)
  {}

  lemma {:induction false} PauseIsOpen()
    ensures LeadsAt(PAUSE_STATES, PAUSE_EVENTS, 4)
  {}

  lemma {:induction false} PauseIsResumed()
    ensures LeadsAt(PAUSE_STATES, PAUSE_EVENTS, 7)
    ensures LeadsAt(PAUSE_STATES, PAUSE_EVENTS, 8)
    ensures LeadsAt(PAUSE_STATES, PAUSE_EVENTS, 9)
  {}

  lemma {:induction false} PauseFails()
    ensures LeadsAt(PAUSE_STATES, PAUSE_EVENTS, 10)
    ensures LeadsAt(PAUSE_STATES, PAUSE_EVENTS, 11)
  {
    assert FailRows([], ID) == [];
  }

  lemma {:induction false} PauseLeads(k: nat)
    requires k < 12
    ensures LeadsAt(PAUSE_STATES, PAUSE_EVENTS, k)
  {
    if k < 3 {
      PauseIsQueued();
    } else if k == 3 {
      PausePrepares();
    } else if k == 4 {
      PauseIsOpen();
    } else if k < 7 {
      PauseIsTaken();
    } else if k < 10 {
      PauseIsResumed();
    } else {
      PauseFails();
    }
  }

  /** A run in which the first ordinal is passed over without a row, and the second one fails the sequence. */
  lemma {:induction false} SkipIsReachable()
    ensures IsRun(PAUSE_STATES, PAUSE_EVENTS) && Skips(PAUSE_STATES, PAUSE_EVENTS, 8, ID, 1)
    ensures PAUSE_STATES[12].db.sequences[ID].status == Failed && PAUSE_STATES[12].db.instrument == I.SafeFault
  {
    forall k | 0 <= k < 12
      ensures LeadsAt(PAUSE_STATES, PAUSE_EVENTS, k)
    {
      PauseLeads(k);
    }
    Chain(PAUSE_STATES, PAUSE_EVENTS);
  }

  // ------------------------------------------------------------------ a crash between exposures

  const NEXT: Id := "t"

  /** The first sequence is left running by a crash, with the instrument READY, and a second one follows. */
  function Stranded(status: SequenceStatus, pc: Pc): World {
    World(Db(I.Ready, map[ID := Sequence(Running, 0, 1, 4, 4, 0), NEXT := Sequence(status, 0, 1, 4, 4, 0)], [], {}, {}), pc)
  }

  const CRASH_EVENTS: seq<Event> :=
    PAUSE_EVENTS[..4] + [Crash, Create(NEXT, 1, true), Act(NEXT, Start), Poll(NEXT), Work(FINE)]

  const CRASH_STATES: seq<World> :=
    PAUSE_STATES[..5] + [Unexposed(Running, I.Ready, Idle), Stranded(Validated, Idle), Stranded(Queued, Idle),
                         Stranded(Running, Prepare(NEXT)), Stranded(Running, Failing(NEXT))]

  lemma {:induction false} CrashLeads(k: nat)
    requires k < 9
    ensures LeadsAt(CRASH_STATES, CRASH_EVENTS, k)
  {
    if k < 4 {
      PauseLeads(k);
      assert CRASH_STATES[k] == PAUSE_STATES[k] && CRASH_STATES[k + 1] == PAUSE_STATES[k + 1];
      assert CRASH_EVENTS[k] == PAUSE_EVENTS[k];
    } else if k == 8 {
      I.PreparesIff(I.Ready, FINE.preparation);
    } else {
      CrashIsFollowed(k);
    }
  }

  lemma {:induction false} CrashIsFollowed(k: nat)
    requires 4 <= k < 8
    ensures LeadsAt(CRASH_STATES, CRASH_EVENTS, k)
  {}

  /** A run in which the runner is killed while the instrument is READY: although every device answers as hoped for, the
      preparation of the next sequence fails it. */
  lemma {:induction false} ReadyIsStranded()
    ensures IsRun(CRASH_STATES, CRASH_EVENTS) && CRASH_STATES[8].pc == Prepare(NEXT) && CRASH_STATES[9].pc == Failing(NEXT)
    ensures CRASH_STATES[8].db.instrument == I.Ready && CRASH_EVENTS[8] == Work(FINE)
  {
    forall k | 0 <= k < 9
      ensures LeadsAt(CRASH_STATES, CRASH_EVENTS, k)
    {
      CrashLeads(k);
    }
    Chain(CRASH_STATES, CRASH_EVENTS);
  }

  // --------------------------------------------------------------- a pause between passes

  const OPTICS_EVENTS: seq<Event> :=
    PAUSE_EVENTS[..4] + [Act(ID, Pause), Work(FINE), Act(ID, Resume), Poll(ID), Work(FINE)]

  const OPTICS_STATES: seq<World> :=
    PAUSE_STATES[..5] +
    [Unexposed(Pausing, I.Ready, Check(ID, 1)),
     Unexposed(Paused, I.Standby, Idle),
     Unexposed(Queued, I.Standby, Idle),
     Unexposed(Running, I.Standby, Prepare(ID)),
     Unexposed(Running, I.Ready, Check(ID, 1))]

  lemma {:induction false} OpticsIsPaused()
    ensures Leads(Unexposed(Running, I.Ready, Check(ID, 1)), Act(ID, Pause), Unexposed(Pausing, I.Ready, Check(ID, 1)))
    ensures Leads(Unexposed(Pausing, I.Ready, Check(ID, 1)), Work(FINE), Unexposed(Paused, I.Standby, Idle))
  {}

  lemma {:induction false} OpticsIsResumed()
    ensures Leads(Unexposed(Paused, I.Standby, Idle), Act(ID, Resume), Unexposed(Queued, I.Standby, Idle))
    ensures Leads(Unexposed(Queued, I.Standby, Idle), Poll(ID), Unexposed(Running, I.Standby, Prepare(ID)))
  {}

  lemma {:induction false} OpticsIsPrepared()
    ensures Leads(Unexposed(Running, I.Standby, Prepare(ID)), Work(FINE), Unexposed(Running, I.Ready, Check(ID, 1)))
  {
    assert I.PrepareInstrument(I.Standby, FINE.preparation) == I.Along([I.Standby, I.Preparing, I.Ready]);
  }

  lemma {:induction false} OpticsLeads(k: nat)
    requires k < 9
    ensures LeadsAt(OPTICS_STATES, OPTICS_EVENTS, k)
  {
    if k < 4 {
      PauseLeads(k);
      assert OPTICS_STATES[k] == PAUSE_STATES[k] && OPTICS_STATES[k + 1] == PAUSE_STATES[k + 1];
      assert OPTICS_EVENTS[k] == PAUSE_EVENTS[k];
    } else if k < 6 {
      OpticsIsPaused();
    } else if k < 8 {
      OpticsIsResumed();
    } else {
      OpticsIsPrepared();
    }
  }

  /** A run in which a sequence is paused and resumed between two preparations, and the second one asks for the optics under
      the key of the first. */
  lemma {:induction false} OpticsKeyIsRepeated()
    ensures IsRun(OPTICS_STATES, OPTICS_EVENTS)
    ensures AsksAt(OPTICS_STATES, OPTICS_EVENTS, 3, DeviceKey(ID, 0, ToOptics))
    ensures AsksAt(OPTICS_STATES, OPTICS_EVENTS, 8, DeviceKey(ID, 0, ToOptics))
  {
    forall k | 0 <= k < 9
      ensures LeadsAt(OPTICS_STATES, OPTICS_EVENTS, k)
    {
      OpticsLeads(k);
    }
    Chain(OPTICS_STATES, OPTICS_EVENTS);
  }

  // ------------------------------------------------------------- recovery during a retake

  /** A sequence of one plain exposure. */
  function Single(status: SequenceStatus, attempt: nat, completed: nat, instrument: I.InstrumentState,
                  rows: seq<ExposureStatus>,
                  files: set<nat>, raws: set<nat>, pc: Pc): World {
    World(Db(instrument, map[ID := Sequence(status, attempt, 1, 1, 1, completed)],
             seq(|rows|, i requires 0 <= i < |rows| => Exposure(ID, 1, rows[i])), files, raws), pc)
  }

  const RETAKE_EVENTS: seq<Event> :=
    [Create(ID, 1, false), Act(ID, Start), Poll(ID), Work(FINE), Work(FINE), Work(FINE), Work(REFUSED), Work(FINE),
     RecoverInstrument, Act(ID, Resume), Poll(ID), Work(FINE), Work(FINE), Work(FINE), RecoverL0(0), Work(FINE),
     Work(FINE), Work(FINE)]

  const RETAKE_STATES: seq<World> :=
    [EMPTY,
     Single(Validated, 0, 0, I.Offline, [], {}, {}, Idle),
     Single(Queued, 0, 0, I.Offline, [], {}, {}, Idle),
     Single(Running, 0, 0, I.Offline, [], {}, {}, Prepare(ID)),
     Single(Running, 0, 0, I.Ready, [], {}, {}, Check(ID, 1)),
     Single(Running, 0, 0, I.Ready, [], {}, {}, TakeFirst(ID, 1)),
     Single(Running, 0, 0, I.Exposing, [Exposing], {}, {}, TakeSecond(ID, 1, 0)),
     Single(Running, 0, 0, I.Exposing, [Exposing], {0}, {}, Failing(ID)),
     Single(Failed, 0, 0, I.SafeFault, [Lost], {0}, {}, Idle),
     Single(Failed, 0, 0, I.Offline, [Lost], {0}, {}, Idle),
     Single(Queued, 1, 0, I.Offline, [Lost], {0}, {}, Idle),
     Single(Running, 1, 0, I.Offline, [Lost], {0}, {}, Prepare(ID)),
     Single(Running, 1, 0, I.Ready, [Lost], {0}, {}, Check(ID, 1)),
     Single(Running, 1, 0, I.Ready, [Lost], {0}, {}, TakeFirst(ID, 1)),
     Single(Running, 1, 0, I.Exposing, [Exposing], {0}, {}, TakeSecond(ID, 1, 0)),
     Single(Running, 1, 1, I.Exposing, [Committed], {0}, {0}, TakeSecond(ID, 1, 0)),
     Single(Running, 1, 2, I.Standby, [Reading], {0}, {0}, After(ID, 1)),
     Single(Running, 1, 2, I.Standby, [Reading], {0}, {0}, Final(ID)),
     Single(Succeeded, 1, 2, I.Standby, [Reading], {0}, {0}, Idle)]

  lemma {:induction false} RetakeIsQueued()
    ensures LeadsAt(RETAKE_STATES, RETAKE_EVENTS, 0)
    ensures LeadsAt(RETAKE_STATES, RETAKE_EVENTS, 1)
    ensures LeadsAt(RETAKE_STATES, RETAKE_EVENTS, 2)
  {}

  lemma {:induction false} RetakePrepares()
    ensures LeadsAt(RETAKE_STATES, RETAKE_EVENTS, 3)
  {
    FineTrack();
  }

  lemma {:induction false} RetakeIsOpen()
    ensures LeadsAt(RETAKE_STATES, RETAKE_EVENTS, 4)
    ensures LeadsAt(RETAKE_STATES, RETAKE_EVENTS, 12)
  {}

  lemma {:induction false} RetakeBegins()
    ensures LeadsAt(RETAKE_STATES, RETAKE_EVENTS, 5)
  {}

  lemma {:induction false} RetakeIsRefused()
    ensures LeadsAt(RETAKE_STATES, RETAKE_EVENTS, 6)
  {
    assert I.From(I.Exposing).Then(I.Reading).Then(I.Standby) == I.Along([I.Exposing, I.Reading, I.Standby]);
  }

  lemma {:induction false} RetakeFails()
    ensures LeadsAt(RETAKE_STATES, RETAKE_EVENTS, 7)
  {}

  lemma {:induction false} RetakeIsUnlatched()
    ensures LeadsAt(RETAKE_STATES, RETAKE_EVENTS, 8)
  {}

  lemma {:induction false} RetakeIsQueuedAgain()
    ensures LeadsAt(RETAKE_STATES, RETAKE_EVENTS, 9)
  {}

  lemma {:induction false} RetakeIsPolledAgain()
    ensures LeadsAt(RETAKE_STATES, RETAKE_EVENTS, 10)
  {}

  lemma {:induction false} RetakePreparesAgain()
    ensures LeadsAt(RETAKE_STATES, RETAKE_EVENTS, 11)
  {
    FineTrack();
  }

  lemma {:induction false} RetakeBeginsAgain()
    ensures LeadsAt(RETAKE_STATES, RETAKE_EVENTS, 13)
  {}

  lemma {:induction false} RetakeIsRecovered()
    ensures LeadsAt(RETAKE_STATES, RETAKE_EVENTS, 14)
  {}

  lemma {:induction false} RetakeIsCountedTwice()
    ensures LeadsAt(RETAKE_STATES, RETAKE_EVENTS, 15)
  {}

  lemma {:induction false} RetakeSucceeds()
    ensures LeadsAt(RETAKE_STATES, RETAKE_EVENTS, 16)
    ensures LeadsAt(RETAKE_STATES, RETAKE_EVENTS, 17)
  {}

  lemma {:induction false} RetakeLeads(k: nat)
    requires k < 18
    ensures LeadsAt(RETAKE_STATES, RETAKE_EVENTS, k)
  {
    if k <= 2 {
      RetakeIsQueued();
    } else if k == 3 {
      RetakePrepares();
    } else if k == 4 {
      RetakeIsOpen();
    } else if k == 5 {
      RetakeBegins();
    } else if k == 6 {
      RetakeIsRefused();
    } else if k == 7 {
      RetakeFails();
    } else if k == 8 {
      RetakeIsUnlatched();
    } else if k == 9 {
      RetakeIsQueuedAgain();
    } else if k == 10 {
      RetakeIsPolledAgain();
    } else if k == 11 {
      RetakePreparesAgain();
    } else if k == 12 {
      RetakeIsOpen();
    } else if k == 13 {
      RetakeBeginsAgain();
    } else if k == 14 {
      RetakeIsRecovered();
    } else if k == 15 {
      RetakeIsCountedTwice();
    } else {
      RetakeSucceeds();
    }
  }

  /** A loose run: the file of an exposure is written but its transaction fails, the sequence is retried, recovery
      registers the file while the exposure is being retaken, and the second transaction counts it again. The sequence
      succeeds with the counter above the expected number and without a committed row. */
  lemma {:induction false} SuccessWithoutExposure()
    ensures IsLooseRun(RETAKE_STATES, RETAKE_EVENTS)
    ensures GoodCount(RETAKE_STATES[15].db, ID, 0) && 0 in RETAKE_STATES[15].db.raws
    ensures RETAKE_STATES[15].pc == TakeSecond(ID, 1, 0) && CommittedAt(RETAKE_STATES[15].db.exposures, ID, 1)
    ensures ID in RETAKE_STATES[18].db.sequences && RETAKE_STATES[18].db.sequences[ID].status == Succeeded
    ensures RETAKE_STATES[18].db.sequences[ID].completed > RETAKE_STATES[18].db.sequences[ID].expected
    ensures !CommittedAt(RETAKE_STATES[18].db.exposures, ID, 1)
  {
    forall k | 0 <= k < 18
      ensures LeadsAt(RETAKE_STATES, RETAKE_EVENTS, k)
    {
      RetakeLeads(k);
    }
    Chain(RETAKE_STATES, RETAKE_EVENTS);
    assert RETAKE_STATES[15].db.exposures[0] == Exposure(ID, 1, Committed);
  }

  // ------------------------------------------------------ recovery before the first transaction

  /** The same retry, but recovery registers the file before the runner looks for the row of the exposure. */
  const SECOND_ROW_EVENTS: seq<Event> :=
    RETAKE_EVENTS[..13] + [RecoverL0(0), Work(FINE), Work(FINE), Work(FINE), Work(FINE)]

  const SECOND_ROW_STATES: seq<World> :=
    RETAKE_STATES[..14] +
    [Single(Running, 1, 1, I.Ready, [Committed], {0}, {0}, TakeFirst(ID, 1)),
     Single(Running, 1, 1, I.Exposing, [Committed, Exposing], {0}, {0}, TakeSecond(ID, 1, 1)),
     Single(Running, 1, 2, I.Standby, [Committed, Committed], {0, 1}, {0, 1}, After(ID, 1)),
     Single(Running, 1, 2, I.Standby, [Committed, Committed], {0, 1}, {0, 1}, Final(ID)),
     Single(Succeeded, 1, 2, I.Standby, [Committed, Committed], {0, 1}, {0, 1}, Idle)]

  lemma {:induction false} SecondRowIsRecovered()
    ensures Leads(Single(Running, 1, 0, I.Ready, [Lost], {0}, {}, TakeFirst(ID, 1)), RecoverL0(0),
                  Single(Running, 1, 1, I.Ready, [Committed], {0}, {0}, TakeFirst(ID, 1)))
  {}

  lemma {:induction false} SecondRowBegins()
    ensures Leads(Single(Running, 1, 1, I.Ready, [Committed], {0}, {0}, TakeFirst(ID, 1)), Work(FINE),
                  Single(Running, 1, 1, I.Exposing, [Committed, Exposing], {0}, {0}, TakeSecond(ID, 1, 1)))
  {}

  lemma {:induction false} SecondRowIsCommitted()
    ensures Leads(Single(Running, 1, 1, I.Exposing, [Committed, Exposing], {0}, {0}, TakeSecond(ID, 1, 1)), Work(FINE),
                  Single(Running, 1, 2, I.Standby, [Committed, Committed], {0, 1}, {0, 1}, After(ID, 1)))
  {
    assert I.From(I.Exposing).Then(I.Reading).Then(I.Standby) == I.Along([I.Exposing, I.Reading, I.Standby]);
  }

  lemma {:induction false} SecondRowSucceeds()
    ensures Leads(Single(Running, 1, 2, I.Standby, [Committed, Committed], {0, 1}, {0, 1}, After(ID, 1)), Work(FINE),
                  Single(Running, 1, 2, I.Standby, [Committed, Committed], {0, 1}, {0, 1}, Final(ID)))
    ensures Leads(Single(Running, 1, 2, I.Standby, [Committed, Committed], {0, 1}, {0, 1}, Final(ID)), Work(FINE),
                  Single(Succeeded, 1, 2, I.Standby, [Committed, Committed], {0, 1}, {0, 1}, Idle))
  {}

  lemma {:induction false} SecondRowLeads(k: nat)
    requires k < 18
    ensures LeadsAt(SECOND_ROW_STATES, SECOND_ROW_EVENTS, k)
  {
    if k < 13 {
      RetakeLeads(k);
      assert SECOND_ROW_STATES[k] == RETAKE_STATES[k] && SECOND_ROW_STATES[k + 1] == RETAKE_STATES[k + 1];
      assert SECOND_ROW_EVENTS[k] == RETAKE_EVENTS[k];
    } else if k == 13 {
      SecondRowIsRecovered();
    } else if k == 14 {
      SecondRowBegins();
    } else if k == 15 {
      SecondRowIsCommitted();
    } else {
      SecondRowSucceeds();
    }
  }

  /** A loose run: recovery registers the file of the exposure between the look and the first transaction of the retake, which
      then finds no open row and inserts a second one. The sequence succeeds with two committed rows for one ordinal. */
  lemma {:induction false} SuccessWithTwoRows()
    ensures IsLooseRun(SECOND_ROW_STATES, SECOND_ROW_EVENTS)
    ensures !Enabled(SECOND_ROW_STATES[13], SECOND_ROW_EVENTS[13]) && SECOND_ROW_STATES[13].pc == TakeFirst(ID, 1)
    ensures ID in SECOND_ROW_STATES[18].db.sequences && SECOND_ROW_STATES[18].db.sequences[ID].status == Succeeded
    ensures SECOND_ROW_STATES[18].db.sequences[ID].completed > SECOND_ROW_STATES[18].db.sequences[ID].expected
    ensures SECOND_ROW_STATES[18].db.exposures == [Exposure(ID, 1, Committed), Exposure(ID, 1, Committed)]
  {
    forall k | 0 <= k < 18
      ensures LeadsAt(SECOND_ROW_STATES, SECOND_ROW_EVENTS, k)
    {
      SecondRowLeads(k);
    }
    Chain(SECOND_ROW_STATES, SECOND_ROW_EVENTS);
  }
}
