/** The runner object: nested exposure loops over database transactions, interleaved with the other processes. */
module Runner {
  import I = Instrument
  import opened Control
  import opened ControlSafety
  import opened ControlRuns

  /** Events of other processes that may happen between two transactions of the runner. */
  predicate Foreign(event: Event) { event.Create? || event.Act? || event.RecoverInstrument? || event.RecoverL0? }

  /** The shape of a sequence, fixed when it is created. */
  ghost predicate SameShape(s: Sequence, t: Sequence) {
    s.repeats == t.repeats && s.perGroup == t.perGroup && s.expected == t.expected
  }

  ghost predicate ShapesKept(db: Db, after: Db) {
    forall id :: id in db.sequences ==> id in after.sequences && SameShape(db.sequences[id], after.sequences[id])
  }

  ghost predicate Shaped(db: Db) {
    forall id :: id in db.sequences ==> db.sequences[id].expected == db.sequences[id].repeats * db.sequences[id].perGroup
  }

  ghost predicate OutcomeKeepsShapes(db: Db, o: Outcome) {
    o.Done? ==> ShapesKept(db, o.db) && o.db.sequences.Keys == db.sequences.Keys
  }

  lemma {:induction false} TakesKeepShapes(db: Db, id: Id, ordinal: nat, e: nat, input: Input)
    requires id in db.sequences
    ensures OutcomeKeepsShapes(db, TakeFirstStep(db, id, ordinal, input))
    ensures e < |db.exposures| ==> OutcomeKeepsShapes(db, TakeSecondStep(db, id, ordinal, e, input))
  {}

  lemma {:induction false} StatusKeepsShape(db: Db, id: Id, status: SequenceStatus, track: I.Track, next: Pc)
    requires id in db.sequences && track.Started()
    ensures OutcomeKeepsShapes(db, Along(SetStatus(db, id, status), track, next))
  {}

  lemma {:induction false} StopKeepsShapes(db: Db, id: Id, next: Pc)
    requires id in db.sequences
    ensures OutcomeKeepsShapes(db, MarkPaused(db, id, next)) && OutcomeKeepsShapes(db, MarkAborted(db, id, next))
    ensures OutcomeKeepsShapes(db, Stay(db, next))
  {
    StatusKeepsShape(db, id, Paused, I.MarkPaused(db.instrument), next);
    StatusKeepsShape(db, id, Aborted, I.MarkAborted(db.instrument), next);
  }

  lemma {:induction false} LooksKeepShapes(db: Db, id: Id, ordinal: nat)
    requires id in db.sequences
    ensures OutcomeKeepsShapes(db, CheckStep(db, id, ordinal)) && OutcomeKeepsShapes(db, AfterStep(db, id, ordinal))
  {
    StopKeepsShapes(db, id, Idle);
    StopKeepsShapes(db, id, NextOrdinal(db.sequences[id], id, ordinal));
    StopKeepsShapes(db, id, TakeFirst(id, ordinal));
  }

  lemma {:induction false} EndsKeepShapes(db: Db, id: Id)
    requires id in db.sequences
    ensures OutcomeKeepsShapes(db, FinalStep(db, id)) && OutcomeKeepsShapes(db, FailStep(db, id))
  {
    StopKeepsShapes(db, id, Idle);
  }

  lemma {:induction false} TransactionKeepsShapes(w: World, input: Input)
    requires Located(w)
    ensures OutcomeKeepsShapes(w.db, Transaction(w, input))
  {
    match w.pc {
      case TakeSecond(id, ordinal, e) => TakesKeepShapes(w.db, id, ordinal, e, input);
      case TakeFirst(id, ordinal) => TakesKeepShapes(w.db, id, ordinal, 0, input);
      case Idle =>
      case Prepare(_) =>
      case Check(id, ordinal) => LooksKeepShapes(w.db, id, ordinal);
      case After(id, ordinal) => LooksKeepShapes(w.db, id, ordinal);
      case Final(id) => EndsKeepShapes(w.db, id);
      case Failing(id) => EndsKeepShapes(w.db, id);
    }
  }

  lemma {:induction false} EventKeepsShapes(w: World, event: Event)
    requires Located(w)
    ensures ShapesKept(w.db, Next(w, event).db)
    ensures Shaped(w.db) ==> Shaped(Next(w, event).db)
  {
    if event.Work? {
      TransactionKeepsShapes(w, event.input);
    }
  }

  lemma {:induction false} RunKeepsShapes(states: seq<World>, events: seq<Event>, k: nat, m: nat)
    requires IsRun(states, events) && k <= m < |states|
    ensures ShapesKept(states[k].db, states[m].db) && Shaped(states[m].db)
    decreases m
  {
    if m > 0 {
      assert Follows(states, events, m - 1);
      EventKeepsShapes(states[m - 1], events[m - 1]);
      if k < m {
        RunKeepsShapes(states, events, k, m - 1);
      } else {
        RunKeepsShapes(states, events, m - 1, m - 1);
      }
    }
  }

  lemma {:induction false} ExtendRun(states: seq<World>, events: seq<Event>, event: Event)
    requires IsRun(states, events) && Located(states[|events|]) && Enabled(states[|events|], event)
    ensures IsRun(states + [Next(states[|events|], event)], events + [event])
  {
    var longer, more := states + [Next(states[|events|], event)], events + [event];
    forall k | 0 <= k < |more|
      ensures Follows(longer, more, k)
    {
      if k < |events| {
        assert Follows(states, events, k);
      }
    }
  }

  /** The track succeeds exactly when the code does, and ends where the instrument is. */
  ghost predicate Tracks(t: I.Track, ok: bool, s: I.InstrumentState) {
    && (ok <==> t.Along?)
    && (t.Along? ==> t.path != [] && t.path[|t.path| - 1] == s)
  }

  /** Where the runner stands when the first k ordinals of n are behind it. */
  function Position(n: nat, id: Id, k: nat): Pc { if k < n then Check(id, k + 1) else Final(id) }

  lemma {:induction false} OrdinalInRange(group: int, repeats: int, perGroup: nat)
    requires 1 <= group <= repeats
    ensures 0 <= (group - 1) * perGroup && (group - 1) * perGroup + perGroup == group * perGroup <= repeats * perGroup
  {
    assert repeats * perGroup == group * perGroup + (repeats - group) * perGroup;
  }

  class ControlRunner {
    var db: Db
    var pc: Pc
    /** Answers of devices, store and database, and what other processes do, at each turn. */
    const answers: nat -> Input
    const others: nat -> seq<Event>
    var turn: nat
    ghost var states: seq<World>
    ghost var events: seq<Event>

    constructor (answers: nat -> Input, others: nat -> seq<Event>)
      ensures Valid() && pc == Idle && states == [EMPTY]
    {
      db, pc, turn := EMPTY.db, Idle, 0;
      this.answers, this.others := answers, others;
      states, events := [EMPTY], [];
    }

    /** The recorded history is a run of the control plane that ends in the present state. */
    ghost predicate Valid()
      reads this
    {
      IsRun(states, events) && states[|events|] == World(db, pc)
    }

    /** The present state is what the next transaction of the runner made of the one before. */
    ghost predicate Ran(before: World, input: Input)
      reads this
    {
      Valid() && Located(before) && World(db, pc) == Worked(before, input) && ShapesKept(before.db, db)
    }

    lemma Known()
      requires Valid()
      ensures Inv(World(db, pc)) && Shaped(db)
    {
      RunInvariant(states, events, |events|);
      RunKeepsShapes(states, events, |events|, |events|);
    }

    ghost method Record(event: Event, before: World)
      requires IsRun(states, events) && states[|events|] == before && Enabled(before, event) && Located(before)
      requires World(db, pc) == Next(before, event)
      modifies this`states, this`events
      ensures Valid() && states == old(states) + [World(db, pc)] && events == old(events) + [event]
    {
      ExtendRun(states, events, event);
      states, events := states + [World(db, pc)], events + [event];
    }

    /** Other processes act between two transactions. */
    method Yield()
      requires Valid()
      modifies this
      ensures Valid() && pc == old(pc) && old(states) <= states && ShapesKept(old(db), db)
    {
      var list := others(turn);
      turn := turn + 1;
      for i := 0 to |list|
        invariant Valid() && pc == old(pc) && old(states) <= states && ShapesKept(old(db), db)
      {
        if Foreign(list[i]) && Enabled(World(db, pc), list[i]) {
          Known();
          ghost var before := World(db, pc);
          EventKeepsShapes(before, list[i]);
          db := Next(World(db, pc), list[i]).db;
          Record(list[i], before);
        }
      }
    }

    /** The end of a transaction: it is committed, or rolled back with the files it wrote. */
    method Finish(saved: Db, next: Pc, raised: bool, input: Input, ghost before: World)
      requires Inv(before) && IsRun(states, events) && states[|events|] == before && before.db == saved && !before.pc.Idle?
      requires pc == before.pc
      requires if raised then Transaction(before, input) == Raise(db.files)
               else Transaction(before, input).Done? && Transaction(before, input).db == db && Transaction(before,
                   input).pc == next
      modifies this
      ensures Ran(before, input) && states == old(states) + [World(db, pc)]
    {
      if raised || !input.databaseOk {
        db := saved.(files := db.files);
        pc := if pc.Failing? then Idle else Failing(pc.id);
      } else {
        pc := next;
      }
      Record(Work(input), before);
      EventKeepsShapes(before, Work(input));
    }

    method Transition(target: I.InstrumentState) returns (ok: bool)
      modifies this`db
      ensures ok <==> I.From(old(db).instrument).Then(target).Along?
      ensures db == if ok then old(db).(instrument := target) else old(db)
    {
      if db.instrument == target {
        return true;
      }
      if target !in I.AllowedTransitions(db.instrument) {
        return false;
      }
      db := db.(instrument := target);
      return true;
    }

    /** Parks the instrument where the table allows it and closes the sequence. */
    method Stop(id: Id, status: SequenceStatus) returns (ok: bool)
      requires id in db.sequences && (status == Paused || status == Aborted)
      modifies this`db
      ensures var o := if status == Paused then MarkPaused(old(db), id, Idle) else MarkAborted(old(db), id, Idle);
        && (ok <==> o.Done?)
        && db == if ok then o.db else old(db)
    {
      ok := true;
      if status == Aborted || db.instrument == I.Ready {
        ok := Transition(I.Standby);
      }
      if ok {
        db := SetStatus(db, id, status);
      }
    }

    // ------------------------------------------------------------------ transactions

    /** The answers for the next transaction. */
    method Ask() returns (input: Input)
      modifies this`turn
      ensures input == answers(old(turn))
    {
      input := answers(turn);
      turn := turn + 1;
    }

    /** An uninitialized device falls back to OFFLINE from READY and STANDBY. */
    method Reconcile(p: I.Preparation) returns (ok: bool)
      modifies this`db
      ensures Tracks(I.Reconcile(old(db).instrument, p.initialized), ok, db.instrument)
      ensures db == old(db).(instrument := db.instrument)
    {
      ok := true;
      if !p.initialized && db.instrument != I.Offline {
        if db.instrument == I.Ready {
          ok := Transition(I.Standby);
        }
        if db.instrument == I.Standby {
          ok := Transition(I.Offline);
        } else {
          ok := false;
        }
      }
    }

    method Initialise(p: I.Preparation, ghost t: I.Track) returns (ok: bool)
      requires t.Along? && Tracks(t, true, db.instrument)
      modifies this`db
      ensures Tracks(I.Initialise(t, p), ok, db.instrument)
      ensures db == old(db).(instrument := db.instrument)
    {
      ok := true;
      if db.instrument == I.Offline {
        ok := Transition(I.Initializing);
        if !p.initializeOk {
          return false;
        }
        ok := Transition(I.Standby);
      }
    }

    method Settle(p: I.Preparation, ghost t: I.Track) returns (ok: bool)
      requires t.Along? && Tracks(t, true, db.instrument)
      modifies this`db
      ensures Tracks(I.Settle(t, p), ok, db.instrument)
      ensures db == old(db).(instrument := db.instrument)
    {
      ok := Transition(I.Preparing);
      if !ok || !(p.recent && p.interlockSafe && p.opticsOk) {
        return false;
      }
      ok := Transition(I.Ready);
    }

    /** Prepares the instrument, reconciling it with a device that lost its initialization. */
    method PrepareInstrument(p: I.Preparation) returns (ok: bool)
      modifies this`db
      ensures Tracks(I.PrepareInstrument(old(db).instrument, p), ok, db.instrument)
      ensures db == old(db).(instrument := db.instrument)
    {
      if db.instrument == I.SafeFault {
        return false;
      }
      ghost var start := db.instrument;
      ok := Reconcile(p);
      if ok {
        ok := Initialise(p, I.Reconcile(start, p.initialized));
      }
      if ok {
        ok := Settle(p, I.Initialise(I.Reconcile(start, p.initialized), p));
      }
    }

    method PrepareTransaction(id: Id)
      requires Valid() && pc == Prepare(id)
      modifies this
      ensures Ran(old(World(db, pc)), answers(old(turn))) && states == old(states) + [World(db, pc)]
    {
      Known();
      ghost var before := World(db, pc);
      var saved, next := db, NextOrdinal(db.sequences[id], id, 0);
      var input := Ask();
      var ok := PrepareInstrument(input.preparation);
      Finish(saved, next, !ok, input, before);
    }

    method CheckTransaction(id: Id, ordinal: nat)
      requires Valid() && pc == Check(id, ordinal)
      modifies this
      ensures Ran(old(World(db, pc)), answers(old(turn))) && states == old(states) + [World(db, pc)]
    {
      Known();
      ghost var before := World(db, pc);
      var saved := db;
      var input := Ask();
      var ok, next := true, TakeFirst(id, ordinal);
      if IsCommitted(db.exposures, id, ordinal) {
        next := NextOrdinal(db.sequences[id], id, ordinal);
      } else if db.sequences[id].status == Aborting {
        next := Idle;
        ok := Stop(id, Aborted);
      } else if db.sequences[id].status == Pausing {
        next := Idle;
        ok := Stop(id, Paused);
      }
      Finish(saved, next, !ok, input, before);
    }

    /** The database, and what the transaction asks for next, are those of the outcome. */
    ghost predicate Matches(o: Outcome, ok: bool, next: Pc)
      reads this`db
    {
      if ok then o.Done? && o.db == db && o.pc == next else o == Raise(db.files)
    }

    /** Moves the retarders and finds or inserts the row of the exposure. */
    method BeginExposure(id: Id, ordinal: nat, input: Input) returns (ok: bool, next: Pc)
      requires id in db.sequences && db.sequences[id].status != Aborting && db.sequences[id].status != Pausing
      modifies this`db
      ensures Matches(TakeFirstStep(old(db), id, ordinal, input), ok, next)
    {
      next := Idle;
      if !input.moveOk {
        return false, next;
      }
      ghost var exposures := db.exposures;
      var row := Latest(db.exposures, id, ordinal);
      var e := if row.Some? then row.value else |db.exposures|;
      if row.None? {
        db := db.(exposures := db.exposures + [Exposure(id, ordinal, Pending)]);
      } else {
        db := db.(exposures := WithStatus(db.exposures, e, Pending));
      }
      if !input.withinTolerance {
        return false, next;
      }
      ok := Transition(I.Exposing);
      db := db.(exposures := WithStatus(db.exposures, e, Exposing));
      assert row.None? ==> db.exposures == exposures + [Exposure(id, ordinal, Exposing)];
      assert row.Some? ==> db.exposures == WithStatus(exposures, e, Exposing);
      next := TakeSecond(id, ordinal, e);
    }

    method TakeFirstTransaction(id: Id, ordinal: nat)
      requires Valid() && pc == TakeFirst(id, ordinal)
      modifies this
      ensures Ran(old(World(db, pc)), answers(old(turn))) && states == old(states) + [World(db, pc)]
    {
      Known();
      ghost var before := World(db, pc);
      var saved := db;
      var input := Ask();
      var ok, next := true, After(id, ordinal);
      if db.sequences[id].status == Aborting {
        ok := Stop(id, Aborted);
      } else if db.sequences[id].status == Pausing {
        ok := Stop(id, Paused);
      } else {
        ok, next := BeginExposure(id, ordinal, input);
      }
      Finish(saved, next, !ok, input, before);
    }

    /** Closes the exposure of a sequence that is being aborted. */
    method AbortExposure(id: Id, ordinal: nat, e: nat, input: Input) returns (ok: bool)
      requires id in db.sequences && e < |db.exposures| && db.sequences[id].status == Aborting
      modifies this`db
      ensures Matches(TakeSecondStep(old(db), id, ordinal, e, input), ok, After(id, ordinal))
    {
      ok := input.abortOk;
      if ok {
        db := db.(exposures := WithStatus(db.exposures, e, Lost));
        ok := Stop(id, Aborted);
      }
    }

    /** Commits the L0 file of the exposure that was read, and counts it. */
    method CommitAndCount(id: Id, e: nat) returns (ok: bool)
      requires id in db.sequences && e < |db.exposures|
      modifies this`db
      ensures var s, committed := old(db).sequences[id], CommitL0(old(db), e);
        var counted := committed.(sequences := committed.sequences[id := s.(completed := s.completed + 1)]);
        var target := if s.completed + 1 >= s.expected then I.Standby else I.Ready;
        && (ok <==> I.From(old(db).instrument).Then(target).Along?)
        && db == if ok then counted.(instrument := target) else counted
    {
      db := CommitL0(db, e);
      var s := db.sequences[id];
      db := db.(sequences := db.sequences[id := s.(completed := s.completed + 1)]);
      var target := if db.sequences[id].completed >= s.expected then I.Standby else I.Ready;
      ok := Transition(target);
    }

    /** Exposes, reads, commits the L0 file and counts. */
    method ExposeAndCommit(id: Id, ordinal: nat, e: nat, input: Input) returns (ok: bool)
      requires id in db.sequences && e < |db.exposures| && db.sequences[id].status != Aborting
      modifies this`db
      ensures ok ==> Matches(TakeSecondStep(old(db), id, ordinal, e, input), ok, After(id, ordinal))
      ensures !ok ==> TakeSecondStep(old(db), id, ordinal, e, input) == Raise(db.files)
    {
      if !input.exposeOk {
        return false;
      }
      db := db.(exposures := WithStatus(db.exposures, e, Reading));
      ok := Transition(I.Reading);
      if !ok || !input.guiderLocked || (e !in db.raws && !input.storageOk) {
        return false;
      }
      ok := CommitAndCount(id, e);
    }

    method TakeSecondTransaction(id: Id, ordinal: nat, e: nat)
      requires Valid() && pc == TakeSecond(id, ordinal, e)
      modifies this
      ensures Ran(old(World(db, pc)), answers(old(turn))) && states == old(states) + [World(db, pc)]
    {
      Known();
      ghost var before := World(db, pc);
      var saved := db;
      var input := Ask();
      var ok;
      if db.sequences[id].status == Aborting {
        ok := AbortExposure(id, ordinal, e, input);
      } else {
        ok := ExposeAndCommit(id, ordinal, e, input);
      }
      Finish(saved, After(id, ordinal), !ok, input, before);
    }

    method AfterTransaction(id: Id, ordinal: nat)
      requires Valid() && pc == After(id, ordinal)
      modifies this
      ensures Ran(old(World(db, pc)), answers(old(turn))) && states == old(states) + [World(db, pc)]
    {
      Known();
      ghost var before := World(db, pc);
      var saved := db;
      var input := Ask();
      var ok, next := true, NextOrdinal(db.sequences[id], id, ordinal);
      var status := db.sequences[id].status;
      if status == Aborting {
        next := Idle;
        ok := Stop(id, Aborted);
      } else if status == Pausing {
        next := Idle;
        ok := Stop(id, Paused);
      } else if status == Aborted || status == Paused || status == Failed {
        next := Idle;
      }
      Finish(saved, next, !ok, input, before);
    }

    method FinalTransaction(id: Id)
      requires Valid() && pc == Final(id)
      modifies this
      ensures Ran(old(World(db, pc)), answers(old(turn))) && states == old(states) + [World(db, pc)]
    {
      Known();
      ghost var before := World(db, pc);
      var saved := db;
      var input := Ask();
      var ok := true;
      var status := db.sequences[id].status;
      if status == Aborting {
        ok := Stop(id, Aborted);
      } else if status == Pausing {
        ok := Stop(id, Paused);
      } else if status == Running {
        db := SetStatus(db, id, Succeeded);
        ok := Transition(I.Standby);
      }
      Finish(saved, Idle, !ok, input, before);
    }

    /** Marks the sequence and its unfinished rows, and latches SAFE_FAULT. */
    method FailTransaction(id: Id)
      requires Valid() && pc == Failing(id)
      modifies this
      ensures Ran(old(World(db, pc)), answers(old(turn))) && states == old(states) + [World(db, pc)]
    {
      Known();
      ghost var before := World(db, pc);
      var saved := db;
      var input := Ask();
      db := SetStatus(db, id, Failed);
      db := db.(exposures := FailRows(db.exposures, id));
      if db.instrument != I.SafeFault {
        db := db.(instrument := I.SafeFault);
      }
      Finish(saved, Idle, false, input, before);
    }

    // ---------------------------------------------------------------------- whole passes

    /** What stays as it is while the runner and other processes go on. */
    twostate predicate Continues(id: Id)
      reads this
    {
      && Valid() && old(states) <= states
      && id in old(db).sequences && id in db.sequences && SameShape(old(db).sequences[id], db.sequences[id])
    }

    method CheckNext(id: Id, ordinal: nat, ghost n: nat)
      requires Valid() && pc == Check(id, ordinal) && id in db.sequences && db.sequences[id].expected == n
      modifies this
      ensures Continues(id)
      ensures pc == Idle || pc == Failing(id) || pc == TakeFirst(id, ordinal) || pc == Position(n, id, ordinal)
    {
      Yield();
      Known();
      CheckTransaction(id, ordinal);
    }

    method Begin(id: Id, ordinal: nat)
      requires Valid() && pc == TakeFirst(id, ordinal) && id in db.sequences
      modifies this
      ensures Continues(id)
      ensures pc == After(id, ordinal) || pc == Failing(id) || (pc.TakeSecond? && pc == TakeSecond(id, ordinal, pc.exposure))
    {
      Yield();
      Known();
      TakeFirstTransaction(id, ordinal);
    }

    method Complete(id: Id, ordinal: nat, e: nat)
      requires Valid() && pc == TakeSecond(id, ordinal, e) && id in db.sequences
      modifies this
      ensures Continues(id) && (pc == After(id, ordinal) || pc == Failing(id))
    {
      Yield();
      Known();
      TakeSecondTransaction(id, ordinal, e);
    }

    /** The two transactions of one exposure. */
    method TakeExposure(id: Id, ordinal: nat)
      requires Valid() && pc == TakeFirst(id, ordinal) && id in db.sequences
      modifies this
      ensures Continues(id) && (pc == After(id, ordinal) || pc == Failing(id))
    {
      Begin(id, ordinal);
      if pc.TakeSecond? {
        Complete(id, ordinal, pc.exposure);
      }
    }

    method LookAgain(id: Id, ordinal: nat, ghost n: nat)
      requires Valid() && pc == After(id, ordinal) && id in db.sequences && db.sequences[id].expected == n
      modifies this
      ensures Continues(id)
      ensures pc == Idle || pc == Failing(id) || pc == Position(n, id, ordinal)
    {
      Yield();
      Known();
      AfterTransaction(id, ordinal);
    }

    /** One ordinal: skipped when it is committed, otherwise exposed unless the sequence is to stop. */
    method RunOrdinal(id: Id, ordinal: nat, ghost n: nat) returns (stop: bool)
      requires Valid() && pc == Check(id, ordinal) && id in db.sequences && db.sequences[id].expected == n
      modifies this
      ensures Continues(id)
      ensures if stop then pc == Idle || pc == Failing(id) else pc == Position(n, id, ordinal)
    {
      CheckNext(id, ordinal, n);
      if pc.TakeFirst? {
        TakeExposure(id, ordinal);
        if pc.Failing? {
          return true;
        }
        LookAgain(id, ordinal, n);
      }
      stop := pc.Idle? || pc.Failing?;
    }

    /** The sub-exposures of one group, which follow the first `base` ordinals. */
    method RunGroup(id: Id, base: nat, perGroup: nat, ghost n: nat) returns (stop: bool)
      requires Valid() && pc == Position(n, id, base) && id in db.sequences && db.sequences[id].expected == n
      requires base + perGroup <= n
      modifies this
      ensures Continues(id)
      ensures if stop then pc == Idle || pc == Failing(id) else pc == Position(n, id, base + perGroup)
    {
      var sub := 1;
      while sub <= perGroup
        invariant 1 <= sub <= perGroup + 1 && Continues(id)
        invariant pc == Position(n, id, base + sub - 1)
      {
        stop := RunOrdinal(id, base + sub, n);
        if stop {
          return;
        }
        sub := sub + 1;
      }
      stop := false;
    }

    method PrepareNext(id: Id)
      requires Valid() && pc == Prepare(id) && id in db.sequences
      modifies this
      ensures Continues(id)
      ensures pc == Failing(id) || pc == Position(db.sequences[id].expected, id, 0)
    {
      Yield();
      Known();
      PrepareTransaction(id);
    }

    method FinishNext(id: Id)
      requires Valid() && pc == Final(id) && id in db.sequences
      modifies this
      ensures Continues(id) && (pc == Idle || pc == Failing(id))
    {
      Yield();
      Known();
      FinalTransaction(id);
    }

    /** All groups and their sub-exposures, in order. Every state it passes through is one of the state machine's. */
    method RunSequence(id: Id)
      requires Valid() && pc == Prepare(id) && id in db.sequences
      modifies this
      ensures Continues(id) && (pc == Idle || pc == Failing(id))
    {
      PrepareNext(id);
      if pc.Failing? {
        return;
      }
      Known();
      var repeats, perGroup := db.sequences[id].repeats, db.sequences[id].perGroup;
      ghost var n := db.sequences[id].expected;
      assert n == repeats * perGroup;
      var group := 1;
      while group <= repeats
        invariant 1 <= group <= repeats + 1 && Continues(id) && db.sequences[id].expected == n
        invariant pc == Position(n, id, (group - 1) * perGroup)
      {
        OrdinalInRange(group, repeats, perGroup);
        var stop := RunGroup(id, (group - 1) * perGroup, perGroup, n);
        if stop {
          return;
        }
        group := group + 1;
      }
      FinishNext(id);
    }

    /** Takes one queued sequence through a whole pass; an exception fails it. */
    method RunOnce(id: Id) returns (handled: bool)
      requires Valid() && pc == Idle
      modifies this
      ensures Valid() && old(states) <= states && pc == Idle
      ensures handled <==> id in old(db).sequences && old(db).sequences[id].status == Queued
    {
      handled := id in db.sequences && db.sequences[id].status == Queued;
      if handled {
        Known();
        ghost var before := World(db, pc);
        db, pc := SetStatus(db, id, Running), Prepare(id);
        Record(Poll(id), before);
        RunSequence(id);
        if pc.Failing? {
          Yield();
          FailTransaction(id);
        }
      }
    }
  }
}
