/** The instrument state over every event of the control plane. */
module InstrumentSafety {
  import I = Instrument
  import opened Control

  lemma {:induction false} SingletonIsLegal(s: I.InstrumentState)
    ensures I.Legal([s])
  {}

  /** From any state of the world: every change of the instrument state is an allowed edge or an edge into SAFE_FAULT,
      EXPOSING is entered only from READY, and only the recovery of the instrument leaves SAFE_FAULT, to OFFLINE. */
  lemma {:induction false} InstrumentIsSafe(w: World, event: Event)
    requires Located(w)
    ensures InstrumentPath(w, event) != [] && InstrumentPath(w, event)[0] == w.db.instrument
    ensures InstrumentPath(w, event)[|InstrumentPath(w, event)| - 1] == Next(w, event).db.instrument
    ensures !event.RecoverInstrument? ==> I.Legal(InstrumentPath(w, event))
    ensures event.RecoverInstrument? && w.db.instrument == I.SafeFault ==> Next(w, event).db.instrument == I.Offline
  {
    match event {
      case Work(input) =>
        TransactionIsSafe(w, input);
        SingletonIsLegal(w.db.instrument);
      case _ => SingletonIsLegal(w.db.instrument);
    }
  }

  ghost predicate SafeOutcome(db: Db, o: Outcome) {
    o.Done? ==> o.path != [] && o.path[0] == db.instrument && o.path[|o.path| - 1] == o.db.instrument && I.Legal(o.path)
  }

  lemma {:induction false} StopIsSafe(db: Db, id: Id, pc: Pc)
    requires id in db.sequences
    ensures SafeOutcome(db, MarkPaused(db, id, pc)) && SafeOutcome(db, MarkAborted(db, id, pc))
  {
    I.ThenIsLegal(I.From(db.instrument), I.Standby, db.instrument);
    SingletonIsLegal(db.instrument);
  }

  lemma {:induction false} StayIsSafe(db: Db, pc: Pc)
    ensures SafeOutcome(db, Stay(db, pc))
  {
    SingletonIsLegal(db.instrument);
  }

  lemma {:induction false} TakeFirstIsSafe(db: Db, id: Id, ordinal: nat, input: Input)
    requires id in db.sequences
    ensures SafeOutcome(db, TakeFirstStep(db, id, ordinal, input))
  {
    StopIsSafe(db, id, After(id, ordinal));
    I.ThenIsLegal(I.From(db.instrument), I.Exposing, db.instrument);
  }

  lemma {:induction false} TakeSecondIsSafe(db: Db, id: Id, ordinal: nat, e: nat, input: Input)
    requires id in db.sequences && e < |db.exposures|
    ensures SafeOutcome(db, TakeSecondStep(db, id, ordinal, e, input))
  {
    StopIsSafe(db.(exposures := WithStatus(db.exposures, e, Lost)), id, After(id, ordinal));
    var s := db.sequences[id];
    var reading := I.From(db.instrument).Then(I.Reading);
    I.ThenIsLegal(I.From(db.instrument), I.Reading, db.instrument);
    I.ThenIsLegal(reading, if s.completed + 1 >= s.expected then I.Standby else I.Ready, db.instrument);
  }

  lemma {:induction false} TransactionIsSafe(w: World, input: Input)
    requires Located(w)
    ensures SafeOutcome(w.db, Transaction(w, input))
  {
    match w.pc {
      case Idle => StayIsSafe(w.db, Idle);
      case Prepare(id) => I.PreparationIsLegal(w.db.instrument, input.preparation);
      case Check(id, ordinal) =>
        StopIsSafe(w.db, id, Idle);
        SingletonIsLegal(w.db.instrument);
      case TakeFirst(id, ordinal) => TakeFirstIsSafe(w.db, id, ordinal, input);
      case TakeSecond(id, ordinal, e) => TakeSecondIsSafe(w.db, id, ordinal, e, input);
      case After(id, ordinal) =>
        StopIsSafe(w.db, id, Idle);
        SingletonIsLegal(w.db.instrument);
      case Final(id) =>
        StopIsSafe(w.db, id, Idle);
        SingletonIsLegal(w.db.instrument);
        I.ThenIsLegal(I.From(w.db.instrument), I.Standby, w.db.instrument);
      case Failing(id) =>
    }
  }
}
