/** Every event of the control plane keeps the invariant. */
module ControlEvents {
  import I = Instrument
  import opened Control
  import opened ControlSafety

  // ----------------------------------------------------------------------- one event

  lemma {:induction false} WorkKeeps(w: World, input: Input)
    requires Inv(w)
    ensures Inv(Worked(w, input)) && RowsKept(w.db.exposures, Worked(w, input).db.exposures)
  {
    TransactionKeeps(w, input);
    match Commit(Transaction(w, input), input.databaseOk) {
      case Done(_, _, _) =>
      case Raise(files) =>
    }
  }

  lemma {:induction false} NoRowsYet(db: Db, id: Id)
    requires RowsFit(db) && id !in db.sequences
    ensures CountCommitted(db.exposures, id) == 0
  {
    NoneCounted(db, db.exposures, id);
  }

  lemma {:induction false} NoneCounted(db: Db, exposures: seq<Exposure>, id: Id)
    requires id !in db.sequences && forall i :: 0 <= i < |exposures| ==> RowFits(db, exposures[i])
    ensures CountCommitted(exposures, id) == 0
  {
    if exposures != [] {
      NoneCounted(db, exposures[..|exposures| - 1], id);
      assert RowFits(db, exposures[|exposures| - 1]);
    }
  }

  lemma {:induction false} CreateKeeps(w: World, id: Id, s: Sequence)
    requires Inv(w) && id !in w.db.sequences && s.status == Validated && s.completed == 0
    ensures Inv(w.(db := w.db.(sequences := w.db.sequences[id := s])))
  {
    var after := w.db.(sequences := w.db.sequences[id := s]);
    NoRowsYet(w.db, id);
    forall i | 0 <= i < |after.exposures|
      ensures RowFits(after, after.exposures[i])
    {
      assert RowFits(w.db, after.exposures[i]);
    }
    forall k | k in after.sequences
      ensures CountFits(after, k) && FinishFits(after, k)
    {
      assert k != id ==> k in w.db.sequences && CountFits(w.db, k) && FinishFits(w.db, k);
    }
  }

  /** Changes outside the runner keep what is known at its position, as long as none of them starts a sequence running
      or loses a committed row, and the row being retaken is left alone. */
  lemma {:induction false} PcStays(db: Db, after: Db, pc: Pc)
    requires PcFits(db, pc) && RowsKept(db.exposures, after.exposures)
    requires !pc.Idle? ==> pc.id in after.sequences && after.sequences[pc.id].status != Succeeded
    requires !pc.Idle? ==> after.sequences[pc.id].expected == db.sequences[pc.id].expected
    requires !pc.Idle? ==> after.sequences[pc.id].status == Running ==> db.sequences[pc.id].status == Running
    requires pc.TakeFirst? ==> !CommittedAt(after.exposures, pc.id, pc.ordinal)
    requires pc.TakeSecond? ==> after.exposures[pc.exposure] == db.exposures[pc.exposure]
    ensures PcFits(after, pc)
  {
    match pc {
      case Idle =>
      case Prepare(_) =>
      case Check(id, o) => ReachedStays(db, after, id, o - 1);
      case TakeFirst(id, o) => ReachedStays(db, after, id, o - 1);
      case TakeSecond(id, o, e) => ReachedStays(db, after, id, o - 1);
      case After(id, o) => ReachedStays(db, after, id, o);
      case Final(id) => ReachedStays(db, after, id, db.sequences[id].expected);
      case Failing(_) =>
    }
  }

  lemma {:induction false} PollKeeps(w: World, id: Id)
    requires Inv(w) && w.pc.Idle? && id in w.db.sequences && w.db.sequences[id].status == Queued
    ensures Inv(World(SetStatus(w.db, id, Running), Prepare(id)))
  {}

  /** A recovered row was not committed, so the counter is below its limit and counts it. */
  lemma {:induction false} RecoveryCounts(db: Db, e: nat)
    requires Good(db) && Recoverable(db, e)
    ensures db.exposures[e].status != Committed
    ensures db.sequences[db.exposures[e].owner].completed < db.sequences[db.exposures[e].owner].expected
  {
    var row := db.exposures[e];
    CounterMeaning(db, row.owner);
    assert RowFits(db, row);
    if AllCommitted(db.exposures, row.owner, db.sequences[row.owner].expected) {
      assert CommittedAt(db.exposures, row.owner, row.ordinal);
      var i :| 0 <= i < |db.exposures| && db.exposures[i] == Exposure(row.owner, row.ordinal, Committed);
      assert i != e;
      assert SameOrdinal(db.exposures[i], db.exposures[e]);
    }
  }

  lemma {:induction false} RecoverKeeps(w: World, e: nat)
    requires Inv(w) && Recoverable(w.db, e) && !Retaking(w, e)
    ensures Inv(w.(db := Recovered(w.db, e))) && RowsKept(w.db.exposures, Recovered(w.db, e).exposures)
  {
    RecoveryCounts(w.db, e);
    CommitKeeps(w.db, e, w.db.files);
    var after := Recovered(w.db, e);
    PcStays(w.db, after, w.pc);
  }

  /** A user action changes the status of one sequence, never to running or succeeded. */
  lemma {:induction false} StatusKeeps(db: Db, id: Id, s: Sequence)
    requires Good(db) && id in db.sequences && s.status != Succeeded
    requires s.completed == db.sequences[id].completed && s.expected == db.sequences[id].expected
    ensures Good(db.(sequences := db.sequences[id := s]))
  {
    var after := db.(sequences := db.sequences[id := s]);
    forall i | 0 <= i < |after.exposures|
      ensures RowFits(after, after.exposures[i])
    {
      assert RowFits(db, db.exposures[i]);
    }
    forall k | k in after.sequences
      ensures CountFits(after, k) && FinishFits(after, k)
    {
      assert CountFits(db, k) && FinishFits(db, k);
    }
  }

  lemma {:induction false} ActKeeps(w: World, id: Id, action: Action)
    requires Inv(w)
    ensures Inv(Next(w, Act(id, action)))
  {
    if id in w.db.sequences && Permits(w.db, w.db.sequences[id], action) {
      var s := Acted(w.db.sequences[id], action);
      var after := w.db.(sequences := w.db.sequences[id := s]);
      StatusKeeps(w.db, id, s);
      PcStays(w.db, after, w.pc);
    }
  }

  lemma {:induction false} CreatedKeeps(w: World, id: Id, repeats: nat, polarimetric: bool)
    requires Inv(w)
    ensures Inv(Next(w, Create(id, repeats, polarimetric)))
  {
    if id !in w.db.sequences && repeats >= 1 {
      var perGroup := if polarimetric then 4 else 1;
      CreateKeeps(w, id, Sequence(Validated, 0, repeats, perGroup, repeats * perGroup, 0));
    }
  }

  lemma {:induction false} RecoverInstrumentKeeps(w: World)
    requires Inv(w)
    ensures Inv(Next(w, RecoverInstrument))
  {
    if w.db.instrument == I.SafeFault {
      InstrumentKeeps(w.db, I.Offline);
      PcStays(w.db, w.db.(instrument := I.Offline), w.pc);
    }
  }

  lemma {:induction false} ForeignKeeps(w: World, event: Event)
    requires Inv(w) && !event.Work? && !event.RecoverL0?
    ensures Inv(Next(w, event)) && Next(w, event).db.exposures == w.db.exposures
  {
    match event {
      case Create(id, repeats, polarimetric) => CreatedKeeps(w, id, repeats, polarimetric);
      case Act(id, action) => ActKeeps(w, id, action);
      case Poll(id) =>
        if w.pc.Idle? && id in w.db.sequences && w.db.sequences[id].status == Queued {
          PollKeeps(w, id);
        }
      case Crash =>
      case RecoverInstrument => RecoverInstrumentKeeps(w);
    }
  }

  /** Every event keeps the invariant, and every committed row stays committed. */
  lemma {:induction false} EventKeeps(w: World, event: Event)
    requires Inv(w) && Enabled(w, event)
    ensures Inv(Next(w, event)) && RowsKept(w.db.exposures, Next(w, event).db.exposures)
  {
    if event.Work? {
      WorkKeeps(w, event.input);
    } else if event.RecoverL0? {
      if Recoverable(w.db, event.exposure) {
        RecoverKeeps(w, event.exposure);
      }
    } else {
      ForeignKeeps(w, event);
    }
  }

  /** An event breaks the invariant exactly when it registers the file of an exposure that is being retaken. */
  lemma {:induction false} EventKeepsIff(w: World, event: Event)
    requires Inv(w)
    ensures Inv(Next(w, event)) <==> Enabled(w, event)
  {
    if Enabled(w, event) {
      EventKeeps(w, event);
    } else {
      var row := w.db.exposures[event.exposure];
      assert Next(w, event).db.exposures[event.exposure] == Exposure(row.owner, row.ordinal, Committed);
      if w.pc.TakeFirst? {
        assert CommittedAt(Next(w, event).db.exposures, w.pc.id, w.pc.ordinal);
      }
    }
  }
}
