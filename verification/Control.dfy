/** The control plane as a state machine: database transactions of one runner interleaved with user actions, recovery
    and crashes. */
module Control {
  import opened Numeric
  import I = Instrument

  type Id = string

  datatype SequenceStatus = Validated | Queued | Running | Pausing | Paused | Aborting | Aborted | Succeeded | Failed

  datatype ExposureStatus = Pending | Exposing | Reading | Committed | Lost

  datatype Sequence = Sequence(status: SequenceStatus, attempt: nat, repeats: nat, perGroup: nat, expected: nat, completed: nat)

  /** An exposure row; its id is its position in the table, which is also the order of creation. */
  datatype Exposure = Exposure(owner: Id, ordinal: nat, status: ExposureStatus)

  /** The database, and the L0 files in the store: `raws` are the exposures with a registered raw file. */
  datatype Db = Db(instrument: I.InstrumentState, sequences: map<Id, Sequence>, exposures: seq<Exposure>,
                   files: set<nat>, raws: set<nat>)

  /** Where the runner stands: the transaction it executes next. */
  datatype Pc = Idle | Prepare(id: Id) | Check(id: Id, ordinal: nat) | TakeFirst(id: Id, ordinal: nat)
              | TakeSecond(id: Id, ordinal: nat, exposure: nat) | After(id: Id, ordinal: nat) | Final(id: Id) | Failing(id: Id)

  datatype World = World(db: Db, pc: Pc)

  const EMPTY: World := World(Db(I.Offline, map[], [], {}, {}), Idle)

  /** What the device, the store and the database answer during one transaction. */
  datatype Input = Input(preparation: I.Preparation, moveOk: bool, withinTolerance: bool, abortOk: bool, exposeOk: bool,
                         guiderLocked: bool, storageOk: bool, databaseOk: bool)

  datatype Action = Start | Pause | Resume | Abort

  datatype Event = Create(id: Id, repeats: nat, polarimetric: bool)
                 | Act(id: Id, action: Action)
                 | Poll(id: Id)
                 | Work(input: Input)
                 | Crash
                 | RecoverInstrument
                 | RecoverL0(exposure: nat)

  // ----------------------------------------------------------------------- exposure rows

  ghost predicate CommittedAt(exposures: seq<Exposure>, id: Id, ordinal: nat) {
    exists i :: 0 <= i < |exposures| && exposures[i] == Exposure(id, ordinal, Committed)
  }

  predicate IsCommitted(exposures: seq<Exposure>, id: Id, ordinal: nat) { Exposure(id, ordinal, Committed) in exposures }

  /** The newest row of the ordinal that is not committed. */
  function Latest(exposures: seq<Exposure>, id: Id, ordinal: nat): (r: Option<nat>)
    ensures r.Some? ==> r.value < |exposures| && Retakeable(exposures[r.value], id, ordinal)
    ensures r.Some? ==> forall i :: r.value < i < |exposures| ==> !Retakeable(exposures[i], id, ordinal)
    ensures r.None? ==> forall i :: 0 <= i < |exposures| ==> !Retakeable(exposures[i], id, ordinal)
  {
    if exposures == [] then None
    else
      var n := |exposures| - 1;
      if Retakeable(exposures[n], id, ordinal) then Some(n) else Latest(exposures[..n], id, ordinal)
  }

  predicate Retakeable(e: Exposure, id: Id, ordinal: nat) { e.owner == id && e.ordinal == ordinal && e.status != Committed }

  function WithStatus(exposures: seq<Exposure>, e: nat, status: ExposureStatus): seq<Exposure>
    requires e < |exposures|
  {
    exposures[e := exposures[e].(status := status)]
  }

  /** All rows of a failed sequence that were under way are marked as lost. */
  function FailRows(exposures: seq<Exposure>, id: Id): seq<Exposure> {
    seq(|exposures|, i requires 0 <= i < |exposures| => FailRow(exposures[i], id))
  }

  function FailRow(e: Exposure, id: Id): Exposure {
    if e.owner == id && (e.status == Pending || e.status == Exposing || e.status == Reading) then e.(status := Lost) else e
  }

  function CountCommitted(exposures: seq<Exposure>, id: Id): nat {
    if exposures == [] then 0
    else
      var n := |exposures| - 1;
      CountCommitted(exposures[..n], id) + (if exposures[n].owner == id && exposures[n].status == Committed then 1 else 0)
  }

  // ------------------------------------------------------------------ runner transactions

  /** A transaction commits with the instrument states it went through, or raises and is rolled back; L0 files written
      before it raised stay. */
  datatype Outcome = Done(db: Db, pc: Pc, path: seq<I.InstrumentState>) | Raise(files: set<nat>)

  function Stay(db: Db, pc: Pc): Outcome { Done(db, pc, [db.instrument]) }

  function Along(db: Db, track: I.Track, pc: Pc): Outcome
    requires track.Started()
  {
    if track.Raised? then Raise(db.files) else Done(db.(instrument := track.path[|track.path| - 1]), pc, track.path)
  }

  function SetStatus(db: Db, id: Id, status: SequenceStatus): Db
    requires id in db.sequences
  {
    db.(sequences := db.sequences[id := db.sequences[id].(status := status)])
  }

  function MarkPaused(db: Db, id: Id, pc: Pc): Outcome
    requires id in db.sequences
  {
    Along(SetStatus(db, id, Paused), I.MarkPaused(db.instrument), pc)
  }

  function MarkAborted(db: Db, id: Id, pc: Pc): Outcome
    requires id in db.sequences
  {
    Along(SetStatus(db, id, Aborted), I.MarkAborted(db.instrument), pc)
  }

  function NextOrdinal(s: Sequence, id: Id, ordinal: nat): Pc {
    if ordinal < s.expected then Check(id, ordinal + 1) else Final(id)
  }

  function PrepareStep(db: Db, id: Id, input: Input): Outcome
    requires id in db.sequences
  {
    Along(db, I.PrepareInstrument(db.instrument, input.preparation), NextOrdinal(db.sequences[id], id, 0))
  }

  function CheckStep(db: Db, id: Id, ordinal: nat): Outcome
    requires id in db.sequences
  {
    if IsCommitted(db.exposures, id, ordinal) then Stay(db, NextOrdinal(db.sequences[id], id, ordinal))
    else if db.sequences[id].status == Aborting then MarkAborted(db, id, Idle)
    else if db.sequences[id].status == Pausing then MarkPaused(db, id, Idle)
    else Stay(db, TakeFirst(id, ordinal))
  }

  /** Moves the retarders, then reuses the newest uncommitted row of the ordinal or inserts one. */
  function TakeFirstStep(db: Db, id: Id, ordinal: nat, input: Input): Outcome
    requires id in db.sequences
  {
    if db.sequences[id].status == Aborting then MarkAborted(db, id, After(id, ordinal))
    else if db.sequences[id].status == Pausing then MarkPaused(db, id, After(id, ordinal))
    else if !input.moveOk || !input.withinTolerance then Raise(db.files)
    else
      var row := Latest(db.exposures, id, ordinal);
      var e := if row.Some? then row.value else |db.exposures|;
      var exposures := if row.Some? then WithStatus(db.exposures, e, Exposing) else db.exposures + [Exposure(id,
          ordinal, Exposing)];
      Along(db.(exposures := exposures), I.From(db.instrument).Then(I.Exposing), TakeSecond(id, ordinal, e))
  }

  /** Registers the raw file, unless one is registered already: then the row keeps the status it has. */
  function CommitL0(db: Db, e: nat): Db
    requires e < |db.exposures|
  {
    if e in db.raws then db
    else db.(files := db.files + {e}, raws := db.raws + {e}, exposures := WithStatus(db.exposures, e, Committed))
  }

  function TakeSecondStep(db: Db, id: Id, ordinal: nat, e: nat, input: Input): Outcome
    requires id in db.sequences && e < |db.exposures|
  {
    if db.sequences[id].status == Aborting then
      if !input.abortOk then Raise(db.files)
      else MarkAborted(db.(exposures := WithStatus(db.exposures, e, Lost)), id, After(id, ordinal))
    else if !input.exposeOk then Raise(db.files)
    else
      var reading := I.From(db.instrument).Then(I.Reading);
      var read := db.(exposures := WithStatus(db.exposures, e, Reading));
      if reading.Raised? || !input.guiderLocked || (e !in db.raws && !input.storageOk) then Raise(db.files)
      else
        var committed := CommitL0(read, e);
        var s := db.sequences[id];
        var counted := committed.(sequences := db.sequences[id := s.(completed := s.completed + 1)]);
        Along(counted, reading.Then(if s.completed + 1 >= s.expected then I.Standby else I.Ready), After(id, ordinal))
  }

  function AfterStep(db: Db, id: Id, ordinal: nat): Outcome
    requires id in db.sequences
  {
    var status := db.sequences[id].status;
    if status == Aborting then MarkAborted(db, id, Idle)
    else if status == Pausing then MarkPaused(db, id, Idle)
    else if status == Aborted || status == Paused || status == Failed then Stay(db, Idle)
    else Stay(db, NextOrdinal(db.sequences[id], id, ordinal))
  }

  function FinalStep(db: Db, id: Id): Outcome
    requires id in db.sequences
  {
    var status := db.sequences[id].status;
    if status == Aborting then MarkAborted(db, id, Idle)
    else if status == Pausing then MarkPaused(db, id, Idle)
    else if status != Running then Stay(db, Idle)
    else Along(SetStatus(db, id, Succeeded), I.From(db.instrument).Then(I.Standby), Idle)
  }

  function FailStep(db: Db, id: Id): Outcome
    requires id in db.sequences
  {
    Along(SetStatus(db, id, Failed).(exposures := FailRows(db.exposures, id)), I.FailSafe(db.instrument), Idle)
  }

  ghost predicate Located(w: World) {
    && (!w.pc.Idle? ==> w.pc.id in w.db.sequences)
    && (w.pc.TakeSecond? ==> w.pc.exposure < |w.db.exposures|)
  }

  /** The next transaction of the runner. */
  function Transaction(w: World, input: Input): Outcome
    requires Located(w)
  {
    match w.pc
    case Idle => Stay(w.db, Idle)
    case Prepare(id) => PrepareStep(w.db, id, input)
    case Check(id, ordinal) => CheckStep(w.db, id, ordinal)
    case TakeFirst(id, ordinal) => TakeFirstStep(w.db, id, ordinal, input)
    case TakeSecond(id, ordinal, e) => TakeSecondStep(w.db, id, ordinal, e, input)
    case After(id, ordinal) => AfterStep(w.db, id, ordinal)
    case Final(id) => FinalStep(w.db, id)
    case Failing(id) => FailStep(w.db, id)
  }

  /** The commit itself may fail: then everything but the files is rolled back. */
  function Commit(o: Outcome, databaseOk: bool): Outcome { if o.Done? && !databaseOk then Raise(o.db.files) else o }

  /** An exception is handled by failing the sequence; one raised while failing it ends the pass. */
  function Worked(w: World, input: Input): World
    requires Located(w)
  {
    match Commit(Transaction(w, input), input.databaseOk)
    case Done(db, pc, _) => World(db, pc)
    case Raise(files) =>
      World(w.db.(files := files), if w.pc.Idle? || w.pc.Failing? then Idle else Failing(w.pc.id))
  }

  // ---------------------------------------------------------------------- other events

  predicate Permits(db: Db, s: Sequence, action: Action) {
    match action
    case Start => s.status == Validated
    case Pause => s.status == Queued || s.status == Running
    case Resume => s.status == Paused || (s.status == Failed && db.instrument != I.SafeFault)
    case Abort => s.status == Queued || s.status == Running || s.status == Pausing || s.status == Paused
  }

  /** A user action: refused when the status does not permit it. */
  function Acted(s: Sequence, action: Action): Sequence {
    match action
    case Start => s.(status := Queued)
    case Pause => s.(status := Pausing)
    case Resume => s.(status := Queued, attempt := if s.status == Failed then s.attempt + 1 else s.attempt)
    case Abort => s.(status := if s.status == Paused then Aborted else Aborting)
  }

  /** Registration of an L0 file that no transaction registered. */
  function Recovered(db: Db, e: nat): Db
    requires e < |db.exposures| && db.exposures[e].owner in db.sequences
  {
    var row := db.exposures[e];
    var s := db.sequences[row.owner];
    var counted := if s.completed + 1 < s.expected then s.completed + 1 else s.expected;
    db.(raws := db.raws + {e},
        exposures := WithStatus(db.exposures, e, Committed),
        sequences := if row.status == Committed then db.sequences else db.sequences[row.owner := s.(completed := counted)])
  }

  predicate Recoverable(db: Db, e: nat) {
    e in db.files && e !in db.raws && e < |db.exposures| && db.exposures[e].owner in db.sequences
  }

  function Next(w: World, event: Event): World
    requires Located(w)
  {
    match event
    case Create(id, repeats, polarimetric) =>
      if id in w.db.sequences || repeats < 1 then w
      else
        var perGroup := if polarimetric then 4 else 1;
        w.(db := w.db.(sequences := w.db.sequences[id := Sequence(Validated, 0, repeats, perGroup, repeats * perGroup, 0)]))
    case Act(id, action) =>
      if id in w.db.sequences && Permits(w.db, w.db.sequences[id], action)
      then w.(db := w.db.(sequences := w.db.sequences[id := Acted(w.db.sequences[id], action)]))
      else w
    case Poll(id) =>
      if w.pc.Idle? && id in w.db.sequences && w.db.sequences[id].status == Queued
      then World(SetStatus(w.db, id, Running), Prepare(id))
      else w
    case Work(input) => Worked(w, input)
    case Crash => w.(pc := Idle)
    case RecoverInstrument =>
      if w.db.instrument == I.SafeFault then w.(db := w.db.(instrument := I.Offline)) else w
    case RecoverL0(e) =>
      if Recoverable(w.db, e) then w.(db := Recovered(w.db, e)) else w
  }

  /** A retake of the exposure is under way: it was found uncommitted and is not committed yet. */
  predicate Retaking(w: World, e: nat)
    requires e < |w.db.exposures|
  {
    || (w.pc.TakeFirst? && w.pc.id == w.db.exposures[e].owner && w.pc.ordinal == w.db.exposures[e].ordinal)
    || (w.pc.TakeSecond? && w.pc.exposure == e)
  }

  /** Recovery does not register the file of an exposure that is being retaken. */
  predicate Enabled(w: World, event: Event) {
    event.RecoverL0? && Recoverable(w.db, event.exposure) ==> !Retaking(w, event.exposure)
  }

  /** States visited by the instrument during one event. */
  function InstrumentPath(w: World, event: Event): seq<I.InstrumentState>
    requires Located(w)
  {
    match event
    case Work(input) =>
      var o := Commit(Transaction(w, input), input.databaseOk);
      if o.Done? then o.path else [w.db.instrument]
    case RecoverInstrument => if w.db.instrument == I.SafeFault then [I.SafeFault, I.Offline] else [w.db.instrument]
    case _ => [w.db.instrument]
  }
}
