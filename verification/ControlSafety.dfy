/** Safety of the control plane over every run. */
module ControlSafety {
  import I = Instrument
  import opened Control

  // ------------------------------------------------------------------------- invariant

  ghost predicate AllCommitted(exposures: seq<Exposure>, id: Id, n: int) {
    forall o: nat :: 1 <= o <= n ==> CommittedAt(exposures, id, o)
  }

  ghost predicate RowsFit(db: Db) {
    forall i :: 0 <= i < |db.exposures| ==> RowFits(db, db.exposures[i])
  }

  ghost predicate RowFits(db: Db, e: Exposure) {
    e.owner in db.sequences && 1 <= e.ordinal <= db.sequences[e.owner].expected
  }

  /** At most one row for every ordinal of a sequence. */
  ghost predicate Unique(exposures: seq<Exposure>) {
    forall i, j :: 0 <= i < j < |exposures| ==> !SameOrdinal(exposures[i], exposures[j])
  }

  ghost predicate SameOrdinal(a: Exposure, b: Exposure) { a.owner == b.owner && a.ordinal == b.ordinal }

  /** A row is committed exactly when its raw file is registered. */
  ghost predicate Registered(exposures: seq<Exposure>, raws: set<nat>) {
    && (forall i :: 0 <= i < |exposures| ==> (exposures[i].status == Committed <==> i in raws))
    && (forall r :: r in raws ==> r < |exposures|)
  }

  ghost predicate Counted(db: Db) {
    forall id :: id in db.sequences ==> CountFits(db, id)
  }

  ghost predicate CountFits(db: Db, id: Id)
    requires id in db.sequences
  {
    db.sequences[id].completed == CountCommitted(db.exposures, id)
  }

  ghost predicate Finished(db: Db) {
    forall id :: id in db.sequences ==> FinishFits(db, id)
  }

  ghost predicate FinishFits(db: Db, id: Id)
    requires id in db.sequences
  {
    db.sequences[id].status == Succeeded ==> AllCommitted(db.exposures, id, db.sequences[id].expected)
  }

  ghost predicate Good(db: Db) {
    RowsFit(db) && Unique(db.exposures) && Registered(db.exposures, db.raws) && Counted(db) && Finished(db)
  }

  ghost predicate Reached(db: Db, id: Id, n: int)
    requires id in db.sequences
  {
    db.sequences[id].status == Running ==> AllCommitted(db.exposures, id, n)
  }

  ghost predicate OrdinalFits(db: Db, id: Id, ordinal: nat)
    requires id in db.sequences
  {
    1 <= ordinal <= db.sequences[id].expected
  }

  /** What is known at each point of the runner: while the sequence still runs, all earlier ordinals are committed. */
  ghost predicate PcFits(db: Db, pc: Pc) {
    pc.Idle? || (
      && pc.id in db.sequences && db.sequences[pc.id].status != Succeeded
      && match pc
         case Idle => true
         case Prepare(_) => true
         case Check(id, o) => OrdinalFits(db, id, o) && Reached(db, id, o - 1)
         case TakeFirst(id, o) => OrdinalFits(db, id, o) && Reached(db, id, o - 1) && !CommittedAt(db.exposures, id, o)
         case TakeSecond(id, o, e) =>
           && OrdinalFits(db, id, o) && Reached(db, id, o - 1)
           && e < |db.exposures| && Retakeable(db.exposures[e], id, o)
         case After(id, o) => OrdinalFits(db, id, o) && Reached(db, id, o)
         case Final(id) => Reached(db, id, db.sequences[id].expected)
         case Failing(_) => true)
  }

  ghost predicate Inv(w: World) { Good(w.db) && PcFits(w.db, w.pc) && Located(w) }

  // --------------------------------------------------------------------------- counting

  function Flag(e: Exposure, id: Id): int { if e.owner == id && e.status == Committed then 1 else 0 }

  lemma {:induction false} CountUpdate(x: seq<Exposure>, y: seq<Exposure>, id: Id, e: int)
    requires |x| == |y| && 0 <= e < |x|
    requires forall i :: 0 <= i < |x| && i != e ==> Flag(x[i], id) == Flag(y[i], id)
    ensures CountCommitted(y, id) == CountCommitted(x, id) - Flag(x[e], id) + Flag(y[e], id)
  {
    var n := |x| - 1;
    if e < n {
      CountUpdate(x[..n], y[..n], id, e);
    } else {
      CountSame(x[..n], y[..n], id);
    }
  }

  lemma {:induction false} CountSame(x: seq<Exposure>, y: seq<Exposure>, id: Id)
    requires |x| == |y| && forall i :: 0 <= i < |x| ==> Flag(x[i], id) == Flag(y[i], id)
    ensures CountCommitted(y, id) == CountCommitted(x, id)
  {
    if x != [] {
      CountSame(x[..|x| - 1], y[..|x| - 1], id);
    }
  }

  /** The committed ordinals of a sequence. */
  ghost function Ordinals(exposures: seq<Exposure>, id: Id): set<nat> {
    set i | 0 <= i < |exposures| && exposures[i].owner == id && exposures[i].status == Committed :: exposures[i].ordinal
  }

  lemma {:induction false} CountIsCardinality(exposures: seq<Exposure>, id: Id)
    requires Unique(exposures)
    ensures CountCommitted(exposures, id) == |Ordinals(exposures, id)|
  {
    if exposures != [] {
      var n := |exposures| - 1;
      CountIsCardinality(exposures[..n], id);
      OrdinalsStep(exposures[..n], exposures[n], id);
      assert exposures == exposures[..n] + [exposures[n]];
      if Flag(exposures[n], id) == 1 {
        NewOrdinal(exposures, id);
      }
    }
  }

  lemma {:induction false} OrdinalsStep(rest: seq<Exposure>, last: Exposure, id: Id)
    ensures Ordinals(rest + [last], id) == Ordinals(rest, id) + (if Flag(last, id) == 1 then {last.ordinal} else {})
  {
    var all := rest + [last];
    forall o | o in Ordinals(rest, id)
      ensures o in Ordinals(all, id)
    {
      var i :| 0 <= i < |rest| && rest[i].owner == id && rest[i].status == Committed && rest[i].ordinal == o;
      assert all[i] == rest[i];
    }
    assert all[|rest|] == last;
  }

  lemma {:induction false} NewOrdinal(exposures: seq<Exposure>, id: Id)
    requires exposures != [] && Unique(exposures) && exposures[|exposures| - 1].owner == id
    ensures exposures[|exposures| - 1].ordinal !in Ordinals(exposures[..|exposures| - 1], id)
  {
    var n := |exposures| - 1;
    assert forall i :: 0 <= i < n ==> !SameOrdinal(exposures[i], exposures[n]);
  }

  function UpTo(n: nat): (r: set<nat>)
    ensures |r| == n && forall o :: o in r <==> 1 <= o <= n
  {
    if n == 0 then {} else UpTo(n - 1) + {n}
  }

  lemma {:induction false} SubsetSize(a: set<nat>, b: set<nat>)
    requires a <= b
    ensures |a| <= |b| && (|a| == |b| ==> a == b)
  {
    assert b == a + (b - a);
    if |b - a| == 0 {
      assert b == a;
    }
  }

  /** The counter is at most the expected number, and reaches it exactly when every ordinal is committed. */
  lemma {:induction false} CounterMeaning(db: Db, id: Id)
    requires Good(db) && id in db.sequences
    ensures db.sequences[id].completed <= db.sequences[id].expected
    ensures db.sequences[id].completed == db.sequences[id].expected
       <==> AllCommitted(db.exposures, id, db.sequences[id].expected)
  {
    var n := db.sequences[id].expected;
    assert CountFits(db, id);
    CountIsCardinality(db.exposures, id);
    SubsetSize(Ordinals(db.exposures, id), UpTo(n));
    forall o | 1 <= o <= n
      ensures o in Ordinals(db.exposures, id) <==> CommittedAt(db.exposures, id, o)
    {}
    if AllCommitted(db.exposures, id, n) {
      assert Ordinals(db.exposures, id) == UpTo(n);
    }
    if db.sequences[id].completed == n {
      assert forall o: nat :: 1 <= o <= n ==> o in UpTo(n);
    }
  }

  // -------------------------------------------------------------- elementary changes

  /** Rows keep their ordinals, and committed rows stay committed. */
  ghost predicate RowsKept(x: seq<Exposure>, y: seq<Exposure>) {
    |x| <= |y| && forall i :: 0 <= i < |x| ==> SameOrdinal(x[i], y[i]) && (x[i].status == Committed ==> y[i].status == Committed)
  }

  lemma {:induction false} CommittedStays(x: seq<Exposure>, y: seq<Exposure>, id: Id, n: int)
    requires RowsKept(x, y) && AllCommitted(x, id, n)
    ensures AllCommitted(y, id, n)
  {
    forall o: nat | 1 <= o <= n
      ensures CommittedAt(y, id, o)
    {
      assert CommittedAt(x, id, o);
      var i :| 0 <= i < |x| && x[i] == Exposure(id, o, Committed);
      assert y[i] == Exposure(id, o, Committed);
    }
  }

  /** Changing rows that stay uncommitted. */
  lemma {:induction false} RowsKeep(db: Db, exposures: seq<Exposure>)
    requires Good(db) && |exposures| == |db.exposures|
    requires forall i :: 0 <= i < |exposures| ==>
      SameOrdinal(exposures[i], db.exposures[i]) && (exposures[i].status == Committed <==> db.exposures[i].status == Committed)
    ensures Good(db.(exposures := exposures)) && RowsKept(db.exposures, exposures)
  {
    var after := db.(exposures := exposures);
    forall i | 0 <= i < |exposures|
      ensures RowFits(after, exposures[i])
    {
      assert RowFits(db, db.exposures[i]);
    }
    forall i, j | 0 <= i < j < |exposures|
      ensures !SameOrdinal(exposures[i], exposures[j])
    {
      assert !SameOrdinal(db.exposures[i], db.exposures[j]);
    }
    forall id | id in after.sequences
      ensures CountFits(after, id) && FinishFits(after, id)
    {
      assert CountFits(db, id) && FinishFits(db, id);
      CountSame(db.exposures, exposures, id);
      if after.sequences[id].status == Succeeded {
        CommittedStays(db.exposures, exposures, id, after.sequences[id].expected);
      }
    }
  }

  /** Inserting an uncommitted row for an ordinal that has none. */
  lemma {:induction false} InsertKeeps(db: Db, e: Exposure)
    requires Good(db) && RowFits(db, e) && e.status != Committed
    requires forall i :: 0 <= i < |db.exposures| ==> !SameOrdinal(db.exposures[i], e)
    ensures Good(db.(exposures := db.exposures + [e])) && RowsKept(db.exposures, db.exposures + [e])
  {
    var after := db.(exposures := db.exposures + [e]);
    forall i | 0 <= i < |after.exposures|
      ensures RowFits(after, after.exposures[i])
    {
      assert i < |db.exposures| ==> RowFits(db, db.exposures[i]);
    }
    forall id | id in after.sequences
      ensures CountFits(after, id) && FinishFits(after, id)
    {
      assert CountFits(db, id) && FinishFits(db, id);
      if after.sequences[id].status == Succeeded {
        CommittedStays(db.exposures, after.exposures, id, after.sequences[id].expected);
      }
    }
  }

  /** The database with row e committed and counted. */
  ghost function Committing(db: Db, e: nat, files: set<nat>): Db
    requires e < |db.exposures| && db.exposures[e].owner in db.sequences
  {
    var s := db.sequences[db.exposures[e].owner];
    db.(files := files, raws := db.raws + {e}, exposures := WithStatus(db.exposures, e, Committed),
        sequences := db.sequences[db.exposures[e].owner := s.(completed := s.completed + 1)])
  }

  lemma {:induction false} CommittingCounts(db: Db, e: nat, files: set<nat>, id: Id)
    requires Good(db) && e < |db.exposures| && e !in db.raws && db.exposures[e].owner in db.sequences
    requires id in db.sequences
    ensures CountFits(Committing(db, e, files), id) && FinishFits(Committing(db, e, files), id)
  {
    var after := Committing(db, e, files);
    assert CountFits(db, id) && FinishFits(db, id);
    CountUpdate(db.exposures, after.exposures, id, e);
    if after.sequences[id].status == Succeeded {
      CommittedStays(db.exposures, after.exposures, id, after.sequences[id].expected);
    }
  }

  /** Committing a row whose raw file was not registered, and counting it. */
  lemma {:induction false} CommitKeeps(db: Db, e: nat, files: set<nat>)
    requires Good(db) && e < |db.exposures| && e !in db.raws
    ensures db.exposures[e].owner in db.sequences
    ensures Good(Committing(db, e, files)) && RowsKept(db.exposures, Committing(db, e, files).exposures)
  {
    assert RowFits(db, db.exposures[e]);
    var after := Committing(db, e, files);
    forall id | id in after.sequences
      ensures CountFits(after, id) && FinishFits(after, id)
    {
      CommittingCounts(db, e, files, id);
    }
  }

  // ------------------------------------------------------------------ the transactions

  lemma {:induction false} ReachedStays(db: Db, after: Db, id: Id, n: int)
    requires id in db.sequences && id in after.sequences && Reached(db, id, n) && RowsKept(db.exposures, after.exposures)
    requires after.sequences[id].status == Running ==> db.sequences[id].status == Running
    ensures Reached(after, id, n)
  {
    if after.sequences[id].status == Running {
      CommittedStays(db.exposures, after.exposures, id, n);
    }
  }

  /** A transaction keeps the invariant and every committed row. */
  ghost predicate Keeps(db: Db, o: Outcome) {
    match o
    case Done(after, pc, _) => Good(after) && PcFits(after, pc) && RowsKept(db.exposures, after.exposures)
    case Raise(_) => true
  }

  lemma {:induction false} InstrumentKeeps(db: Db, s: I.InstrumentState)
    requires Good(db)
    ensures Good(db.(instrument := s))
  {
    var after := db.(instrument := s);
    assert forall i :: 0 <= i < |db.exposures| ==> RowFits(db, db.exposures[i]) && RowFits(after, db.exposures[i]);
    assert forall id :: id in db.sequences ==> CountFits(db, id) && FinishFits(db, id) && CountFits(after, id) && FinishFits(after, id);
  }

  lemma {:induction false} StopKeeps(db: Db, id: Id, status: SequenceStatus, track: I.Track, pc: Pc)
    requires Good(db) && id in db.sequences && status != Running && status != Succeeded && track.Started()
    requires pc.Idle? || (pc.After? && pc.id == id && OrdinalFits(db, id, pc.ordinal))
    ensures Keeps(db, Along(SetStatus(db, id, status), track, pc))
  {
    if track.Along? {
      InstrumentKeeps(SetStatus(db, id, status), track.path[|track.path| - 1]);
    }
  }

  lemma {:induction false} CheckKeeps(db: Db, id: Id, ordinal: nat)
    requires Good(db) && PcFits(db, Check(id, ordinal))
    ensures Keeps(db, CheckStep(db, id, ordinal))
  {
    var row := Exposure(id, ordinal, Committed);
    if row in db.exposures {
      var i :| 0 <= i < |db.exposures| && db.exposures[i] == row;
      assert CommittedAt(db.exposures, id, ordinal);
    } else if db.sequences[id].status == Aborting {
      StopKeeps(db, id, Aborted, I.MarkAborted(db.instrument), Idle);
    } else if db.sequences[id].status == Pausing {
      StopKeeps(db, id, Paused, I.MarkPaused(db.instrument), Idle);
    }
  }

  lemma {:induction false} TakeFirstKeeps(db: Db, id: Id, ordinal: nat, input: Input)
    requires Good(db) && PcFits(db, TakeFirst(id, ordinal))
    ensures Keeps(db, TakeFirstStep(db, id, ordinal, input))
  {
    var track := I.From(db.instrument).Then(I.Exposing);
    if db.sequences[id].status == Aborting {
      StopKeeps(db, id, Aborted, I.MarkAborted(db.instrument), After(id, ordinal));
    } else if db.sequences[id].status == Pausing {
      StopKeeps(db, id, Paused, I.MarkPaused(db.instrument), After(id, ordinal));
    } else if input.moveOk && input.withinTolerance && track.Along? {
      var row := Latest(db.exposures, id, ordinal);
      if row.Some? {
        RowsKeep(db, WithStatus(db.exposures, row.value, Exposing));
        ExposingFits(db, WithStatus(db.exposures, row.value, Exposing), id, ordinal, row.value);
        InstrumentKeeps(db.(exposures := WithStatus(db.exposures, row.value, Exposing)), track.path[|track.path| - 1]);
      } else {
        var e := Exposure(id, ordinal, Exposing);
        InsertKeeps(db, e);
        ExposingFits(db, db.exposures + [e], id, ordinal, |db.exposures|);
        InstrumentKeeps(db.(exposures := db.exposures + [e]), track.path[|track.path| - 1]);
      }
    }
  }

  lemma {:induction false} ExposingFits(db: Db, exposures: seq<Exposure>, id: Id, ordinal: nat, e: nat)
    requires PcFits(db, TakeFirst(id, ordinal)) && RowsKept(db.exposures, exposures)
    requires e < |exposures| && exposures[e] == Exposure(id, ordinal, Exposing)
    ensures forall s :: PcFits(db.(exposures := exposures, instrument := s), TakeSecond(id, ordinal, e))
  {
    forall s
      ensures PcFits(db.(exposures := exposures, instrument := s), TakeSecond(id, ordinal, e))
    {
      ReachedStays(db, db.(exposures := exposures, instrument := s), id, ordinal - 1);
    }
  }

  lemma {:induction false} ReadingKeeps(db: Db, e: nat, status: ExposureStatus)
    requires Good(db) && e < |db.exposures| && db.exposures[e].status != Committed && status != Committed
    ensures Good(db.(exposures := WithStatus(db.exposures, e, status)))
    ensures RowsKept(db.exposures, WithStatus(db.exposures, e, status))
  {
    RowsKeep(db, WithStatus(db.exposures, e, status));
  }

  /** The database after a successful second transaction, before the instrument moves. */
  ghost function Counting(db: Db, id: Id, e: nat): Db
    requires id in db.sequences && e < |db.exposures|
  {
    var s := db.sequences[id];
    CommitL0(db.(exposures := WithStatus(db.exposures, e, Reading)),
        e).(sequences := db.sequences[id := s.(completed := s.completed + 1)])
  }

  lemma {:induction false} CountingKeeps(db: Db, id: Id, ordinal: nat, e: nat)
    requires Good(db) && PcFits(db, TakeSecond(id, ordinal, e))
    ensures Good(Counting(db, id, e)) && RowsKept(db.exposures, Counting(db, id, e).exposures)
    ensures Counting(db, id, e).exposures[e] == Exposure(id, ordinal, Committed)
  {
    var read := db.(exposures := WithStatus(db.exposures, e, Reading));
    ReadingKeeps(db, e, Reading);
    CommitKeeps(read, e, read.files + {e});
  }

  lemma {:induction false} CountingFits(db: Db, after: Db, id: Id, ordinal: nat, e: nat)
    requires PcFits(db, TakeSecond(id, ordinal, e)) && RowsKept(db.exposures, after.exposures)
    requires e < |after.exposures| && after.exposures[e] == Exposure(id, ordinal, Committed)
    requires id in after.sequences && after.sequences[id].status == db.sequences[id].status
    requires after.sequences[id].expected == db.sequences[id].expected
    ensures PcFits(after, After(id, ordinal))
  {
    assert CommittedAt(after.exposures, id, ordinal);
    ReachedStays(db, after, id, ordinal - 1);
  }

  lemma {:induction false} TakeSecondKeeps(db: Db, id: Id, ordinal: nat, e: nat, input: Input)
    requires Good(db) && PcFits(db, TakeSecond(id, ordinal, e))
    ensures Keeps(db, TakeSecondStep(db, id, ordinal, e, input))
  {
    if db.sequences[id].status == Aborting {
      ReadingKeeps(db, e, Lost);
      StopKeeps(db.(exposures := WithStatus(db.exposures, e, Lost)), id, Aborted, I.MarkAborted(db.instrument),
          After(id, ordinal));
    } else {
      CountingKeeps(db, id, ordinal, e);
      CountedOutcome(db, id, ordinal, e, input);
    }
  }

  lemma {:induction false} CountedOutcome(db: Db, id: Id, ordinal: nat, e: nat, input: Input)
    requires PcFits(db, TakeSecond(id, ordinal, e)) && db.sequences[id].status != Aborting
    requires Good(Counting(db, id, e)) && RowsKept(db.exposures, Counting(db, id, e).exposures)
    requires Counting(db, id, e).exposures[e] == Exposure(id, ordinal, Committed)
    ensures Keeps(db, TakeSecondStep(db, id, ordinal, e, input))
  {
    var s, counted := db.sequences[id], Counting(db, id, e);
    var track := I.From(db.instrument).Then(I.Reading).Then(if s.completed + 1 >= s.expected then I.Standby else I.Ready);
    if track.Along? {
      var last := track.path[|track.path| - 1];
      InstrumentKeeps(counted, last);
      CountingFits(db, counted.(instrument := last), id, ordinal, e);
    }
  }

  lemma {:induction false} AfterKeeps(db: Db, id: Id, ordinal: nat)
    requires Good(db) && PcFits(db, After(id, ordinal))
    ensures Keeps(db, AfterStep(db, id, ordinal))
  {
    if db.sequences[id].status == Aborting {
      StopKeeps(db, id, Aborted, I.MarkAborted(db.instrument), Idle);
    } else if db.sequences[id].status == Pausing {
      StopKeeps(db, id, Paused, I.MarkPaused(db.instrument), Idle);
    }
  }

  lemma {:induction false} FinalKeeps(db: Db, id: Id)
    requires Good(db) && PcFits(db, Final(id))
    ensures Keeps(db, FinalStep(db, id))
  {
    var track := I.From(db.instrument).Then(I.Standby);
    if db.sequences[id].status == Aborting {
      StopKeeps(db, id, Aborted, I.MarkAborted(db.instrument), Idle);
    } else if db.sequences[id].status == Pausing {
      StopKeeps(db, id, Paused, I.MarkPaused(db.instrument), Idle);
    } else if db.sequences[id].status == Running && track.Along? {
      InstrumentKeeps(SetStatus(db, id, Succeeded), track.path[|track.path| - 1]);
    }
  }

  lemma {:induction false} FailKeeps(db: Db, id: Id)
    requires Good(db) && PcFits(db, Failing(id))
    ensures Keeps(db, FailStep(db, id))
  {
    RowsKeep(db, FailRows(db.exposures, id));
    var failed := db.(exposures := FailRows(db.exposures, id));
    StopKeeps(failed, id, Failed, I.FailSafe(db.instrument), Idle);
  }

  lemma {:induction false} TransactionKeeps(w: World, input: Input)
    requires Inv(w)
    ensures Keeps(w.db, Transaction(w, input))
  {
    match w.pc {
      case Idle =>
      case Prepare(id) =>
      case Check(id, ordinal) => CheckKeeps(w.db, id, ordinal);
      case TakeFirst(id, ordinal) => TakeFirstKeeps(w.db, id, ordinal, input);
      case TakeSecond(id, ordinal, e) => TakeSecondKeeps(w.db, id, ordinal, e, input);
      case After(id, ordinal) => AfterKeeps(w.db, id, ordinal);
      case Final(id) => FinalKeeps(w.db, id);
      case Failing(id) => FailKeeps(w.db, id);
    }
  }
}
