/** Every run of the control plane: what is always true, what never changes, and where the guarantees end. */
module ControlRuns {
  import I = Instrument
  import opened Control
  import opened ControlSafety
  import opened ControlEvents

  // ----------------------------------------------------------------------------- runs

  /** A run: every state after the first follows from the one before by an enabled event. */
  ghost predicate IsRun(states: seq<World>, events: seq<Event>) {
    && |states| == |events| + 1 && states[0] == EMPTY
    && forall k :: 0 <= k < |events| ==> Follows(states, events, k)
  }

  ghost predicate Follows(states: seq<World>, events: seq<Event>, k: nat)
    requires |states| == |events| + 1 && k < |events|
  {
    Steps(states, events, k) && Enabled(states[k], events[k])
  }

  /** A loose run: recovery may also register an exposure that is being retaken. */
  ghost predicate IsLooseRun(states: seq<World>, events: seq<Event>) {
    && |states| == |events| + 1 && states[0] == EMPTY
    && forall k :: 0 <= k < |events| ==> Steps(states, events, k)
  }

  ghost predicate Steps(states: seq<World>, events: seq<Event>, k: nat)
    requires |states| == |events| + 1 && k < |events|
  {
    Located(states[k]) && states[k + 1] == Next(states[k], events[k])
  }

  lemma {:induction false} RunInvariant(states: seq<World>, events: seq<Event>, k: nat)
    requires IsRun(states, events) && k < |states|
    ensures Inv(states[k])
    decreases k
  {
    if k > 0 {
      RunInvariant(states, events, k - 1);
      assert Follows(states, events, k - 1);
      EventKeeps(states[k - 1], events[k - 1]);
    }
  }

  /** Exactly one row for the ordinal, and it is committed. */
  ghost predicate OneCommittedRow(exposures: seq<Exposure>, id: Id, o: nat) {
    exists i :: 0 <= i < |exposures| && OnlyRow(exposures, id, o, i)
  }

  ghost predicate OnlyRow(exposures: seq<Exposure>, id: Id, o: nat, i: nat)
    requires i < |exposures|
  {
    && exposures[i] == Exposure(id, o, Committed)
    && forall j :: 0 <= j < |exposures| && exposures[j].owner == id && exposures[j].ordinal == o ==> j == i
  }

  lemma {:induction false} SameRow(exposures: seq<Exposure>, i: nat, j: nat)
    requires Unique(exposures) && i < |exposures| && j < |exposures| && SameOrdinal(exposures[i], exposures[j])
    ensures i == j
  {}

  lemma {:induction false} CommittedRowIsOnly(exposures: seq<Exposure>, id: Id, o: nat)
    requires Unique(exposures) && CommittedAt(exposures, id, o)
    ensures OneCommittedRow(exposures, id, o)
  {
    var i :| 0 <= i < |exposures| && exposures[i] == Exposure(id, o, Committed);
    forall j | 0 <= j < |exposures| && exposures[j].owner == id && exposures[j].ordinal == o
      ensures j == i
    {
      SameRow(exposures, i, j);
    }
    assert OnlyRow(exposures, id, o, i);
  }

  /** In every run, whatever pauses, aborts, failures, resumes, crashes and recoveries are interleaved: a sequence that
      has succeeded has exactly one row for every ordinal, each committed, and has counted them all. */
  lemma {:induction false} SuccessMeansComplete(states: seq<World>, events: seq<Event>, k: nat, id: Id)
    requires IsRun(states, events) && k < |states| && id in states[k].db.sequences
    requires states[k].db.sequences[id].status == Succeeded
    ensures forall o: nat :: 1 <= o <= states[k].db.sequences[id].expected ==> OneCommittedRow(states[k].db.exposures, id, o)
    ensures states[k].db.sequences[id].completed == states[k].db.sequences[id].expected
  {
    RunInvariant(states, events, k);
    var db := states[k].db;
    assert FinishFits(db, id);
    CounterMeaning(db, id);
    forall o: nat | 1 <= o <= db.sequences[id].expected
      ensures OneCommittedRow(db.exposures, id, o)
    {
      assert CommittedAt(db.exposures, id, o);
      CommittedRowIsOnly(db.exposures, id, o);
    }
  }

  /** In every run the counter of a sequence is the number of its committed rows, never more than expected, and each
      ordinal has at most one row. */
  lemma {:induction false} CounterIsExact(states: seq<World>, events: seq<Event>, k: nat, id: Id)
    requires IsRun(states, events) && k < |states| && id in states[k].db.sequences
    ensures states[k].db.sequences[id].completed == CountCommitted(states[k].db.exposures, id)
    ensures states[k].db.sequences[id].completed <= states[k].db.sequences[id].expected
    ensures Unique(states[k].db.exposures)
  {
    RunInvariant(states, events, k);
    assert CountFits(states[k].db, id);
    CounterMeaning(states[k].db, id);
  }

  /** In every run a committed row stays committed for ever. */
  lemma {:induction false} CommittedForEver(states: seq<World>, events: seq<Event>, k: nat, m: nat, i: nat)
    requires IsRun(states, events) && k <= m < |states|
    requires i < |states[k].db.exposures| && states[k].db.exposures[i].status == Committed
    ensures i < |states[m].db.exposures| && states[m].db.exposures[i] == states[k].db.exposures[i]
    decreases m - k
  {
    if k < m {
      CommittedForEver(states, events, k, m - 1, i);
      RunInvariant(states, events, m - 1);
      assert Follows(states, events, m - 1);
      EventKeeps(states[m - 1], events[m - 1]);
    }
  }

  /** No event changes a sequence that has succeeded. */
  lemma {:induction false} SuccessIsFinal(w: World, event: Event, id: Id)
    requires Inv(w) && Enabled(w, event) && id in w.db.sequences && w.db.sequences[id].status == Succeeded
    ensures id in Next(w, event).db.sequences && Next(w, event).db.sequences[id] == w.db.sequences[id]
  {
    match event {
      case Work(input) => OthersUntouched(w, input, id);
      case RecoverL0(e) =>
        if Recoverable(w.db, e) {
          RecoveryCounts(w.db, e);
          assert FinishFits(w.db, id);
          CounterMeaning(w.db, id);
        }
      case _ =>
    }
  }

  ghost predicate Untouched(db: Db, o: Outcome, id: Id) {
    o.Done? && id in db.sequences ==> id in o.db.sequences && o.db.sequences[id] == db.sequences[id]
  }

  lemma {:induction false} TakesUntouched(db: Db, own: Id, ordinal: nat, e: nat, input: Input, id: Id)
    requires own in db.sequences && own != id
    ensures Untouched(db, TakeFirstStep(db, own, ordinal, input), id)
    ensures e < |db.exposures| ==> Untouched(db, TakeSecondStep(db, own, ordinal, e, input), id)
  {}

  /** A transaction of the runner touches only the sequence in flight. */
  lemma {:induction false} OthersUntouched(w: World, input: Input, id: Id)
    requires Located(w) && id in w.db.sequences && (!w.pc.Idle? ==> w.pc.id != id)
    ensures id in Worked(w, input).db.sequences && Worked(w, input).db.sequences[id] == w.db.sequences[id]
  {
    assert Untouched(w.db, Transaction(w, input), id) by {
      match w.pc {
        case TakeFirst(own, ordinal) => TakesUntouched(w.db, own, ordinal, 0, input, id);
        case TakeSecond(own, ordinal, e) => TakesUntouched(w.db, own, ordinal, e, input, id);
        case _ =>
      }
    }
  }

  // ------------------------------------------------------------------ user requests

  /** A failed sequence can be queued again exactly when the instrument is out of SAFE_FAULT, and then carries a new attempt
      number. */
  lemma {:induction false} RetryIff(w: World, id: Id)
    requires Located(w) && id in w.db.sequences && w.db.sequences[id].status == Failed
    ensures Next(w, Act(id, Resume)).db.sequences[id].status == Queued <==> w.db.instrument != I.SafeFault
    ensures Next(w, Act(id, Resume)).db.sequences[id].status == Queued ==>
      Next(w, Act(id, Resume)).db.sequences[id].attempt == w.db.sequences[id].attempt + 1
  {}

  // -------------------------------------------------------------- recovery during a retake

  /** The database is consistent except that recovery may have registered the exposure that is being retaken. */
  ghost predicate GoodCount(db: Db, id: Id, e: nat) {
    && id in db.sequences && e < |db.exposures| && db.exposures[e].owner == id
    && Registered(db.exposures, db.raws)
    && db.sequences[id].completed == CountCommitted(db.exposures, id)
  }

  /** The second transaction keeps the counter equal to the number of committed rows exactly when no raw file of the
      exposure was registered before it: otherwise the early return of the commit leaves the row at READING, and the
      exposure is counted again. */
  lemma {:induction false} CountKeptIff(db: Db, id: Id, ordinal: nat, e: nat, input: Input)
    requires GoodCount(db, id, e) && db.sequences[id].status != Aborting
    requires TakeSecondStep(db, id, ordinal, e, input).Done?
    ensures var after := TakeSecondStep(db, id, ordinal, e, input).db;
      after.sequences[id].completed == CountCommitted(after.exposures, id) <==> e !in db.raws
  {
    var after := TakeSecondStep(db, id, ordinal, e, input).db;
    CountUpdate(db.exposures, after.exposures, id, e);
  }

  /** The same early return takes a committed row back to READING, and only then. */
  lemma {:induction false} CommittedRevertsIff(db: Db, id: Id, ordinal: nat, e: nat, input: Input)
    requires GoodCount(db, id, e) && db.sequences[id].status != Aborting
    requires TakeSecondStep(db, id, ordinal, e, input).Done?
    ensures TakeSecondStep(db, id, ordinal, e, input).db.exposures[e].status != Committed <==> e in db.raws
    ensures e in db.raws ==>
      db.exposures[e].status == Committed && TakeSecondStep(db, id, ordinal, e, input).db.exposures[e].status == Reading
  {}
}
