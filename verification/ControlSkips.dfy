/** Passing over an ordinal: exactly when a pass of the runner leaves an ordinal without a committed row behind, how that
    comes about, and how such a pass ends. */
module ControlSkips {
  import I = Instrument
  import opened Control
  import opened ControlRuns
  import opened ControlPasses

  /** The runner is at the ordinal. */
  predicate IsAt(pc: Pc, id: Id, ordinal: nat) {
    || pc == Check(id, ordinal) || pc == TakeFirst(id, ordinal) || pc == After(id, ordinal)
    || (pc.TakeSecond? && pc.id == id && pc.ordinal == ordinal)
  }

  /** Event k takes the runner from the ordinal to what comes after it. */
  ghost predicate PassesOver(states: seq<World>, events: seq<Event>, k: nat, id: Id, ordinal: nat)
    requires |states| == |events| + 1 && k < |events|
  {
    IsAt(states[k].pc, id, ordinal) && id in states[k].db.sequences
    && states[k + 1].pc == NextOrdinal(states[k].db.sequences[id], id, ordinal)
  }

  ghost predicate Skips(states: seq<World>, events: seq<Event>, k: nat, id: Id, ordinal: nat)
    requires |states| == |events| + 1 && k < |events|
  {
    PassesOver(states, events, k, id, ordinal) && !CommittedAt(states[k].db.exposures, id, ordinal)
  }

  /** In every run an ordinal without a committed row is passed over exactly by a transaction that commits while the runner
      looks at a sequence that has been queued again. */
  lemma {:induction false} SkipsIff(states: seq<World>, events: seq<Event>, k: nat, id: Id, ordinal: nat)
    requires IsRun(states, events) && k < |events|
    requires IsAt(states[k].pc, id, ordinal) && !CommittedAt(states[k].db.exposures, id, ordinal)
    ensures id in states[k].db.sequences
    ensures Skips(states, events, k, id, ordinal) <==>
      && states[k].pc.After? && states[k].db.sequences[id].status == Queued
      && events[k].Work? && events[k].input.databaseOk
  {
    RunFacts(states, events, k);
  }

  // ------------------------------------------------------------------- how it comes about

  /** The pause was taken inside the first exposure transaction of step i, and the resume came at step j, before the
      runner looked again. */
  ghost predicate PausedAndResumed(states: seq<World>, events: seq<Event>, i: nat, j: nat, k: nat, id: Id, ordinal: nat)
    requires |states| == |events| + 1
  {
    && i < j < k < |states|
    && PauseTaken(states, events, i, id, ordinal) && events[j] == Act(id, Resume)
    && forall l :: i < l <= k ==> states[l].pc == After(id, ordinal)
  }

  ghost predicate PauseTaken(states: seq<World>, events: seq<Event>, i: nat, id: Id, ordinal: nat)
    requires |states| == |events| + 1 && i < |events|
  {
    && states[i].pc == TakeFirst(id, ordinal) && events[i].Work? && id in states[i].db.sequences
    && states[i].db.sequences[id].status == Pausing
  }

  /** One transaction back from an exposure that ended without one: it took a pause, or counted, or aborted. */
  lemma {:induction false} WorkIntoAfter(w: World, input: Input, id: Id, ordinal: nat)
    requires Located(w) && Placed(w) && Worked(w, input).pc == After(id, ordinal)
    requires id in Worked(w, input).db.sequences
    ensures Worked(w, input).db.sequences[id].status != Queued
    ensures Worked(w, input).db.sequences[id].status == Paused ==>
      w.pc == TakeFirst(id, ordinal) && id in w.db.sequences && w.db.sequences[id].status == Pausing
  {}

  lemma {:induction false} PausedStep(w: World, event: Event, id: Id, ordinal: nat)
    requires Located(w) && Placed(w) && Next(w, event).pc == After(id, ordinal)
    requires id in Next(w, event).db.sequences && Next(w, event).db.sequences[id].status == Paused
    ensures id in w.db.sequences
    ensures
      || (w.pc == After(id, ordinal) && w.db.sequences[id].status == Paused)
      || (w.pc == TakeFirst(id, ordinal) && event.Work? && w.db.sequences[id].status == Pausing)
  {
    if event.Work? {
      WorkIntoAfter(w, event.input, id, ordinal);
    }
  }

  lemma {:induction false} QueuedStep(w: World, event: Event, id: Id, ordinal: nat)
    requires Located(w) && Placed(w) && Next(w, event).pc == After(id, ordinal)
    requires id in Next(w, event).db.sequences && Next(w, event).db.sequences[id].status == Queued
    ensures w.pc == After(id, ordinal) && id in w.db.sequences
    ensures w.db.sequences[id].status == Queued || (w.db.sequences[id].status == Paused && event == Act(id, Resume))
  {
    if event.Work? {
      WorkIntoAfter(w, event.input, id, ordinal);
    }
  }

  lemma {:induction false} PausedBefore(states: seq<World>, events: seq<Event>, k: nat, id: Id, ordinal: nat) returns (i: nat)
    requires IsRun(states, events) && k < |states| && states[k].pc == After(id, ordinal)
    requires id in states[k].db.sequences && states[k].db.sequences[id].status == Paused
    ensures i < k && PauseTaken(states, events, i, id, ordinal)
    ensures forall l :: i < l <= k ==> states[l].pc == After(id, ordinal)
    decreases k
  {
    RunFacts(states, events, k - 1);
    PausedStep(states[k - 1], events[k - 1], id, ordinal);
    if states[k - 1].pc == After(id, ordinal) {
      i := PausedBefore(states, events, k - 1, id, ordinal);
    } else {
      i := k - 1;
    }
  }

  /** A sequence that the runner finds queued after an exposure was paused inside the first transaction of that exposure
      and resumed since. */
  lemma {:induction false} SkipIsPauseAndResume(states: seq<World>, events: seq<Event>, k: nat, id: Id, ordinal: nat)
      returns (i: nat, j: nat)
    requires IsRun(states, events) && k < |states| && states[k].pc == After(id, ordinal)
    requires id in states[k].db.sequences && states[k].db.sequences[id].status == Queued
    ensures PausedAndResumed(states, events, i, j, k, id, ordinal)
    decreases k
  {
    RunFacts(states, events, k - 1);
    QueuedStep(states[k - 1], events[k - 1], id, ordinal);
    if states[k - 1].db.sequences[id].status == Queued {
      i, j := SkipIsPauseAndResume(states, events, k - 1, id, ordinal);
    } else {
      i := PausedBefore(states, events, k - 1, id, ordinal);
      j := k - 1;
    }
  }

  // --------------------------------------------------------------------- the rest of the pass

  /** A pass whose sequence no longer runs: it exposes nothing, and never reaches success. */
  ghost predicate Overruns(w: World, id: Id) {
    && id in w.db.sequences && w.db.sequences[id].status != Running && w.db.sequences[id].status != Succeeded
    && (w.pc.Idle? || (w.pc.id == id && (w.pc.Failing? || (!w.pc.Prepare? && !w.pc.TakeSecond? && w.db.instrument == I.Standby))))
  }

  ghost predicate NothingGained(x: seq<Exposure>, y: seq<Exposure>) {
    forall id, o: nat :: CommittedAt(y, id, o) ==> CommittedAt(x, id, o)
  }

  lemma {:induction false} OverrunLooks(w: World, input: Input, id: Id)
    requires Located(w) && Overruns(w, id) && (w.pc.Check? || w.pc.TakeFirst? || w.pc.After? || w.pc.Final?)
    ensures Overruns(Worked(w, input), id) && Worked(w, input).db.exposures == w.db.exposures
  {}

  lemma {:induction false} OverrunWorks(w: World, input: Input, id: Id)
    requires Located(w) && !w.pc.Idle? && Overruns(w, id)
    ensures Overruns(Worked(w, input), id) && NothingGained(w.db.exposures, Worked(w, input).db.exposures)
  {
    if !w.pc.Failing? {
      OverrunLooks(w, input, id);
    }
  }

  lemma {:induction false} OverrunGoesOn(w: World, event: Event, id: Id)
    requires Located(w) && !w.pc.Idle? && Overruns(w, id)
    ensures Overruns(Next(w, event), id)
    ensures !event.RecoverL0? ==> NothingGained(w.db.exposures, Next(w, event).db.exposures)
  {
    if event.Work? {
      OverrunWorks(w, event.input, id);
    }
  }

  ghost predicate InOnePass(states: seq<World>, from: nat, to: nat)
    requires from <= to < |states|
  {
    forall j :: from <= j < to ==> !states[j].pc.Idle?
  }

  lemma {:induction false} SkipOverruns(states: seq<World>, events: seq<Event>, k: nat, id: Id, ordinal: nat)
    requires IsRun(states, events) && k < |events| && Skips(states, events, k, id, ordinal)
    ensures Overruns(states[k + 1], id) && states[k + 1].db == states[k].db
    ensures states[k].db.sequences[id].status == Queued && states[k].db.instrument == I.Standby
  {
    RunFacts(states, events, k);
    SkipsIff(states, events, k, id, ordinal);
  }

  /** In every run: for the rest of a pass that has passed over an ordinal, whatever else happens, nothing is exposed, the
      sequence neither runs nor succeeds, and the ordinal stays open unless a recovery registers its file. */
  lemma {:induction false} SkippingPassGainsNothing(states: seq<World>, events: seq<Event>, k: nat, m: nat, id: Id,
                                                    ordinal: nat)
    requires IsRun(states, events) && k < m < |states|
    requires Skips(states, events, k, id, ordinal) && InOnePass(states, k + 1, m)
    ensures Overruns(states[m], id)
    ensures (forall j :: k < j < m ==> !events[j].RecoverL0?) ==> !CommittedAt(states[m].db.exposures, id, ordinal)
    decreases m
  {
    if m == k + 1 {
      SkipOverruns(states, events, k, id, ordinal);
    } else {
      SkippingPassGainsNothing(states, events, k, m - 1, id, ordinal);
      RunFacts(states, events, m - 1);
      OverrunGoesOn(states[m - 1], events[m - 1], id);
    }
  }

  lemma {:induction false} QueuedAgainFails(w: World, input: Input, id: Id)
    requires Located(w) && Overruns(w, id) && w.pc.TakeFirst? && w.db.sequences[id].status == Queued
    ensures Worked(w, input).pc == Failing(id)
  {}

  lemma {:induction false} FailingLatches(w: World, input: Input)
    requires Located(w) && w.pc.Failing? && input.databaseOk
    ensures Worked(w, input).pc == Idle && w.pc.id in Worked(w, input).db.sequences
    ensures Worked(w, input).db.sequences[w.pc.id].status == Failed && Worked(w, input).db.instrument == I.SafeFault
  {}

  /** The next ordinal without a committed row fails the pass: the sequence is failed and the instrument latched. */
  lemma {:induction false} NextOpenOrdinalFails(states: seq<World>, events: seq<Event>, k: nat, m: nat, id: Id, ordinal: nat)
    requires IsRun(states, events) && k < m && m + 2 < |states|
    requires Skips(states, events, k, id, ordinal) && InOnePass(states, k + 1, m)
    requires states[m].pc.TakeFirst? && id in states[m].db.sequences && states[m].db.sequences[id].status == Queued
    requires events[m].Work? && events[m + 1].Work? && events[m + 1].input.databaseOk
    ensures states[m + 1].pc == Failing(id)
    ensures states[m + 2].pc == Idle && id in states[m + 2].db.sequences
    ensures states[m + 2].db.sequences[id].status == Failed && states[m + 2].db.instrument == I.SafeFault
  {
    SkippingPassGainsNothing(states, events, k, m, id, ordinal);
    RunFacts(states, events, m);
    RunFacts(states, events, m + 1);
    QueuedAgainFails(states[m], events[m].input, id);
    FailingLatches(states[m + 1], events[m + 1].input);
  }

  // ---------------------------------------------------------------- a pass left to itself

  /** The event does not disturb the pass: transactions commit, and nobody acts on the sequence, recovers a file or kills
      the runner. */
  predicate Quiet(event: Event, id: Id) {
    match event
    case Work(input) => input.databaseOk
    case Act(other, _) => other != id
    case RecoverL0(_) => false
    case Crash => false
    case _ => true
  }

  ghost predicate AllCommittedFrom(exposures: seq<Exposure>, id: Id, low: int, high: int) {
    forall o: nat :: low < o < high ==> CommittedAt(exposures, id, o)
  }

  /** Where the pass stands after it has passed over the ordinal, against the rows it found. */
  ghost predicate Drifts(w: World, rows: seq<Exposure>, id: Id, ordinal: nat, n: nat) {
    && id in w.db.sequences && w.db.sequences[id].expected == n
    && if w.pc.Idle? then Ended(w, rows, id, ordinal, n)
       else
         && w.pc.id == id && w.db.sequences[id].status == Queued && w.db.instrument == I.Standby && w.db.exposures == rows
         && match w.pc
            case Check(_, o) => ordinal < o <= n && AllCommittedFrom(rows, id, ordinal, o)
            case TakeFirst(_, o) => ordinal < o <= n && !CommittedAt(rows, id, o)
            case Final(_) => AllCommittedFrom(rows, id, ordinal, n + 1)
            case Failing(_) => !AllCommittedFrom(rows, id, ordinal, n + 1)
            case _ => false
  }

  ghost predicate QueuedAndParked(db: Db, id: Id)
    requires id in db.sequences
  {
    db.sequences[id].status == Queued && db.instrument == I.Standby
  }

  ghost predicate FailedAndLatched(db: Db, id: Id)
    requires id in db.sequences
  {
    db.sequences[id].status == Failed && db.instrument == I.SafeFault
  }

  ghost predicate Ended(w: World, rows: seq<Exposure>, id: Id, ordinal: nat, n: nat)
    requires id in w.db.sequences
  {
    if AllCommittedFrom(rows, id, ordinal, n + 1) then QueuedAndParked(w.db, id) else FailedAndLatched(w.db, id)
  }

  lemma {:induction false} CheckDrifts(w: World, input: Input, rows: seq<Exposure>, id: Id, ordinal: nat, n: nat)
    requires Located(w) && w.pc.Check? && Drifts(w, rows, id, ordinal, n) && input.databaseOk
    ensures Drifts(Worked(w, input), rows, id, ordinal, n)
  {
    var o := w.pc.ordinal;
    if IsCommitted(rows, id, o) {
      var i :| 0 <= i < |rows| && rows[i] == Exposure(id, o, Committed);
      assert CommittedAt(rows, id, o);
      assert AllCommittedFrom(rows, id, ordinal, o + 1);
    }
  }

  lemma {:induction false} WorkDrifts(w: World, input: Input, rows: seq<Exposure>, id: Id, ordinal: nat, n: nat)
    requires Located(w) && !w.pc.Idle? && Drifts(w, rows, id, ordinal, n) && input.databaseOk
    ensures Drifts(Worked(w, input), rows, id, ordinal, n)
  {
    match w.pc {
      case Check(_, _) => CheckDrifts(w, input, rows, id, ordinal, n);
      case _ =>
    }
  }

  lemma {:induction false} QuietDrifts(w: World, event: Event, rows: seq<Exposure>, id: Id, ordinal: nat, n: nat)
    requires Located(w) && !w.pc.Idle? && Drifts(w, rows, id, ordinal, n) && Quiet(event, id)
    ensures Drifts(Next(w, event), rows, id, ordinal, n)
  {
    if event.Work? {
      WorkDrifts(w, event.input, rows, id, ordinal, n);
    }
  }

  lemma {:induction false} PassDrifts(states: seq<World>, events: seq<Event>, k: nat, m: nat, id: Id, ordinal: nat)
    requires IsRun(states, events) && k < m < |states|
    requires Skips(states, events, k, id, ordinal) && InOnePass(states, k + 1, m)
    requires forall j :: k < j < m ==> Quiet(events[j], id)
    ensures Drifts(states[m], states[k].db.exposures, id, ordinal, states[k].db.sequences[id].expected)
    decreases m
  {
    if m == k + 1 {
      SkipOverruns(states, events, k, id, ordinal);
    } else {
      PassDrifts(states, events, k, m - 1, id, ordinal);
      RunFacts(states, events, m - 1);
      QuietDrifts(states[m - 1], events[m - 1], states[k].db.exposures, id, ordinal, states[k].db.sequences[id].expected);
    }
  }

  /** In every run a pass that has passed over an ordinal and is then left to itself ends with the sequence queued for
      another pass exactly when every later ordinal is committed already; otherwise it ends with the sequence failed and
      the instrument latched in SAFE_FAULT. */
  lemma {:induction false} SkippingPassEndsIff(states: seq<World>, events: seq<Event>, k: nat, m: nat, id: Id, ordinal: nat)
    requires IsRun(states, events) && k < m < |states| && states[m].pc.Idle?
    requires Skips(states, events, k, id, ordinal) && InOnePass(states, k + 1, m)
    requires forall j :: k < j < m ==> Quiet(events[j], id)
    ensures id in states[m].db.sequences
    ensures QueuedAndParked(states[m].db, id) <==> AllCommittedFrom(states[k].db.exposures, id, ordinal,
        states[k].db.sequences[id].expected + 1)
    ensures FailedAndLatched(states[m].db, id) <==>
      exists o: nat :: ordinal < o <= states[k].db.sequences[id].expected && !CommittedAt(states[k].db.exposures, id, o)
  {
    PassDrifts(states, events, k, m, id, ordinal);
  }
}
