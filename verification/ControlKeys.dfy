/** The idempotency keys of the device commands that the runner asks for, over every run. */
module ControlKeys {
  import I = Instrument
  import opened Control
  import opened ControlRuns
  import opened ControlPasses

  datatype Suffix = ToInitialize | ToOptics | ToMove(ordinal: nat) | ToExpose(ordinal: nat) | ToAbort(ordinal: nat) | ToSafe

  /** Sequence, attempt and purpose: what the key of a command is composed of. */
  datatype DeviceKey = DeviceKey(id: Id, attempt: nat, suffix: Suffix)

  /** The commands of a preparation: INITIALIZE for an instrument that is OFFLINE, then SET_OPTICS once it is PREPARING and
      device state and interlock are in order. */
  function PrepareAsks(s: I.InstrumentState, p: I.Preparation): set<Suffix> {
    if s == I.SafeFault || I.Reconcile(s, p.initialized).Raised? then {}
    else
      var reconciled := I.Reconcile(s, p.initialized);
      var prepared := I.Initialise(reconciled, p).Then(I.Preparing);
      (if reconciled.path[|reconciled.path| - 1] == I.Offline then {ToInitialize} else {})
      + (if prepared.Along? && p.recent && p.interlockSafe then {ToOptics} else {})
  }

  /** A preparation asks to initialize exactly from an instrument that is OFFLINE or has to go there, and to set the optics
      exactly when nothing but the answer to that command is left to decide. */
  lemma {:induction false} PreparationAsksIff(s: I.InstrumentState, p: I.Preparation)
    ensures ToOptics in PrepareAsks(s, p) <==> I.CanPrepare(s, p.(opticsOk := true))
    ensures ToInitialize in PrepareAsks(s, p) <==>
      s == I.Offline || (!p.initialized && (s == I.Ready || s == I.Standby))
    ensures PrepareAsks(s, p) <= {ToInitialize, ToOptics}
  {
    var t := I.Reconcile(s, p.initialized);
    I.ReconciledIff(s, p.initialized);
    if I.EndsIn(t, I.Offline) {
      I.InitialisedIff(t, p);
      if p.initializeOk {
        I.EdgeIff(I.Initialise(t, p), I.Standby, I.Preparing);
      }
    } else if t.Along? {
      I.EdgeIff(t, s, I.Preparing);
    }
  }

  /** The commands that the next transaction asks for. */
  function Purposes(w: World, input: Input): set<Suffix>
    requires Located(w)
  {
    match w.pc
    case Prepare(_) => PrepareAsks(w.db.instrument, input.preparation)
    case TakeFirst(id, ordinal) =>
      if w.db.sequences[id].status == Aborting || w.db.sequences[id].status == Pausing then {} else {ToMove(ordinal)}
    case TakeSecond(id, ordinal, _) => if w.db.sequences[id].status == Aborting then {ToAbort(ordinal)} else {ToExpose(ordinal)}
    case Failing(_) => {ToSafe}
    case _ => {}
  }

  predicate Asks(w: World, event: Event, key: DeviceKey)
    requires Located(w)
  {
    && event.Work? && !w.pc.Idle? && key.id == w.pc.id && key.attempt == w.db.sequences[key.id].attempt
    && key.suffix in Purposes(w, event.input)
  }

  ghost predicate AsksAt(states: seq<World>, events: seq<Event>, k: nat, key: DeviceKey)
    requires IsRun(states, events) && k < |events|
  {
    assert Follows(states, events, k);
    Asks(states[k], events[k], key)
  }

  ghost predicate StatusAt(w: World, id: Id, statuses: set<SequenceStatus>) {
    id in w.db.sequences && w.db.sequences[id].status in statuses
  }

  /** In every run the runner asks for a move exactly in the first transaction of an exposure whose sequence runs or has been
      queued again, for the exposure exactly in the second one unless it is being aborted, for giving it up exactly when it
      is, and for safing exactly when the sequence fails. */
  lemma {:induction false} AsksIff(states: seq<World>, events: seq<Event>, k: nat, id: Id, ordinal: nat)
    requires IsRun(states, events) && k < |events| && events[k].Work? && id in states[k].db.sequences
    ensures var (w, p) := (states[k], states[k].db.sequences[id].attempt);
      && (AsksAt(states, events, k, DeviceKey(id, p, ToMove(ordinal))) <==>
            w.pc == TakeFirst(id, ordinal) && StatusAt(w, id, {Running, Queued}))
      && (AsksAt(states, events, k, DeviceKey(id, p, ToExpose(ordinal))) <==>
            w.pc.TakeSecond? && w.pc.id == id && w.pc.ordinal == ordinal && StatusAt(w, id, {Running, Pausing}))
      && (AsksAt(states, events, k, DeviceKey(id, p, ToAbort(ordinal))) <==>
            w.pc.TakeSecond? && w.pc.id == id && w.pc.ordinal == ordinal && StatusAt(w, id, {Aborting}))
      && (AsksAt(states, events, k, DeviceKey(id, p, ToSafe)) <==> w.pc == Failing(id))
  {
    RunFacts(states, events, k);
  }

  // ------------------------------------------------------------------------- attempts

  /** The event queues a failed sequence again. */
  predicate Retries(w: World, event: Event, id: Id) {
    event == Act(id, Resume) && id in w.db.sequences && w.db.sequences[id].status == Failed && w.db.instrument != I.SafeFault
  }

  ghost predicate AttemptKept(db: Db, after: Db, id: Id) {
    id in db.sequences ==> id in after.sequences && after.sequences[id].attempt == db.sequences[id].attempt
  }

  ghost predicate OutcomeKeepsAttempt(db: Db, o: Outcome, id: Id) { o.Done? ==> AttemptKept(db, o.db, id) }

  lemma {:induction false} TakesKeepAttempt(db: Db, own: Id, ordinal: nat, e: nat, input: Input, id: Id)
    requires own in db.sequences
    ensures OutcomeKeepsAttempt(db, TakeFirstStep(db, own, ordinal, input), id)
    ensures e < |db.exposures| ==> OutcomeKeepsAttempt(db, TakeSecondStep(db, own, ordinal, e, input), id)
  {}

  lemma {:induction false} LooksKeepAttempt(db: Db, own: Id, ordinal: nat, id: Id)
    requires own in db.sequences
    ensures OutcomeKeepsAttempt(db, CheckStep(db, own, ordinal), id) && OutcomeKeepsAttempt(db, AfterStep(db, own, ordinal), id)
    ensures OutcomeKeepsAttempt(db, FinalStep(db, own), id) && OutcomeKeepsAttempt(db, FailStep(db, own), id)
  {}

  lemma {:induction false} WorkKeepsAttempt(w: World, input: Input, id: Id)
    requires Located(w)
    ensures OutcomeKeepsAttempt(w.db, Transaction(w, input), id)
  {
    match w.pc {
      case TakeFirst(own, ordinal) => TakesKeepAttempt(w.db, own, ordinal, 0, input, id);
      case TakeSecond(own, ordinal, e) => TakesKeepAttempt(w.db, own, ordinal, e, input, id);
      case Check(own, ordinal) => LooksKeepAttempt(w.db, own, ordinal, id);
      case After(own, ordinal) => LooksKeepAttempt(w.db, own, ordinal, id);
      case Final(own) => LooksKeepAttempt(w.db, own, 0, id);
      case Failing(own) => LooksKeepAttempt(w.db, own, 0, id);
      case _ =>
    }
  }

  /** An event leaves the attempt as it is, unless it queues the failed sequence again: then the attempt is one more. */
  lemma {:induction false} AttemptStep(w: World, event: Event, id: Id)
    requires Located(w) && id in w.db.sequences
    ensures id in Next(w, event).db.sequences
    ensures Next(w, event).db.sequences[id].attempt == w.db.sequences[id].attempt + (if Retries(w, event, id) then 1 else 0)
  {
    if event.Work? {
      WorkKeepsAttempt(w, event.input, id);
    }
  }

  lemma {:induction false} StepOfRun(states: seq<World>, events: seq<Event>, k: nat, id: Id)
    requires IsRun(states, events) && k < |events| && id in states[k].db.sequences
    ensures id in states[k + 1].db.sequences
    ensures states[k + 1].db.sequences[id].attempt
         == states[k].db.sequences[id].attempt + (if Retries(states[k], events[k], id) then 1 else 0)
  {
    assert Follows(states, events, k);
    AttemptStep(states[k], events[k], id);
  }

  ghost predicate RetriedBetween(states: seq<World>, events: seq<Event>, k: nat, m: nat, id: Id)
    requires |states| == |events| + 1 && m < |states|
  {
    exists j :: k <= j < m && Retries(states[j], events[j], id)
  }

  /** Attempts never decrease, and are equal exactly when the sequence was not retried in between. */
  lemma {:induction false} AttemptsRise(states: seq<World>, events: seq<Event>, k: nat, m: nat, id: Id)
    requires IsRun(states, events) && k <= m < |states| && id in states[k].db.sequences
    ensures id in states[m].db.sequences && states[k].db.sequences[id].attempt <= states[m].db.sequences[id].attempt
    ensures states[k].db.sequences[id].attempt == states[m].db.sequences[id].attempt <==> !RetriedBetween(states, events, k, m, id)
    decreases m
  {
    if k < m {
      AttemptsRise(states, events, k, m - 1, id);
      StepOfRun(states, events, m - 1, id);
      assert RetriedBetween(states, events, k, m, id) <==>
        RetriedBetween(states, events, k, m - 1, id) || Retries(states[m - 1], events[m - 1], id);
    }
  }

  // ---------------------------------------------------------------------- main results

  /** In every run a sequence that is retried asks for no key it asked for before: none of its commands can be answered from
      the record of a failed attempt. */
  lemma {:induction false} RetriedKeysAreFresh(states: seq<World>, events: seq<Event>, k: nat, m: nat, id: Id,
                                               before: DeviceKey, after: DeviceKey)
    requires IsRun(states, events) && k < m < |events| && RetriedBetween(states, events, k, m, id)
    requires AsksAt(states, events, k, before) && AsksAt(states, events, m, after) && before.id == after.id == id
    ensures before.attempt < after.attempt && before != after
  {
    assert Follows(states, events, k);
    AttemptsRise(states, events, k, m, id);
  }

  /** Two preparations of one sequence that both set the optics ask for it under one key exactly when the sequence was not
      retried in between: after a pause the second request is answered from the record of the first. */
  lemma {:induction false} OpticsKeyRepeatsIff(states: seq<World>, events: seq<Event>, k: nat, m: nat, id: Id, p: nat, q: nat)
    requires IsRun(states, events) && k < m < |events|
    requires AsksAt(states, events, k, DeviceKey(id, p, ToOptics)) && AsksAt(states, events, m, DeviceKey(id, q, ToOptics))
    ensures DeviceKey(id, p, ToOptics) == DeviceKey(id, q, ToOptics) <==> !RetriedBetween(states, events, k, m, id)
  {
    assert Follows(states, events, k);
    AttemptsRise(states, events, k, m, id);
  }
}
