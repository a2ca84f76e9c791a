/** The instrument state machine and the paths that control transactions take through it. */
module Instrument {

  datatype InstrumentState = Offline | Initializing | Standby | Preparing | Ready | Exposing | Reading
                           | Calibrating | Maintenance | SafeFault

  function AllowedTransitions(s: InstrumentState): set<InstrumentState> {
    match s
    case Offline => {Initializing}
    case Initializing => {Standby, SafeFault}
    case Standby => {Preparing, Calibrating, Maintenance, Offline}
    case Preparing => {Ready, SafeFault}
    case Ready => {Exposing, Standby, SafeFault}
    case Exposing => {Reading, Standby, SafeFault}
    case Reading => {Ready, Standby, SafeFault}
    case Calibrating => {Standby, SafeFault}
    case Maintenance => {Standby, SafeFault}
    case SafeFault => {Initializing, Offline}
  }

  /** The table read the other way round: from which states a state can be entered. */
  function Sources(s: InstrumentState): set<InstrumentState> {
    match s
    case Offline => {Standby, SafeFault}
    case Initializing => {Offline, SafeFault}
    case Standby => {Initializing, Ready, Exposing, Reading, Calibrating, Maintenance}
    case Preparing => {Standby}
    case Ready => {Preparing, Reading}
    case Exposing => {Ready}
    case Reading => {Exposing}
    case Calibrating => {Standby}
    case Maintenance => {Standby}
    case SafeFault => {Initializing, Preparing, Ready, Exposing, Reading, Calibrating, Maintenance}
  }

  lemma {:induction false} EnteredIff(a: InstrumentState, b: InstrumentState)
    ensures b in AllowedTransitions(a) <==> a in Sources(b)
  {}

  /** The states a transaction has passed through, or the exception that rolls it back. */
  datatype Track = Along(path: seq<InstrumentState>) | Raised {
    function Then(target: InstrumentState): Track
      requires Along? ==> path != []
      ensures Then(target).Along? ==> Then(target).path != []
    {
      if Raised? then Raised
      else
        var current := path[|path| - 1];
        if current == target then this
        else if target in AllowedTransitions(current) then Along(path + [target])
        else Raised
    }

    function Require(condition: bool): Track { if condition then this else Raised }

    predicate Started() { Along? ==> path != [] }
  }

  function From(s: InstrumentState): Track { Along([s]) }

  // ------------------------------------------------------------------- transactions

  /** What the device and its commands answer during preparation. */
  datatype Preparation = Preparation(initialized: bool, initializeOk: bool, recent: bool, interlockSafe: bool, opticsOk: bool)

  /** Reconciles an uninitialized device with the recorded state: only READY and STANDBY fall back to OFFLINE. */
  function Reconcile(s: InstrumentState, initialized: bool): (t: Track)
    ensures t.Started()
  {
    if initialized || s == Offline then From(s)
    else if s == Ready then From(s).Then(Standby).Then(Offline)
    else if s == Standby then From(s).Then(Offline)
    else Raised
  }

  /** Initializes an instrument that is OFFLINE. */
  function Initialise(t: Track, p: Preparation): (r: Track)
    requires t.Started()
    ensures r.Started()
  {
    if t.Along? && t.path[|t.path| - 1] == Offline
    then t.Then(Initializing).Require(p.initializeOk).Then(Standby)
    else t
  }

  function Settle(t: Track, p: Preparation): (r: Track)
    requires t.Started()
    ensures r.Started()
  {
    t.Then(Preparing).Require(p.recent && p.interlockSafe && p.opticsOk).Then(Ready)
  }

  function PrepareInstrument(s: InstrumentState, p: Preparation): (t: Track)
    ensures t.Started()
  {
    if s == SafeFault then Raised else Settle(Initialise(Reconcile(s, p.initialized), p), p)
  }

  /** Pausing parks the instrument only from READY. */
  function MarkPaused(s: InstrumentState): Track {
    if s == Ready then From(s).Then(Standby) else From(s)
  }

  function MarkAborted(s: InstrumentState): Track {
    From(s).Then(Standby)
  }

  /** Failing a sequence latches SAFE_FAULT from any state, through the table where it has the edge and directly elsewhere. */
  function FailSafe(s: InstrumentState): Track {
    if s == SafeFault then From(s) else Along([s, SafeFault])
  }

  // ------------------------------------------------------------------------- legality

  ghost predicate LegalEdge(a: InstrumentState, b: InstrumentState) {
    && a != SafeFault
    && (b in AllowedTransitions(a) || b == SafeFault)
    && (b == Exposing ==> a == Ready)
  }

  /** Every change is an allowed edge or an edge into SAFE_FAULT, none leaves SAFE_FAULT, and EXPOSING is entered only
      from READY. */
  ghost predicate Legal(path: seq<InstrumentState>) {
    forall k :: 0 <= k < |path| - 1 ==> LegalEdge(path[k], path[k + 1])
  }

  ghost predicate LegalTrack(t: Track, s: InstrumentState) {
    t.Along? ==> t.path != [] && t.path[0] == s && Legal(t.path)
  }

  lemma {:induction false} ThenIsLegal(t: Track, target: InstrumentState, s: InstrumentState)
    requires t.Started() && LegalTrack(t, s)
    requires target == Offline || target == Initializing ==> t.Along? ==> t.path[|t.path| - 1] != SafeFault
    ensures LegalTrack(t.Then(target), s)
    ensures t.Then(target).Along? ==> t.Then(target).path[|t.Then(target).path| - 1] == target
  {}

  lemma {:induction false} SettleIsLegal(t: Track, p: Preparation, s: InstrumentState)
    requires t.Started() && LegalTrack(t, s)
    ensures LegalTrack(Settle(t, p), s)
    ensures Settle(t, p).Along? ==> Settle(t, p).path[|Settle(t, p).path| - 1] == Ready
  {
    ThenIsLegal(t, Preparing, s);
    ThenIsLegal(t.Then(Preparing).Require(p.recent && p.interlockSafe && p.opticsOk), Ready, s);
  }

  /** Preparing the instrument walks legal edges from any state but SAFE_FAULT, and ends in READY. */
  lemma {:induction false} PreparationIsLegal(s: InstrumentState, p: Preparation)
    ensures LegalTrack(PrepareInstrument(s, p), s)
    ensures PrepareInstrument(s, p).Along? ==>
      s != SafeFault && PrepareInstrument(s, p).path[|PrepareInstrument(s, p).path| - 1] == Ready
  {
    if s != SafeFault {
      SettleIsLegal(Initialise(Reconcile(s, p.initialized), p), p, s);
    }
  }

  /** An instrument that is STANDBY or PREPARING on an initialized device can be prepared as it is. One that is OFFLINE, or
      recorded as READY or STANDBY while its device has lost its state, has to be initialized first. In both cases the
      device state must be recent, the interlock safe and the optics in place. */
  predicate CanPrepare(s: InstrumentState, p: Preparation) {
    && p.recent && p.interlockSafe && p.opticsOk
    && if s == Offline || ((s == Ready || s == Standby) && !p.initialized) then p.initializeOk
       else p.initialized && (s == Standby || s == Preparing)
  }

  /** The last state of a track. */
  ghost predicate EndsIn(t: Track, s: InstrumentState) { t.Along? && t.path != [] && t.path[|t.path| - 1] == s }

  lemma {:induction false} EdgeIff(t: Track, s: InstrumentState, target: InstrumentState)
    requires EndsIn(t, s)
    ensures EndsIn(t.Then(target), target) <==> target == s || target in AllowedTransitions(s)
    ensures t.Then(target).Along? <==> target == s || target in AllowedTransitions(s)
  {}

  lemma {:induction false} SettlesIff(t: Track, s: InstrumentState, p: Preparation)
    requires EndsIn(t, s)
    ensures Settle(t, p).Along? <==>
      (s == Preparing || Preparing in AllowedTransitions(s)) && p.recent && p.interlockSafe && p.opticsOk
  {
    EdgeIff(t, s, Preparing);
    if EndsIn(t.Then(Preparing), Preparing) {
      EdgeIff(t.Then(Preparing), Preparing, Ready);
    }
  }

  lemma {:induction false} InitialisedIff(t: Track, p: Preparation)
    requires EndsIn(t, Offline)
    ensures if p.initializeOk then EndsIn(Initialise(t, p), Standby) else Initialise(t, p).Raised?
  {
    EdgeIff(t, Offline, Initializing);
    if p.initializeOk {
      EdgeIff(t.Then(Initializing), Initializing, Standby);
    }
  }

  lemma {:induction false} ReconciledIff(s: InstrumentState, initialized: bool)
    ensures if initialized || s == Offline then EndsIn(Reconcile(s, initialized), s)
            else if s == Ready || s == Standby then EndsIn(Reconcile(s, initialized), Offline)
            else Reconcile(s, initialized).Raised?
  {
    EdgeIff(From(s), s, Standby);
    EdgeIff(From(s), s, Offline);
  }

  /** Preparation gets through exactly when the instrument can be prepared. */
  lemma {:induction false} PreparesIff(s: InstrumentState, p: Preparation)
    ensures PrepareInstrument(s, p).Along? <==> CanPrepare(s, p)
  {
    var t := Reconcile(s, p.initialized);
    ReconciledIff(s, p.initialized);
    if EndsIn(t, Offline) {
      InitialisedIff(t, p);
      if p.initializeOk {
        SettlesIff(Initialise(t, p), Standby, p);
      }
    } else if t.Along? {
      SettlesIff(t, s, p);
    }
  }

  /** The instrument record. */
  class InstrumentRecord {
    var state: InstrumentState

    constructor ()
      ensures state == Offline
    {
      state := Offline;
    }

    /** No change when already there; refused when the table has no such edge. */
    method Transition(target: InstrumentState) returns (ok: bool)
      modifies this
      ensures ok <==> From(old(state)).Then(target).Along?
      ensures state == if ok then target else old(state)
    {
      if state == target {
        return true;
      }
      if target !in AllowedTransitions(state) {
        return false;
      }
      state := target;
      return true;
    }

    method RecoverInstrument() returns (ok: bool)
      modifies this
      ensures ok <==> old(state) == SafeFault
      ensures state == if ok then Offline else old(state)
    {
      if state != SafeFault {
        return false;
      }
      state := Offline;
      return true;
    }
  }
}
