/** Controllers that hold lease tokens and command one device: fencing over whole runs. */
module Fencing {
  import opened Numeric
  import L = Lease
  import D = Device

  /** A command that took effect: who sent it, with which token and key, and the angles of the device after it. */
  datatype Effect = Effect(owner: L.Owner, token: int, key: D.Key, kind: D.CommandType, report: D.Report, fr1: real, fr3: real)

  /** The lease with all grants so far, the device, and the log of effects. */
  datatype System = System(lease: L.History, clock: real, device: D.State, log: seq<Effect>)

  const START: System := System(L.History(None, []), 0.0, D.INITIAL, [])

  /** One atomic step: a lease call, a command sent with any token its owner was ever granted, or a fault. */
  datatype Event = LeaseCall(owner: L.Owner, now: real)
                 | Send(owner: L.Owner, command: D.Command, now: real)
                 | SetFault(fault: D.Fault, active: bool)

  ghost predicate Holds(grants: seq<L.Grant>, owner: L.Owner, token: int) {
    exists i :: 0 <= i < |grants| && grants[i].owner == owner && grants[i].token == token
  }

  /** Time does not run backwards on the lease table, and a controller sends only tokens it was granted: it may be long
      superseded. */
  ghost predicate Enabled(s: System, e: Event) {
    match e
    case LeaseCall(_, now) => s.clock <= now
    case Send(owner, command, _) => Holds(s.lease.grants, owner, command.token)
    case SetFault(_, _) => true
  }

  function EffectOf(s: System, owner: L.Owner, c: D.Command, now: real): Effect
    requires D.Applied(s.device, c, now)
  {
    var (after, feedback) := D.Executed(s.device, c, now);
    Effect(owner, c.token, c.key, c.kind, feedback.value.report, after.values.fr1, after.values.fr3)
  }

  function Next(s: System, e: Event, ttl: real): System {
    match e
    case LeaseCall(owner, now) => s.(lease := L.After(s.lease, L.Call(owner, now), ttl), clock := now)
    case Send(owner, command, now) =>
      s.(device := D.Executed(s.device, command, now).0,
         log := if D.Applied(s.device, command, now) then s.log + [EffectOf(s, owner, command, now)] else s.log)
    case SetFault(fault, active) => s.(device := D.WithFault(s.device, fault, active))
  }

  function Run(start: real, events: seq<Event>, ttl: real): System {
    if events == [] then START.(clock := start) else Next(Run(start, events[..|events| - 1], ttl), events[|events| - 1], ttl)
  }

  ghost predicate Possible(start: real, events: seq<Event>, ttl: real) {
    forall k :: 0 <= k < |events| ==> EnabledAt(start, events, ttl, k)
  }

  ghost predicate EnabledAt(start: real, events: seq<Event>, ttl: real, k: nat)
    requires k < |events|
  {
    Enabled(Run(start, events[..k], ttl), events[k])
  }

  // ---------------------------------------------------------------------- invariants

  /** Angles after effect i: those it set if it was a move, else those after the one before. */
  ghost predicate AnglesKept(log: seq<Effect>, i: nat)
    requires 0 < i < |log|
  {
    !log[i].kind.MoveFr? ==> log[i].fr1 == log[i - 1].fr1 && log[i].fr3 == log[i - 1].fr3
  }

  ghost predicate ReportsAngles(e: Effect) {
    && (e.kind.Expose? ==> e.report.Frame? && e.report.fr1 == e.fr1 && e.report.fr3 == e.fr3)
    && (e.kind.MoveFr? ==> e.report.Moved? && e.report.fr1 == e.fr1 && e.report.fr3 == e.fr3)
  }

  /** The log against the device. */
  ghost predicate LogFits(log: seq<Effect>, device: D.State) {
    && (forall i :: 0 <= i < |log| ==> log[i].token <= device.lastToken && log[i].key in device.feedback)
    && (forall i :: 0 <= i < |log| ==> ReportsAngles(log[i]))
    && (log != [] ==> log[|log| - 1].fr1 == device.values.fr1 && log[|log| - 1].fr3 == device.values.fr3)
  }

  /** The log on its own. */
  ghost predicate LogOrdered(log: seq<Effect>) {
    && (forall i, j :: 0 <= i < j < |log| ==> log[i].token <= log[j].token && log[i].key != log[j].key)
    && (forall i :: 0 < i < |log| ==> AnglesKept(log, i))
  }

  ghost predicate LogGranted(log: seq<Effect>, grants: seq<L.Grant>) {
    forall i :: 0 <= i < |log| ==> Holds(grants, log[i].owner, log[i].token)
  }

  ghost predicate LeaseFits(s: System, ttl: real) {
    && L.Consistent(s.lease, s.clock)
    && (s.lease.row.Some? ==> s.lease.row.value.expires <= s.clock + ttl)
  }

  ghost predicate Inv(s: System, ttl: real) {
    LeaseFits(s, ttl) && LogFits(s.log, s.device) && LogOrdered(s.log) && LogGranted(s.log, s.lease.grants)
  }

  lemma {:induction false} LeaseCallKeeps(s: System, owner: L.Owner, now: real, ttl: real)
    requires Inv(s, ttl) && s.clock <= now
    ensures Inv(Next(s, LeaseCall(owner, now), ttl), ttl)
  {
    var t := Next(s, LeaseCall(owner, now), ttl);
    L.StepIsConsistent(s.lease, L.Call(owner, now), ttl, s.clock);
    forall i | 0 <= i < |s.log|
      ensures Holds(t.lease.grants, s.log[i].owner, s.log[i].token)
    {
      var k :| 0 <= k < |s.lease.grants| && s.lease.grants[k].owner == s.log[i].owner && s.lease.grants[k].token == s.log[i].token;
      assert t.lease.grants[k] == s.lease.grants[k];
    }
    assert t.lease.row.value.expires <= now + ttl;
  }

  /** The angles change by a move that takes effect, and by nothing else. */
  lemma {:induction false} AnglesMoveOnly(d: D.State, c: D.Command, now: real)
    ensures !(D.Applied(d, c, now) && c.kind.MoveFr?) ==>
      D.Executed(d, c, now).0.values.fr1 == d.values.fr1 && D.Executed(d, c, now).0.values.fr3 == d.values.fr3
  {
    if D.Applied(d, c, now) {
      OtherHandlersKeepAngles(d.values, d.faults, c);
    } else {
      D.OnlyAppliedMoves(d, c, now);
    }
  }

  lemma {:induction false} OtherHandlersKeepAngles(values: D.Values, faults: set<D.Fault>, c: D.Command)
    ensures !c.kind.MoveFr? ==> D.Handle(values, faults, c).0.fr1 == values.fr1 && D.Handle(values, faults, c).0.fr3 == values.fr3
  {}

  lemma {:induction false} EffectReports(s: System, owner: L.Owner, c: D.Command, now: real)
    requires D.Applied(s.device, c, now)
    ensures ReportsAngles(EffectOf(s, owner, c, now))
  {}

  lemma {:induction false} SendKeeps(s: System, owner: L.Owner, c: D.Command, now: real, ttl: real)
    requires Inv(s, ttl) && Holds(s.lease.grants, owner, c.token)
    ensures Inv(Next(s, Send(owner, c, now), ttl), ttl)
  {
    AnglesMoveOnly(s.device, c, now);
    var t := Next(s, Send(owner, c, now), ttl);
    if D.Applied(s.device, c, now) {
      EffectReports(s, owner, c, now);
      var e := EffectOf(s, owner, c, now);
      assert t.log == s.log + [e];
      assert forall i :: 0 < i < |s.log| ==> AnglesKept(s.log, i);
      forall i | 0 < i < |t.log|
        ensures AnglesKept(t.log, i)
      {
        if i < |s.log| {
          assert AnglesKept(s.log, i);
        }
      }
    }
  }

  lemma {:induction false} FaultKeeps(s: System, fault: D.Fault, active: bool, ttl: real)
    requires Inv(s, ttl)
    ensures Inv(Next(s, SetFault(fault, active), ttl), ttl)
  {}

  lemma {:induction false} RunKeeps(start: real, events: seq<Event>, ttl: real)
    requires Possible(start, events, ttl)
    ensures Inv(Run(start, events, ttl), ttl)
    decreases |events|
  {
    if events != [] {
      var n := |events| - 1;
      var rest := events[..n];
      forall k | 0 <= k < |rest|
        ensures EnabledAt(start, rest, ttl, k)
      {
        assert EnabledAt(start, events, ttl, k) && rest[..k] == events[..k];
      }
      RunKeeps(start, rest, ttl);
      assert EnabledAt(start, events, ttl, n);
      match events[n] {
        case LeaseCall(owner, now) => LeaseCallKeeps(Run(start, rest, ttl), owner, now, ttl);
        case Send(owner, c, now) => SendKeeps(Run(start, rest, ttl), owner, c, now, ttl);
        case SetFault(fault, active) => FaultKeeps(Run(start, rest, ttl), fault, active, ttl);
      }
    }
  }

  // ---------------------------------------------------------------------- main results

  /** In every run the effects carry non-decreasing tokens and every idempotency key takes effect at most once. */
  lemma {:induction false} EffectsAreFenced(start: real, events: seq<Event>, ttl: real)
    requires Possible(start, events, ttl)
    ensures var log := Run(start, events, ttl).log;
      forall i, j :: 0 <= i < j < |log| ==> log[i].token <= log[j].token && log[i].key != log[j].key
  {
    RunKeeps(start, events, ttl);
  }

  lemma {:induction false} OneOwner(grants: seq<L.Grant>, a: L.Owner, b: L.Owner, token: int)
    requires L.Safe(grants) && Holds(grants, a, token) && Holds(grants, b, token)
    ensures a == b
  {
    var i :| 0 <= i < |grants| && grants[i].owner == a && grants[i].token == token;
    var j :| 0 <= j < |grants| && grants[j].owner == b && grants[j].token == token;
    assert i < j ==> L.Ordered(grants[i], grants[j]);
    assert j < i ==> L.Ordered(grants[j], grants[i]);
  }

  lemma {:induction false} AnglesFrom(log: seq<Effect>, i: nat, j: nat)
    requires i <= j < |log| && LogOrdered(log) && forall k :: i < k <= j ==> !log[k].kind.MoveFr?
    ensures log[j].fr1 == log[i].fr1 && log[j].fr3 == log[i].fr3
    decreases j - i
  {
    if i < j {
      AnglesFrom(log, i, j - 1);
      assert AnglesKept(log, j);
    }
  }

  /** Move and expose are atomic across controllers: between a move and a later exposure that took effect with the same
      token, only commands of that one controller took effect; and if none of them is another move, the frame records
      exactly the angles the move reported. */
  lemma {:induction false} MoveAndExposeAreAtomic(start: real, events: seq<Event>, ttl: real, i: nat, j: nat)
    requires Possible(start, events, ttl)
    requires i < j < |Run(start, events, ttl).log|
    requires Run(start, events, ttl).log[i].kind.MoveFr? && Run(start, events, ttl).log[j].kind.Expose?
    requires Run(start, events, ttl).log[i].token == Run(start, events, ttl).log[j].token
    ensures var log := Run(start, events, ttl).log;
      && (forall k :: i <= k <= j ==> log[k].token == log[i].token && log[k].owner == log[i].owner)
      && log[i].report.Moved? && log[j].report.Frame?
      && ((forall k :: i < k < j ==> !log[k].kind.MoveFr?) ==>
            log[j].report.fr1 == log[i].report.fr1 && log[j].report.fr3 == log[i].report.fr3)
  {
    RunKeeps(start, events, ttl);
    var s := Run(start, events, ttl);
    var log := s.log;
    forall k | i <= k <= j
      ensures log[k].token == log[i].token && log[k].owner == log[i].owner
    {
      assert i < k ==> log[i].token <= log[k].token;
      assert k < j ==> log[k].token <= log[j].token;
      OneOwner(s.lease.grants, log[k].owner, log[i].owner, log[i].token);
    }
    assert ReportsAngles(log[i]) && ReportsAngles(log[j]);
    if forall k :: i < k < j ==> !log[k].kind.MoveFr? {
      AnglesFrom(log, i, j);
    }
  }

  // ------------------------------------------------- the refusal of a rightful controller

  /** The device before event k of the run. */
  function DeviceAt(start: real, events: seq<Event>, ttl: real, k: nat): D.State
    requires k <= |events|
  {
    Run(start, events[..k], ttl).device
  }

  predicate Sends(e: Event, key: D.Key) { e.Send? && e.command.key == key }

  /** Event j sends the key before any answer to it is recorded, under a token that is no longer the highest one. */
  ghost predicate StaleFirst(start: real, events: seq<Event>, ttl: real, key: D.Key, j: nat)
    requires j < |events|
  {
    && Sends(events[j], key)
    && key !in DeviceAt(start, events, ttl, j).feedback
    && events[j].command.token < DeviceAt(start, events, ttl, j).lastToken
  }

  predicate StaleRecorded(d: D.State, key: D.Key) { key in d.feedback && d.feedback[key] == D.STALE }

  lemma {:induction false} RunStep(start: real, events: seq<Event>, ttl: real, k: nat)
    requires k < |events|
    ensures Run(start, events[..k + 1], ttl) == Next(Run(start, events[..k], ttl), events[k], ttl)
  {
    var longer := events[..k + 1];
    assert longer[..|longer| - 1] == events[..k] && longer[|longer| - 1] == events[k];
  }

  /** One event records the refusal under a key exactly when it is a stale command that sends the key first. */
  lemma {:induction false} RecordStep(s: System, e: Event, ttl: real, key: D.Key)
    ensures StaleRecorded(Next(s, e, ttl).device, key) <==>
      || StaleRecorded(s.device, key)
      || (Sends(e, key) && key !in s.device.feedback && e.command.token < s.device.lastToken)
    ensures Next(s, e, ttl).device.lastToken >= s.device.lastToken
  {
    if e.Send? {
      D.RefusedAsStaleIff(s.device, e.command, e.now);
    }
  }

  lemma {:induction false} StaleRecordIff(start: real, events: seq<Event>, ttl: real, key: D.Key, k: nat)
    requires k <= |events|
    ensures StaleRecorded(DeviceAt(start, events, ttl, k), key) <==>
      exists j :: 0 <= j < k && StaleFirst(start, events, ttl, key, j)
  {
    if k > 0 {
      StaleRecordIff(start, events, ttl, key, k - 1);
      RunStep(start, events, ttl, k - 1);
      RecordStep(Run(start, events[..k - 1], ttl), events[k - 1], ttl, key);
      assert StaleRecorded(DeviceAt(start, events, ttl, k), key) <==>
        StaleRecorded(DeviceAt(start, events, ttl, k - 1), key) || StaleFirst(start, events, ttl, key, k - 1);
    }
  }

  lemma {:induction false} HighestTokenRises(start: real, events: seq<Event>, ttl: real, j: nat, k: nat)
    requires j <= k <= |events|
    ensures DeviceAt(start, events, ttl, j).lastToken <= DeviceAt(start, events, ttl, k).lastToken
    decreases k
  {
    if j < k {
      HighestTokenRises(start, events, ttl, j, k - 1);
      RunStep(start, events, ttl, k - 1);
      RecordStep(Run(start, events[..k - 1], ttl), events[k - 1], ttl, "");
    }
  }

  /** In every run a command with a current token is refused as stale exactly when a controller had sent the same key first
      under a superseded token, lower than that of the refused command. */
  lemma {:induction false} RightfulIsRefusedIff(start: real, events: seq<Event>, ttl: real, k: nat)
    requires k < |events| && events[k].Send?
    requires events[k].command.token >= DeviceAt(start, events, ttl, k).lastToken
    ensures D.Executed(DeviceAt(start, events, ttl, k), events[k].command, events[k].now).1 == Some(D.STALE) <==>
      exists j :: 0 <= j < k && StaleFirst(start, events, ttl, events[k].command.key, j)
    ensures forall j :: 0 <= j < k && StaleFirst(start, events, ttl, events[k].command.key, j) ==>
      events[j].command.token < events[k].command.token
  {
    var c := events[k].command;
    D.RefusedAsStaleIff(DeviceAt(start, events, ttl, k), c, events[k].now);
    StaleRecordIff(start, events, ttl, c.key, k);
    forall j | 0 <= j < k && StaleFirst(start, events, ttl, c.key, j)
      ensures events[j].command.token < c.token
    {
      HighestTokenRises(start, events, ttl, j, k);
    }
  }

  /** Hence a key that is only ever sent under one token is not refused wrongly. */
  lemma {:induction false} KeysOfOneTokenAreSafe(start: real, events: seq<Event>, ttl: real, k: nat)
    requires k < |events| && events[k].Send?
    requires events[k].command.token >= DeviceAt(start, events, ttl, k).lastToken
    requires forall j :: 0 <= j < k && Sends(events[j], events[k].command.key) ==>
      events[j].command.token == events[k].command.token
    ensures D.Executed(DeviceAt(start, events, ttl, k), events[k].command, events[k].now).1 != Some(D.STALE)
  {
    RightfulIsRefusedIff(start, events, ttl, k);
  }

  lemma {:induction false} HoldsStep(s: System, e: Event, ttl: real, owner: L.Owner, token: int)
    requires Holds(s.lease.grants, owner, token)
    ensures Holds(Next(s, e, ttl).lease.grants, owner, token)
  {
    var i :| 0 <= i < |s.lease.grants| && s.lease.grants[i].owner == owner && s.lease.grants[i].token == token;
    assert Next(s, e, ttl).lease.grants[i] == s.lease.grants[i];
  }

  /** The owner had been granted the token before event k. */
  ghost predicate HeldAt(start: real, events: seq<Event>, ttl: real, k: nat, owner: L.Owner, token: int)
    requires k <= |events|
  {
    Holds(Run(start, events[..k], ttl).lease.grants, owner, token)
  }

  lemma {:induction false} HeldNext(start: real, events: seq<Event>, ttl: real, k: nat, owner: L.Owner, token: int)
    requires k < |events| && HeldAt(start, events, ttl, k, owner, token)
    ensures HeldAt(start, events, ttl, k + 1, owner, token)
  {
    RunStep(start, events, ttl, k);
    HoldsStep(Run(start, events[..k], ttl), events[k], ttl, owner, token);
  }

  lemma {:induction false} HeldLater(start: real, events: seq<Event>, ttl: real, j: nat, k: nat, owner: L.Owner, token: int)
    requires j <= k <= |events| && HeldAt(start, events, ttl, j, owner, token)
    ensures HeldAt(start, events, ttl, k, owner, token)
    decreases k
  {
    if j < k {
      HeldLater(start, events, ttl, j, k - 1, owner, token);
      HeldNext(start, events, ttl, k - 1, owner, token);
    }
  }

  /** Neither is one of an owner that shares its keys with nobody, as long as it never lost the lease and took it back:
      all tokens it was granted are the one it holds. */
  lemma {:induction false} DisjointKeysAreSafe(start: real, events: seq<Event>, ttl: real, k: nat)
    requires Possible(start, events, ttl) && k < |events| && events[k].Send?
    requires events[k].command.token >= DeviceAt(start, events, ttl, k).lastToken
    requires forall j :: 0 <= j < k && Sends(events[j], events[k].command.key) ==> events[j].owner == events[k].owner
    requires forall token :: HeldAt(start, events, ttl, k, events[k].owner, token) ==> token == events[k].command.token
    ensures D.Executed(DeviceAt(start, events, ttl, k), events[k].command, events[k].now).1 != Some(D.STALE)
  {
    forall j | 0 <= j < k && Sends(events[j], events[k].command.key)
      ensures events[j].command.token == events[k].command.token
    {
      assert EnabledAt(start, events, ttl, j);
      HeldLater(start, events, ttl, j, k, events[j].owner, events[j].command.token);
    }
    KeysOfOneTokenAreSafe(start, events, ttl, k);
  }

  // -------------------------------------------------------------- a run that shows it

  const NOTHING: D.Parameters := D.Parameters(None, None, None, None, 0)

  function Ask(key: D.Key, token: int): D.Command { D.Command(key, D.Initialize, NOTHING, 60.0, token) }

  /** Controller a loses the lease to b, which commands the device; a, which does not know, sends a key of the sequence; b
      then sends the same key under the current token. */
  const TAKEOVER: seq<Event> :=
    [LeaseCall("a", 0.0), LeaseCall("b", 20.0), Send("b", Ask("s:0:initialize", 2), 21.0),
     Send("a", Ask("s:0:move-1", 1), 22.0), Send("b", Ask("s:0:move-1", 2), 23.0)]

  function TakeoverAt(k: nat): System
    requires k <= |TAKEOVER|
  {
    Run(0.0, TAKEOVER[..k], 10.0)
  }

  lemma {:induction false} TakeoverGrants()
    ensures TakeoverAt(1).clock == 0.0 && TakeoverAt(2).clock == 20.0
    ensures TakeoverAt(2).device == D.INITIAL && TakeoverAt(2).lease.row == Some(L.Row("b", 2, 30.0))
    ensures Holds(TakeoverAt(2).lease.grants, "a", 1) && Holds(TakeoverAt(2).lease.grants, "b", 2)
  {
    RunStep(0.0, TAKEOVER, 10.0, 0);
    RunStep(0.0, TAKEOVER, 10.0, 1);
    var grants := TakeoverAt(2).lease.grants;
    assert grants[0] == L.Grant("a", 1, 0.0, 10.0) && grants[1] == L.Grant("b", 2, 20.0, 30.0);
  }

  lemma {:induction false} TakeoverIsPossible()
    ensures Possible(0.0, TAKEOVER, 10.0)
  {
    TakeoverGrants();
    HeldLater(0.0, TAKEOVER, 10.0, 2, 3, "a", 1);
    HeldLater(0.0, TAKEOVER, 10.0, 2, 4, "b", 2);
    forall k | 0 <= k < |TAKEOVER|
      ensures EnabledAt(0.0, TAKEOVER, 10.0, k)
    {
      if k == 0 {
        assert TAKEOVER[..0] == [];
      }
    }
  }

  lemma {:induction false} TakeoverDevice()
    ensures TakeoverAt(3).device.lastToken == 2 && TakeoverAt(3).device.feedback.Keys == {"s:0:initialize"}
  {
    TakeoverGrants();
    RunStep(0.0, TAKEOVER, 10.0, 2);
    assert D.Executed(D.INITIAL, Ask("s:0:initialize", 2), 21.0).0.lastToken == 2;
  }

  lemma {:induction false} TakeoverToken()
    ensures TakeoverAt(4).device.lastToken == 2
  {
    TakeoverDevice();
    RunStep(0.0, TAKEOVER, 10.0, 3);
  }

  /** The holder of the lease is refused although its token is the highest one. */
  lemma {:induction false} RightfulIsRefused()
    ensures Possible(0.0, TAKEOVER, 10.0)
    ensures TAKEOVER[4].command.token >= TakeoverAt(4).device.lastToken
    ensures D.Executed(TakeoverAt(4).device, TAKEOVER[4].command, 23.0).1 == Some(D.STALE)
  {
    TakeoverIsPossible();
    TakeoverDevice();
    TakeoverToken();
    assert StaleFirst(0.0, TAKEOVER, 10.0, "s:0:move-1", 3);
    RightfulIsRefusedIff(0.0, TAKEOVER, 10.0, 4);
  }

  // --------------------------------------------------------------- the device and its log

  /** The optical mode that the log of effects leaves. */
  ghost function OpticsAfter(log: seq<Effect>): D.OpticalMode {
    if log == [] then D.Standby
    else
      var last := log[|log| - 1];
      match last.kind
      case Initialize => D.Standby
      case SetOptics => if last.report.Optics? then D.Observing(last.report.mode) else D.Standby
      case Safe => D.SafeMode
      case _ => OpticsAfter(log[..|log| - 1])
  }

  ghost predicate Done(log: seq<Effect>, kind: D.CommandType) { exists i :: 0 <= i < |log| && log[i].kind == kind }

  /** What the device holds, in terms of the commands that took effect and the faults that are active. */
  ghost predicate Follows(d: D.State, log: seq<Effect>) {
    && (d.values.initialized <==> Done(log, D.Initialize))
    && (d.values.shutterClosed <==> Done(log, D.Abort) || Done(log, D.Safe))
    && d.values.optics == OpticsAfter(log)
    && (D.GuiderLost !in d.faults ==> d.values.guiderLocked)
    && (D.InterlockOpen !in d.faults ==> d.values.interlockSafe)
  }

  lemma {:induction false} DoneMore(log: seq<Effect>, e: Effect, kind: D.CommandType)
    ensures Done(log + [e], kind) <==> Done(log, kind) || e.kind == kind
  {
    assert (log + [e])[|log|] == e;
    if Done(log, kind) {
      var i :| 0 <= i < |log| && log[i].kind == kind;
      assert (log + [e])[i] == log[i];
    }
  }

  /** What a command that takes effect leaves. */
  lemma {:induction false} EffectLeaves(d: D.State, c: D.Command, now: real)
    requires D.Applied(d, c, now)
    ensures var (before, after) := (d.values, D.Executed(d, c, now).0.values);
      && (after.initialized <==> before.initialized || c.kind == D.Initialize)
      && (after.shutterClosed <==> before.shutterClosed || c.kind == D.Abort || c.kind == D.Safe)
      && (D.GuiderLost !in d.faults ==> after.guiderLocked == before.guiderLocked)
      && (D.InterlockOpen !in d.faults ==> after.interlockSafe || !before.interlockSafe)
    ensures D.Executed(d, c, now).0.faults == d.faults
  {}

  lemma {:induction false} EffectOptics(s: System, owner: L.Owner, c: D.Command, now: real)
    requires s.device.values.optics == OpticsAfter(s.log) && D.Applied(s.device, c, now)
    ensures D.Executed(s.device, c, now).0.values.optics == OpticsAfter(s.log + [EffectOf(s, owner, c, now)])
  {
    assert (s.log + [EffectOf(s, owner, c, now)])[..|s.log|] == s.log;
  }

  lemma {:induction false} EffectFollows(s: System, owner: L.Owner, c: D.Command, now: real)
    requires Follows(s.device, s.log) && D.Applied(s.device, c, now)
    ensures Follows(D.Executed(s.device, c, now).0, s.log + [EffectOf(s, owner, c, now)])
  {
    EffectLeaves(s.device, c, now);
    EffectOptics(s, owner, c, now);
    LogGrows(s.log, EffectOf(s, owner, c, now), c.kind);
  }

  lemma {:induction false} LogGrows(log: seq<Effect>, e: Effect, kind: D.CommandType)
    requires e.kind == kind
    ensures Done(log + [e], D.Initialize) <==> Done(log, D.Initialize) || kind == D.Initialize
    ensures Done(log + [e], D.Abort) <==> Done(log, D.Abort) || kind == D.Abort
    ensures Done(log + [e], D.Safe) <==> Done(log, D.Safe) || kind == D.Safe
  {
    DoneMore(log, e, D.Initialize);
    DoneMore(log, e, D.Abort);
    DoneMore(log, e, D.Safe);
  }

  lemma {:induction false} StepFollows(s: System, e: Event, ttl: real)
    requires Follows(s.device, s.log)
    ensures Follows(Next(s, e, ttl).device, Next(s, e, ttl).log)
  {
    match e {
      case Send(owner, command, now) =>
        if D.Applied(s.device, command, now) {
          EffectFollows(s, owner, command, now);
        } else {
          D.OnlyAppliedMoves(s.device, command, now);
          NoEffectNoGuider(s.device, command, now);
        }
      case _ =>
    }
  }

  lemma {:induction false} NoEffectNoGuider(d: D.State, c: D.Command, now: real)
    ensures D.Executed(d, c, now).0.faults == d.faults
    ensures D.GuiderLost !in d.faults ==> D.Executed(d, c, now).0.values.guiderLocked == d.values.guiderLocked
  {}

  /** In every run the device is initialized exactly when an initialization has taken effect, its shutter closed exactly when
      an abort or a safing has, and its optics are those of the last command that set them; guider and interlock only fail
      under their faults. */
  lemma {:induction false} DeviceFollowsLog(start: real, events: seq<Event>, ttl: real)
    ensures Follows(Run(start, events, ttl).device, Run(start, events, ttl).log)
  {
    if events != [] {
      DeviceFollowsLog(start, events[..|events| - 1], ttl);
      StepFollows(Run(start, events[..|events| - 1], ttl), events[|events| - 1], ttl);
    }
  }

  /** In every run an exposure takes effect only after an initialization, and its frame reports the guider as locked exactly
      when no guider fault is active, and a storage fault exactly when one of the two stores is failing. */
  lemma {:induction false} FramesAreTrue(start: real, events: seq<Event>, ttl: real, owner: L.Owner, c: D.Command, now: real)
    requires c.kind.Expose? && D.Applied(Run(start, events, ttl).device, c, now)
    ensures var s := Run(start, events, ttl);
      var report := EffectOf(s, owner, c, now).report;
      && Done(s.log, D.Initialize) && report.Frame? && Some(report.path) == c.parameters.frame
      && (report.guiderLocked <==> D.GuiderLost !in s.device.faults)
      && (report.storageFault <==> D.DiskFull in s.device.faults || D.NasUnavailable in s.device.faults)
  {
    DeviceFollowsLog(start, events, ttl);
  }

  /** Whether the interlock is to be reported as safe: decided by the last event that injected or cleared its fault, and by the
      last initialization or safing that took effect after it. */
  ghost predicate InterlockSafe(start: real, events: seq<Event>, ttl: real) {
    if events == [] then true
    else
      var before := events[..|events| - 1];
      var d := Run(start, before, ttl).device;
      match events[|events| - 1]
      case SetFault(InterlockOpen, active) => !active
      case Send(_, c, now) =>
        if !D.Applied(d, c, now) then InterlockSafe(start, before, ttl)
        else if c.kind == D.Safe then true
        else if c.kind == D.Initialize then D.InterlockOpen !in d.faults
        else InterlockSafe(start, before, ttl)
      case _ => InterlockSafe(start, before, ttl)
  }

  lemma {:induction false} OtherInterlock(d: D.State, c: D.Command, now: real)
    requires D.Applied(d, c, now)
    ensures var after := D.Executed(d, c, now).0.values.interlockSafe;
      after == if c.kind == D.Safe then true
               else if c.kind == D.Initialize then D.InterlockOpen !in d.faults else d.values.interlockSafe
  {}

  /** In every run the device reports exactly that. */
  lemma {:induction false} InterlockFollows(start: real, events: seq<Event>, ttl: real)
    ensures Run(start, events, ttl).device.values.interlockSafe <==> InterlockSafe(start, events, ttl)
  {
    if events != [] {
      var before := events[..|events| - 1];
      InterlockFollows(start, before, ttl);
      match events[|events| - 1] {
        case Send(_, c, now) =>
          if D.Applied(Run(start, before, ttl).device, c, now) {
            OtherInterlock(Run(start, before, ttl).device, c, now);
          } else {
            D.OnlyAppliedMoves(Run(start, before, ttl).device, c, now);
          }
        case _ =>
      }
    }
  }
}
