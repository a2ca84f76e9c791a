/** The fenced, memoising device simulator. */
module Device {
  import opened Numeric

  type Key = string

  datatype CommandType = Initialize | SetOptics | MoveFr | Expose | Abort | Safe | Unknown(name: string)

  datatype Fault = Communication | HardLimit | PositionTimeout | GuiderLost | CcdReadout | InterlockOpen
                 | DiskFull | NasUnavailable | StaleState

  datatype Mode = Intensity | PolQ | PolU | PolV

  /** Parameters as the handlers parse them; none when a value is missing or does not parse. `seed` is the hash of the
      command id from which the position jitter is drawn. */
  datatype Parameters = Parameters(mode: Option<Mode>, fr1: Option<real>, fr3: Option<real>, frame: Option<string>, seed: nat)

  datatype Command = Command(key: Key, kind: CommandType, parameters: Parameters, deadline: real, token: int)

  datatype Status = Succeeded | Rejected | TimedOut | Failed

  datatype ErrorCode = StaleFencingToken | DeadlineExceeded | CommunicationLost | HardLimitActive | PositionNotReached
                     | UnknownCommand | NotInitialized | CcdReadoutFailed

  /** Measured angles, guider and storage flags that an exposure or a move reports. */
  datatype Report = NoReport | Moved(fr1: real, fr3: real) | Optics(mode: Mode)
                  | Frame(path: string, fr1: real, fr3: real, guiderLocked: bool, storageFault: bool)

  datatype Feedback = Feedback(status: Status, error: Option<ErrorCode>, report: Report)

  datatype OpticalMode = Standby | SafeMode | Observing(mode: Mode)

  datatype Values = Values(initialized: bool, fr1: real, fr3: real, optics: OpticalMode, guiderLocked: bool,
                           interlockSafe: bool, shutterClosed: bool)

  const INITIAL_VALUES: Values := Values(false, 0.0, 0.0, Standby, true, true, false)

  datatype State = State(feedback: map<Key, Feedback>, lastToken: int, faults: set<Fault>, values: Values)

  const INITIAL: State := State(map[], 0, {}, INITIAL_VALUES)

  function Refusal(status: Status, error: ErrorCode): Feedback { Feedback(status, Some(error), NoReport) }

  function Answer(report: Report): Feedback { Feedback(Succeeded, None, report) }

  /** Deterministic position error of a move, at most 0.005 degrees. */
  function Jitter(seed: nat): (j: real)
    ensures -0.005 <= j <= 0.005
  {
    (seed % 101 - 50) as real / 10000.0
  }

  /** The errors that occur are the multiples of 0.0001 degrees up to 0.005. */
  lemma {:induction false} JitterIff(j: real)
    ensures (exists seed: nat :: Jitter(seed) == j) <==> exists n: int :: -50 <= n <= 50 && Hundredths(n) == j
  {
    if seed: nat :| Jitter(seed) == j {
      assert Hundredths(seed % 101 - 50) == j;
    }
    if n: int :| -50 <= n <= 50 && Hundredths(n) == j {
      var seed: nat := n + 50;
      assert seed % 101 == seed;
      assert Jitter(seed) == j;
    }
  }

  function Hundredths(n: int): real { n as real * 0.0001 }

  // ----------------------------------------------------------------------- handlers

  /** What a handler leaves and reports; no feedback when it raises on its parameters. */
  function Handle(values: Values, faults: set<Fault>, c: Command): (Values, Option<Feedback>) {
    match c.kind
    case Initialize =>
      (values.(initialized := true, interlockSafe := InterlockOpen !in faults, optics := Standby), Some(Answer(NoReport)))
    case SetOptics =>
      if c.parameters.mode.None? then (values, None)
      else (values.(optics := Observing(c.parameters.mode.value)), Some(Answer(Optics(c.parameters.mode.value))))
    case MoveFr =>
      if c.parameters.fr1.None? || c.parameters.fr3.None? then (values, None)
      else
        var j := Jitter(c.parameters.seed);
        var fr1, fr3 := c.parameters.fr1.value + j, c.parameters.fr3.value - j;
        (values.(fr1 := fr1, fr3 := fr3), Some(Answer(Moved(fr1, fr3))))
    case Expose =>
      if !values.initialized then (values, Some(Refusal(Rejected, NotInitialized)))
      else
        var guided := if GuiderLost in faults then values.(guiderLocked := false) else values;
        if CcdReadout in faults then (guided, Some(Refusal(Failed, CcdReadoutFailed)))
        else if c.parameters.frame.None? || c.parameters.mode.None? then (guided, None)
        else (guided, Some(Answer(Frame(c.parameters.frame.value, guided.fr1, guided.fr3, guided.guiderLocked,
                                         DiskFull in faults || NasUnavailable in faults))))
    case Abort => (values.(shutterClosed := true), Some(Answer(NoReport)))
    case Safe => (values.(shutterClosed := true, optics := SafeMode, interlockSafe := true), Some(Answer(NoReport)))
    case Unknown(_) => (values, Some(Refusal(Rejected, UnknownCommand)))
  }

  /** The refusal of a fresh command whose token is current, if any. */
  function Obstacle(faults: set<Fault>, c: Command, now: real): Option<Feedback> {
    if now > c.deadline then Some(Refusal(TimedOut, DeadlineExceeded))
    else if Communication in faults then Some(Refusal(Failed, CommunicationLost))
    else if HardLimit in faults && (c.kind.MoveFr? || c.kind.SetOptics?) then Some(Refusal(Failed, HardLimitActive))
    else if PositionTimeout in faults && c.kind.MoveFr? then Some(Refusal(TimedOut, PositionNotReached))
    else None
  }

  /** One command: the recorded answer if its key was seen; a recorded rejection if its token is stale; otherwise the
      token becomes the highest one and the command is refused or handled, and the answer recorded. */
  function Executed(s: State, c: Command, now: real): (State, Option<Feedback>) {
    if c.key in s.feedback then (s, Some(s.feedback[c.key]))
    else if c.token < s.lastToken then Remembered(s, c, Refusal(Rejected, StaleFencingToken))
    else
      var fenced := s.(lastToken := c.token);
      var obstacle := Obstacle(s.faults, c, now);
      if obstacle.Some? then Remembered(fenced, c, obstacle.value)
      else
        var (values, feedback) := Handle(s.values, s.faults, c);
        if feedback.None? then (fenced.(values := values), None)
        else Remembered(fenced.(values := values), c, feedback.value)
  }

  function Remembered(s: State, c: Command, feedback: Feedback): (State, Option<Feedback>) {
    (s.(feedback := s.feedback[c.key := feedback]), Some(feedback))
  }

  function WithFault(s: State, fault: Fault, active: bool): State {
    var faults := if active then s.faults + {fault} else s.faults - {fault};
    var values :=
      if fault == GuiderLost && !active then s.values.(guiderLocked := true)
      else if fault == InterlockOpen then s.values.(interlockSafe := !active)
      else s.values;
    s.(faults := faults, values := values)
  }

  /** The simulator object. */
  class DeviceSimulator {
    var feedback: map<Key, Feedback>
    var lastToken: int
    var faults: set<Fault>
    var values: Values

    constructor ()
      ensures Abstract() == INITIAL
    {
      feedback, lastToken, faults, values := map[], 0, {}, INITIAL_VALUES;
    }

    ghost function Abstract(): State
      reads this
    {
      State(feedback, lastToken, faults, values)
    }

    method Execute(c: Command, now: real) returns (r: Option<Feedback>)
      modifies this
      ensures Abstract() == Executed(old(Abstract()), c, now).0
      ensures r == Executed(old(Abstract()), c, now).1
    {
      if c.key in feedback {
        return Some(feedback[c.key]);
      }
      if c.token < lastToken {
        r := Remember(c, Refusal(Rejected, StaleFencingToken));
        return;
      }
      lastToken := c.token;
      if now > c.deadline {
        r := Remember(c, Refusal(TimedOut, DeadlineExceeded));
        return;
      }
      if Communication in faults {
        r := Remember(c, Refusal(Failed, CommunicationLost));
        return;
      }
      if HardLimit in faults && (c.kind.MoveFr? || c.kind.SetOptics?) {
        r := Remember(c, Refusal(Failed, HardLimitActive));
        return;
      }
      if PositionTimeout in faults && c.kind.MoveFr? {
        r := Remember(c, Refusal(TimedOut, PositionNotReached));
        return;
      }
      r := Dispatch(c);
      if r.Some? {
        r := Remember(c, r.value);
      }
    }

    method Remember(c: Command, answer: Feedback) returns (r: Option<Feedback>)
      modifies this`feedback
      ensures feedback == old(feedback)[c.key := answer] && r == Some(answer)
    {
      feedback := feedback[c.key := answer];
      return Some(answer);
    }

    method Dispatch(c: Command) returns (r: Option<Feedback>)
      modifies this`values
      ensures (values, r) == Handle(old(values), faults, c)
    {
      match c.kind {
        case Initialize =>
          values := values.(initialized := true, interlockSafe := InterlockOpen !in faults, optics := Standby);
          r := Some(Answer(NoReport));
        case SetOptics =>
          if c.parameters.mode.None? {
            return None;
          }
          values := values.(optics := Observing(c.parameters.mode.value));
          r := Some(Answer(Optics(c.parameters.mode.value)));
        case MoveFr =>
          if c.parameters.fr1.None? || c.parameters.fr3.None? {
            return None;
          }
          var jitter := Jitter(c.parameters.seed);
          values := values.(fr1 := c.parameters.fr1.value + jitter);
          values := values.(fr3 := c.parameters.fr3.value - jitter);
          r := Some(Answer(Moved(values.fr1, values.fr3)));
        case Expose =>
          if !values.initialized {
            return Some(Refusal(Rejected, NotInitialized));
          }
          if GuiderLost in faults {
            values := values.(guiderLocked := false);
          }
          if CcdReadout in faults {
            return Some(Refusal(Failed, CcdReadoutFailed));
          }
          if c.parameters.frame.None? || c.parameters.mode.None? {
            return None;
          }
          r := Some(Answer(Frame(c.parameters.frame.value, values.fr1, values.fr3, values.guiderLocked,
                                  DiskFull in faults || NasUnavailable in faults)));
        case Abort =>
          values := values.(shutterClosed := true);
          r := Some(Answer(NoReport));
        case Safe =>
          values := values.(shutterClosed := true, optics := SafeMode, interlockSafe := true);
          r := Some(Answer(NoReport));
        case Unknown(_) =>
          r := Some(Refusal(Rejected, UnknownCommand));
      }
    }

    method InjectFault(fault: Fault, active: bool)
      modifies this
      ensures Abstract() == WithFault(old(Abstract()), fault, active)
    {
      faults := if active then faults + {fault} else faults - {fault};
      if fault == GuiderLost && !active {
        values := values.(guiderLocked := true);
      }
      if fault == InterlockOpen {
        values := values.(interlockSafe := !active);
      }
    }
  }

  // -------------------------------------------------------------------- properties

  /** The command reaches its handler and the handler reports success: this is when it takes effect. */
  predicate Applied(s: State, c: Command, now: real) {
    && c.key !in s.feedback && c.token >= s.lastToken && Obstacle(s.faults, c, now).None?
    && Handle(s.values, s.faults, c).1.Some? && Handle(s.values, s.faults, c).1.value.status.Succeeded?
  }

  /** The faults and parameters a command of its kind needs, besides a deadline that has not passed and a working network. */
  predicate Ready(s: State, c: Command) {
    match c.kind
    case Initialize => true
    case SetOptics => HardLimit !in s.faults && c.parameters.mode.Some?
    case MoveFr =>
      && HardLimit !in s.faults && PositionTimeout !in s.faults
      && c.parameters.fr1.Some? && c.parameters.fr3.Some?
    case Expose =>
      && s.values.initialized && CcdReadout !in s.faults
      && c.parameters.mode.Some? && c.parameters.frame.Some?
    case Abort => true
    case Safe => true
    case Unknown(_) => false
  }

  /** A fresh command with a current token succeeds exactly when it takes effect, and that is exactly when its deadline has
      not passed, the network works, and nothing its kind needs is missing or faulty. Apart from that it is answered with an
      error, or not at all when its handler cannot parse it. */
  lemma {:induction false} AppliedIff(s: State, c: Command, now: real)
    requires c.key !in s.feedback && c.token >= s.lastToken
    ensures Applied(s, c, now) <==> now <= c.deadline && Communication !in s.faults && Ready(s, c)
    ensures Applied(s, c, now) <==> Executed(s, c, now).1.Some? && Executed(s, c, now).1.value.status == Succeeded
    ensures Executed(s, c, now).1.Some? ==>
      (Executed(s, c, now).1.value.error.None? <==> Executed(s, c, now).1.value.status == Succeeded)
  {}

  /** Such a command is answered with an error of the network or of the clock whatever it is, and of a mechanism only when it
      would move one. */
  lemma {:induction false} RefusedIff(s: State, c: Command, now: real)
    requires c.key !in s.feedback && c.token >= s.lastToken && Executed(s, c, now).1.Some?
    ensures var error := Executed(s, c, now).1.value.error;
      && (error == Some(DeadlineExceeded) <==> now > c.deadline)
      && (error == Some(CommunicationLost) <==> now <= c.deadline && Communication in s.faults)
      && (now <= c.deadline && Communication !in s.faults ==>
            && (error == Some(HardLimitActive) <==> HardLimit in s.faults && (c.kind.MoveFr? || c.kind.SetOptics?))
            && (error == Some(PositionNotReached) <==>
                  c.kind.MoveFr? && PositionTimeout in s.faults && HardLimit !in s.faults)
            && (error == Some(NotInitialized) <==> c.kind.Expose? && !s.values.initialized)
            && (error == Some(CcdReadoutFailed) <==> c.kind.Expose? && s.values.initialized && CcdReadout in s.faults)
            && (error == Some(UnknownCommand) <==> c.kind.Unknown?))
  {}

  /** A move that takes effect reports the angles the device then holds, within 0.005 degrees of the commanded ones and
      with opposite errors. */
  lemma {:induction false} MovesArePrecise(s: State, c: Command, now: real)
    requires Applied(s, c, now) && c.kind.MoveFr?
    ensures var (after, feedback) := Executed(s, c, now);
      && feedback == Some(Answer(Moved(after.values.fr1, after.values.fr3)))
      && c.parameters.fr1.Some? && c.parameters.fr3.Some?
      && -0.005 <= after.values.fr1 - c.parameters.fr1.value <= 0.005
      && after.values.fr1 + after.values.fr3 == c.parameters.fr1.value + c.parameters.fr3.value
  {
    assert -0.005 <= Jitter(c.parameters.seed) <= 0.005;
  }

  /** An answer once recorded never changes, and tokens accepted by the device never decrease. */
  lemma {:induction false} RecordsAreFinal(s: State, c: Command, now: real, key: Key)
    requires key in s.feedback
    ensures key in Executed(s, c, now).0.feedback && Executed(s, c, now).0.feedback[key] == s.feedback[key]
    ensures Executed(s, c, now).0.lastToken >= s.lastToken
  {}

  /** A command under a fresh key raises the highest token to its own, also when it is refused afterwards, unless its own is
      lower. Exactly the answers that are given are recorded. */
  lemma {:induction false} FreshCommandCounts(s: State, c: Command, now: real)
    requires c.key !in s.feedback
    ensures Executed(s, c, now).0.lastToken == if c.token > s.lastToken then c.token else s.lastToken
    ensures Executed(s, c, now).0.feedback
         == if Executed(s, c, now).1.Some? then s.feedback[c.key := Executed(s, c, now).1.value] else s.feedback
    ensures Executed(s, c, now).0.faults == s.faults
  {}

  /** A repeated key is answered from the record and changes nothing. */
  lemma {:induction false} RepeatChangesNothing(s: State, c: Command, d: Command, now: real, later: real)
    requires d.key == c.key && Executed(s, c, now).1.Some?
    ensures Executed(Executed(s, c, now).0, d, later) == (Executed(s, c, now).0, Executed(s, c, now).1)
  {}

  const STALE: Feedback := Refusal(Rejected, StaleFencingToken)

  lemma {:induction false} HandlersAreNotStale(values: Values, faults: set<Fault>, c: Command)
    ensures Handle(values, faults, c).1 != Some(STALE)
  {}

  /** The answer to a command is the stale-token refusal exactly when that refusal is recorded under its key, or nothing is
      recorded and its token is lower than the highest one. In particular a command whose token is current is refused as
      stale exactly when the refusal of another command is recorded under its key. A stale command itself moves nothing. */
  lemma {:induction false} RefusedAsStaleIff(s: State, c: Command, now: real)
    ensures Executed(s, c, now).1 == Some(STALE) <==>
      if c.key in s.feedback then s.feedback[c.key] == STALE else c.token < s.lastToken
    ensures c.token < s.lastToken ==> Executed(s, c, now).0.values == s.values
  {
    HandlersAreNotStale(s.values, s.faults, c);
  }

  lemma {:induction false} OnlySuccessMoves(values: Values, faults: set<Fault>, c: Command)
    requires Handle(values, faults, c).1.Some? ==> !Handle(values, faults, c).1.value.status.Succeeded?
    ensures Handle(values, faults, c).0.(guiderLocked := values.guiderLocked) == values
  {}

  /** Apart from the guider flag, only a command that takes effect moves the device. */
  lemma {:induction false} OnlyAppliedMoves(s: State, c: Command, now: real)
    requires !Applied(s, c, now)
    ensures Executed(s, c, now).0.values.(guiderLocked := s.values.guiderLocked) == s.values
  {
    if c.key !in s.feedback && c.token >= s.lastToken && Obstacle(s.faults, c, now).None? {
      OnlySuccessMoves(s.values, s.faults, c);
    }
  }
}
