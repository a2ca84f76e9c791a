/** The primary control lease with its fencing token, and its safety over whole runs. */
module Lease {
  import opened Numeric

  type Owner = string

  /** The lease row: holder, fencing token and expiry. */
  datatype Row = Row(owner: Owner, token: int, expires: real)

  /** What one call leaves in the row and grants; no token while another owner holds an unexpired lease. */
  function Acquire(row: Option<Row>, owner: Owner, now: real, ttl: real): (Row, Option<int>) {
    match row
    case None => (Row(owner, 1, now + ttl), Some(1))
    case Some(held) =>
      if held.owner != owner && held.expires > now then (held, None)
      else
        var token := if held.owner != owner then held.token + 1 else held.token;
        (Row(owner, token, now + ttl), Some(token))
  }

  class LeaseTable {
    var row: Option<Row>

    constructor ()
      ensures row == None
    {
      row := None;
    }

    /** Creates, renews or takes over the lease in place. */
    method AcquireOrRenew(owner: Owner, now: real, ttl: real) returns (token: Option<int>)
      modifies this
      ensures row == Some(Acquire(old(row), owner, now, ttl).0)
      ensures token == Acquire(old(row), owner, now, ttl).1
    {
      if row.None? {
        row := Some(Row(owner, 1, now + ttl));
        return Some(1);
      }
      if row.value.owner != owner && row.value.expires > now {
        return None;
      }
      if row.value.owner != owner {
        row := Some(row.value.(token := row.value.token + 1));
      }
      row := Some(row.value.(owner := owner, expires := now + ttl));
      return Some(row.value.token);
    }
  }

  // ----------------------------------------------------------------------- whole runs

  datatype Call = Call(owner: Owner, now: real)

  /** A granted token with the interval in which its owner may act on it. */
  datatype Grant = Grant(owner: Owner, token: int, start: real, until: real)

  datatype History = History(row: Option<Row>, grants: seq<Grant>)

  function After(h: History, call: Call, ttl: real): History {
    var (row, token) := Acquire(h.row, call.owner, call.now, ttl);
    History(Some(row), if token.Some? then h.grants + [Grant(call.owner, token.value, call.now, call.now + ttl)] else h.grants)
  }

  function Run(calls: seq<Call>, ttl: real): History {
    if calls == [] then History(None, []) else After(Run(calls[..|calls| - 1], ttl), calls[|calls| - 1], ttl)
  }

  /** The clock of the database does not run backwards. */
  ghost predicate Chronological(calls: seq<Call>) {
    forall i, j :: 0 <= i <= j < |calls| ==> calls[i].now <= calls[j].now
  }

  ghost predicate Ordered(g: Grant, h: Grant) {
    && g.token <= h.token
    && (g.token == h.token ==> g.owner == h.owner)
    && (g.owner != h.owner ==> g.token < h.token && g.until <= h.start)
  }

  /** Granted tokens never decrease, one token belongs to one owner, and the validity intervals of different owners
      do not overlap. */
  ghost predicate Safe(grants: seq<Grant>) {
    forall i, j :: 0 <= i < j < |grants| ==> Ordered(grants[i], grants[j])
  }

  /** How a grant relates to the present row at a time. */
  ghost predicate Before(g: Grant, row: Row, now: real) {
    && g.token <= row.token
    && (g.token == row.token ==> g.owner == row.owner && g.until <= row.expires)
    && (g.owner != row.owner ==> g.token < row.token)
    && (g.token < row.token ==> g.until <= now)
  }

  ghost predicate Consistent(h: History, now: real) {
    && Safe(h.grants)
    && (h.row == None ==> h.grants == [])
    && (h.row.Some? ==> forall i :: 0 <= i < |h.grants| ==> Before(h.grants[i], h.row.value, now))
  }

  lemma {:induction false} StepIsConsistent(h: History, call: Call, ttl: real, now: real)
    requires Consistent(h, now) && now <= call.now
    requires h.row.Some? ==> h.row.value.expires <= now + ttl
    ensures Consistent(After(h, call, ttl), call.now)
  {}

  lemma {:induction false} RowExpiry(calls: seq<Call>, ttl: real)
    requires Chronological(calls) && calls != []
    ensures Run(calls, ttl).row.Some? && Run(calls, ttl).row.value.expires <= calls[|calls| - 1].now + ttl
    decreases |calls|
  {
    var rest := calls[..|calls| - 1];
    if rest != [] {
      RowExpiry(rest, ttl);
      assert rest[|rest| - 1].now <= calls[|calls| - 1].now;
    }
  }

  lemma {:induction false} RunIsConsistent(calls: seq<Call>, ttl: real)
    requires Chronological(calls)
    ensures calls == [] ==> Run(calls, ttl) == History(None, [])
    ensures calls != [] ==> Consistent(Run(calls, ttl), calls[|calls| - 1].now)
    decreases |calls|
  {
    if calls != [] {
      var rest, last := calls[..|calls| - 1], calls[|calls| - 1];
      RunIsConsistent(rest, ttl);
      if rest == [] {
        StepIsConsistent(History(None, []), last, ttl, last.now);
      } else {
        RowExpiry(rest, ttl);
        assert rest[|rest| - 1] == calls[|calls| - 2] && calls[|calls| - 2].now <= last.now;
        StepIsConsistent(Run(rest, ttl), last, ttl, rest[|rest| - 1].now);
      }
    }
  }

  /** Lease safety: over every run of acquisitions by any owners. */
  lemma {:induction false} LeaseIsSafe(calls: seq<Call>, ttl: real)
    requires Chronological(calls)
    ensures Safe(Run(calls, ttl).grants)
  {
    RunIsConsistent(calls, ttl);
  }

  /** The row is what the last grant left. */
  ghost predicate Held(h: History) {
    if h.grants == [] then h.row.None?
    else h.row == Some(Row(h.grants[|h.grants| - 1].owner, h.grants[|h.grants| - 1].token, h.grants[|h.grants| - 1].until))
  }

  lemma {:induction false} RunIsHeld(calls: seq<Call>, ttl: real)
    ensures Held(Run(calls, ttl))
  {
    if calls != [] {
      RunIsHeld(calls[..|calls| - 1], ttl);
    }
  }

  /** In every run a call is refused exactly while the last grant belongs to another owner and has not run out. Otherwise it is
      granted for ttl from now: the first token is 1, the holder keeps its token, and a new owner gets the next one. */
  lemma {:induction false} RefusedIff(calls: seq<Call>, call: Call, ttl: real)
    ensures var (before, after) := (Run(calls, ttl).grants, Run(calls + [call], ttl).grants);
      if before == [] then after == [Grant(call.owner, 1, call.now, call.now + ttl)]
      else
        var last := before[|before| - 1];
        if last.owner != call.owner && call.now < last.until then after == before
        else
          var token := if last.owner == call.owner then last.token else last.token + 1;
          after == before + [Grant(call.owner, token, call.now, call.now + ttl)]
  {
    RunIsHeld(calls, ttl);
    assert (calls + [call])[..|calls|] == calls;
  }
}
