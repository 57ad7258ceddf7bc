/** What beginning and finishing a login do to the row of a client, case by case and in plain
    numbers of microseconds. Nothing here uses the functions that the repository's methods are
    proved against; that they agree is proved below. */
module LoginRules {
  import opened Counting
  import opened LoginLimiter

  /** 1 to 1000 failures, a window of a second to an hour, a block of a second to a day. */
  lemma PolicyIff(p: Policy)
    ensures p.Valid() <==>
      && 1 <= p.threshold <= 1000 && 1_000_000 <= p.window <= 3_600_000_000
      && 1_000_000 <= p.block <= 86_400_000_000
  {}

  /** A row is stale when it was not updated for twice the longer of window and block. */
  lemma StaleIff(row: Row, p: Policy, now: Time)
    ensures Stale(row, p, now) <==> row.updated + 2 * p.block < now && row.updated + 2 * p.window < now
  {}

  /** `wait` is `span` in whole seconds, rounded up, and at least one second. */
  predicate Waits(wait: int, span: int) {
    wait % 1_000_000 == 0 && wait >= 1_000_000 && span <= wait && (wait == 1_000_000 || wait < span + 1_000_000)
  }

  lemma WaitIs(until: Time, now: Time)
    ensures Waits(RetryAfter(until, now), until - now)
  {}

  /** The row that is read: the one found, or a new one. */
  predicate Seen(found: Option<Row>, p: Policy, t: Times, row: Row) {
    match found
    case Some(r) => row == r
    case None =>
      && row.start == t.insert && row.expires == t.insert + p.window && row.failures == 0 && row.inFlight == 0
      && row.blockedUntil == None && row.updated == t.insert
  }

  /** A window that opens at `at`, with one attempt in flight. */
  predicate OpensAt(row: Row, at: Time, p: Policy, t: Times) {
    && row.start == at && row.expires == at + p.window && row.failures == 0 && row.inFlight == 1
    && row.blockedUntil == None && row.updated == t.write
  }

  predicate SameWindow(row: Row, after: Row) {
    after.start == row.start && after.expires == row.expires && after.failures == row.failures
  }

  /** Blocked; blocked before or run out; not blocked at the threshold; full; or admitted. */
  predicate BeginRule(key: ClientKey, row: Row, p: Policy, t: Times, after: Row, answer: Attempt) {
    if row.blockedUntil.Some? && t.read < row.blockedUntil.value then
      after == row && answer.Limited? && answer.key == key && Waits(answer.retryAfter, row.blockedUntil.value - t.read)
    else if row.blockedUntil.Some? || row.expires <= t.read then
      OpensAt(after, t.reset, p, t) && answer == Admitted(key, t.reset)
    else if p.threshold <= row.failures then
      && SameWindow(row, after) && after.inFlight == row.inFlight && after.blockedUntil == Some(t.reread + p.block)
      && after.updated == t.reread
      && answer.Limited? && answer.key == key && Waits(answer.retryAfter, t.reread + p.block - t.write)
    else if p.threshold <= row.failures + row.inFlight then
      after == row && answer == Limited(key, 1_000_000)
    else
      && SameWindow(row, after) && after.inFlight == row.inFlight + 1 && after.blockedUntil == None
      && after.updated == t.write && answer == Admitted(key, row.start)
  }

  /** BeginLoginAttempt follows the rule. */
  lemma BeginFollows(key: ClientKey, found: Option<Row>, p: Policy, t: Times)
    requires p.Valid()
    ensures exists row :: Seen(found, p, t, row) && BeginRule(key, row, p, t, Enter(key, found, p, t).0, Enter(key,
        found, p, t).1)
  {
    hide RetryAfter, Waits;
    var row := if found.Some? then found.value else NewRow(t.insert, p);
    assert Seen(found, p, t, row);
    if row.blockedUntil.Some? { WaitIs(row.blockedUntil.value, t.read); }
    WaitIs(t.reread + p.block, t.write);
    assert BeginRule(key, row, p, t, Enter(key, found, p, t).0, Enter(key, found, p, t).1);
  }

  /** Another window, or nothing in flight, stays; a window that ran out is replaced by an empty
      one; otherwise one attempt fewer is in flight, and a failure counts one more. The failure
      that reaches the threshold blocks for exactly the block duration from when it is written. */
  predicate FinishRule(row: Row, start: Time, failed: bool, p: Policy, read: Time, write: Time, after: Row) {
    if row.start != start then after == row
    else if row.expires <= read then
      && after.start == write && after.expires == write + p.window && after.failures == 0 && after.inFlight == 0
      && after.blockedUntil == None && after.updated == write
    else if row.inFlight == 0 then after == row
    else
      && after.start == row.start && after.expires == row.expires && after.inFlight == row.inFlight - 1
      && after.updated == write && after.failures == (if failed then row.failures + 1 else row.failures)
      && (failed && p.threshold <= after.failures ==> after.blockedUntil == Some(write + p.block))
      && (!failed || after.failures < p.threshold ==> after.blockedUntil == row.blockedUntil)
  }

  /** FinishLoginAttempt follows the rule. */
  lemma FinishFollows(row: Row, start: Time, failed: bool, p: Policy, read: Time, write: Time)
    ensures FinishRule(row, start, failed, p, read, write, Exit(row, start, failed, p, read, write))
  {}
}
