/** The login rate limiter: per client a window with a failure count, reservations for
    attempts in flight, and a block. Every SQL statement reads the database clock for
    itself; the readings of one call never go back. */
module LoginLimiter {
  import opened Counting

  type ClientKey = nat
  type Time = int      // database microseconds

  const SECOND: int := 1_000_000
  const HOUR: int := 3600 * SECOND
  const CLEANUP_BATCH := 64

  datatype Policy = Policy(threshold: int, window: int, block: int) {
    predicate Valid() {
      && 0 < threshold <= 1000
      && SECOND <= window <= HOUR
      && SECOND <= block <= 24 * HOUR
    }

    /** loginRateLimitRetention */
    function Retention(): int { 2 * (if block > window then block else window) }
  }

  datatype Row = Row(
    start: Time, expires: Time, failures: int, inFlight: int, blockedUntil: Option<Time>,
    updated: Time)

  datatype Attempt =
    | Admitted(key: ClientKey, start: Time)
    | Limited(key: ClientKey, retryAfter: int)

  /** The clock readings of one BeginLoginAttempt, statement by statement. */
  datatype Times = Times(prune: Time, insert: Time, read: Time, reset: Time, reread: Time, write: Time)
  {
    predicate Ordered(clock: Time) { clock <= prune <= insert <= read <= reset <= reread <= write }
  }

  /** retryAfterDuration: up to the next whole second, and never less than one. */
  function RetryAfter(until: Time, now: Time): (r: int)
    ensures r >= SECOND && r % SECOND == 0
    ensures until > now ==> until - now <= r < until - now + SECOND
  {
    if until <= now then SECOND else ((until - now + SECOND - 1) / SECOND) * SECOND
  }

  // ---------------------------------------------------------------- specification

  function NewRow(at: Time, p: Policy): Row { Row(at, at + p.window, 0, 0, None, at) }

  /** The row a call decides on: the current one, or a fresh window in its place. */
  function Current(row: Row, p: Policy, t: Times): Row {
    if row.expires <= t.read || row.blockedUntil.Some? then NewRow(t.reset, p) else row
  }

  /** The answer for a window that is current and not blocked, and its row afterwards. */
  function Decide(key: ClientKey, row: Row, p: Policy, t: Times): (Row, Attempt) {
    if row.failures >= p.threshold then
      (row.(blockedUntil := Some(t.reread + p.block), updated := t.reread),
       Limited(key, RetryAfter(t.reread + p.block, t.write)))
    else if row.failures + row.inFlight >= p.threshold then (row, Limited(key, SECOND))
    else (row.(inFlight := row.inFlight + 1, updated := t.write), Admitted(key, row.start))
  }

  /** BeginLoginAttempt for one client: the row it leaves behind, and its answer. */
  function Enter(key: ClientKey, found: Option<Row>, p: Policy, t: Times): (Row, Attempt) {
    var row := if found.Some? then found.value else NewRow(t.insert, p);
    if row.blockedUntil.Some? && row.blockedUntil.value > t.read
    then (row, Limited(key, RetryAfter(row.blockedUntil.value, t.read)))
    else Decide(key, Current(row, p, t), p, t)
  }

  /** FinishLoginAttempt for one client: read at `read`, written at `write`. */
  function Exit(row: Row, start: Time, failed: bool, p: Policy, read: Time, write: Time): Row {
    if row.start != start then row
    else if row.expires <= read then NewRow(write, p)
    else if row.inFlight == 0 then row
    else if failed then
      row.(failures := row.failures + 1, inFlight := row.inFlight - 1,
           blockedUntil := if row.failures + 1 >= p.threshold then Some(write + p.block)
                           else row.blockedUntil,
           updated := write)
    else row.(inFlight := row.inFlight - 1, updated := write)
  }

  predicate Stale(row: Row, p: Policy, now: Time) { row.updated < now - p.Retention() }

  /** The rows of the clients in `gone` were stale and have been deleted, the longest unused
      first. */
  ghost predicate Pruned(was: map<ClientKey, Row>, rows: map<ClientKey, Row>, gone: set<ClientKey>, p: Policy, now: Time) {
    && rows == was - gone && gone <= was.Keys
    && (forall k | k in gone :: Stale(was[k], p, now))
    && forall k, l | k in gone && l in rows && Stale(rows[l], p, now) :: was[k].updated <= rows[l].updated
  }

  lemma NonePruned(rows: map<ClientKey, Row>, p: Policy, now: Time)
    ensures Pruned(rows, rows, {}, p, now)
  {}

  lemma OneMorePruned(
    was: map<ClientKey, Row>, rows: map<ClientKey, Row>, gone: set<ClientKey>, p: Policy, now: Time, k: ClientKey)
    requires Pruned(was, rows, gone, p, now) && k in rows && Stale(rows[k], p, now)
    requires forall l | l in rows && Stale(rows[l], p, now) :: rows[k].updated <= rows[l].updated
    ensures k !in gone && Pruned(was, rows - {k}, gone + {k}, p, now)
  {
    hide Stale;
    assert rows - {k} == was - (gone + {k});
  }

  lemma PrunedTells(was: map<ClientKey, Row>, rows: map<ClientKey, Row>, gone: set<ClientKey>, p: Policy, now: Time)
    requires Pruned(was, rows, gone, p, now)
    ensures rows.Keys <= was.Keys && was.Keys - rows.Keys == gone
    ensures forall k | k in rows :: rows[k] == was[k]
    ensures forall k | k in was && k !in rows :: Stale(was[k], p, now)
    ensures forall k, l | k in was && k !in rows && l in rows && Stale(rows[l], p, now) :: was[k].updated <= rows[l].updated
  {
    hide Stale;
  }

  // ---------------------------------------------------------------- the repository

  class Limiter {
    var rows: map<ClientKey, Row>

    constructor ()
      ensures rows == map[]
    {
      rows := map[];
    }

    /** DELETE ... WHERE updated_at < ... ORDER BY updated_at, client_key LIMIT 64 */
    method Prune(p: Policy, now: Time)
      modifies this
      ensures rows.Keys <= old(rows).Keys
      ensures forall k | k in rows :: rows[k] == old(rows)[k]
      ensures forall k | k in old(rows) && k !in rows :: Stale(old(rows)[k], p, now)
      ensures |old(rows).Keys - rows.Keys| <= 64
      ensures |old(rows).Keys - rows.Keys| < 64 ==>
        forall k | k in rows :: !Stale(rows[k], p, now)
      ensures forall k, l | k in old(rows) && k !in rows && l in rows && Stale(rows[l], p, now) ::
        old(rows)[k].updated <= rows[l].updated
    {
      hide Stale, Pruned;
      ghost var was := rows;
      ghost var gone: set<ClientKey> := {};
      var n := 0;
      NonePruned(was, p, now);
      while n < CLEANUP_BATCH
        invariant 0 <= n <= CLEANUP_BATCH && |gone| == n
        invariant Pruned(was, rows, gone, p, now)
      {
        var oldest := Oldest(p, now);
        if oldest.None? { break; }
        OneMorePruned(was, rows, gone, p, now, oldest.value);
        gone := gone + {oldest.value};
        rows := rows - {oldest.value};
        n := n + 1;
      }
      PrunedTells(was, rows, gone, p, now);
    }

    /** The stale row that was updated first, and the smallest key among those. */
    method Oldest(p: Policy, now: Time) returns (found: Option<ClientKey>)
      ensures found.None? ==> forall k | k in rows :: !Stale(rows[k], p, now)
      ensures found.Some? ==>
        && found.value in rows && Stale(rows[found.value], p, now)
        && forall k | k in rows && Stale(rows[k], p, now) ::
             rows[found.value].updated < rows[k].updated ||
             (rows[found.value].updated == rows[k].updated && found.value <= k)
    {
      var rest := rows.Keys;
      found := None;
      while rest != {}
        invariant rest <= rows.Keys
        invariant found.None? ==> forall k | k in rows && k !in rest :: !Stale(rows[k], p, now)
        invariant found.Some? ==>
          && found.value in rows && Stale(rows[found.value], p, now)
          && forall k | k in rows && k !in rest && Stale(rows[k], p, now) ::
               rows[found.value].updated < rows[k].updated ||
               (rows[found.value].updated == rows[k].updated && found.value <= k)
        decreases |rest|
      {
        var k :| k in rest;
        rest := rest - {k};
        if Stale(rows[k], p, now) {
          if found.None? || rows[k].updated < rows[found.value].updated ||
             (rows[k].updated == rows[found.value].updated && k < found.value) {
            found := Some(k);
          }
        }
      }
    }

    /** BeginLoginAttempt; `kept` is the table as the cleanup left it. */
    method BeginLoginAttempt(key: ClientKey, p: Policy, t: Times)
      returns (r: Option<Attempt>, ghost kept: map<ClientKey, Row>)
      modifies this
      ensures !p.Valid() ==> r.None? && rows == old(rows)
      ensures p.Valid() ==>
        && Kept(old(rows), kept, p, t.prune)
        && rows == kept[key := Enter(key, Find(kept, key), p, t).0]
        && r == Some(Enter(key, Find(kept, key), p, t).1)
    {
      kept := rows;
      if !p.Valid() { return None, rows; }
      Prune(p, t.prune);
      kept := rows;
      var answer := Reserve(key, p, t);
      r := Some(answer);
    }

    /** The transaction of BeginLoginAttempt. */
    method Reserve(key: ClientKey, p: Policy, t: Times) returns (r: Attempt)
      modifies this
      ensures rows == old(rows)[key := Enter(key, Find(old(rows), key), p, t).0]
      ensures r == Enter(key, Find(old(rows), key), p, t).1
    {
      hide RetryAfter;
      if key !in rows { rows := rows[key := NewRow(t.insert, p)]; }
      var state := rows[key];
      if state.blockedUntil.Some? && state.blockedUntil.value > t.read {
        return Limited(key, RetryAfter(state.blockedUntil.value, t.read));
      }
      if state.expires <= t.read || state.blockedUntil.Some? {
        rows := rows[key := state.(start := t.reset, expires := t.reset + p.window, failures := 0,
                                   inFlight := 0, blockedUntil := None, updated := t.reset)];
        state := rows[key];
      }
      if state.failures >= p.threshold {
        rows := rows[key := state.(blockedUntil := Some(t.reread + p.block), updated := t.reread)];
        state := rows[key];
        return Limited(key, RetryAfter(state.blockedUntil.value, t.write));
      }
      if state.failures + state.inFlight >= p.threshold {
        return Limited(key, SECOND);
      }
      rows := rows[key := state.(inFlight := state.inFlight + 1, updated := t.write)];
      return Admitted(key, state.start);
    }

    /** FinishLoginAttempt: true if the call reports an error. */
    method FinishLoginAttempt(attempt: Attempt, failed: bool, p: Policy, read: Time, write: Time)
      returns (error: bool)
      modifies this
      ensures error <==> attempt.Limited? || !p.Valid() || attempt.key !in old(rows) ||
                         (old(rows)[attempt.key].start == attempt.start &&
                          old(rows)[attempt.key].expires > read &&
                          old(rows)[attempt.key].inFlight == 0)
      ensures rows ==
        if attempt.Limited? || !p.Valid() || attempt.key !in old(rows) then old(rows)
        else old(rows)[attempt.key := Exit(old(rows)[attempt.key], attempt.start, failed, p, read, write)]
    {
      if attempt.Limited? || !p.Valid() { return true; }
      if attempt.key !in rows { return true; }
      var state := rows[attempt.key];
      assert rows[attempt.key := state] == rows;
      if state.start != attempt.start { return false; }
      if state.expires <= read {
        rows := rows[attempt.key := NewRow(write, p)];
        return false;
      }
      if state.inFlight == 0 { return true; }
      if failed {
        var blocked := state.blockedUntil;
        if state.failures + 1 >= p.threshold { blocked := Some(write + p.block); }
        rows := rows[attempt.key := state.(failures := state.failures + 1,
                                           inFlight := state.inFlight - 1,
                                           blockedUntil := blocked, updated := write)];
      } else {
        rows := rows[attempt.key := state.(inFlight := state.inFlight - 1, updated := write)];
      }
      return false;
    }
  }

  function Find(rows: map<ClientKey, Row>, key: ClientKey): Option<Row> {
    if key in rows then Some(rows[key]) else None
  }

  /** What the cleanup may leave of a table: every row that is not stale, and no change
      to the ones it leaves. */
  predicate Kept(rows: map<ClientKey, Row>, kept: map<ClientKey, Row>, p: Policy, now: Time) {
    && kept.Keys <= rows.Keys
    && (forall k | k in kept :: kept[k] == rows[k])
    && (forall k | k in rows && k !in kept :: Stale(rows[k], p, now))
  }

  // ---------------------------------------------------------------- runs

  /** The table together with what no column keeps: the attempts still in flight, the
      failures of each window, the last window each client ever had, and when an attempt of
      the client last failed in time. */
  datatype World = World(
    clock: Time, rows: map<ClientKey, Row>, flying: multiset<(ClientKey, Time)>,
    failed: multiset<(ClientKey, Time)>, last: map<ClientKey, Time>, struck: map<ClientKey, Time>)

  datatype Event =
    | Begin(key: ClientKey, times: Times, kept: map<ClientKey, Row>)
    | Finish(key: ClientKey, start: Time, bad: bool, read: Time, write: Time)

  /** Clocks do not go back, the cleanup only takes stale rows, and every attempt is
      finished at most once. */
  predicate Possible(w: World, p: Policy, ev: Event) {
    match ev
    case Begin(_, t, kept) => t.Ordered(w.clock) && Kept(w.rows, kept, p, t.prune)
    case Finish(key, start, _, read, write) =>
      w.clock <= read <= write && (key, start) in w.flying
  }

  function Next(w: World, p: Policy, ev: Event): World {
    match ev
    case Begin(key, t, kept) =>
      var outcome := Enter(key, Find(kept, key), p, t);
      w.(clock := t.write, rows := kept[key := outcome.0],
         flying := if outcome.1.Admitted? then w.flying + multiset{(key, outcome.1.start)}
                   else w.flying,
         last := w.last[key := outcome.0.start])
    case Finish(key, start, bad, read, write) =>
      if key !in w.rows then w.(clock := write, flying := w.flying - multiset{(key, start)})
      else
        var row := w.rows[key];
        var after := Exit(row, start, bad, p, read, write);
        var fails := bad && Running(row, start, read);
        w.(clock := write, rows := w.rows[key := after],
           flying := w.flying - multiset{(key, start)},
           failed := if fails then w.failed + multiset{(key, start)} else w.failed,
           last := w.last[key := after.start],
           struck := if fails then w.struck[key := write] else w.struck)
  }

  /** The window of an attempt is the current one and has not run out. */
  predicate Running(row: Row, start: Time, read: Time) { row.start == start && read < row.expires }

  function Run(p: Policy, evs: seq<Event>): World {
    if evs == [] then World(0, map[], multiset{}, multiset{}, map[], map[])
    else Next(Run(p, evs[..|evs| - 1]), p, evs[|evs| - 1])
  }

  predicate Runs(p: Policy, evs: seq<Event>) {
    evs == [] ||
    (Runs(p, evs[..|evs| - 1]) && Possible(Run(p, evs[..|evs| - 1]), p, evs[|evs| - 1]))
  }

  // ---------------------------------------------------------------- invariant

  /** A row against its history. */
  predicate RowOk(w: World, p: Policy, k: ClientKey)
    requires k in w.rows
  {
    var row := w.rows[k];
    && k in w.last && row.start == w.last[k]
    && row.start <= row.updated <= w.clock && row.start + p.window == row.expires
    && 0 <= row.failures && row.inFlight == w.flying[(k, row.start)]
    && row.failures == w.failed[(k, row.start)]
    && row.failures + row.inFlight <= p.threshold
    && (row.blockedUntil.Some? <==> row.failures == p.threshold)
    && (row.blockedUntil.Some? ==>
          k in w.struck && row.start <= w.struck[k] && row.blockedUntil.value == w.struck[k] + p.block)
  }

  /** A window of the past: it ended before the last one began, with its failures
      within the threshold. */
  predicate PastOk(w: World, p: Policy, window: (ClientKey, Time)) {
    && (window in w.flying || window in w.failed ==>
          window.0 in w.last && window.1 <= w.last[window.0])
    && w.failed[window] <= p.threshold
  }

  predicate GoneOk(w: World, k: ClientKey)
    requires k in w.last
  {
    k !in w.rows ==> w.last[k] < w.clock
  }

  ghost predicate Ok(w: World, p: Policy) {
    && (forall k | k in w.rows :: RowOk(w, p, k))
    && (forall k, s :: PastOk(w, p, (k, s)))
    && (forall k | k in w.last :: GoneOk(w, k))
  }

  /** The window a call leaves for its client is the last one, or begins after it. */
  lemma WindowMovesOn(w: World, p: Policy, key: ClientKey, t: Times, kept: map<ClientKey, Row>)
    requires Ok(w, p) && p.Valid() && Possible(w, p, Begin(key, t, kept))
    ensures var row := Enter(key, Find(kept, key), p, t).0;
      && ((key in kept && row.start == kept[key].start) ||
          (key in w.last ==> w.last[key] < row.start))
      && row.start <= row.updated <= t.write
  {
    if key in kept {
      assert RowOk(w, p, key);
    } else if key in w.rows {
      assert RowOk(w, p, key);
      assert Stale(w.rows[key], p, t.prune);
    } else if key in w.last {
      assert GoneOk(w, key);
    }
  }

  /** No attempt and no failure belongs to a window that has not begun yet. */
  lemma NoFuture(w: World, p: Policy, k: ClientKey, s: Time)
    requires Ok(w, p) && (k in w.last ==> w.last[k] < s)
    ensures w.flying[(k, s)] == 0 && w.failed[(k, s)] == 0
  {
    assert PastOk(w, p, (k, s));
  }

  lemma EnterOk(w: World, p: Policy, key: ClientKey, t: Times, kept: map<ClientKey, Row>)
    requires Ok(w, p) && p.Valid() && Possible(w, p, Begin(key, t, kept))
    ensures RowOk(Next(w, p, Begin(key, t, kept)), p, key)
  {
    hide RetryAfter;
    WindowMovesOn(w, p, key, t, kept);
    var row := Enter(key, Find(kept, key), p, t).0;
    if key in kept { assert RowOk(w, p, key); }
    if !(key in kept && row.start == kept[key].start) { NoFuture(w, p, key, row.start); }
  }

  lemma BeginOk(w: World, p: Policy, key: ClientKey, t: Times, kept: map<ClientKey, Row>)
    requires Ok(w, p) && p.Valid() && Possible(w, p, Begin(key, t, kept))
    ensures Ok(Next(w, p, Begin(key, t, kept)), p)
  {
    hide Enter, RowOk, PastOk, GoneOk, Possible;
    var n := Next(w, p, Begin(key, t, kept));
    forall k | k in n.rows ensures RowOk(n, p, k) {
      if k == key { EnterOk(w, p, key, t, kept); } else { OtherRow(w, p, key, t, kept, k); }
    }
    forall k, s ensures PastOk(n, p, (k, s)) { PastStays(w, p, key, t, kept, k, s); }
    forall k | k in n.last ensures GoneOk(n, k) { if k != key { GoneStays(w, p, key, t, kept, k); } else { KeptIsHere(n, key); } }
  }

  lemma KeptIsHere(w: World, k: ClientKey)
    requires k in w.last && k in w.rows
    ensures GoneOk(w, k)
  {}

  lemma OtherRow(w: World, p: Policy, key: ClientKey, t: Times, kept: map<ClientKey, Row>, k: ClientKey)
    requires Ok(w, p) && Possible(w, p, Begin(key, t, kept)) && k != key && k in kept
    ensures RowOk(Next(w, p, Begin(key, t, kept)), p, k)
  {
    hide Enter;
    assert RowOk(w, p, k);
    OthersFly(w, p, key, t, kept, k);
  }

  lemma PastStays(w: World, p: Policy, key: ClientKey, t: Times, kept: map<ClientKey, Row>, k: ClientKey, s: Time)
    requires Ok(w, p) && p.Valid() && Possible(w, p, Begin(key, t, kept))
    ensures PastOk(Next(w, p, Begin(key, t, kept)), p, (k, s))
  {
    hide Enter;
    assert PastOk(w, p, (k, s));
    WindowMovesOn(w, p, key, t, kept);
    if key in w.rows { assert RowOk(w, p, key); }
    AdmittedHere(key, Find(kept, key), p, t);
  }

  lemma GoneStays(w: World, p: Policy, key: ClientKey, t: Times, kept: map<ClientKey, Row>, k: ClientKey)
    requires Ok(w, p) && p.Valid() && Possible(w, p, Begin(key, t, kept)) && k != key && k in w.last
    ensures GoneOk(Next(w, p, Begin(key, t, kept)), k)
  {
    hide Enter;
    assert GoneOk(w, k);
    if k in w.rows && k !in kept { assert RowOk(w, p, k) && Stale(w.rows[k], p, t.prune); }
  }

  lemma AdmittedHere(key: ClientKey, found: Option<Row>, p: Policy, t: Times)
    ensures var o := Enter(key, found, p, t); o.1.Admitted? ==> o.1.start == o.0.start
  {
    hide RetryAfter;
  }

  lemma OthersFly(
    w: World, p: Policy, key: ClientKey, t: Times, kept: map<ClientKey, Row>, k: ClientKey)
    requires k != key
    ensures forall s :: Next(w, p, Begin(key, t, kept)).flying[(k, s)] == w.flying[(k, s)]
  {
    hide Enter;
  }

  lemma ExitOk(w: World, p: Policy, key: ClientKey, start: Time, bad: bool, read: Time, write: Time)
    requires Ok(w, p) && p.Valid() && Possible(w, p, Finish(key, start, bad, read, write))
    requires key in w.rows
    ensures var n := Next(w, p, Finish(key, start, bad, read, write));
      && RowOk(n, p, key) && w.last[key] <= n.last[key]
      && forall s :: PastOk(n, p, (key, s))
  {
    assert RowOk(w, p, key) && PastOk(w, p, (key, start));
    var n := Next(w, p, Finish(key, start, bad, read, write));
    if n.rows[key].start != w.rows[key].start { NoFuture(w, p, key, n.rows[key].start); }
    forall s ensures PastOk(n, p, (key, s)) { assert PastOk(w, p, (key, s)); }
  }

  lemma FinishOk(w: World, p: Policy, key: ClientKey, start: Time, bad: bool, read: Time, write: Time)
    requires Ok(w, p) && p.Valid() && Possible(w, p, Finish(key, start, bad, read, write))
    ensures Ok(Next(w, p, Finish(key, start, bad, read, write)), p)
  {
    hide Exit;
    var n := Next(w, p, Finish(key, start, bad, read, write));
    if key in w.rows { ExitOk(w, p, key, start, bad, read, write); }
    forall k | k in n.rows ensures RowOk(n, p, k) { if k != key { assert RowOk(w, p, k); } }
    forall k, s ensures PastOk(n, p, (k, s)) {
      if k != key || key !in w.rows { assert PastOk(w, p, (k, s)); }
    }
    forall k | k in n.last ensures GoneOk(n, k) { if k != key || key !in w.rows { assert GoneOk(w, k); } }
  }

  lemma {:induction false} RunOk(p: Policy, evs: seq<Event>)
    requires p.Valid() && Runs(p, evs)
    ensures Ok(Run(p, evs), p)
  {
    hide Ok, Next, Possible;
    if evs == [] {
      StartOk(p);
    } else {
      var w, ev := Run(p, evs[..|evs| - 1]), evs[|evs| - 1];
      RunOk(p, evs[..|evs| - 1]);
      match ev
      case Begin(key, t, kept) => BeginOk(w, p, key, t, kept);
      case Finish(key, start, bad, read, write) => FinishOk(w, p, key, start, bad, read, write);
    }
  }

  lemma StartOk(p: Policy)
    requires p.Valid()
    ensures Ok(World(0, map[], multiset{}, multiset{}, map[], map[]), p)
  {}

  // ---------------------------------------------------------------- what the limiter promises

  /** At every moment of every run: the reservations of a client's window are the attempts
      of that window still in flight; with the failures they stay within the threshold;
      and once the failures reach it nothing is in flight and the client is blocked. */
  lemma WindowsAccounted(p: Policy, evs: seq<Event>, k: ClientKey)
    requires p.Valid() && Runs(p, evs) && k in Run(p, evs).rows
    ensures var w := Run(p, evs); var row := w.rows[k];
      && row.inFlight == w.flying[(k, row.start)]
      && row.failures == w.failed[(k, row.start)]
      && row.failures + row.inFlight <= p.threshold
      && (row.failures == p.threshold ==> w.flying[(k, row.start)] == 0 && row.blockedUntil.Some?)
  {
    hide Run;
    RunOk(p, evs);
    assert RowOk(Run(p, evs), p, k);
  }

  /** A client is blocked for exactly the block duration from the failure that reached the
      threshold, which is the last one of its window. */
  lemma BlockEnds(p: Policy, evs: seq<Event>, k: ClientKey)
    requires p.Valid() && Runs(p, evs) && k in Run(p, evs).rows
    ensures var w := Run(p, evs); var row := w.rows[k];
      && row.expires == row.start + p.window
      && (row.failures == p.threshold ==> k in w.struck && row.blockedUntil == Some(w.struck[k] + p.block))
      && (row.failures < p.threshold ==> row.blockedUntil == None)
  {
    hide Run;
    RunOk(p, evs);
    assert RowOk(Run(p, evs), p, k);
  }

  /** However many logins race, no window ever records more failures than the threshold. */
  lemma FailuresBounded(p: Policy, evs: seq<Event>, k: ClientKey, start: Time)
    requires p.Valid() && Runs(p, evs)
    ensures Run(p, evs).failed[(k, start)] <= p.threshold
  {
    hide Run;
    RunOk(p, evs);
    assert PastOk(Run(p, evs), p, (k, start));
  }

  /** A window that takes the place of another begins strictly after it, even when the
      old row was cleaned up in between. */
  lemma WindowsIncrease(p: Policy, evs: seq<Event>, ev: Event, k: ClientKey)
    requires p.Valid() && Runs(p, evs) && Possible(Run(p, evs), p, ev)
    requires k in Run(p, evs).last
    ensures var w, n := Run(p, evs), Next(Run(p, evs), p, ev);
      && k in n.last
      && n.last[k] >= w.last[k]
      && (k in n.rows && !(k in w.rows && n.rows[k].start == w.rows[k].start) ==>
            n.last[k] > w.last[k])
  {
    hide Run, Enter;
    RunOk(p, evs);
    var w := Run(p, evs);
    if k in w.rows { assert RowOk(w, p, k); }
    if ev.Begin? && ev.key == k { WindowMovesOn(w, p, k, ev.times, ev.kept); }
    if ev.Finish? && ev.key == k { assert PastOk(w, p, (k, ev.start)); }
  }

  /** A finish for a window that is over leaves the current window alone. */
  lemma StaleFinishIsHarmless(
    p: Policy, evs: seq<Event>, key: ClientKey, start: Time, bad: bool, read: Time, write: Time)
    requires p.Valid() && Runs(p, evs) && Possible(Run(p, evs), p, Finish(key, start, bad, read, write))
    requires key in Run(p, evs).last && start != Run(p, evs).last[key]
    ensures var n := Next(Run(p, evs), p, Finish(key, start, bad, read, write));
      n.rows == Run(p, evs).rows && n.failed == Run(p, evs).failed
  {
    hide Run;
    RunOk(p, evs);
    var w := Run(p, evs);
    if key in w.rows {
      assert RowOk(w, p, key);
      assert w.rows[key := w.rows[key]] == w.rows;
    }
  }

  /** An attempt is admitted exactly when the client is not blocked and its current window
      has room left; a blocked client is told to wait out the block, rounded up. */
  lemma AdmittedIff(p: Policy, evs: seq<Event>, key: ClientKey, t: Times, kept: map<ClientKey, Row>)
    requires p.Valid() && Runs(p, evs) && Possible(Run(p, evs), p, Begin(key, t, kept))
    ensures
      var found := Find(kept, key);
      var blocked := found.Some? && found.value.blockedUntil.Some? &&
                     found.value.blockedUntil.value > t.read;
      var full := found.Some? && found.value.expires > t.read &&
                  found.value.blockedUntil.None? &&
                  found.value.failures + found.value.inFlight == p.threshold;
      var answer := Enter(key, found, p, t).1;
      && (answer.Admitted? <==> !blocked && !full)
      && (blocked ==> answer.Limited?)
      && (blocked ==> 0 <= answer.retryAfter - (found.value.blockedUntil.value - t.read) < SECOND)
      && (!blocked && full ==> answer == Limited(key, SECOND))
  {
    hide Run, RetryAfter;
    RunOk(p, evs);
    if key in kept { assert RowOk(Run(p, evs), p, key); }
  }
}
