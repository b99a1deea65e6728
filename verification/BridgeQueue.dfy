/** The durable import queue: its rows, and the single-statement updates the worker
    and the routes make to them. */
module BridgeQueue {
  import opened Prelude

  const BRIDGE_QUEUE_USER_CAP: nat := 5
  const BRIDGE_CHAIN_COOLDOWN_MS: nat := 300_000
  const BRIDGE_QUEUE_LEASE_MS: nat := 120_000
  const BRIDGE_QUEUE_MAX_ATTEMPTS: nat := 5
  const BRIDGE_QUEUE_RETENTION_MS: nat := 2_592_000_000

  datatype ImportState = Pending | InProgress | Completed | Failed

  /** A row, with times in milliseconds. `tx` says whether a transaction id is
      recorded. */
  datatype Row = Row(
    username: string,
    permlink: string,
    state: ImportState,
    attempts: nat,
    scheduledAt: nat,
    leaseExpiresAt: Option<nat>,
    tx: bool,
    completedAt: Option<nat>)

  type Rows = map<nat, Row>

  predicate Active(r: Row)
  {
    r.state == Pending || r.state == InProgress
  }

  function ActiveIds(rows: Rows): set<nat>
  {
    set i | i in rows && Active(rows[i])
  }

  function ActiveOf(rows: Rows, username: string): set<nat>
  {
    set i | i in ActiveIds(rows) && rows[i].username == username
  }

  // ---------------------------------------------------------------------
  // What each update makes of a row; none of them looks at its state
  // ---------------------------------------------------------------------

  function NewRow(username: string, permlink: string, now: nat): Row
  {
    Row(username, permlink, Pending, 0, now, None, false, None)
  }

  function Leased(r: Row, now: nat): Row
  {
    r.(state := InProgress, leaseExpiresAt := Some(now + BRIDGE_QUEUE_LEASE_MS))
  }

  function CompletedWith(r: Row, tx: bool, now: nat): Row
  {
    r.(state := Completed, tx := r.tx || tx, completedAt := Some(now), leaseExpiresAt := None)
  }

  function FailedAt(r: Row, now: nat): Row
  {
    r.(state := Failed, completedAt := Some(now), leaseExpiresAt := None)
  }

  function BackoffMs(attempts: nat): (ms: nat)
    ensures ms >= 15_000
    decreases attempts
  {
    if attempts == 0 then 15_000 else 2 * BackoffMs(attempts - 1)
  }

  function Rescheduled(r: Row, increment: bool, now: nat): Row
  {
    var attempts := if increment then r.attempts + 1 else r.attempts;
    if increment && attempts > BRIDGE_QUEUE_MAX_ATTEMPTS then FailedAt(r, now).(attempts := attempts)
    else r.(state := Pending, attempts := attempts, scheduledAt := now + BackoffMs(attempts), leaseExpiresAt := None)
  }

  predicate Due(r: Row, now: nat)
  {
    || (r.state == Pending && r.scheduledAt <= now)
    || (r.state == InProgress && r.leaseExpiresAt.Some? && r.leaseExpiresAt.value < now)
  }

  // `ORDER BY scheduled_at ASC, id ASC`.
  predicate Earlier(rows: Rows, i: nat, j: nat)
    requires i in rows && j in rows
  {
    rows[i].scheduledAt < rows[j].scheduledAt || (rows[i].scheduledAt == rows[j].scheduledAt && i < j)
  }

  predicate Aged(r: Row, now: nat, retention: nat)
  {
    !Active(r) && r.completedAt.Some? && r.completedAt.value + retention < now
  }

  function Pow2(n: nat): nat
  {
    if n == 0 then 1 else 2 * Pow2(n - 1)
  }

  lemma {:induction false} BackoffIsAPower(attempts: nat)
    ensures BackoffMs(attempts) == 15_000 * Pow2(attempts)
    ensures attempts <= BRIDGE_QUEUE_MAX_ATTEMPTS ==> BackoffMs(attempts) <= 15_000 * Pow2(BRIDGE_QUEUE_MAX_ATTEMPTS)
    decreases attempts
  {
    assert Pow2(3) == 8 && Pow2(5) == 32;
    if attempts > 0 {
      BackoffIsAPower(attempts - 1);
      assert attempts == 1 || attempts == 2 || attempts == 3 || attempts == 4 || attempts >= 5;
    }
  }

  /** A postponed entry waits 30 seconds, doubled for every attempt counted after the
      first (15 when none is), and never longer than 480; it is given up on instead
      exactly when the attempt to count is beyond the budget. */
  lemma BackoffLadder(r: Row, increment: bool, now: nat)
    requires r.attempts <= 5
    ensures var after := Rescheduled(r, increment, now);
            && (after.state == Failed <==> increment && r.attempts == 5)
            && (after.state == Pending ==>
                  && after.scheduledAt == now + (if after.attempts == 0 then 15_000 else 30_000 * Pow2(after.attempts - 1))
                  && now + 15_000 <= after.scheduledAt <= now + 480_000)
  {
    BackoffIsAPower(r.attempts);
    BackoffIsAPower(r.attempts + 1);
    assert Pow2(3) == 8 && Pow2(5) == 32;
  }

  // ---------------------------------------------------------------------
  // Queue positions
  // ---------------------------------------------------------------------

  function AheadOrSelf(rows: Rows, id: nat): set<nat>
  {
    set i | i in ActiveIds(rows) && i <= id
  }

  /** Positions number the active rows one by one in id order: each row is one
      behind the row before it, and the last is as many as there are. */
  lemma PositionsAreRanks(rows: Rows, id: nat, next: nat)
    requires id in ActiveIds(rows) && next in ActiveIds(rows) && id < next
    requires forall i :: i in ActiveIds(rows) ==> i <= id || i >= next
    ensures |AheadOrSelf(rows, next)| == |AheadOrSelf(rows, id)| + 1
    ensures 1 <= |AheadOrSelf(rows, id)| < |ActiveIds(rows)|
  {
    assert AheadOrSelf(rows, next) == AheadOrSelf(rows, id) + {next};
    assert id in AheadOrSelf(rows, id);
    SubsetSize(AheadOrSelf(rows, next), ActiveIds(rows));
  }

  // ---------------------------------------------------------------------
  // The queue
  // ---------------------------------------------------------------------

  datatype EnqueueResult =
    | Enqueued(id: nat, queuePosition: nat)
    | DuplicateActive(existing: nat)
    | CapExceeded(inflight: nat)

  // What the lease query would take now.
  predicate Next(rows: Rows, id: nat, now: nat)
  {
    && id in rows && Due(rows[id], now)
    && forall i :: i in rows && Due(rows[i], now) && i != id ==> Earlier(rows, id, i)
  }

  // The place an active row has in the order the lease query takes rows in.
  function DispatchRank(rows: Rows, id: nat): nat
    requires id in ActiveIds(rows)
  {
    |set i | i in ActiveIds(rows) && (i == id || Earlier(rows, i, id))|
  }

  // Scheduled times never fall as ids grow.
  predicate ScheduledByAge(rows: Rows)
  {
    forall i, j :: i in ActiveIds(rows) && j in ActiveIds(rows) && i < j ==> rows[i].scheduledAt <= rows[j].scheduledAt
  }

  /** The position shown to a user is documented as a dispatch rank. It is one for
      every active row exactly when no older row is scheduled after a younger one. */
  lemma PositionIsRankIff(rows: Rows)
    ensures (forall id :: id in ActiveIds(rows) ==> |AheadOrSelf(rows, id)| == DispatchRank(rows, id)) <==> ScheduledByAge(rows)
  {
    if ScheduledByAge(rows) {
      forall id | id in ActiveIds(rows) ensures |AheadOrSelf(rows, id)| == DispatchRank(rows, id) {
        assert AheadOrSelf(rows, id) == set i | i in ActiveIds(rows) && (i == id || Earlier(rows, i, id));
      }
    } else {
      var i, j :| i in ActiveIds(rows) && j in ActiveIds(rows) && i < j && rows[i].scheduledAt > rows[j].scheduledAt;
      OrdersDiffer(rows, i, j);
    }
  }

  lemma OrdersDiffer(rows: Rows, i: nat, j: nat)
    requires i in ActiveIds(rows) && j in ActiveIds(rows) && i < j && rows[i].scheduledAt > rows[j].scheduledAt
    ensures |AheadOrSelf(rows, i)| < |AheadOrSelf(rows, j)| && DispatchRank(rows, j) < DispatchRank(rows, i)
  {
    assert j in AheadOrSelf(rows, j);
    SubsetSize(AheadOrSelf(rows, i), AheadOrSelf(rows, j) - {j});
    var first := set k | k in ActiveIds(rows) && (k == j || Earlier(rows, k, j));
    var second := set k | k in ActiveIds(rows) && (k == i || Earlier(rows, k, i));
    assert i in second && first <= second - {i};
    SubsetSize(first, second - {i});
  }

  // The first entry was postponed; the second is due.
  function PostponedFirst(): Rows
  {
    map[1 := Rescheduled(NewRow("ann", "p1", 0), false, 0), 2 := NewRow("bob", "p2", 0)]
  }

  lemma SecondInPositionGoesFirst()
    ensures Next(PostponedFirst(), 2, 10) && |AheadOrSelf(PostponedFirst(), 2)| == 2
  {
    assert AheadOrSelf(PostponedFirst(), 2) == {1, 2};
  }

  ghost predicate WithinCap(rows: Rows)
  {
    forall u :: |ActiveOf(rows, u)| <= BRIDGE_QUEUE_USER_CAP
  }

  ghost predicate OnePerPermlink(rows: Rows)
  {
    forall i, j :: i in ActiveIds(rows) && j in ActiveIds(rows) && rows[i].permlink == rows[j].permlink ==> i == j
  }

  lemma InsertedIds(rows: Rows, id: nat, r: Row)
    requires id !in rows && Active(r)
    ensures ActiveIds(rows[id := r]) == ActiveIds(rows) + {id}
    ensures forall u :: ActiveOf(rows[id := r], u) == ActiveOf(rows, u) + (if u == r.username then {id} else {})
  {
    assert ActiveIds(rows[id := r]) == ActiveIds(rows) + {id};
  }

  lemma InsertedUnique(rows: Rows, id: nat, r: Row)
    requires id !in rows && Active(r) && OnePerPermlink(rows)
    requires forall i :: i in ActiveIds(rows) ==> rows[i].permlink != r.permlink
    ensures OnePerPermlink(rows[id := r])
  {
    InsertedIds(rows, id, r);
    hide Active, ActiveIds, ActiveOf;
  }

  lemma InsertedWithinCap(rows: Rows, id: nat, r: Row)
    requires id !in rows && Active(r) && WithinCap(rows) && |ActiveOf(rows, r.username)| < BRIDGE_QUEUE_USER_CAP
    ensures WithinCap(rows[id := r])
  {
    InsertedIds(rows, id, r);
    hide Active, ActiveIds, ActiveOf;
    var after := rows[id := r];
    forall u ensures |ActiveOf(after, u)| <= BRIDGE_QUEUE_USER_CAP {
      assert |ActiveOf(rows, u) + {id}| <= |ActiveOf(rows, u)| + 1;
    }
  }
}
