/** No entry of the bridge queue is lost: a dispatch that a crash cut off can be made
    again once its lease has run out, and from every state the machine reaches, every
    active row can still be dispatched. */
module BridgeRecovery {
  import opened Prelude
  import opened BridgeQueue
  import opened BridgeWorker
  import opened BridgeRuns

  // ---------------------------------------------------------------------
  // How long a row waits
  // ---------------------------------------------------------------------

  // Pending rows are scheduled, and leases run out, within the longest wait.
  predicate RowWaits(r: Row, now: nat)
  {
    && (r.state == Pending ==> r.scheduledAt <= now + 480_000)
    && (r.state == InProgress ==> r.leaseExpiresAt.Some? && r.leaseExpiresAt.value <= now + 120_000)
  }

  ghost predicate WaitsOk(s: System)
  {
    && (forall i :: i in s.rows ==> RowWaits(s.rows[i], s.now))
    && (forall t :: t in s.txns && s.txns[t].stage.Wrote? ==> RowWaits(s.txns[t].stage.row, s.now))
  }

  lemma PostponedRowWaits(r: Row, increment: bool, now: nat)
    requires r.attempts <= BRIDGE_QUEUE_MAX_ATTEMPTS
    ensures RowWaits(Rescheduled(r, increment, now), now)
  {
    BackoffLadder(r, increment, now);
  }

  lemma SettledRowWaits(s: System, step: Step)
    requires HoldsEntry(s) && AttemptsOk(s) && Enabled(s, step) && Settles(step)
    requires RowWaits(s.rows[Touched(s, step)], s.now)
    ensures RowWaits(Result(s, step), s.now)
  {
    var r := s.rows[Touched(s, step)];
    if step.Postpone? || step.StoreReschedule? {
      PostponedRowWaits(r, false, s.now);
      PostponedRowWaits(r, true, s.now);
    }
    hide Rescheduled, Earlier, IndexAllows, Landings;
  }

  lemma EnqueueKeepsWaits(s: System, step: Step)
    requires WaitsOk(s) && Enabled(s, step) && OfEnqueue(step)
    ensures WaitsOk(Transacted(s, step))
  {
    hide ActivePermlink, Uncommitted, ActiveOf;
  }

  lemma WaitsKept(s: System, step: Step)
    requires Sturdy(s) && WaitsOk(s) && Enabled(s, step)
    ensures WaitsOk(Apply(s, step))
  {
    assert HoldsEntry(s) && AttemptsOk(s);
    hide Enabled, Sturdy, HoldsEntry, AttemptsOk, Transacted, Touched, Result, NextPhase, Purged, Moved, WaitsOk;
    if OfEnqueue(step) {
      EnqueueKeepsWaits(s, step);
    } else if Settles(step) {
      SettlingKeepsWaits(s, step);
    } else if step.Purge? {
      PurgeKeepsWaits(s);
    } else {
      ApplyMoves(s, step);
      TimeKeepsWaits(s, Apply(s, step));
    }
  }

  lemma SettlingKeepsWaits(s: System, step: Step)
    requires HoldsEntry(s) && AttemptsOk(s) && WaitsOk(s) && Enabled(s, step) && Settles(step)
    ensures WaitsOk(Apply(s, step))
  {
    assert RowWaits(s.rows[Touched(s, step)], s.now);
    SettledRowWaits(s, step);
    hide Enabled, HoldsEntry, AttemptsOk, Touched, Result, NextPhase, RowWaits;
  }

  lemma PurgeKeepsWaits(s: System)
    requires WaitsOk(s)
    ensures WaitsOk(Purged(s))
  {
    PurgeLeavesRows(s);
    PurgeKeepsRest(s);
    hide Purged, RowWaits;
  }

  lemma TimeKeepsWaits(s: System, after: System)
    requires WaitsOk(s) && after.rows == s.rows && after.txns == s.txns && after.now >= s.now
    ensures WaitsOk(after)
  {
  }

  lemma {:induction false} RunsKeepWaits(s: System, steps: seq<Step>)
    requires Sturdy(s) && WaitsOk(s) && Possible(s, steps)
    ensures Sturdy(After(s, steps)) && WaitsOk(After(s, steps))
    decreases |steps|
  {
    if steps != [] {
      hide Sturdy, WaitsOk, Apply, Enabled;
      SturdyKept(s, steps[0]);
      WaitsKept(s, steps[0]);
      RunsKeepWaits(Apply(s, steps[0]), steps[1..]);
    }
  }

  // ---------------------------------------------------------------------
  // The worker starts again
  // ---------------------------------------------------------------------

  // An idle worker whose cooldown has passed.
  ghost predicate Ready(s: System)
  {
    Sturdy(s) && s.up && s.phase.Idle? && s.now >= s.lastBroadcast + BRIDGE_CHAIN_COOLDOWN_MS
  }

  function Restart(up: bool, seedRead: bool, ms: nat): seq<Step>
  {
    (if up then [Crash] else []) + [Boot(seedRead)] + [Wait(ms)]
  }

  lemma Crashes(s: System)
    requires Sturdy(s) && s.up
    ensures Possible(s, [Crash]) && Sturdy(After(s, [Crash]))
    ensures var after := After(s, [Crash]);
            !after.up && after.phase.Idle? && after.rows == s.rows && after.now == s.now
  {
    assert Possible(s, []) && After(s, []) == s && BaseOk(s);
    SturdyKept(s, Crash);
    hide Possible, After, BaseOk, Sturdy, Transacted, Purged;
    assert [] + [Crash] == [Crash];
    Then(s, [], Crash);
  }

  lemma BootsAndWaits(s: System, steps: seq<Step>, seedRead: bool, ms: nat)
    requires Sturdy(s) && Possible(s, steps) && Sturdy(After(s, steps)) && !After(s, steps).up
    requires ms >= BRIDGE_CHAIN_COOLDOWN_MS
    ensures var more := steps + [Boot(seedRead)] + [Wait(ms)];
            && Possible(s, more) && Ready(After(s, more))
            && After(s, more).rows == After(s, steps).rows && After(s, more).now == After(s, steps).now + ms
  {
    SturdyIsBaseOk(s);
    var down := After(s, steps);
    SturdyIsBaseOk(down);
    hide Possible, After, Apply, Enabled, Sturdy, BaseOk;
    Boots(down, seedRead);
    Then(s, steps, Boot(seedRead));
    Waits(Apply(down, Boot(seedRead)), ms);
    Then(s, steps + [Boot(seedRead)], Wait(ms));
  }

  lemma SturdyIsBaseOk(s: System)
    requires Sturdy(s)
    ensures BaseOk(s)
  {
  }

  lemma Boots(s: System, seedRead: bool)
    requires Sturdy(s) && !s.up
    ensures HoldsEntry(s) && Enabled(s, Boot(seedRead))
    ensures var after := Apply(s, Boot(seedRead));
            Sturdy(after) && after.up && after.phase.Idle? && after.rows == s.rows && after.now == s.now
  {
    SturdyKept(s, Boot(seedRead));
    hide Sturdy, CompletedBroadcasts;
  }

  lemma Waits(s: System, ms: nat)
    requires Sturdy(s) && s.up && s.phase.Idle? && ms >= BRIDGE_CHAIN_COOLDOWN_MS
    ensures HoldsEntry(s) && Enabled(s, Wait(ms))
    ensures var after := Apply(s, Wait(ms)); Ready(after) && after.rows == s.rows && after.now == s.now + ms
  {
    SturdyKept(s, Wait(ms));
    SturdyClock(s);
    hide Sturdy;
  }

  lemma SturdyClock(s: System)
    requires Sturdy(s)
    ensures s.lastBroadcast <= s.now
  {
  }

  lemma Restarts(s: System, seedRead: bool, ms: nat)
    requires Sturdy(s) && ms >= BRIDGE_CHAIN_COOLDOWN_MS
    ensures var more := Restart(s.up, seedRead, ms);
            Possible(s, more) && Ready(After(s, more)) && After(s, more).rows == s.rows && After(s, more).now == s.now + ms
  {
    assert Possible(s, []) && After(s, []) == s;
    hide Possible, After, Sturdy, Ready;
    if s.up {
      Crashes(s);
      BootsAndWaits(s, [Crash], seedRead, ms);
    } else {
      BootsAndWaits(s, [], seedRead, ms);
    }
  }

  // ---------------------------------------------------------------------
  // What may be dispatched
  // ---------------------------------------------------------------------

  predicate IsFirst(rows: Rows, ids: set<nat>, id: nat)
    requires ids <= rows.Keys
  {
    id in ids && forall i :: i in ids && i != id ==> Earlier(rows, id, i)
  }

  lemma {:induction false} FirstExists(rows: Rows, ids: set<nat>) returns (id: nat)
    requires ids <= rows.Keys && ids != {}
    ensures IsFirst(rows, ids, id)
  {
    id :| id in ids;
    if ids != {id} {
      var other := FirstExists(rows, ids - {id});
      forall i | i in ids ensures i == id || i == other || Earlier(rows, other, i) {
        assert i != id ==> i in ids - {id};
      }
      if Earlier(rows, other, id) {
        id := other;
      }
    }
  }

  lemma FirstMayDispatch(s: System) returns (id: nat)
    requires Ready(s) && exists i :: i in s.rows && Due(s.rows[i], s.now)
    ensures MayDispatch(s, id)
  {
    var due := set i | i in s.rows && Due(s.rows[i], s.now);
    var i :| i in s.rows && Due(s.rows[i], s.now);
    assert i in due;
    id := FirstExists(s.rows, due);
  }

  // It is dispatched and given up on, which costs no cooldown.
  lemma Discards(s: System, id: nat)
    requires Ready(s) && MayDispatch(s, id)
    ensures var steps := [StartDispatch(id)] + [GiveUp];
            && Possible(s, steps) && Ready(After(s, steps)) && After(s, steps).now == s.now
            && After(s, steps).rows == s.rows[id := FailedAt(Leased(s.rows[id], s.now), s.now)]
  {
    assert id in s.rows;
    hide Possible, After, Sturdy, Apply, Enabled, MayDispatch;
    SturdyIsBaseOk(s);
    var leased := LeaseRuns(s, id);
    SturdyIsBaseOk(leased);
    GivesUp(leased, id);
    Then(s, [StartDispatch(id)], GiveUp);
    assert s.rows[id := Leased(s.rows[id], s.now)][id := FailedAt(Leased(s.rows[id], s.now), s.now)]
        == s.rows[id := FailedAt(Leased(s.rows[id], s.now), s.now)];
  }

  lemma GivesUp(s: System, id: nat)
    requires Sturdy(s) && s.phase == Dispatching(id) && id in s.rows
    ensures HoldsEntry(s) && Enabled(s, GiveUp) && Sturdy(Apply(s, GiveUp))
    ensures Apply(s, GiveUp) == s.(rows := s.rows[id := FailedAt(s.rows[id], s.now)], phase := Idle)
  {
    SturdyKept(s, GiveUp);
    hide Sturdy;
  }

  lemma DiscardedRows(rows: Rows, id: nat, now: nat)
    requires id in rows && Due(rows[id], now)
    ensures ActiveIds(rows[id := FailedAt(Leased(rows[id], now), now)]) == ActiveIds(rows) - {id} && id in ActiveIds(rows)
  {
  }

  // Once due, an entry can be dispatched when those before it have been.
  lemma {:induction false} ServesUpTo(s: System, id: nat) returns (more: seq<Step>)
    requires Ready(s) && id in s.rows && Due(s.rows[id], s.now)
    ensures BaseOk(s) && Possible(s, more) && BaseOk(After(s, more)) && Enabled(After(s, more), StartDispatch(id))
    decreases |ActiveIds(s.rows)|
  {
    var first := FirstMayDispatch(s);
    assert BaseOk(s);
    if first == id {
      more := [];
    } else {
      Discards(s, first);
      var steps := [StartDispatch(first)] + [GiveUp];
      var after := After(s, steps);
      DiscardedRows(s.rows, first, s.now);
      assert BaseOk(after);
      hide ActiveIds, FailedAt, Leased, Ready, Possible, After, BaseOk, Enabled;
      var rest := ServesUpTo(after, id);
      ThenRun(s, steps, rest);
      more := steps + rest;
    }
  }

  // ---------------------------------------------------------------------
  // Over whole runs
  // ---------------------------------------------------------------------

  lemma GenesisWaits()
    ensures Sturdy(GENESIS) && WaitsOk(GENESIS)
  {
    GenesisIsValid();
  }

  /** Whatever run came before: a dispatch that a crash cuts off keeps its row, and
      once the worker has started again and the cooldown is over, some entry can be
      dispatched, and this one as soon as no entry scheduled before it is waiting or
      has an expired lease. */
  lemma CrashedEntryComesBack(steps: seq<Step>, id: nat, seedRead: bool, ms: nat)
    requires BaseOk(GENESIS) && Possible(GENESIS, steps) && ms >= 300_000
    requires Entry(After(GENESIS, steps).phase) == Some(id) && !After(GENESIS, steps).phase.WriteFailed?
    ensures var later := steps + ([Crash] + [Boot(seedRead)] + [Wait(ms)]);
            && Possible(GENESIS, later)
            && var was, s := After(GENESIS, steps), After(GENESIS, later);
               && s.rows == was.rows && id in s.rows && s.now == was.now + ms
               && (exists i :: Enabled(s, StartDispatch(i)))
               && (Enabled(s, StartDispatch(id)) <==>
                     forall i :: i in s.rows && i != id ==>
                       || Waiting(s.rows[i], s.now) || s.rows[id].scheduledAt < s.rows[i].scheduledAt
                       || (s.rows[id].scheduledAt == s.rows[i].scheduledAt && id < i))
  {
    GenesisWaits();
    RunsKeepWaits(GENESIS, steps);
    var was := After(GENESIS, steps);
    hide Possible, After, Sturdy, Enabled, Apply;
    SturdyIsBaseOk(was);
    assert was.up && id in was.rows && was.rows[id].state == InProgress;
    Restarts(was, seedRead, ms);
    assert Restart(true, seedRead, ms) == [Crash] + [Boot(seedRead)] + [Wait(ms)];
    ThenRun(GENESIS, steps, Restart(true, seedRead, ms));
    var s := After(GENESIS, steps + Restart(true, seedRead, ms));
    assert RowWaits(was.rows[id], was.now);
    hide BaseOk, WaitsOk;
    DispatchesAgain(s, id);
  }

  // Terminal, scheduled later, or leased for now.
  predicate Waiting(r: Row, now: nat)
  {
    match r.state
    case Pending => now < r.scheduledAt
    case InProgress => r.leaseExpiresAt.None? || now <= r.leaseExpiresAt.value
    case _ => true
  }

  lemma DispatchesAgain(s: System, id: nat)
    requires Ready(s) && id in s.rows && s.rows[id].state == InProgress
    requires s.rows[id].leaseExpiresAt.Some? && s.rows[id].leaseExpiresAt.value < s.now
    ensures exists i :: Enabled(s, StartDispatch(i))
    ensures Enabled(s, StartDispatch(id)) <==>
              forall i :: i in s.rows && i != id ==>
                || Waiting(s.rows[i], s.now) || s.rows[id].scheduledAt < s.rows[i].scheduledAt
                || (s.rows[id].scheduledAt == s.rows[i].scheduledAt && id < i)
  {
    assert Due(s.rows[id], s.now);
    var first := FirstMayDispatch(s);
    assert Enabled(s, StartDispatch(first));
    hide Sturdy;
  }

  /** From every state any run comes to, every row that is pending or in progress can
      still be dispatched. */
  lemma NoActiveRowIsStuck(steps: seq<Step>, id: nat) returns (more: seq<Step>)
    requires BaseOk(GENESIS) && Possible(GENESIS, steps) && id in After(GENESIS, steps).rows
    requires var r := After(GENESIS, steps).rows[id]; r.state == Pending || r.state == InProgress
    ensures Possible(GENESIS, steps + more) && Enabled(After(GENESIS, steps + more), StartDispatch(id))
  {
    GenesisWaits();
    RunsKeepWaits(GENESIS, steps);
    var was := After(GENESIS, steps);
    assert BaseOk(was) && RowWaits(was.rows[id], was.now);
    hide Possible, After, BaseOk, Enabled;
    var again := Restart(was.up, false, 480_000);
    Restarts(was, false, 480_000);
    var s := After(was, again);
    assert Due(s.rows[id], s.now) && BaseOk(s);
    var rest := ServesUpTo(s, id);
    ThenRun(was, again, rest);
    ThenRun(GENESIS, steps, again + rest);
    more := again + rest;
  }
}
