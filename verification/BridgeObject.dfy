/** The import queue and its worker as objects. Their methods take a ghost system of
    the machine that shows the same table and clock, and say which of its steps they
    make: whatever holds over all runs of the machine holds of them among any other
    requests. */
module BridgeObject {
  import opened Prelude
  import opened BridgeQueue
  import opened BridgeWorker
  import opened BridgeRuns

  // ---------------------------------------------------------------------
  // Enqueue attempts
  // ---------------------------------------------------------------------

  // The transaction behind each answer.
  function EnqueueAttempt(username: string, permlink: string, result: EnqueueResult): seq<Step>
  {
    match result
    case Enqueued(_, _) => EnqueueSteps(username, permlink)
    case DuplicateActive(_) => [Begin(0, username, permlink)] + [Rollback(0)]
    case CapExceeded(_) => [Begin(0, username, permlink)] + [CheckDuplicate(0)] + [Rollback(0)]
  }

  lemma RollbackStep(s: System, username: string, permlink: string, stage: Stage)
    requires s.txns == map[] && HoldsEntry(InTxn(s, username, permlink, stage))
    ensures Enabled(InTxn(s, username, permlink, stage), Rollback(0))
    ensures Apply(InTxn(s, username, permlink, stage), Rollback(0)) == s
  {
    hide HoldsEntry;
    assert InTxn(s, username, permlink, stage).txns - {0} == map[];
  }

  lemma RefusalRuns(s: System, username: string, permlink: string)
    requires BaseOk(s) && s.txns == map[]
    ensures var refused := [Begin(0, username, permlink)] + [Rollback(0)];
            Possible(s, refused) && After(s, refused) == s
    ensures var refused := [Begin(0, username, permlink)] + [CheckDuplicate(0)] + [Rollback(0)];
            !ActivePermlink(s.rows, permlink) ==> Possible(s, refused) && After(s, refused) == s
  {
    assert Possible(s, []) && After(s, []) == s;
    hide Possible, After, Apply, Enabled, HoldsEntry, IdsOk, InTxn, ActivePermlink;
    var a, b := Begin(0, username, permlink), CheckDuplicate(0);
    var locked, checked := InTxn(s, username, permlink, Locked), InTxn(s, username, permlink, NoDuplicate);
    BeginStep(s, username, permlink);
    StepOn(s, [], s, a, locked);
    assert [] + [a] == [a];
    RollbackStep(s, username, permlink, Locked);
    StepOn(s, [a], locked, Rollback(0), s);
    if !ActivePermlink(s.rows, permlink) {
      CheckStep(s, username, permlink);
      StepOn(s, [a], locked, b, checked);
      RollbackStep(s, username, permlink, NoDuplicate);
      StepOn(s, [a] + [b], checked, Rollback(0), s);
    }
  }

  /** The answer's transaction is a run of the machine. */
  lemma AttemptRuns(s: System, username: string, permlink: string, result: EnqueueResult)
    requires BaseOk(s) && s.txns == map[]
    requires result.Enqueued? ==> MayEnqueue(s, username, permlink)
    requires result.CapExceeded? ==> !ActivePermlink(s.rows, permlink)
    ensures var steps := EnqueueAttempt(username, permlink, result);
            Possible(s, steps) && After(s, steps) == if result.Enqueued? then WithNewRow(s, username, permlink) else s
  {
    hide BaseOk, MayEnqueue, ActivePermlink, Possible, After, WithNewRow, EnqueueSteps;
    if result.Enqueued? {
      EnqueueRuns(s, username, permlink);
    } else {
      RefusalRuns(s, username, permlink);
    }
  }

  function NotAged(rows: Rows, now: nat, retention: nat): Rows
  {
    map i | i in rows && !Aged(rows[i], now, retention) :: rows[i]
  }

  // The purge is a step of the machine.
  lemma PurgeLeaves(s: System)
    requires BaseOk(s)
    ensures Apply(s, Purge).rows == NotAged(s.rows, s.now, BRIDGE_QUEUE_RETENTION_MS) && Apply(s, Purge).nextId == s.nextId
  {
    hide Aged;
  }

  class Queue {
    var rows: Rows
    var nextId: nat

    constructor ()
      ensures rows == map[] && nextId == 1
    {
      rows, nextId := map[], 1;
    }

    // The system has this table.
    ghost predicate Shows(s: System)
      reads this
    {
      s.rows == rows && s.nextId == nextId
    }

    ghost predicate Valid()
      reads this
    {
      (forall i :: i in rows ==> i < nextId) && WithinCap(rows) && OnePerPermlink(rows)
    }

    method Insert(username: string, permlink: string, now: nat) returns (result: EnqueueResult)
      requires Valid() && |ActiveOf(rows, username)| < BRIDGE_QUEUE_USER_CAP
      requires forall i :: i in ActiveIds(rows) ==> rows[i].permlink != permlink
      modifies this
      ensures Valid() && nextId == old(nextId) + 1
      ensures rows == old(rows)[old(nextId) := NewRow(username, permlink, now)]
      ensures result == Enqueued(old(nextId), |ActiveIds(rows)|)
    {
      var id, r := nextId, NewRow(username, permlink, now);
      InsertedIds(rows, id, r);
      InsertedUnique(rows, id, r);
      InsertedWithinCap(rows, id, r);
      hide WithinCap, OnePerPermlink;
      rows, nextId := rows[id := r], nextId + 1;
      assert AheadOrSelf(rows, id) == ActiveIds(rows);
      result := Enqueued(id, |AheadOrSelf(rows, id)|);
    }

    /** `tryEnqueueBridgeImport` undisturbed: a duplicate is reported before the
        cap, and both before an insert. */
    method TryEnqueueBridgeImport(username: string, permlink: string, now: nat, ghost s: System)
      returns (result: EnqueueResult)
      requires Valid() && Shows(s) && s.now == now && s.txns == map[] && BaseOk(s)
      modifies this
      ensures Valid()
      ensures result.DuplicateActive? ==>
        rows == old(rows) && result.existing in ActiveIds(rows) && rows[result.existing].permlink == permlink
      ensures result.CapExceeded? ==> rows == old(rows) && result.inflight == |ActiveOf(rows, username)| >= 5
      ensures result.Enqueued? ==>
        && result.id == old(nextId) && nextId == old(nextId) + 1
        && rows == old(rows)[result.id := Row(username, permlink, Pending, 0, now, None, false, None)]
        && result.queuePosition == |ActiveIds(rows)|
      ensures result.Enqueued? <==>
        && |set i | i in old(rows) && old(rows)[i].username == username
                    && (old(rows)[i].state == Pending || old(rows)[i].state == InProgress)| < 5
        && forall i :: i in old(rows) && (old(rows)[i].state == Pending || old(rows)[i].state == InProgress) ==>
             old(rows)[i].permlink != permlink
      ensures Possible(s, EnqueueAttempt(username, permlink, result))
              && Shows(After(s, EnqueueAttempt(username, permlink, result)))
    {
      hide WithinCap, OnePerPermlink, BaseOk, Possible, After, EnqueueAttempt;
      var duplicates := set i | i in ActiveIds(rows) && rows[i].permlink == permlink;
      assert forall i :: i in ActiveIds(rows) && rows[i].permlink == permlink ==> i in duplicates;
      assert (set i | i in rows && rows[i].username == username && (rows[i].state == Pending || rows[i].state == InProgress))
          == ActiveOf(rows, username);
      if duplicates != {} {
        var d :| d in duplicates;
        AttemptRuns(s, username, permlink, DuplicateActive(d));
        return DuplicateActive(d);
      }
      var inflight := |ActiveOf(rows, username)|;
      if inflight >= BRIDGE_QUEUE_USER_CAP {
        AttemptRuns(s, username, permlink, CapExceeded(inflight));
        return CapExceeded(inflight);
      }
      result := Insert(username, permlink, now);
      AttemptRuns(s, username, permlink, result);
    }

    /** `leaseNextEntry`: the entry scheduled first among those that are pending and
        due or whose lease has run out, for two minutes; or none when there are none. */
    method LeaseNextEntry(now: nat) returns (leased: Option<nat>)
      modifies this`rows
      ensures leased.Some? <==>
        exists i :: i in old(rows) &&
          var r := old(rows)[i];
          || (r.state == Pending && r.scheduledAt <= now)
          || (r.state == InProgress && r.leaseExpiresAt.Some? && r.leaseExpiresAt.value < now)
      ensures leased.None? ==> rows == old(rows)
      ensures leased.Some? ==>
        && leased.value in old(rows)
        && var r := old(rows)[leased.value];
           && (r.state == Pending || r.state == InProgress)
           && (r.state == Pending ==> r.scheduledAt <= now)
           && (r.state == InProgress ==> r.leaseExpiresAt.Some? && r.leaseExpiresAt.value < now)
           && rows == old(rows)[leased.value := r.(state := InProgress, leaseExpiresAt := Some(now + 120_000))]
      ensures leased.Some? ==>
        forall i :: i in old(rows) && i != leased.value ==>
          var r, first := old(rows)[i], old(rows)[leased.value];
          (r.state == Pending && r.scheduledAt <= now)
          || (r.state == InProgress && r.leaseExpiresAt.Some? && r.leaseExpiresAt.value < now) ==>
            first.scheduledAt < r.scheduledAt || (first.scheduledAt == r.scheduledAt && leased.value < i)
    {
      leased := None;
      var ids := rows.Keys;
      while ids != {}
        invariant ids <= rows.Keys && rows == old(rows)
        invariant leased.None? ==> forall i :: i in rows && i !in ids ==> !Due(rows[i], now)
        invariant leased.Some? ==>
          && leased.value in rows && leased.value !in ids && Due(rows[leased.value], now)
          && forall i :: i in rows && i !in ids && Due(rows[i], now) && i != leased.value ==>
               Earlier(rows, leased.value, i)
        decreases |ids|
      {
        var i :| i in ids;
        ids := ids - {i};
        if Due(rows[i], now) && (leased.None? || Earlier(rows, i, leased.value)) {
          leased := Some(i);
        }
      }
      if leased.Some? {
        rows := rows[leased.value := Leased(rows[leased.value], now)];
      }
    }

    // The unconditional updates; a row that is gone is left alone.
    method MarkCompleted(id: nat, tx: bool, now: nat)
      modifies this`rows
      ensures rows == if id in old(rows) then old(rows)[id := CompletedWith(old(rows)[id], tx, now)] else old(rows)
    {
      if id in rows {
        rows := rows[id := rows[id].(state := Completed, tx := rows[id].tx || tx, completedAt := Some(now),
                                     leaseExpiresAt := None)];
      }
    }

    method MarkFailed(id: nat, now: nat)
      modifies this`rows
      ensures rows == if id in old(rows) then old(rows)[id := FailedAt(old(rows)[id], now)] else old(rows)
    {
      if id in rows {
        rows := rows[id := rows[id].(state := Failed, completedAt := Some(now), leaseExpiresAt := None)];
      }
    }

    /** `rescheduleForRetry`: back to pending, or failed for good once the attempts
        are used up. Never failed when the attempt is not counted. The unique index
        refuses to make the row pending while another active row has its permlink. */
    method RescheduleForRetry(id: nat, increment: bool, now: nat) returns (threw: bool, state: ImportState, attempts: nat)
      modifies this`rows
      ensures threw <==>
        && id in old(rows) && Active(Rescheduled(old(rows)[id], increment, now))
        && exists i :: i in ActiveIds(old(rows)) && i != id && old(rows)[i].permlink == old(rows)[id].permlink
      ensures threw ==> rows == old(rows)
      ensures id !in old(rows) ==> rows == old(rows) && state == Failed && attempts == 0
      ensures id in old(rows) && !threw ==>
        && rows == old(rows)[id := Rescheduled(old(rows)[id], increment, now)]
        && state == rows[id].state && attempts == rows[id].attempts
        && (state == Failed <==> increment && old(rows)[id].attempts >= 5)
    {
      threw := false;
      if id !in rows {
        return false, Failed, 0;
      }
      attempts := if increment then rows[id].attempts + 1 else rows[id].attempts;
      if increment && attempts > BRIDGE_QUEUE_MAX_ATTEMPTS {
        rows := rows[id := rows[id].(state := Failed, attempts := attempts, completedAt := Some(now),
                                     leaseExpiresAt := None)];
        return false, Failed, attempts;
      }
      state := Pending;
      var others := set i | i in ActiveIds(rows) && i != id && rows[i].permlink == rows[id].permlink;
      if others != {} {
        var other :| other in others;
        return true, state, attempts;
      }
      assert forall i :: i in ActiveIds(rows) && i != id && rows[i].permlink == rows[id].permlink ==> i in others;
      rows := rows[id := rows[id].(state := Pending, attempts := attempts, scheduledAt := now + BackoffMs(attempts),
                                   leaseExpiresAt := None)];
    }

    /** `purgeAgedTerminalEntries`: exactly the aged terminal rows go. */
    method PurgeAgedTerminalEntries(now: nat, retention: nat) returns (deleted: nat)
      modifies this`rows
      ensures rows == NotAged(old(rows), now, retention)
      ensures forall i :: i in old(rows) ==>
        (i !in rows <==>
           var r := old(rows)[i];
           (r.state == Completed || r.state == Failed) && r.completedAt.Some? && r.completedAt.value + retention < now)
      ensures ActiveIds(rows) == ActiveIds(old(rows)) && deleted + |rows.Keys| == |old(rows).Keys|
    {
      var aged := set i | i in rows && Aged(rows[i], now, retention);
      assert rows.Keys == aged + (rows.Keys - aged);
      assert (rows - aged).Keys == rows.Keys - aged;
      rows := rows - aged;
      deleted := |aged|;
    }
  }

  // ---------------------------------------------------------------------
  // The worker's code
  // ---------------------------------------------------------------------

  datatype Lookup = Found | Gone | Unavailable
  datatype Broadcast = Accepted | TimedOut | Refused

  /** What one dispatch meets outside the queue. */
  datatype World = World(identifierResolves: bool, metadata: Lookup, onChain: Lookup, keyCached: bool,
                         broadcast: Broadcast, completion: Write)

  // It gets as far as broadcasting.
  predicate Broadcasts(w: World)
  {
    w.identifierResolves && w.metadata.Found? && w.onChain.Gone? && w.keyCached
  }

  // What the duplicate check answers is what the machine's chain holds.
  predicate Agrees(s: System, permlink: string, w: World)
  {
    w.onChain.Unavailable? || (w.onChain.Found? <==> Landings(s, permlink) > 0)
  }

  /** The steps one dispatch makes. */
  function DispatchSteps(w: World): seq<Step>
  {
    if !w.identifierResolves || w.metadata.Gone? then [GiveUp]
    else if w.metadata.Unavailable? || w.onChain.Unavailable? then [Postpone]
    else if w.onChain.Found? then [CheckChain]
    else if !w.keyCached then [CheckChain] + [GiveUp]
    else [CheckChain] + [Send] + BroadcastSteps(w)
  }

  function BroadcastSteps(w: World): seq<Step>
  {
    match w.broadcast
    case Refused => [SendFails] + [StoreReschedule]
    case TimedOut => [SendTimesOut] + [StoreReschedule]
    case Accepted =>
      if w.completion.Stored? then [SendLands] + [StoreCompletion(Stored)]
      else [SendLands] + [StoreCompletion(w.completion)] + [StoreReschedule]
  }

  // What the completion write leaves of the entry.
  function Written(r: Row, write: Write, now: nat): Row
  {
    if write.Lost? then r else CompletedWith(r, true, now)
  }

  // What the steps make of it.
  function Dispatched(r: Row, w: World, now: nat): Row
  {
    if !w.identifierResolves || w.metadata.Gone? then FailedAt(r, now)
    else if w.metadata.Unavailable? || w.onChain.Unavailable? then Rescheduled(r, false, now)
    else if w.onChain.Found? then CompletedWith(r, false, now)
    else if !w.keyCached then FailedAt(r, now)
    else if !w.broadcast.Accepted? then Rescheduled(r, true, now)
    else if w.completion.Stored? then Written(r, Stored, now)
    else Rescheduled(Written(r, w.completion, now), false, now)
  }

  ghost predicate Leaves(s: System, steps: seq<Step>, id: nat, r: Row, lastBroadcast: nat)
    requires BaseOk(s) && id in s.rows
  {
    && Possible(s, steps)
    && var after := After(s, steps);
       && after.rows == s.rows[id := r] && after.nextId == s.nextId && after.phase.Idle?
       && after.lastBroadcast == lastBroadcast
  }

  // The last write of a dispatch that did not complete.
  lemma RescheduleStep(s: System, id: nat)
    requires HoldsEntry(s) && id in s.rows && IndexAllows(s)
    requires s.phase == HasTimedOut(id) || s.phase == HasFailed(id) || s.phase == WriteFailed(id)
    ensures Enabled(s, StoreReschedule)
    ensures Apply(s, StoreReschedule)
         == s.(rows := s.rows[id := Rescheduled(s.rows[id], !s.phase.WriteFailed?, s.now)], phase := Idle)
  {
    hide Rescheduled, IndexAllows, Transacted, Purged, Moved;
  }

  // A dispatch that has come to that write ends with it.
  lemma ThenReschedules(s: System, steps: seq<Step>, id: nat, r: Row, lastBroadcast: nat)
    requires BaseOk(s) && Possible(s, steps) && BaseOk(After(s, steps)) && id in s.rows
    requires var mid := After(s, steps);
             && mid.rows == s.rows[id := r] && mid.nextId == s.nextId && mid.now == s.now
             && mid.lastBroadcast == lastBroadcast && IndexAllows(mid)
             && (mid.phase == HasTimedOut(id) || mid.phase == HasFailed(id) || mid.phase == WriteFailed(id))
    ensures Leaves(s, steps + [StoreReschedule], id,
                   Rescheduled(r, !After(s, steps).phase.WriteFailed?, s.now), lastBroadcast)
  {
    var mid := After(s, steps);
    var back := Rescheduled(r, !mid.phase.WriteFailed?, s.now);
    assert s.rows[id := r][id := back] == s.rows[id := back];
    hide Possible, After, HoldsEntry, IdsOk, Rescheduled, IndexAllows, Apply, Enabled;
    RescheduleStep(mid, id);
    Then(s, steps, StoreReschedule);
  }

  lemma FailureStep(s: System, id: nat)
    requires BaseOk(s) && s.phase.Sending? && s.phase.id == id && id in s.rows
    ensures Possible(s, [SendFails]) && BaseOk(After(s, [SendFails])) && After(s, [SendFails]) == s.(phase := HasFailed(id))
  {
    assert Possible(s, []) && After(s, []) == s;
    hide Possible, After, BaseOk, Landings, Transacted, Purged, Result, NextPhase;
    Then(s, [], SendFails);
    assert [] + [SendFails] == [SendFails];
  }

  lemma FailureRuns(s: System, id: nat)
    requires BaseOk(s) && s.phase.Sending? && s.phase.id == id && id in s.rows
    ensures Leaves(s, [SendFails] + [StoreReschedule], id, Rescheduled(s.rows[id], true, s.now), s.lastBroadcast)
  {
    FailureStep(s, id);
    hide Possible, After, HoldsEntry, IdsOk, Rescheduled, Leaves;
    ThenReschedules(s, [SendFails], id, s.rows[id], s.lastBroadcast);
  }

  lemma TimeoutStep(s: System, id: nat)
    requires BaseOk(s) && s.phase.Sending? && s.phase.id == id && id in s.rows
    ensures Possible(s, [SendTimesOut]) && BaseOk(After(s, [SendTimesOut]))
    ensures var late := After(s, [SendTimesOut]);
            && late.rows == s.rows && late.phase == HasTimedOut(id) && late.lastBroadcast == s.now == late.now
            && late.nextId == s.nextId
  {
    assert Possible(s, []) && After(s, []) == s;
    hide Possible, After, BaseOk, Landings, Transacted, Purged, Result, NextPhase;
    Then(s, [], SendTimesOut);
    assert [] + [SendTimesOut] == [SendTimesOut];
  }

  lemma TimeoutRuns(s: System, id: nat)
    requires BaseOk(s) && s.phase.Sending? && s.phase.id == id && id in s.rows
    ensures Leaves(s, [SendTimesOut] + [StoreReschedule], id, Rescheduled(s.rows[id], true, s.now), s.now)
  {
    TimeoutStep(s, id);
    hide Possible, After, HoldsEntry, IdsOk, Rescheduled, Leaves;
    ThenReschedules(s, [SendTimesOut], id, s.rows[id], s.now);
  }

  // Whatever the completion write did, the permlink is active in no other row.
  ghost predicate Alone(s: System, id: nat)
    requires id in s.rows
  {
    && !Uncommitted(s, s.rows[id].permlink)
    && forall i :: i in s.rows && i != id && Active(s.rows[i]) ==> s.rows[i].permlink != s.rows[id].permlink
  }

  lemma HeldIsAlone(s: System, id: nat)
    requires Sturdy(s) && Entry(s.phase) == Some(id) && !s.phase.WriteFailed?
    ensures id in s.rows && Alone(s, id)
  {
    assert id in ActiveIds(s.rows);
    assert ActivePermlink(s.rows, s.rows[id].permlink);
    forall i | i in s.rows && i != id && Active(s.rows[i]) ensures s.rows[i].permlink != s.rows[id].permlink {
      assert i in ActiveIds(s.rows);
    }
  }

  lemma LandStep(s: System, id: nat)
    requires BaseOk(s) && s.phase.Sending? && s.phase.id == id && id in s.rows
    ensures Possible(s, [SendLands]) && BaseOk(After(s, [SendLands]))
    ensures var landed := After(s, [SendLands]);
            && landed.rows == s.rows && landed.phase == HasLanded(id) && landed.lastBroadcast == s.now == landed.now
            && landed.nextId == s.nextId && landed.txns == s.txns
  {
    assert Possible(s, []) && After(s, []) == s;
    hide Possible, After, BaseOk, Landings, Transacted, Purged, Result, NextPhase;
    Then(s, [], SendLands);
    assert [] + [SendLands] == [SendLands];
  }

  lemma LandsAndWrites(s: System, id: nat, write: Write)
    requires BaseOk(s) && s.phase.Sending? && s.phase.id == id && id in s.rows
    ensures var steps := [SendLands] + [StoreCompletion(write)];
            && Possible(s, steps) && BaseOk(After(s, steps))
            && var after := After(s, steps);
               && after.rows == s.rows[id := Written(s.rows[id], write, s.now)] && after.nextId == s.nextId
               && after.now == s.now && after.lastBroadcast == s.now && after.txns == s.txns
               && after.phase == if write.Stored? then Idle else WriteFailed(id)
  {
    LandStep(s, id);
    hide Possible, After, BaseOk, Landings, Transacted, Purged, Moved;
    Then(s, [SendLands], StoreCompletion(write));
  }

  lemma AloneStays(s: System, after: System, id: nat, r: Row)
    requires id in s.rows && Alone(s, id) && after.txns == s.txns && after.rows == s.rows[id := r]
    requires after.phase == WriteFailed(id) && r.permlink == s.rows[id].permlink
    ensures IndexAllows(after)
  {
  }

  lemma LandingRuns(s: System, id: nat, write: Write)
    requires BaseOk(s) && s.phase.Sending? && s.phase.id == id && id in s.rows && Alone(s, id)
    ensures var done, steps := Written(s.rows[id], write, s.now), [SendLands] + [StoreCompletion(write)];
            && (write.Stored? ==> Leaves(s, steps, id, done, s.now))
            && (!write.Stored? ==> Leaves(s, steps + [StoreReschedule], id, Rescheduled(done, false, s.now), s.now))
  {
    LandsAndWrites(s, id, write);
    var steps := [SendLands] + [StoreCompletion(write)];
    var r := Written(s.rows[id], write, s.now);
    assert r.permlink == s.rows[id].permlink;
    if !write.Stored? {
      AloneStays(s, After(s, steps), id, r);
      hide Possible, After, HoldsEntry, IdsOk, Rescheduled, Written, IndexAllows, Alone, Leaves;
      ThenReschedules(s, steps, id, r, s.now);
    }
  }

  lemma BroadcastRuns(s: System, id: nat, w: World)
    requires BaseOk(s) && s.phase.Sending? && s.phase.id == id && id in s.rows && Broadcasts(w) && Alone(s, id)
    ensures Leaves(s, BroadcastSteps(w), id, Dispatched(s.rows[id], w, s.now),
                   if w.broadcast.Refused? then s.lastBroadcast else s.now)
  {
    hide Leaves, BaseOk, Rescheduled, Alone;
    match w.broadcast
    case Refused => FailureRuns(s, id);
    case TimedOut => TimeoutRuns(s, id);
    case Accepted => LandingRuns(s, id, w.completion);
  }

  // The duplicate check and what it decides.
  lemma CheckRuns(s: System, id: nat, found: bool)
    requires BaseOk(s) && s.phase == Dispatching(id) && id in s.rows && (found <==> Landings(s, s.rows[id].permlink) > 0)
    ensures found ==> Leaves(s, [CheckChain], id, CompletedWith(s.rows[id], false, s.now), s.lastBroadcast)
    ensures !found ==> Possible(s, [CheckChain]) && BaseOk(After(s, [CheckChain]))
                       && After(s, [CheckChain]) == s.(phase := Cleared(id))
  {
    assert Possible(s, []) && After(s, []) == s;
    hide Possible, After, BaseOk, Landings, Transacted, Purged, Moved, CompletedWith;
    Then(s, [], CheckChain);
    assert [] + [CheckChain] == [CheckChain];
    assert s.rows[id := s.rows[id]] == s.rows;
  }

  // An outage or a dead end before the chain is asked.
  lemma EarlyEndRuns(s: System, id: nat)
    requires BaseOk(s) && s.phase == Dispatching(id) && id in s.rows
    ensures Leaves(s, [GiveUp], id, FailedAt(s.rows[id], s.now), s.lastBroadcast)
    ensures Leaves(s, [Postpone], id, Rescheduled(s.rows[id], false, s.now), s.lastBroadcast)
  {
    assert Possible(s, []) && After(s, []) == s;
    hide Possible, After, BaseOk, Transacted, Purged, Moved, FailedAt, Rescheduled;
    assert [] + [GiveUp] == [GiveUp] && [] + [Postpone] == [Postpone];
    Then(s, [], GiveUp);
    Then(s, [], Postpone);
  }

  // Once the check has cleared it, the entry fails for want of a key, or is sent.
  lemma ClearedRuns(s: System, id: nat)
    requires BaseOk(s) && s.phase == Cleared(id) && id in s.rows
    ensures Leaves(s, [GiveUp], id, FailedAt(s.rows[id], s.now), s.lastBroadcast)
    ensures Possible(s, [Send]) && BaseOk(After(s, [Send])) && After(s, [Send]) == s.(phase := Sending(id, s.now))
  {
    assert Possible(s, []) && After(s, []) == s;
    hide Possible, After, BaseOk, Transacted, Purged, FailedAt;
    assert [] + [GiveUp] == [GiveUp] && [] + [Send] == [Send];
    Then(s, [], GiveUp);
    Then(s, [], Send);
  }

  // Two stretches of one dispatch.
  lemma LeavesAfter(s: System, first: seq<Step>, mid: System, rest: seq<Step>, id: nat, r: Row, lastBroadcast: nat)
    requires BaseOk(s) && Possible(s, first) && After(s, first) == mid && BaseOk(mid)
    requires id in s.rows && mid == s.(phase := mid.phase) && Leaves(mid, rest, id, r, lastBroadcast)
    ensures Leaves(s, first + rest, id, r, lastBroadcast)
  {
    hide Possible, After, HoldsEntry, IdsOk;
    ThenRun(s, first, rest);
  }

  // Which outcome completes, fails or postpones an entry, and which costs an attempt.
  lemma OutcomeTable(r: Row, w: World, now: nat)
    requires r.state == InProgress
    ensures var after := Dispatched(r, w, now);
            && (after.state == Completed <==>
                  || (w.identifierResolves && w.metadata.Found? && w.onChain.Found?)
                  || (Broadcasts(w) && w.broadcast.Accepted? && w.completion.Stored?))
            && (after.state == Failed <==>
                  || !w.identifierResolves || w.metadata.Gone? || (w.metadata.Found? && w.onChain.Gone? && !w.keyCached)
                  || (Broadcasts(w) && !w.broadcast.Accepted? && r.attempts >= BRIDGE_QUEUE_MAX_ATTEMPTS))
            && after.attempts == r.attempts + (if Broadcasts(w) && !w.broadcast.Accepted? then 1 else 0)
            && (after.tx <==> r.tx || (Broadcasts(w) && w.broadcast.Accepted? && !w.completion.Lost?))
            && (after.state == Pending ==> after.scheduledAt > now)
  {
  }

  lemma ClearedDispatch(s: System, id: nat, w: World)
    requires Sturdy(s) && s.phase == Dispatching(id) && id in s.rows && Landings(s, s.rows[id].permlink) == 0
    requires w.onChain.Gone? && w.metadata.Found? && w.identifierResolves
    ensures Leaves(s, DispatchSteps(w), id, Dispatched(s.rows[id], w, s.now),
                   if Broadcasts(w) && !w.broadcast.Refused? then s.now else s.lastBroadcast)
  {
    HeldIsAlone(s, id);
    CheckRuns(s, id, false);
    var cleared, sending := s.(phase := Cleared(id)), s.(phase := Sending(id, s.now));
    assert Alone(sending, id);
    hide Sturdy, Leaves, Possible, After, HoldsEntry, IdsOk, Alone, Landings, FailedAt, Rescheduled;
    ClearedRuns(cleared, id);
    if w.keyCached {
      BroadcastRuns(sending, id, w);
      LeavesAfter(cleared, [Send], sending, BroadcastSteps(w), id, Dispatched(s.rows[id], w, s.now),
                  if w.broadcast.Refused? then s.lastBroadcast else s.now);
      LeavesAfter(s, [CheckChain], cleared, [Send] + BroadcastSteps(w), id, Dispatched(s.rows[id], w, s.now),
                  if w.broadcast.Refused? then s.lastBroadcast else s.now);
      assert [CheckChain] + ([Send] + BroadcastSteps(w)) == [CheckChain] + [Send] + BroadcastSteps(w);
    } else {
      LeavesAfter(s, [CheckChain], cleared, [GiveUp], id, FailedAt(s.rows[id], s.now), s.lastBroadcast);
    }
  }

  /** One dispatch is a run of the machine, and these are the table and the clock it
      leaves. */
  lemma DispatchRuns(s: System, id: nat, w: World)
    requires Sturdy(s) && s.phase == Dispatching(id) && id in s.rows && Agrees(s, s.rows[id].permlink, w)
    ensures Leaves(s, DispatchSteps(w), id, Dispatched(s.rows[id], w, s.now),
                   if Broadcasts(w) && !w.broadcast.Refused? then s.now else s.lastBroadcast)
  {
    assert BaseOk(s);
    hide Sturdy, Leaves, BaseOk, Landings;
    EarlyEndRuns(s, id);
    if w.identifierResolves && w.metadata.Found? && !w.onChain.Unavailable? {
      if w.onChain.Found? {
        CheckRuns(s, id, true);
      } else {
        ClearedDispatch(s, id, w);
      }
    }
  }

  class Worker {
    var lastBroadcastMs: nat
    var tickInFlight: bool
    const queue: Queue

    constructor (q: Queue)
      ensures lastBroadcastMs == 0 && !tickInFlight && queue == q
    {
      lastBroadcastMs, tickInFlight, queue := 0, false, q;
    }

    // The system has this worker's table and clock.
    ghost predicate Shows(s: System)
      reads this, queue
    {
      queue.Shows(s) && s.lastBroadcast == lastBroadcastMs
    }

    /** `startBridgeWorker`: the clock is seeded from the last stored success, unless
        that read fails. */
    method StartBridgeWorker(seedRead: bool, ghost s: System)
      requires Shows(s) && BaseOk(s) && !s.up && lastBroadcastMs == 0
      modifies this`lastBroadcastMs
      ensures Shows(Apply(s, Boot(seedRead)))
    {
      var successes := CompletedBroadcasts(queue.rows);
      if seedRead && successes != {} {
        MaximumExists(successes);
        var latest :| IsMaximum(successes, latest);
        lastBroadcastMs := latest;
      }
    }

    /** `dispatchEntry`. Outages before the broadcast cost no attempt; the cooldown
        is consumed by a success or a timeout and by nothing else, and even when
        the completion write fails. */
    method DispatchEntry(id: nat, now: nat, w: World, ghost s: System)
      requires Shows(s) && Sturdy(s) && s.now == now && s.phase == Dispatching(id) && id in queue.rows
      requires Agrees(s, queue.rows[id].permlink, w)
      modifies this`lastBroadcastMs, queue`rows
      ensures Possible(s, DispatchSteps(w)) && Shows(After(s, DispatchSteps(w)))
      ensures id in queue.rows && queue.rows == old(queue.rows)[id := queue.rows[id]]
      ensures lastBroadcastMs == if Broadcasts(w) && !w.broadcast.Refused? then now else old(lastBroadcastMs)
      ensures queue.rows[id].state == Completed <==>
        || (w.identifierResolves && w.metadata.Found? && w.onChain.Found?)
        || (Broadcasts(w) && w.broadcast.Accepted? && w.completion.Stored?)
      ensures queue.rows[id].state == Failed <==>
        || !w.identifierResolves || w.metadata.Gone? || (w.metadata.Found? && w.onChain.Gone? && !w.keyCached)
        || (Broadcasts(w) && !w.broadcast.Accepted? && old(queue.rows)[id].attempts >= BRIDGE_QUEUE_MAX_ATTEMPTS)
      ensures queue.rows[id].attempts ==
        old(queue.rows)[id].attempts + (if Broadcasts(w) && !w.broadcast.Accepted? then 1 else 0)
      ensures queue.rows[id].tx <==>
        old(queue.rows)[id].tx || (Broadcasts(w) && w.broadcast.Accepted? && !w.completion.Lost?)
      ensures queue.rows[id].state == Pending ==> queue.rows[id].scheduledAt > now
    {
      DispatchRuns(s, id, w);
      HeldIsAlone(s, id);
      assert forall i :: i in ActiveIds(queue.rows) && i != id ==> queue.rows[i].permlink != queue.rows[id].permlink;
      assert queue.rows[id].state == InProgress;
      OutcomeTable(queue.rows[id], w, now);
      hide Possible, After, BaseOk, Agrees, Sturdy, Dispatched, Alone;
      Perform(id, now, w);
    }

    // The code of it.
    method Perform(id: nat, now: nat, w: World)
      requires id in queue.rows
      requires forall i :: i in ActiveIds(queue.rows) && i != id ==> queue.rows[i].permlink != queue.rows[id].permlink
      modifies this`lastBroadcastMs, queue`rows
      ensures queue.rows == old(queue.rows)[id := Dispatched(old(queue.rows)[id], w, now)]
      ensures lastBroadcastMs == if Broadcasts(w) && !w.broadcast.Refused? then now else old(lastBroadcastMs)
    {
      var threw, state, attempts;
      if !w.identifierResolves {
        queue.MarkFailed(id, now);
        return;
      }
      if w.metadata.Unavailable? {
        threw, state, attempts := queue.RescheduleForRetry(id, false, now);
        return;
      }
      if w.metadata.Gone? {
        queue.MarkFailed(id, now);
        return;
      }
      if w.onChain.Found? {
        queue.MarkCompleted(id, false, now);
        return;
      }
      if w.onChain.Unavailable? {
        threw, state, attempts := queue.RescheduleForRetry(id, false, now);
        return;
      }
      if !w.keyCached {
        queue.MarkFailed(id, now);
        return;
      }
      if !w.broadcast.Accepted? {
        if w.broadcast.TimedOut? {
          lastBroadcastMs := now;
        }
        threw, state, attempts := queue.RescheduleForRetry(id, true, now);
        return;
      }
      lastBroadcastMs := now;
      if !w.completion.Lost? {
        queue.MarkCompleted(id, true, now);
      }
      if !w.completion.Stored? {
        threw, state, attempts := queue.RescheduleForRetry(id, false, now);
      }
    }

    // From the lease on.
    method DispatchLeased(id: nat, now: nat, w: World, ghost s: System)
      requires Sturdy(s) && MayDispatch(s, id) && s.now == now && Agrees(s, s.rows[id].permlink, w)
      requires queue.rows == s.rows[id := Leased(s.rows[id], now)] && queue.nextId == s.nextId
      requires lastBroadcastMs == s.lastBroadcast
      modifies this`lastBroadcastMs, queue`rows
      ensures var steps := [StartDispatch(id)] + DispatchSteps(w); Possible(s, steps) && Shows(After(s, steps))
    {
      ghost var leased := LeaseRuns(s, id);
      assert BaseOk(s) && BaseOk(leased) && Agrees(leased, queue.rows[id].permlink, w);
      hide Sturdy, BaseOk, MayDispatch, Agrees, Possible, After;
      DispatchEntry(id, now, w, leased);
      ThenRun(s, [StartDispatch(id)], DispatchSteps(w));
    }

    /** `runWorkerTick`: never two at once, never inside the cooldown, and at most
        one entry, the oldest due. */
    method RunWorkerTick(now: nat, w: World, ghost s: System) returns (dispatched: Option<nat>)
      requires Shows(s) && Sturdy(s) && s.now == now && s.up && (tickInFlight <==> !s.phase.Idle?)
      requires forall i :: i in queue.rows ==> Agrees(s, queue.rows[i].permlink, w)
      modifies this, queue`rows
      ensures tickInFlight == old(tickInFlight)
      ensures dispatched.Some? <==>
        && !old(tickInFlight) && now - old(lastBroadcastMs) >= BRIDGE_CHAIN_COOLDOWN_MS
        && exists i :: i in old(queue.rows) &&
             var r := old(queue.rows)[i];
             || (r.state == Pending && r.scheduledAt <= now)
             || (r.state == InProgress && r.leaseExpiresAt.Some? && r.leaseExpiresAt.value < now)
      ensures dispatched.None? ==> queue.rows == old(queue.rows) && lastBroadcastMs == old(lastBroadcastMs)
      ensures dispatched.Some? ==>
        && MayDispatch(s, dispatched.value)
        && var steps := [StartDispatch(dispatched.value)] + DispatchSteps(w);
           Possible(s, steps) && Shows(After(s, steps))
    {
      dispatched := None;
      if tickInFlight {
        return;
      }
      tickInFlight := true;
      if now - lastBroadcastMs < BRIDGE_CHAIN_COOLDOWN_MS {
        tickInFlight := false;
        return;
      }
      dispatched := queue.LeaseNextEntry(now);
      if dispatched.Some? {
        assert MayDispatch(s, dispatched.value);
        hide Sturdy, MayDispatch, Agrees, Possible, After, Due, Earlier;
        DispatchLeased(dispatched.value, now, w, s);
      }
      tickInFlight := false;
    }
  }
}
