/** The bridge worker among concurrent enqueues, crashes, lease expiries and purges.

    Enqueue transactions run at READ COMMITTED: each statement sees the rows that
    are committed when it runs, and the per-user advisory lock is held to the end.
    The partial unique index on active permlinks holds a write back while another
    transaction has the same permlink uncommitted, and refuses it once an active row
    has it: an insert, and an update that brings a terminal row back. One worker
    process runs at a time. A broadcast that timed out, or whose process died, is in
    limbo: it may land later or never; one that was refused has not landed. The
    duplicate check sees every landed post. A database write is applied, or throws without
    being applied; the completion write may also be applied and throw all the same.
    (Any other write that is applied and throws ends the dispatch as it would have
    ended anyway, or is followed by DropDispatch.) */
module BridgeWorker {
  import opened Prelude
  import opened BridgeQueue

  // Where an enqueue transaction stands, with what its statements have read.
  datatype Stage = Locked | NoDuplicate | Counted(inflight: nat) | Wrote(id: nat, row: Row)

  datatype Txn = Txn(username: string, permlink: string, stage: Stage)

  // Where the worker's one dispatch stands.
  datatype Phase =
    | Idle
    | Dispatching(id: nat)
    | Cleared(id: nat)
    | Sending(id: nat, at: nat)
    | HasLanded(id: nat)
    | HasTimedOut(id: nat)
    | HasFailed(id: nat)
    | WriteFailed(id: nat)

  // A broadcast whose fate is unknown.
  datatype Sent = Sent(permlink: string, at: nat)

  datatype System = System(
    now: nat,
    rows: Rows,
    nextId: nat,
    txns: map<nat, Txn>,
    up: bool,
    phase: Phase,
    lastBroadcast: nat,
    // What the chain and the world hold.
    landings: map<string, nat>,
    limbo: multiset<Sent>,
    // When this process, and any process whose completion was stored, saw a success.
    seen: set<nat>,
    stored: set<nat>,
    seeded: bool)

  const GENESIS := System(BRIDGE_CHAIN_COOLDOWN_MS, map[], 1, map[], false, Idle, 0, map[], multiset{}, {}, {}, false)

  function Landings(s: System, permlink: string): nat
  {
    if permlink in s.landings then s.landings[permlink] else 0
  }

  function Landed(s: System, permlink: string): System
  {
    s.(landings := s.landings[permlink := Landings(s, permlink) + 1])
  }

  // The entry a dispatch is about.
  function Entry(phase: Phase): Option<nat>
  {
    match phase
    case Idle => None
    case Dispatching(id) => Some(id)
    case Cleared(id) => Some(id)
    case Sending(id, _) => Some(id)
    case HasLanded(id) => Some(id)
    case HasTimedOut(id) => Some(id)
    case HasFailed(id) => Some(id)
    case WriteFailed(id) => Some(id)
  }

  // How a completion write ends: acknowledged, not applied, or applied although it
  // throws.
  datatype Write = Stored | Lost | StoredUnheard

  datatype Step =
    // Enqueue transactions.
    | Begin(txn: nat, username: string, permlink: string)
    | CheckDuplicate(txn: nat)
    | CountActive(txn: nat)
    | InsertRow(txn: nat)
    | Commit(txn: nat)
    | Rollback(txn: nat)
    // The worker process.
    | Boot(seedRead: bool)
    | Crash
    | StartDispatch(id: nat)
    | GiveUp
    | Postpone
    | CheckChain
    | Send
    | SendLands
    | SendTimesOut
    | SendFails
    | StoreCompletion(write: Write)
    | StoreReschedule
    | DropDispatch
    // Time, the chain, and the purge.
    | Wait(ms: nat)
    | LimboLands(sent: Sent)
    | LimboDies(sent: Sent)
    | Purge

  predicate Uncommitted(s: System, permlink: string)
  {
    exists t :: t in s.txns && s.txns[t].stage.Wrote? && s.txns[t].permlink == permlink
  }

  predicate ActivePermlink(rows: Rows, permlink: string)
  {
    exists i :: i in rows && Active(rows[i]) && rows[i].permlink == permlink
  }

  // The dispatch gate and the lease query.
  predicate MayDispatch(s: System, id: nat)
  {
    && s.up && s.phase.Idle? && s.now - s.lastBroadcast >= BRIDGE_CHAIN_COOLDOWN_MS
    && id in s.rows && Due(s.rows[id], s.now)
    && forall i :: i in s.rows && Due(s.rows[i], s.now) && i != id ==> Earlier(s.rows, id, i)
  }

  // The rows behind `getLastSuccessfulBroadcastAt`.
  function CompletedBroadcasts(rows: Rows): set<nat>
  {
    set i | i in rows && rows[i].state == Completed && rows[i].tx && rows[i].completedAt.Some?
         :: rows[i].completedAt.value
  }

  predicate IsMaximum(s: set<nat>, m: nat)
  {
    m in s && forall n :: n in s ==> n <= m
  }

  lemma {:induction false} MaximumExists(s: set<nat>)
    requires s != {}
    ensures exists m :: IsMaximum(s, m)
  {
    var a :| a in s;
    if s == {a} {
      assert IsMaximum(s, a);
    } else {
      MaximumExists(s - {a});
      var b :| IsMaximum(s - {a}, b);
      forall n | n in s ensures n <= if a < b then b else a {
        assert n == a || n in s - {a};
      }
      assert IsMaximum(s, if a < b then b else a);
    }
  }

  ghost function Maximum(s: set<nat>): (m: nat)
    requires s != {}
    ensures IsMaximum(s, m)
  {
    MaximumExists(s);
    var m :| IsMaximum(s, m);
    m
  }

  // The row is terminal: its completion was stored unheard.
  predicate StoredAlready(s: System)
  {
    s.phase.WriteFailed? && s.phase.id in s.rows && s.rows[s.phase.id].state == Completed
  }

  // The unique index lets the reschedule through: on a row that is active anyway, and
  // on a terminal one only while no other has its permlink.
  predicate IndexAllows(s: System)
  {
    StoredAlready(s) ==>
      !ActivePermlink(s.rows, s.rows[s.phase.id].permlink) && !Uncommitted(s, s.rows[s.phase.id].permlink)
  }

  predicate Enabled(s: System, step: Step)
  {
    match step
    case Begin(t, u, _) => t !in s.txns && forall o :: o in s.txns ==> s.txns[o].username != u
    case CheckDuplicate(t) => t in s.txns && s.txns[t].stage.Locked? && !ActivePermlink(s.rows, s.txns[t].permlink)
    case CountActive(t) =>
      && t in s.txns && s.txns[t].stage.NoDuplicate?
      && |ActiveOf(s.rows, s.txns[t].username)| < BRIDGE_QUEUE_USER_CAP
    case InsertRow(t) =>
      && t in s.txns && s.txns[t].stage.Counted?
      && !ActivePermlink(s.rows, s.txns[t].permlink) && !Uncommitted(s, s.txns[t].permlink)
    case Commit(t) => t in s.txns && s.txns[t].stage.Wrote?
    case Rollback(t) => t in s.txns
    case Boot(_) => !s.up
    case Crash => s.up
    case StartDispatch(id) => MayDispatch(s, id)
    case GiveUp => s.phase.Dispatching? || s.phase.Cleared?
    case Postpone => s.phase.Dispatching?
    case CheckChain => s.phase.Dispatching?
    case Send => s.phase.Cleared?
    case SendLands => s.phase.Sending?
    case SendTimesOut => s.phase.Sending?
    case SendFails => s.phase.Sending?
    case StoreCompletion(_) => s.phase.HasLanded?
    case StoreReschedule => (s.phase.HasTimedOut? || s.phase.HasFailed? || s.phase.WriteFailed?) && IndexAllows(s)
    case DropDispatch => s.up && !s.phase.Idle? && !s.phase.Sending?
    case Wait(_) => true
    case LimboLands(sent) => sent in s.limbo
    case LimboDies(sent) => sent in s.limbo
    case Purge => true
  }

  predicate OfEnqueue(step: Step)
  {
    step.Begin? || step.CheckDuplicate? || step.CountActive? || step.InsertRow? || step.Commit? || step.Rollback?
  }

  // The steps that write the row of the worker's entry.
  predicate Settles(step: Step)
  {
    step.StartDispatch? || step.GiveUp? || step.Postpone? || step.CheckChain? || step.StoreCompletion?
    || step.StoreReschedule?
  }

  function Transacted(s: System, step: Step): (after: System)
    requires OfEnqueue(step) && Enabled(s, step)
    ensures after == s.(rows := after.rows, nextId := after.nextId, txns := after.txns)
    ensures !step.Commit? ==> after.rows == s.rows
  {
    match step
    case Begin(t, u, p) => s.(txns := s.txns[t := Txn(u, p, Locked)])
    case CheckDuplicate(t) => s.(txns := s.txns[t := s.txns[t].(stage := NoDuplicate)])
    case CountActive(t) =>
      s.(txns := s.txns[t := s.txns[t].(stage := Counted(|ActiveOf(s.rows, s.txns[t].username)|))])
    case InsertRow(t) =>
      s.(nextId := s.nextId + 1,
         txns := s.txns[t := s.txns[t].(stage := Wrote(s.nextId, NewRow(s.txns[t].username, s.txns[t].permlink, s.now)))])
    case Commit(t) => s.(rows := s.rows[s.txns[t].stage.id := s.txns[t].stage.row], txns := s.txns - {t})
    case Rollback(t) => s.(txns := s.txns - {t})
  }

  // The row a step of the dispatch is about.
  ghost function Touched(s: System, step: Step): (id: nat)
    requires Settles(step) && Enabled(s, step) && HoldsEntry(s)
    ensures id in s.rows && (!step.StartDispatch? ==> Entry(s.phase) == Some(id))
  {
    if step.StartDispatch? then step.id else s.phase.id
  }

  ghost function Result(s: System, step: Step): Row
    requires Settles(step) && Enabled(s, step) && HoldsEntry(s)
  {
    var r := s.rows[Touched(s, step)];
    match step
    case StartDispatch(_) => Leased(r, s.now)
    case GiveUp => FailedAt(r, s.now)
    case Postpone => Rescheduled(r, false, s.now)
    case CheckChain => if Landings(s, r.permlink) > 0 then CompletedWith(r, false, s.now) else r
    case StoreCompletion(write) => if write.Lost? then r else CompletedWith(r, true, s.now)
    case StoreReschedule => Rescheduled(r, !s.phase.WriteFailed?, s.now)
  }

  ghost function NextPhase(s: System, step: Step): Phase
    requires Settles(step) && Enabled(s, step) && HoldsEntry(s)
  {
    var id := Touched(s, step);
    match step
    case StartDispatch(_) => Dispatching(id)
    case CheckChain => if Landings(s, s.rows[id].permlink) > 0 then Idle else Cleared(id)
    case StoreCompletion(write) => if write.Stored? then Idle else WriteFailed(id)
    case _ => Idle
  }

  // Rescheduling a row that is gone does nothing more.
  function Purged(s: System): System
  {
    var kept := map i | i in s.rows && !Aged(s.rows[i], s.now, BRIDGE_QUEUE_RETENTION_MS) :: s.rows[i];
    s.(rows := kept,
       phase := if Entry(s.phase).Some? && Entry(s.phase).value !in kept then Idle else s.phase)
  }

  // The steps that leave the table alone.
  ghost function Moved(s: System, step: Step): (after: System)
    requires !OfEnqueue(step) && !Settles(step) && !step.Purge? && Enabled(s, step) && HoldsEntry(s)
    ensures after.rows == s.rows && after.nextId == s.nextId && after.txns == s.txns && after.stored == s.stored
    ensures after.now >= s.now
    ensures Entry(after.phase).Some? ==>
              && Entry(after.phase) == Entry(s.phase) && after.up
              && (after.phase == s.phase || (!s.phase.WriteFailed? && !after.phase.WriteFailed?))
  {
    match step
    case Boot(seedRead) =>
      var done := CompletedBroadcasts(s.rows);
      s.(up := true, phase := Idle, seen := {}, seeded := seedRead,
         lastBroadcast := if seedRead && done != {} then Maximum(done) else 0)
    case Crash =>
      // A broadcast on its way may still land.
      s.(up := false, phase := Idle, seen := {}, seeded := false,
         limbo := if s.phase.Sending? then s.limbo + multiset{Sent(s.rows[s.phase.id].permlink, s.phase.at)} else s.limbo)
    case Send => s.(phase := Sending(s.phase.id, s.now))
    case SendLands =>
      Landed(s, s.rows[s.phase.id].permlink)
        .(phase := HasLanded(s.phase.id), lastBroadcast := s.now, seen := s.seen + {s.now})
    case SendTimesOut =>
      s.(phase := HasTimedOut(s.phase.id), lastBroadcast := s.now, seen := s.seen + {s.now},
         limbo := s.limbo + multiset{Sent(s.rows[s.phase.id].permlink, s.phase.at)})
    case SendFails => s.(phase := HasFailed(s.phase.id))
    case DropDispatch => s.(phase := Idle)
    case Wait(ms) => s.(now := s.now + ms)
    case LimboLands(sent) => Landed(s, sent.permlink).(limbo := s.limbo - multiset{sent})
    case LimboDies(sent) => s.(limbo := s.limbo - multiset{sent})
  }

  ghost function Apply(s: System, step: Step): System
    requires Enabled(s, step) && HoldsEntry(s)
  {
    if OfEnqueue(step) then Transacted(s, step)
    else if Settles(step) then
      s.(rows := s.rows[Touched(s, step) := Result(s, step)],
         phase := NextPhase(s, step),
         stored := if step.StoreCompletion? && !step.write.Lost? then s.stored + {s.lastBroadcast} else s.stored)
    else if step.Purge? then Purged(s)
    else Moved(s, step)
  }

  // ---------------------------------------------------------------------
  // Invariants
  // ---------------------------------------------------------------------

  // The worker's entry is stored, and leased to it, unless its completion was stored
  // unheard.
  ghost predicate HoldsEntry(s: System)
  {
    Entry(s.phase).Some? ==>
      && s.up && Entry(s.phase).value in s.rows
      && (s.rows[Entry(s.phase).value].state == InProgress
          || (s.phase.WriteFailed? && s.rows[Entry(s.phase).value].state == Completed))
  }

  // The one step that brings a terminal row back: the reschedule after a completion
  // that was stored unheard.
  predicate Reactivates(s: System, step: Step)
  {
    step.StoreReschedule? && StoredAlready(s)
  }

  // An inserted row is new, and its transaction's own.
  predicate IsNew(t: Txn)
    requires t.stage.Wrote?
  {
    && Active(t.stage.row) && t.stage.row.attempts == 0
    && t.stage.row.username == t.username && t.stage.row.permlink == t.permlink
  }

  // Ids of stored and inserted rows come from the sequence, once each.
  ghost predicate IdsOk(s: System)
  {
    && (forall i :: i in s.rows ==> i < s.nextId)
    && (forall t :: t in s.txns && s.txns[t].stage.Wrote? ==>
          s.txns[t].stage.id < s.nextId && s.txns[t].stage.id !in s.rows && IsNew(s.txns[t]))
    && (forall t, o :: t in s.txns && o in s.txns && t != o && s.txns[t].stage.Wrote? && s.txns[o].stage.Wrote? ==>
          s.txns[t].stage.id != s.txns[o].stage.id)
  }

  ghost predicate BaseOk(s: System)
  {
    HoldsEntry(s) && IdsOk(s)
  }

  // One transaction at a time per user, and per uncommitted permlink.
  ghost predicate LocksOk(s: System)
  {
    forall t, o :: t in s.txns && o in s.txns && t != o ==>
      && s.txns[t].username != s.txns[o].username
      && (s.txns[t].stage.Wrote? && s.txns[o].stage.Wrote? ==> s.txns[t].permlink != s.txns[o].permlink)
  }

  // A permlink is active in one row at most, stored or inserted.
  ghost predicate PermlinksOk(s: System)
  {
    && LocksOk(s) && OnePerPermlink(s.rows)
    && forall t :: t in s.txns && s.txns[t].stage.Wrote? ==> !ActivePermlink(s.rows, s.txns[t].permlink)
  }

  ghost predicate AttemptsOk(s: System)
  {
    && (forall i :: i in s.rows ==>
          && s.rows[i].attempts <= BRIDGE_QUEUE_MAX_ATTEMPTS + 1
          && (Active(s.rows[i]) ==> s.rows[i].attempts <= BRIDGE_QUEUE_MAX_ATTEMPTS))
    && (Entry(s.phase).Some? && Entry(s.phase).value in s.rows ==>
          s.rows[Entry(s.phase).value].attempts <= BRIDGE_QUEUE_MAX_ATTEMPTS)
  }

  // What an enqueue has counted still holds when it commits.
  ghost predicate CapOk(s: System)
  {
    && WithinCap(s.rows)
    && forall t :: t in s.txns && (s.txns[t].stage.Counted? || s.txns[t].stage.Wrote?) ==>
         |ActiveOf(s.rows, s.txns[t].username)| < BRIDGE_QUEUE_USER_CAP
  }

  // A stored success is still in the table, or long past.
  ghost predicate StoredOk(s: System)
  {
    forall b :: b in s.stored ==>
      b + BRIDGE_CHAIN_COOLDOWN_MS <= s.now || exists d :: d in CompletedBroadcasts(s.rows) && d >= b
  }

  // The process remembers the last success it saw.
  ghost predicate ClockOk(s: System)
  {
    && s.lastBroadcast <= s.now && (forall d :: d in CompletedBroadcasts(s.rows) ==> d <= s.now)
    && (forall b :: b in s.seen ==> b <= s.lastBroadcast)
    && (s.phase.HasLanded? ==> s.lastBroadcast in s.seen)
  }

  // A seeded process remembers every stored success that still matters.
  ghost predicate SeededOk(s: System)
  {
    s.up && s.seeded ==>
      forall b :: b in s.stored ==> b <= s.lastBroadcast || b + BRIDGE_CHAIN_COOLDOWN_MS <= s.now
  }

  // What every step keeps, and what every step keeps that does not reactivate a row.
  ghost predicate Sturdy(s: System)
  {
    BaseOk(s) && PermlinksOk(s) && AttemptsOk(s) && ClockOk(s)
  }

  ghost predicate Valid(s: System)
  {
    Sturdy(s) && CapOk(s) && StoredOk(s) && SeededOk(s)
  }

  // ---------------------------------------------------------------------
  // The queue's invariants
  // ---------------------------------------------------------------------

  // Rows leave or change, but none becomes active and none changes hands.
  ghost predicate Shrinks(rows: Rows, after: Rows)
  {
    forall i :: i in after ==>
      && i in rows && after[i].username == rows[i].username && after[i].permlink == rows[i].permlink
      && (Active(after[i]) ==> Active(rows[i]))
  }

  lemma ShrinkingKeeps(rows: Rows, after: Rows)
    requires Shrinks(rows, after)
    ensures forall u :: |ActiveOf(after, u)| <= |ActiveOf(rows, u)|
    ensures forall p :: ActivePermlink(after, p) ==> ActivePermlink(rows, p)
    ensures OnePerPermlink(rows) ==> OnePerPermlink(after)
    ensures WithinCap(rows) ==> WithinCap(after)
  {
    forall u ensures |ActiveOf(after, u)| <= |ActiveOf(rows, u)| {
      SubsetSize(ActiveOf(after, u), ActiveOf(rows, u));
    }
  }

  lemma RowUpdateShrinks(rows: Rows, id: nat, r: Row)
    requires id in rows && r.username == rows[id].username && r.permlink == rows[id].permlink
    requires Active(r) ==> Active(rows[id])
    ensures Shrinks(rows, rows[id := r])
  {
  }

  // What one of them makes of its row.
  lemma SettlesOneRow(s: System, step: Step)
    requires HoldsEntry(s) && Enabled(s, step) && Settles(step)
    ensures var r, after := s.rows[Touched(s, step)], Result(s, step);
            && after.username == r.username && after.permlink == r.permlink
            && (Active(r) || Reactivates(s, step))
            && (after.state == Completed ==> after == r || after.completedAt == Some(s.now))
  {
    hide BackoffMs, Earlier, ActivePermlink, Uncommitted, Landings;
  }

  lemma SettlesToHold(s: System, step: Step)
    requires HoldsEntry(s) && Enabled(s, step) && Settles(step)
    ensures var next := NextPhase(s, step);
            Entry(next).Some? ==>
              && s.up && Entry(next).value == Touched(s, step)
              && (Result(s, step).state == InProgress || (next.WriteFailed? && Result(s, step).state == Completed))
  {
    hide BackoffMs, Earlier, ActivePermlink, Uncommitted, Landings;
  }

  lemma SettlesWithinBudget(s: System, step: Step)
    requires HoldsEntry(s) && Enabled(s, step) && Settles(step)
    requires s.rows[Touched(s, step)].attempts <= BRIDGE_QUEUE_MAX_ATTEMPTS
    ensures Result(s, step).attempts <= BRIDGE_QUEUE_MAX_ATTEMPTS + 1
    ensures Active(Result(s, step)) || Entry(NextPhase(s, step)).Some? ==> Result(s, step).attempts <= BRIDGE_QUEUE_MAX_ATTEMPTS
  {
    hide BackoffMs, Earlier, ActivePermlink, Uncommitted, Landings, HoldsEntry, Enabled;
  }

  lemma PurgeShrinks(s: System)
    ensures Shrinks(s.rows, Purged(s).rows)
  {
  }

  // A step that neither commits nor reactivates makes no row active.
  lemma WorkerStepShrinks(s: System, step: Step)
    requires HoldsEntry(s) && Enabled(s, step) && !OfEnqueue(step) && !Reactivates(s, step)
    ensures var after := Apply(s, step);
            Shrinks(s.rows, after.rows) && after.txns == s.txns && after.nextId == s.nextId
  {
    hide Enabled, HoldsEntry, Reactivates, Transacted, Touched, Result, NextPhase, Purged, Moved;
    if Settles(step) {
      SettlesOneRow(s, step);
      RowUpdateShrinks(s.rows, Touched(s, step), Result(s, step));
    } else if step.Purge? {
      PurgeShrinks(s);
      PurgeKeepsRest(s);
    }
  }

  lemma PurgeKeepsRest(s: System)
    ensures var after := Purged(s); after == s.(rows := after.rows, phase := after.phase)
    ensures var after := Purged(s); Entry(after.phase).Some? ==> after.phase == s.phase && Entry(s.phase).value in after.rows
  {
  }

  lemma CommittedElsewhere(rows: Rows, id: nat, r: Row, p: string)
    requires id !in rows && p != r.permlink
    ensures ActivePermlink(rows[id := r], p) <==> ActivePermlink(rows, p)
  {
    var after := rows[id := r];
    if ActivePermlink(rows, p) {
      var i :| i in rows && Active(rows[i]) && rows[i].permlink == p;
      assert after[i] == rows[i];
    }
    if ActivePermlink(after, p) {
      var i :| i in after && Active(after[i]) && after[i].permlink == p;
      assert rows[i] == after[i];
    }
  }

  lemma CommittedRows(rows: Rows, id: nat, r: Row)
    requires id !in rows && Active(r)
    ensures var after := rows[id := r];
            && (WithinCap(rows) && |ActiveOf(rows, r.username)| < BRIDGE_QUEUE_USER_CAP ==> WithinCap(after))
            && (OnePerPermlink(rows) && !ActivePermlink(rows, r.permlink) ==> OnePerPermlink(after))
            && (forall u :: u != r.username ==> ActiveOf(after, u) == ActiveOf(rows, u))
            && (forall p :: p != r.permlink ==> (ActivePermlink(after, p) <==> ActivePermlink(rows, p)))
  {
    InsertedIds(rows, id, r);
    assert !ActivePermlink(rows, r.permlink) ==> forall i :: i in ActiveIds(rows) ==> rows[i].permlink != r.permlink;
    hide ActivePermlink, ActiveIds, ActiveOf, WithinCap, OnePerPermlink, Active;
    if OnePerPermlink(rows) && !ActivePermlink(rows, r.permlink) {
      InsertedUnique(rows, id, r);
    }
    if WithinCap(rows) && |ActiveOf(rows, r.username)| < BRIDGE_QUEUE_USER_CAP {
      InsertedWithinCap(rows, id, r);
    }
    forall p | p != r.permlink ensures ActivePermlink(rows[id := r], p) <==> ActivePermlink(rows, p) {
      CommittedElsewhere(rows, id, r, p);
    }
  }

  // A transaction begins, reads on, or ends.
  lemma ReadsKeepPermlinks(s: System, step: Step)
    requires PermlinksOk(s) && BaseOk(s) && Enabled(s, step)
    requires step.Begin? || step.CheckDuplicate? || step.CountActive? || step.Rollback?
    ensures PermlinksOk(Apply(s, step))
  {
    hide ActivePermlink, OnePerPermlink, ActiveOf, IdsOk, HoldsEntry, Touched, Result, NextPhase, Purged, Moved;
  }

  lemma InsertKeepsPermlinks(s: System, t: nat)
    requires PermlinksOk(s) && BaseOk(s) && Enabled(s, InsertRow(t))
    ensures PermlinksOk(Apply(s, InsertRow(t)))
  {
    hide ActivePermlink, OnePerPermlink, ActiveOf, IdsOk, HoldsEntry, Touched, Result, NextPhase, Purged, Moved;
  }

  lemma CommitKeepsPermlinks(s: System, t: nat)
    requires PermlinksOk(s) && BaseOk(s) && Enabled(s, Commit(t))
    ensures PermlinksOk(Apply(s, Commit(t)))
  {
    hide Touched, Result, NextPhase, Purged, Moved;
    var id, r := s.txns[t].stage.id, s.txns[t].stage.row;
    assert IsNew(s.txns[t]) && id !in s.rows;
    CommittedRows(s.rows, id, r);
    hide ActivePermlink, OnePerPermlink, WithinCap, ActiveOf, IdsOk, HoldsEntry;
  }

  // A row that comes back while no other has its permlink.
  lemma ReturnedRow(rows: Rows, id: nat, r: Row)
    requires id in rows && !Active(rows[id]) && Active(r) && r.permlink == rows[id].permlink
    requires OnePerPermlink(rows) && !ActivePermlink(rows, r.permlink)
    ensures OnePerPermlink(rows[id := r])
    ensures forall p :: ActivePermlink(rows[id := r], p) ==> p == r.permlink || ActivePermlink(rows, p)
  {
  }

  lemma ReactivationKeepsPermlinks(s: System, step: Step)
    requires PermlinksOk(s) && BaseOk(s) && Enabled(s, step) && Reactivates(s, step)
    ensures PermlinksOk(Apply(s, step))
  {
    hide Purged, Moved, Transacted, IdsOk, BackoffMs;
    var id := s.phase.id;
    var back := Rescheduled(s.rows[id], false, s.now);
    var after := Apply(s, step);
    assert after.rows == s.rows[id := back] && after.txns == s.txns && Active(back);
    assert !ActivePermlink(s.rows, back.permlink) && !Uncommitted(s, back.permlink);
    assert OnePerPermlink(s.rows) && LocksOk(after);
    hide Apply, Enabled, BaseOk, Rescheduled, ActivePermlink, OnePerPermlink;
    ReturnedRow(s.rows, id, back);
  }

  lemma PermlinksKept(s: System, step: Step)
    requires PermlinksOk(s) && BaseOk(s) && Enabled(s, step)
    ensures PermlinksOk(Apply(s, step))
  {
    if OfEnqueue(step) {
      hide Apply, PermlinksOk, BaseOk;
      match step
      case InsertRow(t) => InsertKeepsPermlinks(s, t);
      case Commit(t) => CommitKeepsPermlinks(s, t);
      case _ => ReadsKeepPermlinks(s, step);
    } else if Reactivates(s, step) {
      ReactivationKeepsPermlinks(s, step);
    } else {
      WorkerStepShrinks(s, step);
      hide Apply, Enabled, BaseOk, ActivePermlink, OnePerPermlink, Shrinks;
      ShrinkingKeeps(s.rows, Apply(s, step).rows);
    }
  }

  lemma ReadsKeepCap(s: System, step: Step)
    requires CapOk(s) && BaseOk(s) && Enabled(s, step)
    requires step.Begin? || step.CheckDuplicate? || step.CountActive? || step.InsertRow? || step.Rollback?
    ensures CapOk(Apply(s, step))
  {
    hide ActivePermlink, Uncommitted, WithinCap, ActiveOf, IdsOk, HoldsEntry, Touched, Result, NextPhase, Purged, Moved;
  }

  lemma CommitKeepsCap(s: System, t: nat)
    requires CapOk(s) && LocksOk(s) && BaseOk(s) && Enabled(s, Commit(t))
    ensures CapOk(Apply(s, Commit(t)))
  {
    hide Touched, Result, NextPhase, Purged, Moved;
    var id, r := s.txns[t].stage.id, s.txns[t].stage.row;
    assert IsNew(s.txns[t]) && id !in s.rows;
    CommittedRows(s.rows, id, r);
    hide ActivePermlink, OnePerPermlink, WithinCap, ActiveOf, IdsOk, HoldsEntry;
  }

  lemma CapKept(s: System, step: Step)
    requires CapOk(s) && LocksOk(s) && BaseOk(s) && Enabled(s, step) && !Reactivates(s, step)
    ensures CapOk(Apply(s, step))
  {
    if OfEnqueue(step) {
      hide Apply, CapOk, LocksOk, BaseOk;
      match step
      case Commit(t) => CommitKeepsCap(s, t);
      case _ => ReadsKeepCap(s, step);
    } else {
      WorkerStepShrinks(s, step);
      hide Apply, Enabled, BaseOk, ActiveOf, WithinCap, Shrinks;
      var after := Apply(s, step);
      ShrinkingKeeps(s.rows, after.rows);
      forall u ensures |ActiveOf(after.rows, u)| <= |ActiveOf(s.rows, u)| {
      }
    }
  }

  lemma EnqueueKeepsAttempts(s: System, step: Step)
    requires AttemptsOk(s) && BaseOk(s) && Enabled(s, step) && OfEnqueue(step)
    ensures AttemptsOk(Apply(s, step))
  {
    hide ActivePermlink, Uncommitted, ActiveOf, Touched, Result, NextPhase, Purged, Moved;
  }

  lemma SettlingKeepsAttempts(s: System, step: Step)
    requires AttemptsOk(s) && HoldsEntry(s) && Enabled(s, step) && Settles(step)
    ensures AttemptsOk(Apply(s, step))
  {
    SettlesOneRow(s, step);
    hide Enabled, Transacted, Result, Purged, Moved;
    SettlesWithinBudget(s, step);
    hide NextPhase;
    SettlesToHold(s, step);
  }

  lemma OthersKeepAttempts(s: System, step: Step)
    requires AttemptsOk(s) && HoldsEntry(s) && Enabled(s, step) && !OfEnqueue(step) && !Settles(step)
    ensures AttemptsOk(Apply(s, step))
  {
    hide Enabled, HoldsEntry, Transacted, Touched, Result, NextPhase, Moved;
    PurgeKeepsRest(s);
    PurgeShrinks(s);
  }

  lemma AttemptsKept(s: System, step: Step)
    requires AttemptsOk(s) && BaseOk(s) && Enabled(s, step)
    ensures AttemptsOk(Apply(s, step))
  {
    assert HoldsEntry(s);
    hide Apply, Enabled, AttemptsOk, BaseOk;
    if OfEnqueue(step) {
      EnqueueKeepsAttempts(s, step);
    } else if Settles(step) {
      SettlingKeepsAttempts(s, step);
    } else {
      OthersKeepAttempts(s, step);
    }
  }

  // ---------------------------------------------------------------------
  // The entry's and the cooldown's invariants
  // ---------------------------------------------------------------------

  lemma PurgeKeepsEntry(s: System)
    requires HoldsEntry(s)
    ensures HoldsEntry(Purged(s))
  {
  }

  lemma EnqueueKeepsEntry(s: System, step: Step)
    requires BaseOk(s) && Enabled(s, step) && OfEnqueue(step)
    ensures HoldsEntry(Transacted(s, step))
  {
    hide ActivePermlink, Uncommitted, ActiveOf;
  }

  lemma HoldsKept(s: System, step: Step)
    requires BaseOk(s) && Enabled(s, step)
    ensures HoldsEntry(Apply(s, step))
  {
    hide Enabled, IdsOk, Transacted, Result, NextPhase, Purged, Moved;
    if OfEnqueue(step) {
      EnqueueKeepsEntry(s, step);
    } else if Settles(step) {
      SettlesToHold(s, step);
    } else if step.Purge? {
      PurgeKeepsEntry(s);
    }
  }

  lemma ReadsKeepIds(s: System, step: Step)
    requires IdsOk(s) && Enabled(s, step)
    requires step.Begin? || step.CheckDuplicate? || step.CountActive? || step.Rollback?
    ensures IdsOk(Transacted(s, step))
  {
    hide ActivePermlink, Uncommitted, ActiveOf, IsNew;
  }

  lemma InsertKeepsIds(s: System, t: nat)
    requires IdsOk(s) && Enabled(s, InsertRow(t))
    ensures IdsOk(Transacted(s, InsertRow(t)))
  {
    var after := Transacted(s, InsertRow(t));
    assert IsNew(after.txns[t]);
    hide ActivePermlink, Uncommitted, ActiveOf, IsNew;
  }

  lemma EnqueueKeepsIds(s: System, step: Step)
    requires IdsOk(s) && Enabled(s, step) && OfEnqueue(step)
    ensures IdsOk(Transacted(s, step))
  {
    match step
    case InsertRow(t) => InsertKeepsIds(s, t);
    case Commit(_) => hide ActivePermlink, Uncommitted, ActiveOf, IsNew;
    case _ => ReadsKeepIds(s, step);
  }

  lemma IdsKept(s: System, step: Step)
    requires BaseOk(s) && Enabled(s, step)
    ensures IdsOk(Apply(s, step))
  {
    hide Enabled, HoldsEntry, Transacted, Result, Touched, NextPhase, Purged, Moved;
    if OfEnqueue(step) {
      EnqueueKeepsIds(s, step);
    } else {
      PurgeShrinks(s);
      PurgeKeepsRest(s);
    }
  }

  lemma BaseKept(s: System, step: Step)
    requires BaseOk(s) && Enabled(s, step)
    ensures BaseOk(Apply(s, step))
  {
    hide Apply, Enabled, HoldsEntry, IdsOk;
    HoldsKept(s, step);
    IdsKept(s, step);
  }

  // A step adds no completed broadcast but one of this moment, and none goes but by a
  // purge or a reactivation.
  lemma CompletionsKept(s: System, step: Step)
    requires BaseOk(s) && Enabled(s, step)
    ensures forall d :: d in CompletedBroadcasts(Apply(s, step).rows) ==> d in CompletedBroadcasts(s.rows) || d == s.now
    ensures !step.Purge? && !Reactivates(s, step) ==>
              forall d :: d in CompletedBroadcasts(s.rows) ==> d in CompletedBroadcasts(Apply(s, step).rows)
    ensures step.StoreCompletion? && !step.write.Lost? ==> s.now in CompletedBroadcasts(Apply(s, step).rows)
  {
    hide Enabled, IdsOk, HoldsEntry, Transacted, Result, NextPhase, Touched, Purged, Moved, CompletedBroadcasts, Reactivates;
    if step.Commit? {
      CommitsNoCompletion(s, step.txn);
    } else if step.Purge? {
      PurgesCompletions(s);
    } else if Settles(step) {
      SettlesToCompletion(s, step);
    }
  }

  lemma PurgesCompletions(s: System)
    ensures forall d :: d in CompletedBroadcasts(Purged(s).rows) ==> d in CompletedBroadcasts(s.rows)
  {
    var after := Purged(s);
    forall d | d in CompletedBroadcasts(after.rows) ensures d in CompletedBroadcasts(s.rows) {
      var i :| i in after.rows && after.rows[i].state == Completed && after.rows[i].tx && after.rows[i].completedAt == Some(d);
      assert s.rows[i] == after.rows[i];
    }
  }

  lemma CommitsNoCompletion(s: System, t: nat)
    requires BaseOk(s) && Enabled(s, Commit(t))
    ensures CompletedBroadcasts(Transacted(s, Commit(t)).rows) == CompletedBroadcasts(s.rows)
  {
    var after, id := Transacted(s, Commit(t)), s.txns[t].stage.id;
    assert after.rows == s.rows[id := s.txns[t].stage.row] && IsNew(s.txns[t]) && id !in s.rows;
    hide Transacted, BaseOk;
    forall d ensures d in CompletedBroadcasts(after.rows) <==> d in CompletedBroadcasts(s.rows) {
      if d in CompletedBroadcasts(s.rows) {
        var i :| i in s.rows && s.rows[i].state == Completed && s.rows[i].tx && s.rows[i].completedAt == Some(d);
        assert after.rows[i] == s.rows[i];
      }
    }
  }

  lemma RowSettles(rows: Rows, id: nat, r: Row, now: nat)
    requires id in rows && (r.state == Completed ==> r == rows[id] || r.completedAt == Some(now))
    ensures rows[id].state != Completed ==>
              forall d :: d in CompletedBroadcasts(rows) ==> d in CompletedBroadcasts(rows[id := r])
    ensures forall d :: d in CompletedBroadcasts(rows[id := r]) ==> d in CompletedBroadcasts(rows) || d == now
    ensures r.state == Completed && r.tx && r.completedAt == Some(now) ==> now in CompletedBroadcasts(rows[id := r])
  {
    var after := rows[id := r];
    forall d | d in CompletedBroadcasts(rows) && rows[id].state != Completed ensures d in CompletedBroadcasts(after) {
      var i :| i in rows && rows[i].state == Completed && rows[i].tx && rows[i].completedAt == Some(d);
      assert after[i] == rows[i];
    }
    forall d | d in CompletedBroadcasts(after) && d != now ensures d in CompletedBroadcasts(rows) {
      var i :| i in after && after[i].state == Completed && after[i].tx && after[i].completedAt == Some(d);
      assert rows[i] == after[i];
    }
    assert after[id] == r;
  }

  lemma SettlesToCompletion(s: System, step: Step)
    requires HoldsEntry(s) && Enabled(s, step) && Settles(step)
    ensures var after := s.rows[Touched(s, step) := Result(s, step)];
            && (!Reactivates(s, step) ==> forall d :: d in CompletedBroadcasts(s.rows) ==> d in CompletedBroadcasts(after))
            && (forall d :: d in CompletedBroadcasts(after) ==> d in CompletedBroadcasts(s.rows) || d == s.now)
            && (step.StoreCompletion? && !step.write.Lost? ==> s.now in CompletedBroadcasts(after))
  {
    var id, r := Touched(s, step), Result(s, step);
    assert step.StoreCompletion? && !step.write.Lost? ==> r.state == Completed && r.tx && r.completedAt == Some(s.now);
    SettlesOneRow(s, step);
    hide Result, Touched, HoldsEntry, Enabled, Reactivates, CompletedBroadcasts;
    RowSettles(s.rows, id, r, s.now);
  }

  // What every step that leaves the table alone does to the clock.
  lemma MovesKeepClock(s: System, step: Step)
    requires HoldsEntry(s) && ClockOk(s) && Enabled(s, step)
    requires !OfEnqueue(step) && !Settles(step) && !step.Purge?
    ensures ClockOk(Moved(s, step))
  {
    hide CompletedBroadcasts, Landings;
  }

  lemma ClockKept(s: System, step: Step)
    requires BaseOk(s) && ClockOk(s) && Enabled(s, step)
    ensures ClockOk(Apply(s, step))
  {
    hide CompletedBroadcasts, IdsOk, HoldsEntry, Enabled, Transacted, Result, Touched, Moved, Purged;
    if !OfEnqueue(step) && !Settles(step) && !step.Purge? {
      hide Apply, ClockOk;
      MovesKeepClock(s, step);
      ApplyMoves(s, step);
    } else {
      CompletionsKept(s, step);
      PurgeKeepsRest(s);
      var after := Apply(s, step);
      assert after.now == s.now && after.lastBroadcast == s.lastBroadcast && after.seen == s.seen;
      assert after.phase.HasLanded? ==> s.phase.HasLanded?;
      hide Apply;
    }
  }

  lemma ApplyMoves(s: System, step: Step)
    requires HoldsEntry(s) && Enabled(s, step) && !OfEnqueue(step) && !Settles(step) && !step.Purge?
    ensures Apply(s, step) == Moved(s, step)
  {
    hide Moved, Enabled, HoldsEntry;
  }

  lemma SturdyKept(s: System, step: Step)
    requires Sturdy(s) && Enabled(s, step)
    ensures Sturdy(Apply(s, step))
  {
    assert HoldsEntry(s);
    hide Apply, Enabled, BaseOk, PermlinksOk, AttemptsOk, ClockOk;
    BaseKept(s, step);
    PermlinksKept(s, step);
    AttemptsKept(s, step);
    ClockKept(s, step);
  }

  lemma PurgeKeepsStored(s: System)
    requires StoredOk(s)
    ensures StoredOk(Purged(s))
  {
    var after := Purged(s);
    forall b | b in after.stored
      ensures b + BRIDGE_CHAIN_COOLDOWN_MS <= after.now || exists d :: d in CompletedBroadcasts(after.rows) && d >= b
    {
      if b + BRIDGE_CHAIN_COOLDOWN_MS > s.now {
        var d :| d in CompletedBroadcasts(s.rows) && d >= b;
        var i :| i in s.rows && s.rows[i].state == Completed && s.rows[i].tx && s.rows[i].completedAt == Some(d);
        assert !Aged(s.rows[i], s.now, BRIDGE_QUEUE_RETENTION_MS);
        assert i in after.rows && after.rows[i] == s.rows[i];
        assert d in CompletedBroadcasts(after.rows);
      }
    }
  }

  lemma StoredKept(s: System, step: Step)
    requires BaseOk(s) && ClockOk(s) && StoredOk(s) && Enabled(s, step) && !Reactivates(s, step)
    ensures StoredOk(Apply(s, step))
  {
    hide CompletedBroadcasts, IdsOk, HoldsEntry, Enabled, Transacted, Result, Touched, NextPhase, Moved, Purged, Reactivates;
    if step.Purge? {
      PurgeKeepsStored(s);
    } else {
      CompletionsKept(s, step);
      var after := Apply(s, step);
      assert after.now >= s.now;
      assert after.stored == s.stored
             || (step.StoreCompletion? && !step.write.Lost? && after.stored == s.stored + {s.lastBroadcast});
      hide Apply;
      forall b | b in after.stored
        ensures b + BRIDGE_CHAIN_COOLDOWN_MS <= after.now || exists d :: d in CompletedBroadcasts(after.rows) && d >= b
      {
        assert b in s.stored || (b == s.lastBroadcast <= s.now && s.now in CompletedBroadcasts(after.rows));
      }
    }
  }

  lemma MovesKeepSeeded(s: System, step: Step)
    requires HoldsEntry(s) && ClockOk(s) && SeededOk(s) && StoredOk(s) && Enabled(s, step)
    requires !OfEnqueue(step) && !Settles(step) && !step.Purge?
    ensures SeededOk(Moved(s, step))
  {
    hide CompletedBroadcasts, Landings;
  }

  lemma SeededKept(s: System, step: Step)
    requires HoldsEntry(s) && ClockOk(s) && SeededOk(s) && StoredOk(s) && Enabled(s, step)
    ensures SeededOk(Apply(s, step))
  {
    hide CompletedBroadcasts, StoredOk, HoldsEntry, Enabled, Transacted, Result, Touched, NextPhase, Moved, Purged;
    PurgeKeepsRest(s);
    if !OfEnqueue(step) && !Settles(step) && !step.Purge? {
      MovesKeepSeeded(s, step);
      ApplyMoves(s, step);
    }
  }

  lemma ValidKept(s: System, step: Step)
    requires Valid(s) && Enabled(s, step) && !Reactivates(s, step)
    ensures Valid(Apply(s, step))
  {
    assert HoldsEntry(s) && BaseOk(s) && LocksOk(s) && ClockOk(s);
    hide Apply, Enabled, Sturdy, CapOk, StoredOk, SeededOk, BaseOk, LocksOk, ClockOk, Reactivates;
    SturdyKept(s, step);
    CapKept(s, step);
    StoredKept(s, step);
    SeededKept(s, step);
  }

  // ---------------------------------------------------------------------
  // What is in limbo
  // ---------------------------------------------------------------------

  // A broadcast of unknown fate may still land, if none does later than `life` after
  // it was sent.
  predicate Live(s: System, sent: Sent, life: nat)
  {
    sent in s.limbo && s.now <= sent.at + life
  }

  // What lands does so within `life`, and a process starts only once nothing sent
  // before may still land.
  ghost predicate InTime(s: System, step: Step, life: nat)
  {
    && (step.LimboLands? ==> Live(s, step.sent, life))
    && (step.Boot? ==> forall b :: !Live(s, b, life))
  }

  // At most one broadcast may still land, none while another is prepared, and its
  // permlink has not landed.
  ghost predicate LimboOk(s: System, life: nat)
    requires HoldsEntry(s)
  {
    && (forall p :: Landings(s, p) <= 1)
    && (forall b :: Live(s, b, life) ==>
          && (s.phase.Idle? || s.phase.HasTimedOut?) && Landings(s, b.permlink) == 0 && s.limbo[b] == 1
          && (s.up ==> b.at <= s.lastBroadcast))
    && (forall b, c :: Live(s, b, life) && Live(s, c, life) ==> b == c)
    && (s.phase.Cleared? || s.phase.Sending? ==> Landings(s, s.rows[s.phase.id].permlink) == 0)
    && (s.phase.Sending? ==> s.phase.at <= s.now)
  }

  // The entry's row is the one it was, or the dispatch is over.
  lemma EntryStays(s: System, step: Step)
    requires BaseOk(s) && Enabled(s, step) && (OfEnqueue(step) || step.Purge?)
    ensures var after := Apply(s, step);
            && (after.phase == s.phase || after.phase.Idle?)
            && (Entry(after.phase).Some? ==>
                  && Entry(s.phase).value in s.rows && Entry(s.phase).value in after.rows
                  && after.rows[Entry(s.phase).value] == s.rows[Entry(s.phase).value])
  {
    hide ActivePermlink, Uncommitted, ActiveOf, Touched, Result, NextPhase, Moved;
  }

  // Nothing has landed or been sent, and no dispatch has begun.
  lemma NothingSent(s: System, after: System, life: nat)
    requires HoldsEntry(s) && LimboOk(s, life) && HoldsEntry(after)
    requires after.landings == s.landings && after.limbo == s.limbo && after.now == s.now
    requires after.up == s.up && after.lastBroadcast == s.lastBroadcast
    requires after.phase.Idle?
             || (after.phase == s.phase && Entry(s.phase).value in after.rows
                 && after.rows[Entry(s.phase).value].permlink == s.rows[Entry(s.phase).value].permlink)
    ensures LimboOk(after, life)
  {
    assert forall p :: Landings(after, p) == Landings(s, p);
    assert forall b :: Live(after, b, life) == Live(s, b, life);
    hide Landings, Live;
  }

  // A dispatch starts once nothing sent may still land.
  lemma DispatchMeetsNothingLive(s: System, id: nat, life: nat)
    requires HoldsEntry(s) && LimboOk(s, life) && Enabled(s, StartDispatch(id)) && life < BRIDGE_CHAIN_COOLDOWN_MS
    ensures forall b :: !Live(s, b, life)
  {
  }

  lemma SettlesPhase(s: System, step: Step)
    requires HoldsEntry(s) && Enabled(s, step) && Settles(step)
    ensures var next, id := NextPhase(s, step), Touched(s, step);
            && !next.Sending? && !next.HasTimedOut?
            && (next.Idle? || step.StartDispatch? || s.phase.Dispatching? || s.phase.HasLanded?)
            && (next.Cleared? ==> next.id == id && Result(s, step) == s.rows[id] && Landings(s, s.rows[id].permlink) == 0)
  {
    hide Due, Earlier, IndexAllows, Landings, BackoffMs;
  }

  lemma SettlingKeepsLimbo(s: System, step: Step, life: nat)
    requires HoldsEntry(s) && LimboOk(s, life) && Enabled(s, step) && Settles(step) && life < BRIDGE_CHAIN_COOLDOWN_MS
    requires HoldsEntry(Apply(s, step))
    ensures LimboOk(Apply(s, step), life)
  {
    var after := Apply(s, step);
    SettlesPhase(s, step);
    if step.StartDispatch? {
      DispatchMeetsNothingLive(s, step.id, life);
    }
    hide Enabled, HoldsEntry, Result, NextPhase, Touched, Moved, Transacted, Purged, Live, Landings;
    PhaseMoves(s, after, life);
  }

  // Only the phase has moved, to one that is idle or with nothing live.
  lemma PhaseMoves(s: System, after: System, life: nat)
    requires HoldsEntry(s) && LimboOk(s, life) && HoldsEntry(after)
    requires after.landings == s.landings && after.limbo == s.limbo && after.now == s.now
    requires after.up == s.up && after.lastBroadcast == s.lastBroadcast
    requires after.phase.Idle? || forall b :: !Live(s, b, life)
    requires !after.phase.Sending?
    requires after.phase.Cleared? ==> Landings(s, after.rows[after.phase.id].permlink) == 0
    ensures LimboOk(after, life)
  {
    hide HoldsEntry;
    assert forall p :: Landings(after, p) == Landings(s, p);
    assert forall b :: Live(after, b, life) == Live(s, b, life);
    hide Live, Landings;
  }

  // A broadcast enters limbo.
  lemma JoinsLimbo(s: System, step: Step, life: nat)
    requires HoldsEntry(s) && LimboOk(s, life) && Enabled(s, step) && s.phase.Sending?
    requires step.SendTimesOut? || step.Crash?
    requires HoldsEntry(Moved(s, step))
    ensures LimboOk(Moved(s, step), life)
  {
    var after, sent := Moved(s, step), Sent(s.rows[s.phase.id].permlink, s.phase.at);
    assert forall b :: !Live(s, b, life);
    assert after.limbo == s.limbo + multiset{sent} && after.now == s.now && after.landings == s.landings;
    forall b | Live(after, b, life) ensures b == sent && after.limbo[b] == 1 {
      assert b in s.limbo ==> Live(s, b, life);
    }
    assert forall p :: Landings(after, p) == Landings(s, p);
    hide Live, Landings;
  }

  // One leaves it, landed or not.
  lemma LeavesLimbo(s: System, step: Step, life: nat)
    requires HoldsEntry(s) && LimboOk(s, life) && Enabled(s, step) && InTime(s, step, life)
    requires step.LimboLands? || step.LimboDies?
    requires HoldsEntry(Moved(s, step))
    ensures LimboOk(Moved(s, step), life)
  {
    var after := Moved(s, step);
    assert after.limbo == s.limbo - multiset{step.sent} && after.now == s.now && after.rows == s.rows && after.phase == s.phase;
    forall b | Live(after, b, life) ensures Live(s, b, life) && b != step.sent && after.limbo[b] == s.limbo[b] {
      assert Live(s, b, life);
    }
    if step.LimboLands? {
      assert forall p :: Landings(after, p) == Landings(s, p) + if p == step.sent.permlink then 1 else 0;
    } else {
      assert forall p :: Landings(after, p) == Landings(s, p);
    }
    hide Live, Landings, Moved;
  }

  lemma OtherMovesKeepLimbo(s: System, step: Step, life: nat)
    requires HoldsEntry(s) && ClockOk(s) && LimboOk(s, life) && Enabled(s, step) && InTime(s, step, life)
    requires !OfEnqueue(step) && !Settles(step) && !step.Purge? && HoldsEntry(Moved(s, step))
    requires !step.LimboLands? && !step.LimboDies? && !step.SendTimesOut? && !(step.Crash? && s.phase.Sending?)
    ensures LimboOk(Moved(s, step), life)
  {
    var after := Moved(s, step);
    assert after.limbo == s.limbo && after.now >= s.now && after.rows == s.rows;
    assert forall b :: Live(after, b, life) ==> Live(s, b, life);
    if step.SendLands? {
      assert forall b :: !Live(s, b, life);
      assert forall p :: Landings(after, p) == Landings(s, p) + if p == s.rows[s.phase.id].permlink then 1 else 0;
    } else {
      assert forall p :: Landings(after, p) == Landings(s, p);
    }
    hide Live, Landings, CompletedBroadcasts;
  }

  lemma MovesKeepLimbo(s: System, step: Step, life: nat)
    requires HoldsEntry(s) && ClockOk(s) && LimboOk(s, life) && Enabled(s, step) && InTime(s, step, life)
    requires !OfEnqueue(step) && !Settles(step) && !step.Purge? && HoldsEntry(Moved(s, step))
    ensures LimboOk(Moved(s, step), life)
  {
    assert step.SendTimesOut? ==> s.phase.Sending?;
    hide LimboOk, InTime, HoldsEntry, Enabled, Moved, ClockOk;
    if step.LimboLands? || step.LimboDies? {
      LeavesLimbo(s, step, life);
    } else if step.SendTimesOut? || (step.Crash? && s.phase.Sending?) {
      JoinsLimbo(s, step, life);
    } else {
      OtherMovesKeepLimbo(s, step, life);
    }
  }

  lemma LimboKept(s: System, step: Step, life: nat)
    requires BaseOk(s) && ClockOk(s) && LimboOk(s, life) && Enabled(s, step) && InTime(s, step, life)
    requires life < BRIDGE_CHAIN_COOLDOWN_MS && HoldsEntry(Apply(s, step))
    ensures LimboOk(Apply(s, step), life)
  {
    hide LimboOk, InTime, IdsOk, ClockOk, Enabled, HoldsEntry, Transacted, Result, Touched, NextPhase, Moved, Purged;
    if Settles(step) {
      SettlingKeepsLimbo(s, step, life);
    } else if OfEnqueue(step) || step.Purge? {
      EntryStays(s, step);
      PurgeKeepsRest(s);
      NothingSent(s, Apply(s, step), life);
    } else {
      MovesKeepLimbo(s, step, life);
    }
  }
}
