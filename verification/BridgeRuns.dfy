/** What the bridge queue and its worker keep over every interleaving, and the runs on
    which a promise fails. */
module BridgeRuns {
  import opened Prelude
  import opened BridgeQueue
  import opened BridgeWorker

  ghost predicate Possible(s: System, steps: seq<Step>)
    requires BaseOk(s)
    decreases |steps|
  {
    steps == [] || (Enabled(s, steps[0]) && (BaseKept(s, steps[0]); Possible(Apply(s, steps[0]), steps[1..])))
  }

  ghost function After(s: System, steps: seq<Step>): System
    requires BaseOk(s) && Possible(s, steps)
    decreases |steps|
  {
    if steps == [] then s else BaseKept(s, steps[0]); After(Apply(s, steps[0]), steps[1..])
  }

  // No step of the run brings a terminal row back.
  ghost predicate NeverReactivates(s: System, steps: seq<Step>)
    requires BaseOk(s) && Possible(s, steps)
    decreases |steps|
  {
    steps == []
    || (!Reactivates(s, steps[0]) && (BaseKept(s, steps[0]); NeverReactivates(Apply(s, steps[0]), steps[1..])))
  }

  lemma GenesisIsValid()
    ensures Valid(GENESIS)
  {
    forall u ensures |ActiveOf(GENESIS.rows, u)| <= BRIDGE_QUEUE_USER_CAP {
      assert ActiveOf(GENESIS.rows, u) == {};
    }
  }

  lemma {:induction false} RunsAreSturdy(s: System, steps: seq<Step>)
    requires Sturdy(s) && Possible(s, steps)
    ensures Sturdy(After(s, steps))
    decreases |steps|
  {
    if steps != [] {
      hide Sturdy, Apply, Enabled;
      SturdyKept(s, steps[0]);
      RunsAreSturdy(Apply(s, steps[0]), steps[1..]);
    }
  }

  lemma {:induction false} RunsAreValid(s: System, steps: seq<Step>)
    requires Valid(s) && Possible(s, steps) && NeverReactivates(s, steps)
    ensures Valid(After(s, steps))
    decreases |steps|
  {
    if steps != [] {
      assert BaseOk(s);
      hide Valid, Apply, Enabled, Reactivates;
      ValidKept(s, steps[0]);
      RunsAreValid(Apply(s, steps[0]), steps[1..]);
    }
  }

  /** However enqueues, dispatches, expiries, crashes and purges interleave, no permlink
      has two active rows and no row more than the budget of attempts and one; and no
      user has more than the cap of active rows, unless a row was brought back. */
  lemma CapAndPermlinkHold(steps: seq<Step>, username: string, i: nat, j: nat)
    requires BaseOk(GENESIS) && Possible(GENESIS, steps)
    ensures var rows := After(GENESIS, steps).rows;
            && (i in rows && j in rows && i != j && rows[i].permlink == rows[j].permlink ==>
                  rows[i].state == Completed || rows[i].state == Failed
                  || rows[j].state == Completed || rows[j].state == Failed)
            && (i in rows ==> rows[i].attempts <= 6)
            && (NeverReactivates(GENESIS, steps) ==>
                  |set k | k in rows && rows[k].username == username
                           && (rows[k].state == Pending || rows[k].state == InProgress)| <= 5)
  {
    GenesisIsValid();
    RunsAreSturdy(GENESIS, steps);
    var rows := After(GENESIS, steps).rows;
    assert i in rows && j in rows && Active(rows[i]) && Active(rows[j]) ==> i in ActiveIds(rows) && j in ActiveIds(rows);
    if NeverReactivates(GENESIS, steps) {
      RunsAreValid(GENESIS, steps);
      assert ActiveOf(rows, username)
          == set k | k in rows && rows[k].username == username
                     && (rows[k].state == Pending || rows[k].state == InProgress);
    }
  }

  /** A row that is completed or failed leaves or stays as it is, in every step but
      the one that reactivates it. The updates do not check this: the protocol does. */
  lemma TerminalRowsAreFinal(s: System, step: Step, i: nat)
    requires BaseOk(s) && Enabled(s, step) && i in s.rows && !Active(s.rows[i])
    ensures var after := Apply(s, step);
            i in after.rows ==> (after.rows[i] == s.rows[i] <==> !(Reactivates(s, step) && i == s.phase.id))
  {
    hide Enabled, HoldsEntry, Result, NextPhase, Touched, Purged, Moved, Transacted, IdsOk;
    if Settles(step) {
      SettlesOneRow(s, step);
      if Reactivates(s, step) {
        SettlesBack(s, step);
      }
    } else if step.Purge? {
      PurgeLeavesRows(s);
    } else if OfEnqueue(step) {
      CommitAddsRows(s, step);
    }
  }

  lemma SettlesBack(s: System, step: Step)
    requires HoldsEntry(s) && Enabled(s, step) && Settles(step) && Reactivates(s, step)
    ensures Active(Result(s, step)) && !Active(s.rows[Touched(s, step)]) && Touched(s, step) == s.phase.id
  {
    hide BackoffMs, IndexAllows;
  }

  lemma PurgeLeavesRows(s: System)
    ensures forall i :: i in Purged(s).rows ==> i in s.rows && Purged(s).rows[i] == s.rows[i]
  {
  }

  /** A purge takes exactly the rows that were completed or failed more than thirty days
      ago. */
  lemma PurgeTakesOldRows(s: System, i: nat)
    requires BaseOk(s) && i in s.rows
    ensures i !in Apply(s, Purge).rows
       <==> && (s.rows[i].state == Completed || s.rows[i].state == Failed) && s.rows[i].completedAt.Some?
            && s.rows[i].completedAt.value + 2_592_000_000 < s.now
  {
    hide HoldsEntry, IdsOk, Transacted, Moved, Touched, Result, NextPhase;
  }

  /** A start whose read works sets the clock to the latest completion of a row that
      was broadcast, or to nothing when there is none; one whose read fails, to
      nothing. */
  lemma BootSetsClock(s: System, i: nat)
    requires BaseOk(s) && !s.up
    ensures Apply(s, Boot(false)).lastBroadcast == 0
    ensures var clock := Apply(s, Boot(true)).lastBroadcast;
            && (i in s.rows && s.rows[i].state == Completed && s.rows[i].tx && s.rows[i].completedAt.Some? ==>
                  clock >= s.rows[i].completedAt.value)
            && (clock > 0 ==>
                  exists j :: j in s.rows && s.rows[j].state == Completed && s.rows[j].tx
                              && s.rows[j].completedAt == Some(clock))
  {
    hide HoldsEntry, IdsOk, Transacted, Purged, Touched, Result, NextPhase;
    var done := CompletedBroadcasts(s.rows);
    if i in s.rows && s.rows[i].state == Completed && s.rows[i].tx && s.rows[i].completedAt.Some? {
      assert s.rows[i].completedAt.value in done;
    }
  }

  lemma CommitAddsRows(s: System, step: Step)
    requires IdsOk(s) && Enabled(s, step) && OfEnqueue(step)
    ensures forall i :: i in s.rows ==> i in Transacted(s, step).rows && Transacted(s, step).rows[i] == s.rows[i]
  {
    hide ActivePermlink, Uncommitted, ActiveOf;
  }

  // Until a completion is stored unheard, the worker's entry is leased to it.
  lemma {:induction false} OnlyUnheardReactivates(s: System, steps: seq<Step>)
    requires BaseOk(s) && Possible(s, steps) && StoreCompletion(StoredUnheard) !in steps
    requires s.phase.WriteFailed? ==> s.rows[s.phase.id].state == InProgress
    ensures NeverReactivates(s, steps)
    decreases |steps|
  {
    if steps != [] {
      var after := Apply(s, steps[0]);
      BaseKept(s, steps[0]);
      LeaseStays(s, steps[0]);
      hide Apply, Enabled;
      OnlyUnheardReactivates(after, steps[1..]);
    }
  }

  lemma LeaseStays(s: System, step: Step)
    requires BaseOk(s) && Enabled(s, step) && step != StoreCompletion(StoredUnheard)
    requires s.phase.WriteFailed? ==> s.rows[s.phase.id].state == InProgress
    ensures var after := Apply(s, step);
            after.phase.WriteFailed? ==> after.phase.id in after.rows && after.rows[after.phase.id].state == InProgress
  {
    if OfEnqueue(step) || step.Purge? {
      EntryStays(s, step);
      hide Apply;
    } else {
      hide Moved, Purged, Transacted, Result, IdsOk, ActivePermlink, Uncommitted, Earlier;
      if step.StoreCompletion? {
        SettlesToHold(s, step);
      }
    }
  }

  /** A reactivated row takes its user past the cap exactly when the user holds the
      cap's worth of others. */
  lemma ReactivationBreaksCapIff(s: System, step: Step)
    requires BaseOk(s) && WithinCap(s.rows) && Enabled(s, step) && Reactivates(s, step)
    ensures WithinCap(Apply(s, step).rows) <==> |ActiveOf(s.rows, s.rows[s.phase.id].username)| < BRIDGE_QUEUE_USER_CAP
  {
    var id, r := s.phase.id, s.rows[s.phase.id];
    var back := Rescheduled(r, false, s.now);
    assert Apply(s, step).rows == s.rows[id := back] && back.state == Pending && back.username == r.username;
    hide Apply, Rescheduled, Enabled;
    BackInPlay(s.rows, id, back);
  }

  lemma BackInPlay(rows: Rows, id: nat, back: Row)
    requires id in rows && !Active(rows[id]) && Active(back) && WithinCap(rows) && back.username == rows[id].username
    ensures WithinCap(rows[id := back]) <==> |ActiveOf(rows, back.username)| < BRIDGE_QUEUE_USER_CAP
  {
    var after := rows[id := back];
    assert ActiveOf(after, back.username) == ActiveOf(rows, back.username) + {id};
    forall u | u != back.username ensures ActiveOf(after, u) == ActiveOf(rows, u) {
    }
  }

  // The run is in time at every step.
  ghost predicate AllInTime(s: System, steps: seq<Step>, life: nat)
    requires BaseOk(s) && Possible(s, steps)
    decreases |steps|
  {
    steps == [] || (InTime(s, steps[0], life) && (BaseKept(s, steps[0]); AllInTime(Apply(s, steps[0]), steps[1..], life)))
  }

  lemma {:induction false} RunsKeepLimbo(s: System, steps: seq<Step>, life: nat)
    requires Sturdy(s) && LimboOk(s, life) && Possible(s, steps) && AllInTime(s, steps, life)
    requires life < BRIDGE_CHAIN_COOLDOWN_MS
    ensures Sturdy(After(s, steps)) && LimboOk(After(s, steps), life)
    decreases |steps|
  {
    if steps != [] {
      assert BaseOk(s) && ClockOk(s);
      hide Sturdy, Apply, Enabled, LimboOk, InTime, ClockOk;
      SturdyKept(s, steps[0]);
      LimboKept(s, steps[0], life);
      RunsKeepLimbo(Apply(s, steps[0]), steps[1..], life);
    }
  }

  /** No permlink lands on chain twice, whatever times out, crashes or is leased
      again, as long as a broadcast lands, if at all, within less than the cooldown
      after it was sent, and no process starts before then. */
  lemma LandsAtMostOnce(steps: seq<Step>, permlink: string, life: nat)
    requires BaseOk(GENESIS) && Possible(GENESIS, steps) && AllInTime(GENESIS, steps, life)
    requires life < 300_000
    ensures Landings(After(GENESIS, steps), permlink) <= 1
  {
    GenesisIsValid();
    assert LimboOk(GENESIS, life);
    RunsKeepLimbo(GENESIS, steps, life);
  }

  /** A dispatch starts at least the cooldown after every success or timeout the
      process has seen and, if its start-up read worked and no row was reactivated,
      after every success any process stored. */
  lemma CooldownIsKept(steps: seq<Step>, id: nat, b: nat)
    requires BaseOk(GENESIS) && Possible(GENESIS, steps)
    requires Enabled(After(GENESIS, steps), StartDispatch(id))
    ensures var s := After(GENESIS, steps);
            && (b in s.seen ==> s.now >= b + 300_000)
            && (NeverReactivates(GENESIS, steps) && s.seeded && b in s.stored ==> s.now >= b + 300_000)
  {
    GenesisIsValid();
    RunsAreSturdy(GENESIS, steps);
    if NeverReactivates(GENESIS, steps) {
      RunsAreValid(GENESIS, steps);
    }
  }

  // ---------------------------------------------------------------------
  // Runs that go wrong
  // ---------------------------------------------------------------------

  lemma {:induction false} Then(s: System, steps: seq<Step>, step: Step)
    requires BaseOk(s) && Possible(s, steps) && BaseOk(After(s, steps)) && Enabled(After(s, steps), step)
    ensures Possible(s, steps + [step]) && After(s, steps + [step]) == Apply(After(s, steps), step)
    ensures BaseOk(After(s, steps + [step]))
    decreases |steps|
  {
    hide Apply, Enabled, HoldsEntry, IdsOk;
    BaseKept(After(s, steps), step);
    if steps == [] {
      assert [step][1..] == [] && steps + [step] == [step];
      assert Possible(Apply(s, step), []);
    } else {
      BaseKept(s, steps[0]);
      Then(Apply(s, steps[0]), steps[1..], step);
      assert (steps + [step])[1..] == steps[1..] + [step];
    }
  }

  lemma {:induction false} ThenRun(s: System, steps: seq<Step>, more: seq<Step>)
    requires BaseOk(s) && Possible(s, steps) && BaseOk(After(s, steps)) && Possible(After(s, steps), more)
    ensures Possible(s, steps + more) && After(s, steps + more) == After(After(s, steps), more)
    decreases |steps|
  {
    hide Apply, Enabled, HoldsEntry, IdsOk;
    if steps == [] {
      assert steps + more == more;
    } else {
      BaseKept(s, steps[0]);
      ThenRun(Apply(s, steps[0]), steps[1..], more);
      assert (steps + more)[1..] == steps[1..] + more;
    }
  }

  // A dispatch starts with the lease of its row.
  lemma LeaseRuns(s: System, id: nat) returns (leased: System)
    requires Sturdy(s) && MayDispatch(s, id)
    ensures Sturdy(leased) && leased == s.(rows := s.rows[id := Leased(s.rows[id], s.now)], phase := Dispatching(id))
    ensures Possible(s, [StartDispatch(id)]) && After(s, [StartDispatch(id)]) == leased
  {
    assert Possible(s, []) && After(s, []) == s && BaseOk(s);
    SturdyKept(s, StartDispatch(id));
    hide Possible, After, BaseOk, Sturdy, Earlier, Due, Transacted, Purged, Moved;
    Then(s, [], StartDispatch(id));
    assert [] + [StartDispatch(id)] == [StartDispatch(id)];
    leased := After(s, [StartDispatch(id)]);
  }

  // An enqueue transaction that nothing holds up.
  function EnqueueSteps(username: string, permlink: string): seq<Step>
  {
    [Begin(0, username, permlink)] + [CheckDuplicate(0)] + [CountActive(0)] + [InsertRow(0)] + [Commit(0)]
  }

  function WithNewRow(s: System, username: string, permlink: string): System
  {
    s.(rows := s.rows[s.nextId := NewRow(username, permlink, s.now)], nextId := s.nextId + 1)
  }

  predicate MayEnqueue(s: System, username: string, permlink: string)
  {
    && s.txns == map[] && |ActiveOf(s.rows, username)| < BRIDGE_QUEUE_USER_CAP
    && forall i :: i in ActiveIds(s.rows) ==> s.rows[i].permlink != permlink
  }

  // The system with one transaction, at a stage.
  function InTxn(s: System, username: string, permlink: string, stage: Stage): System
  {
    s.(txns := map[0 := Txn(username, permlink, stage)])
  }

  lemma BeginStep(s: System, username: string, permlink: string)
    requires HoldsEntry(s) && s.txns == map[]
    ensures Enabled(s, Begin(0, username, permlink))
    ensures Apply(s, Begin(0, username, permlink)) == InTxn(s, username, permlink, Locked)
  {
  }

  lemma CheckStep(s: System, username: string, permlink: string)
    requires HoldsEntry(InTxn(s, username, permlink, Locked)) && !ActivePermlink(s.rows, permlink)
    ensures Enabled(InTxn(s, username, permlink, Locked), CheckDuplicate(0))
    ensures Apply(InTxn(s, username, permlink, Locked), CheckDuplicate(0)) == InTxn(s, username, permlink, NoDuplicate)
  {
    hide ActivePermlink, HoldsEntry;
  }

  lemma CountStep(s: System, username: string, permlink: string)
    requires HoldsEntry(InTxn(s, username, permlink, NoDuplicate)) && |ActiveOf(s.rows, username)| < BRIDGE_QUEUE_USER_CAP
    ensures Enabled(InTxn(s, username, permlink, NoDuplicate), CountActive(0))
    ensures Apply(InTxn(s, username, permlink, NoDuplicate), CountActive(0))
         == InTxn(s, username, permlink, Counted(|ActiveOf(s.rows, username)|))
  {
    hide ActiveOf, HoldsEntry;
  }

  lemma InsertStep(s: System, username: string, permlink: string, n: nat)
    requires HoldsEntry(InTxn(s, username, permlink, Counted(n))) && !ActivePermlink(s.rows, permlink)
    ensures Enabled(InTxn(s, username, permlink, Counted(n)), InsertRow(0))
    ensures Apply(InTxn(s, username, permlink, Counted(n)), InsertRow(0))
         == InTxn(s, username, permlink, Wrote(s.nextId, NewRow(username, permlink, s.now))).(nextId := s.nextId + 1)
  {
    hide ActivePermlink, HoldsEntry;
  }

  lemma CommitStep(s: System, username: string, permlink: string)
    requires s.txns == map[]
    requires var wrote := InTxn(s, username, permlink, Wrote(s.nextId, NewRow(username, permlink, s.now)));
             HoldsEntry(wrote.(nextId := s.nextId + 1))
    ensures var wrote := InTxn(s, username, permlink, Wrote(s.nextId, NewRow(username, permlink, s.now)));
            && Enabled(wrote.(nextId := s.nextId + 1), Commit(0))
            && Apply(wrote.(nextId := s.nextId + 1), Commit(0)) == WithNewRow(s, username, permlink)
  {
    hide HoldsEntry;
    var wrote := InTxn(s, username, permlink, Wrote(s.nextId, NewRow(username, permlink, s.now)));
    assert wrote.txns - {0} == map[];
  }

  // One more step of a run, from the state it has come to.
  lemma StepOn(s: System, steps: seq<Step>, at: System, step: Step, to: System)
    requires BaseOk(s) && Possible(s, steps) && After(s, steps) == at && BaseOk(at)
    requires Enabled(at, step) && Apply(at, step) == to
    ensures Possible(s, steps + [step]) && After(s, steps + [step]) == to && BaseOk(to)
  {
    hide Possible, After, Enabled, Apply, HoldsEntry, IdsOk;
    Then(s, steps, step);
  }

  lemma EnqueueReads(s: System, username: string, permlink: string)
    requires BaseOk(s) && s.txns == map[] && |ActiveOf(s.rows, username)| < BRIDGE_QUEUE_USER_CAP
    requires !ActivePermlink(s.rows, permlink)
    ensures var looked := [Begin(0, username, permlink)] + [CheckDuplicate(0)] + [CountActive(0)];
            && Possible(s, looked) && BaseOk(After(s, looked))
            && After(s, looked) == InTxn(s, username, permlink, Counted(|ActiveOf(s.rows, username)|))
  {
    assert Possible(s, []) && After(s, []) == s;
    hide Possible, After, Apply, Enabled, HoldsEntry, IdsOk, InTxn, ActivePermlink, ActiveOf;
    var a, b, c := Begin(0, username, permlink), CheckDuplicate(0), CountActive(0);
    BeginStep(s, username, permlink);
    StepOn(s, [], s, a, InTxn(s, username, permlink, Locked));
    assert [] + [a] == [a];
    CheckStep(s, username, permlink);
    StepOn(s, [a], InTxn(s, username, permlink, Locked), b, InTxn(s, username, permlink, NoDuplicate));
    CountStep(s, username, permlink);
    StepOn(s, [a] + [b], InTxn(s, username, permlink, NoDuplicate), c,
         InTxn(s, username, permlink, Counted(|ActiveOf(s.rows, username)|)));
  }

  /** Such a transaction is a run of the machine and adds one pending row. */
  lemma EnqueueRuns(s: System, username: string, permlink: string)
    requires BaseOk(s) && MayEnqueue(s, username, permlink)
    ensures var steps := EnqueueSteps(username, permlink);
            && Possible(s, steps) && BaseOk(After(s, steps)) && After(s, steps) == WithNewRow(s, username, permlink)
  {
    assert !ActivePermlink(s.rows, permlink) && s.txns == map[] && |ActiveOf(s.rows, username)| < BRIDGE_QUEUE_USER_CAP;
    hide MayEnqueue, Possible, After, Apply, Enabled, HoldsEntry, IdsOk, InTxn, ActivePermlink, ActiveOf, WithNewRow;
    EnqueueReads(s, username, permlink);
    var looked := [Begin(0, username, permlink)] + [CheckDuplicate(0)] + [CountActive(0)];
    var n := |ActiveOf(s.rows, username)|;
    var wrote := InTxn(s, username, permlink, Wrote(s.nextId, NewRow(username, permlink, s.now))).(nextId := s.nextId + 1);
    InsertStep(s, username, permlink, n);
    StepOn(s, looked, InTxn(s, username, permlink, Counted(n)), InsertRow(0), wrote);
    CommitStep(s, username, permlink);
    StepOn(s, looked + [InsertRow(0)], wrote, Commit(0), WithNewRow(s, username, permlink));
  }

  // A user's n-th permlink.
  function NthPermlink(n: nat): string
  {
    if n == 0 then "p" else NthPermlink(n - 1) + "p"
  }

  lemma {:induction false} NthPermlinkLength(n: nat)
    ensures |NthPermlink(n)| == n + 1 && NthPermlink(n)[0] == 'p'
  {
    if n > 0 {
      NthPermlinkLength(n - 1);
    }
  }

  // The rows of one user's first n enqueues, all pending.
  ghost predicate HoldsFirst(s: System, username: string, from: nat, n: nat)
  {
    && s.txns == map[] && |ActiveOf(s.rows, username)| == n - from
    && forall i :: i in ActiveIds(s.rows) ==> exists k: nat :: from <= k < n && s.rows[i].permlink == NthPermlink(k)
  }

  lemma NextPermlinkIsNew(s: System, username: string, from: nat, n: nat)
    requires HoldsFirst(s, username, from, n) && from <= n < from + BRIDGE_QUEUE_USER_CAP
    ensures MayEnqueue(s, username, NthPermlink(n))
  {
    hide ActiveOf, NthPermlink;
    forall i | i in ActiveIds(s.rows) ensures s.rows[i].permlink != NthPermlink(n) {
      var k: nat :| from <= k < n && s.rows[i].permlink == NthPermlink(k);
      NthPermlinkLength(k);
      NthPermlinkLength(n);
    }
  }

  lemma OneMoreHeld(s: System, username: string, from: nat, n: nat)
    requires from <= n && HoldsFirst(s, username, from, n) && s.nextId !in s.rows
    ensures HoldsFirst(WithNewRow(s, username, NthPermlink(n)), username, from, n + 1)
  {
    var r := NewRow(username, NthPermlink(n), s.now);
    InsertedIds(s.rows, s.nextId, r);
    var after := WithNewRow(s, username, NthPermlink(n));
    assert s.nextId !in ActiveOf(s.rows, username);
    hide ActiveIds, ActiveOf, NthPermlink;
    forall i | i in ActiveIds(after.rows)
      ensures exists k: nat :: from <= k < n + 1 && after.rows[i].permlink == NthPermlink(k)
    {
      if i in ActiveIds(s.rows) {
        var k: nat :| from <= k < n && s.rows[i].permlink == NthPermlink(k);
        assert after.rows[i].permlink == NthPermlink(k) || i == s.nextId;
      }
      assert i == s.nextId ==> after.rows[i].permlink == NthPermlink(n);
    }
  }

  // The table and its sequence grew, and nothing else of the state changed.
  ghost predicate Grown(s: System, after: System)
  {
    && after == s.(rows := after.rows, nextId := after.nextId)
    && forall i :: i in s.rows ==> i in after.rows && after.rows[i] == s.rows[i]
  }

  lemma OneMoreEnqueue(s: System, username: string, from: nat, n: nat)
    requires BaseOk(s) && from <= n < from + BRIDGE_QUEUE_USER_CAP && HoldsFirst(s, username, from, n)
    ensures var steps := EnqueueSteps(username, NthPermlink(n));
            && Possible(s, steps) && BaseOk(After(s, steps))
            && HoldsFirst(After(s, steps), username, from, n + 1) && Grown(s, After(s, steps))
  {
    assert s.nextId !in s.rows;
    hide HoldsFirst, MayEnqueue, Possible, After, BaseOk, NthPermlink, EnqueueSteps;
    NextPermlinkIsNew(s, username, from, n);
    OneMoreHeld(s, username, from, n);
    EnqueueRuns(s, username, NthPermlink(n));
  }

  // From a state without active rows a user can fill the cap.
  lemma {:induction false} FillsTheCap(s: System, username: string, from: nat, n: nat) returns (steps: seq<Step>)
    requires BaseOk(s) && from <= n <= from + BRIDGE_QUEUE_USER_CAP && HoldsFirst(s, username, from, n)
    ensures Possible(s, steps) && BaseOk(After(s, steps))
    ensures HoldsFirst(After(s, steps), username, from, from + BRIDGE_QUEUE_USER_CAP) && Grown(s, After(s, steps))
    decreases from + BRIDGE_QUEUE_USER_CAP - n
  {
    if n == from + BRIDGE_QUEUE_USER_CAP {
      steps := [];
    } else {
      hide BaseOk, HoldsFirst, Possible, After, NthPermlink, EnqueueSteps;
      OneMoreEnqueue(s, username, from, n);
      var one := EnqueueSteps(username, NthPermlink(n));
      var more := FillsTheCap(After(s, one), username, from, n + 1);
      ThenRun(s, one, more);
      steps := one + more;
    }
  }

  const BEFORE: seq<Step> := EnqueueSteps("ann", "x") + [Boot(false)] + [StartDispatch(1)]
  const LANDED: seq<Step> := BEFORE + [CheckChain] + [Send] + [SendLands]

  lemma BootStep(s: System)
    requires HoldsEntry(s) && !s.up && s.seen == {} && s.phase.Idle? && s.lastBroadcast == 0
    ensures Enabled(s, Boot(false)) && Apply(s, Boot(false)) == s.(up := true, seeded := false)
  {
  }

  lemma WorkerStarts()
    ensures var steps := EnqueueSteps("ann", "x") + [Boot(false)];
            && BaseOk(GENESIS) && Possible(GENESIS, steps) && BaseOk(After(GENESIS, steps))
            && After(GENESIS, steps) == WithNewRow(GENESIS, "ann", "x").(up := true)
  {
    assert ActiveOf(GENESIS.rows, "ann") == {} == ActiveIds(GENESIS.rows);
    EnqueueRuns(GENESIS, "ann", "x");
    hide Possible, After, Apply, Enabled, IdsOk, ActiveOf, ActiveIds, EnqueueSteps;
    var ready := WithNewRow(GENESIS, "ann", "x");
    BootStep(ready);
    StepOn(GENESIS, EnqueueSteps("ann", "x"), ready, Boot(false), ready.(up := true));
  }

  // "ann" enqueues "x", and the worker starts on it.
  lemma FirstStarts()
    ensures BaseOk(GENESIS) && Possible(GENESIS, BEFORE)
    ensures After(GENESIS, BEFORE)
         == System(GENESIS.now, map[1 := Leased(NewRow("ann", "x", GENESIS.now), GENESIS.now)], 2, map[], true,
                   Dispatching(1), 0, map[], multiset{}, {}, {}, false)
    ensures BaseOk(After(GENESIS, BEFORE))
  {
    WorkerStarts();
    hide Possible, After, BaseOk, Moved, Transacted, Purged, ActivePermlink, Uncommitted;
    Then(GENESIS, EnqueueSteps("ann", "x") + [Boot(false)], StartDispatch(1));
  }

  // It lands.
  lemma FirstLands()
    ensures BaseOk(GENESIS) && Possible(GENESIS, LANDED)
    ensures After(GENESIS, LANDED)
         == System(GENESIS.now, map[1 := Leased(NewRow("ann", "x", GENESIS.now), GENESIS.now)], 2, map[], true,
                   HasLanded(1), GENESIS.now, map["x" := 1], multiset{}, {GENESIS.now}, {}, false)
    ensures BaseOk(After(GENESIS, LANDED))
  {
    FirstStarts();
    hide Possible, After, BaseOk;
    Then(GENESIS, BEFORE, CheckChain);
    Then(GENESIS, BEFORE + [CheckChain], Send);
    Then(GENESIS, BEFORE + [CheckChain] + [Send], SendLands);
  }

  // Its completion is stored unheard, and "ann" enqueues the cap's worth of others.
  lemma CapFilledMeanwhile() returns (more: seq<Step>)
    ensures var steps := LANDED + [StoreCompletion(StoredUnheard)] + more;
            && BaseOk(GENESIS) && Possible(GENESIS, steps) && BaseOk(After(GENESIS, steps))
            && var s := After(GENESIS, steps);
               && s.phase == WriteFailed(1) && 1 in s.rows && s.rows[1].state == Completed && s.rows[1].username == "ann"
               && |ActiveOf(s.rows, "ann")| == BRIDGE_QUEUE_USER_CAP && IndexAllows(s)
  {
    FirstLands();
    hide Possible, After, BaseOk;
    Then(GENESIS, LANDED, StoreCompletion(StoredUnheard));
    var s := After(GENESIS, LANDED + [StoreCompletion(StoredUnheard)]);
    assert ActiveOf(s.rows, "ann") == {} == ActiveIds(s.rows);
    more := FillsTheCap(s, "ann", 0, 0);
    ThenRun(GENESIS, LANDED + [StoreCompletion(StoredUnheard)], more);
    var filled := After(GENESIS, LANDED + [StoreCompletion(StoredUnheard)] + more);
    forall i | i in filled.rows && Active(filled.rows[i]) ensures filled.rows[i].permlink != "x" {
      assert i in ActiveIds(filled.rows);
      var k: nat :| 0 <= k < BRIDGE_QUEUE_USER_CAP && filled.rows[i].permlink == NthPermlink(k);
      NthPermlinkLength(k);
    }
  }

  /** A run that exceeds the cap: the completion is stored but not acknowledged, its
      user fills the cap in the meantime, and the reschedule brings the row back. */
  lemma UnheardCompletionExceedsCap() returns (steps: seq<Step>)
    ensures BaseOk(GENESIS) && Possible(GENESIS, steps)
    ensures |ActiveOf(After(GENESIS, steps).rows, "ann")| == BRIDGE_QUEUE_USER_CAP + 1
  {
    var more := CapFilledMeanwhile();
    var before := LANDED + [StoreCompletion(StoredUnheard)] + more;
    hide Possible, After, BaseOk;
    var s := After(GENESIS, before);
    Then(GENESIS, before, StoreReschedule);
    steps := before + [StoreReschedule];
    assert ActiveOf(After(GENESIS, steps).rows, "ann") == ActiveOf(s.rows, "ann") + {1};
  }

  const FORGOTTEN: seq<Step> :=
    LANDED + [StoreCompletion(Stored)] + EnqueueSteps("bob", "y") + [Crash] + [Boot(false)]

  lemma SecondWaits()
    ensures var steps := LANDED + [StoreCompletion(Stored)] + EnqueueSteps("bob", "y");
            && BaseOk(GENESIS) && Possible(GENESIS, steps) && BaseOk(After(GENESIS, steps))
            && After(GENESIS, steps)
               == System(GENESIS.now,
                         map[1 := CompletedWith(Leased(NewRow("ann", "x", GENESIS.now), GENESIS.now), true, GENESIS.now),
                             2 := NewRow("bob", "y", GENESIS.now)],
                         3, map[], true, Idle, GENESIS.now, map["x" := 1], multiset{}, {GENESIS.now}, {GENESIS.now}, false)
  {
    FirstLands();
    hide Possible, After, BaseOk;
    Then(GENESIS, LANDED, StoreCompletion(Stored));
    var s := After(GENESIS, LANDED + [StoreCompletion(Stored)]);
    assert ActiveOf(s.rows, "bob") == {} == ActiveIds(s.rows);
    EnqueueRuns(s, "bob", "y");
    ThenRun(GENESIS, LANDED + [StoreCompletion(Stored)], EnqueueSteps("bob", "y"));
  }

  /** A run on which a process whose start-up read failed dispatches at the moment of
      a stored success. */
  lemma UnseededRestartForgets()
    ensures BaseOk(GENESIS) && Possible(GENESIS, FORGOTTEN)
    ensures var s := After(GENESIS, FORGOTTEN); s.now in s.stored && Enabled(s, StartDispatch(2))
  {
    SecondWaits();
    hide Possible, After, BaseOk, CompletedBroadcasts;
    var before := LANDED + [StoreCompletion(Stored)] + EnqueueSteps("bob", "y");
    Then(GENESIS, before, Crash);
    Then(GENESIS, before + [Crash], Boot(false));
  }

  const TAKEN_BACK: seq<Step> := LANDED + [StoreCompletion(StoredUnheard)] + [StoreReschedule] + EnqueueSteps("bob", "y")

  lemma CompletionTakenBack()
    ensures BaseOk(GENESIS) && Possible(GENESIS, TAKEN_BACK) && BaseOk(After(GENESIS, TAKEN_BACK))
    ensures var s := After(GENESIS, TAKEN_BACK);
            && s.now == GENESIS.now && s.up && s.phase.Idle? && s.stored == {GENESIS.now} && s.rows.Keys == {1, 2}
            && s.rows[1].state == Pending && s.rows[1].scheduledAt > s.now && s.rows[2] == NewRow("bob", "y", s.now)
  {
    FirstLands();
    hide Possible, After, BaseOk;
    Then(GENESIS, LANDED, StoreCompletion(StoredUnheard));
    Then(GENESIS, LANDED + [StoreCompletion(StoredUnheard)], StoreReschedule);
    var s := After(GENESIS, LANDED + [StoreCompletion(StoredUnheard)] + [StoreReschedule]);
    assert ActiveIds(s.rows) == {1} && s.rows[1].permlink == "x" && ActiveOf(s.rows, "bob") == {};
    EnqueueRuns(s, "bob", "y");
    ThenRun(GENESIS, LANDED + [StoreCompletion(StoredUnheard)] + [StoreReschedule], EnqueueSteps("bob", "y"));
  }

  /** A run on which even a seeded process dispatches at the moment of a stored
      success: its completion was stored unheard and then taken back. */
  lemma UnheardCompletionForgets()
    ensures var steps := TAKEN_BACK + [Crash] + [Boot(true)];
            && BaseOk(GENESIS) && Possible(GENESIS, steps)
            && var s := After(GENESIS, steps); s.seeded && s.now in s.stored && Enabled(s, StartDispatch(2))
  {
    CompletionTakenBack();
    hide Possible, After, BaseOk;
    Then(GENESIS, TAKEN_BACK, Crash);
    assert CompletedBroadcasts(After(GENESIS, TAKEN_BACK + [Crash]).rows) == {};
    Then(GENESIS, TAKEN_BACK + [Crash], Boot(true));
  }

  const SENT_AGAIN: seq<Step> := BEFORE + [CheckChain] + [Send] + [SendTimesOut] + [StoreReschedule]

  lemma FirstTimesOut()
    ensures BaseOk(GENESIS) && Possible(GENESIS, SENT_AGAIN) && BaseOk(After(GENESIS, SENT_AGAIN))
    ensures var s, r := After(GENESIS, SENT_AGAIN), Leased(NewRow("ann", "x", GENESIS.now), GENESIS.now);
            s == System(GENESIS.now, map[1 := Rescheduled(r, true, GENESIS.now)], 2, map[], true, Idle, GENESIS.now, map[],
                        multiset{Sent("x", GENESIS.now)}, {GENESIS.now}, {}, false)
  {
    FirstStarts();
    hide Possible, After, BaseOk, Rescheduled;
    Then(GENESIS, BEFORE, CheckChain);
    Then(GENESIS, BEFORE + [CheckChain], Send);
    assert After(GENESIS, BEFORE + [CheckChain] + [Send]).phase == Sending(1, GENESIS.now);
    Then(GENESIS, BEFORE + [CheckChain] + [Send], SendTimesOut);
    Then(GENESIS, BEFORE + [CheckChain] + [Send] + [SendTimesOut], StoreReschedule);
  }

  const RESTARTED: seq<Step> := SENT_AGAIN + [Crash] + [Boot(true)] + [Wait(30_000)] + [StartDispatch(1)]

  lemma RestartsTooSoon()
    ensures BaseOk(GENESIS) && Possible(GENESIS, RESTARTED) && BaseOk(After(GENESIS, RESTARTED))
    ensures var s := After(GENESIS, RESTARTED);
            && s.now == GENESIS.now + 30_000 && s.up && s.phase == Dispatching(1) && s.landings == map[]
            && s.limbo == multiset{Sent("x", GENESIS.now)} && 1 in s.rows && s.rows[1].permlink == "x"
  {
    FirstTimesOut();
    hide Possible, After, BaseOk, CompletedBroadcasts;
    Then(GENESIS, SENT_AGAIN, Crash);
    assert CompletedBroadcasts(After(GENESIS, SENT_AGAIN + [Crash]).rows) == {} by {
      NoneCompleted(After(GENESIS, SENT_AGAIN + [Crash]).rows);
    }
    Then(GENESIS, SENT_AGAIN + [Crash], Boot(true));
    Then(GENESIS, SENT_AGAIN + [Crash] + [Boot(true)], Wait(30_000));
    Then(GENESIS, SENT_AGAIN + [Crash] + [Boot(true)] + [Wait(30_000)], StartDispatch(1));
  }

  lemma NoneCompleted(rows: Rows)
    requires forall i :: i in rows ==> rows[i].state != Completed
    ensures CompletedBroadcasts(rows) == {}
  {
  }

  lemma SentAgain()
    ensures var steps := RESTARTED + [CheckChain] + [Send];
            && BaseOk(GENESIS) && Possible(GENESIS, steps) && BaseOk(After(GENESIS, steps))
            && var s := After(GENESIS, steps);
               && s.phase == Sending(1, s.now) && s.landings == map[] && s.limbo == multiset{Sent("x", GENESIS.now)}
               && 1 in s.rows && s.rows[1].permlink == "x"
  {
    RestartsTooSoon();
    hide Possible, After, BaseOk, Transacted, Purged;
    Then(GENESIS, RESTARTED, CheckChain);
    var cleared := After(GENESIS, RESTARTED + [CheckChain]);
    assert cleared.phase == Cleared(1) && cleared.rows[1].permlink == "x";
    Then(GENESIS, RESTARTED + [CheckChain], Send);
  }

  /** A process that starts sooner can land a permlink twice: a broadcast times out,
      the process restarts, and half a minute later the entry is due, not on chain
      yet, and sent again. */
  lemma RestartCanLandTwice()
    ensures var steps := RESTARTED + [CheckChain] + [Send] + [SendLands] + [LimboLands(Sent("x", GENESIS.now))];
            && BaseOk(GENESIS) && Possible(GENESIS, steps) && Landings(After(GENESIS, steps), "x") == 2
  {
    SentAgain();
    hide Possible, After, BaseOk, Transacted, Purged, Result, NextPhase;
    Then(GENESIS, RESTARTED + [CheckChain] + [Send], SendLands);
    Then(GENESIS, RESTARTED + [CheckChain] + [Send] + [SendLands], LimboLands(Sent("x", GENESIS.now)));
  }

  const TAKEN: seq<Step> := LANDED + [StoreCompletion(StoredUnheard)] + EnqueueSteps("bob", "x")

  /** A run on which the index refuses to bring the row back: its permlink was enqueued
      again in the meantime. */
  lemma RescheduleCanBeRefused()
    ensures BaseOk(GENESIS) && Possible(GENESIS, TAKEN)
    ensures var s := After(GENESIS, TAKEN);
            && s.phase == WriteFailed(1) && StoredAlready(s) && !Enabled(s, StoreReschedule) && Enabled(s, DropDispatch)
  {
    FirstLands();
    hide Possible, After, BaseOk;
    Then(GENESIS, LANDED, StoreCompletion(StoredUnheard));
    var s := After(GENESIS, LANDED + [StoreCompletion(StoredUnheard)]);
    assert ActiveIds(s.rows) == {} == ActiveOf(s.rows, "bob");
    EnqueueRuns(s, "bob", "x");
    ThenRun(GENESIS, LANDED + [StoreCompletion(StoredUnheard)], EnqueueSteps("bob", "x"));
    var taken := After(GENESIS, TAKEN);
    assert 2 in taken.rows && Active(taken.rows[2]) && taken.rows[2].permlink == "x" == taken.rows[1].permlink;
  }
}
