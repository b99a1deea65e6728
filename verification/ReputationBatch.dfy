/** The catch-up loop that turns finalized cycles into stored scores, and what a
    crash after any of its Redis writes leaves behind.

    A run stages a cycle's scores, sets a sentinel, swaps the staged keys into
    production together with the cycle cursor, prunes, and feeds the scores into
    the next cycle. A calc-version stamp that differs from the running version
    forces a replay from cycle 0. The accredited set is fixed and one run executes
    at a time; seeds, revocations and index backfills by other requests interleave
    with it. */
module ReputationBatch {
  import opened Prelude

  type Account = string
  type Version = string
  type Scores = map<Account, real>

  /** What does not change under the runs: who is accredited, where cycles start,
      how long they are under a version, and the score a version's query gives an
      account for a cycle from the previous scores of accredited accounts. */
  datatype World = World(
    accredited: set<Account>,
    genesis: nat,
    cycleBlocks: Version -> real,
    score: (Version, nat, Scores, Account) -> real)

  function Restrict(s: Scores, accounts: set<Account>): Scores
  {
    map u | u in s && u in accounts :: s[u]
  }

  // `computeReputationBatch` for one cycle: voter weights are read for accredited
  // voters only.
  function CycleScores(w: World, v: Version, cycle: nat, prev: Scores): Scores
  {
    map u | u in w.accredited :: w.score(v, cycle, Restrict(prev, w.accredited), u)
  }

  /** The first n cycles scored in memory, with no crash and no storage. */
  function Replay(w: World, v: Version, n: nat): Scores
  {
    if n == 0 then map[] else CycleScores(w, v, n - 1, Replay(w, v, n - 1))
  }

  // The carried scores make the cycle come out as in the replay.
  ghost predicate InStep(w: World, v: Version, cycle: nat, prev: Scores)
  {
    CycleScores(w, v, cycle, prev) == Replay(w, v, cycle + 1)
  }

  // ---------------------------------------------------------------------
  // Cycle boundaries
  // ---------------------------------------------------------------------

  // `Math.floor((headBlock - genesisBlock) / cycleBlocks)`: the cycle in progress.
  function CurrentCycle(w: World, v: Version, head: nat): int
    requires w.cycleBlocks(v) > 0.0
  {
    ((head - w.genesis) as real / w.cycleBlocks(v)).Floor
  }

  function CycleEnd(w: World, v: Version, cycle: nat): real
  {
    w.genesis as real + (cycle + 1) as real * w.cycleBlocks(v)
  }

  /** A cycle's end lies beyond the head exactly from the cycle in progress on, so
      the catch-up loop always leaves through that test unless it gives up. */
  lemma OnlyElapsedCyclesEnd(w: World, v: Version, head: nat, cycle: nat)
    requires w.cycleBlocks(v) > 0.0
    ensures CycleEnd(w, v, cycle) > head as real <==> cycle >= CurrentCycle(w, v, head)
  {
    var x, b := (head - w.genesis) as real, w.cycleBlocks(v);
    var q := x / b;
    assert q * b == x;
    var n := (cycle + 1) as real;
    assert cycle >= q.Floor <==> n > q;
    if n > q {
      assert (n - q) * b > 0.0;
    } else {
      assert (q - n) * b >= 0.0;
    }
    assert (n - q) * b == n * b - x;
  }

  lemma ElapsedCyclesComeFirst(w: World, v: Version, head: nat)
    requires w.cycleBlocks(v) > 0.0
    ensures forall c: nat :: CycleEnd(w, v, c) <= head as real ==> c < CurrentCycle(w, v, head)
    ensures head >= w.genesis ==> CurrentCycle(w, v, head) >= 0
  {
    forall c: nat ensures CycleEnd(w, v, c) <= head as real ==> c < CurrentCycle(w, v, head) {
      OnlyElapsedCyclesEnd(w, v, head, c);
    }
  }

  // ---------------------------------------------------------------------
  // Redis
  // ---------------------------------------------------------------------

  datatype Redis = Redis(
    prod: Scores,
    members: set<Account>,
    last: Option<nat>,
    version: Option<Version>,
    staging: Scores,
    sentinels: set<nat>)

  // `CYCLE_SWAP`: rename every staged key, index it, move the cursor, drop the
  // sentinel, in one step.
  function Swap(r: Redis, keys: set<Account>, cycle: nat): Redis
    requires keys <= r.staging.Keys
  {
    r.(prod := r.prod + Restrict(r.staging, keys),
       members := r.members + keys,
       staging := r.staging - keys,
       last := Some(cycle),
       sentinels := r.sentinels - {cycle})
  }

  // What `getBatchReputationMap` reads: the indexed keys that exist, or every key
  // when there is no index yet.
  function ReadBack(r: Redis): Scores
  {
    Restrict(r.prod, if r.members == {} then r.prod.Keys else r.members)
  }

  // Nothing a stored score depends on has changed: the cursor, the stamp, and what
  // is stored and indexed for accredited accounts.
  ghost predicate Undisturbed(w: World, r: Redis, s: Redis)
  {
    && s.last == r.last && s.version == r.version
    && (forall u :: u in w.accredited && u in r.prod ==> u in s.prod && s.prod[u] == r.prod[u])
    && (forall u :: u in w.accredited && u in r.members ==> u in s.members)
  }

  // The history grew by states that leave that undisturbed.
  ghost predicate Quiet(w: World, before: Redis, older: seq<Redis>, newer: seq<Redis>)
  {
    older <= newer && forall i :: |older| <= i < |newer| ==> Undisturbed(w, before, newer[i])
  }

  lemma OutsidersMatterNot(w: World, before: Redis, r: Redis, outsiders: set<Account>)
    requires Undisturbed(w, before, r) && outsiders !! w.accredited
    ensures Undisturbed(w, before, r.(members := r.members - outsiders))
    ensures Undisturbed(w, before, r.(prod := r.prod - outsiders))
  {
  }

  // Staged scores and sentinels are nobody's input.
  lemma ScratchMattersNot(w: World, before: Redis, r: Redis, staging: Scores, sentinels: set<nat>)
    requires Undisturbed(w, before, r)
    ensures Undisturbed(w, before, r.(staging := staging, sentinels := sentinels))
  {
  }

  // One more command of the prune.
  lemma OneMoreDeleted(was: Scores, outsiders: set<Account>, doomed: set<Account>, fails: set<Account>, u: Account)
    requires u in doomed && doomed <= outsiders
    ensures was - (outsiders - (doomed - {u}) - fails)
         == if u in fails then was - (outsiders - doomed - fails) else was - (outsiders - doomed - fails) - {u}
  {
  }

  // One more command of the staging pipeline.
  lemma StagedOneMore(results: Scores, waiting: set<Account>, u: Account, failed: set<Account>)
    requires u in waiting && waiting <= results.Keys
    ensures results - (waiting - {u} + failed)
         == if u in failed then results - (waiting + failed) else (results - (waiting + failed))[u := results[u]]
    ensures failed !! results.Keys - (waiting - {u}) <==> u !in failed && failed !! results.Keys - waiting
  {
    assert results.Keys - (waiting - {u}) == results.Keys - waiting + {u};
  }

  lemma QuietSoFar(w: World, r: Redis, older: seq<Redis>)
    ensures Quiet(w, r, older, older) && Undisturbed(w, r, r)
  {
  }

  lemma QuietGrows(w: World, before: Redis, older: seq<Redis>, newer: seq<Redis>, s: Redis)
    requires Quiet(w, before, older, newer) && Undisturbed(w, before, s)
    ensures Quiet(w, before, older, newer + [s])
  {
  }

  ghost predicate SameStamp(before: Redis, older: seq<Redis>, newer: seq<Redis>)
  {
    older <= newer && forall i :: |older| <= i < |newer| ==> newer[i].version == before.version
  }

  // ---------------------------------------------------------------------
  // What a stamp promises
  // ---------------------------------------------------------------------

  // The stored scores are those of an uninterrupted replay up to the cursor.
  ghost predicate Faithful(w: World, v: Version, r: Redis)
  {
    r.last.Some? ==>
      && w.accredited <= r.prod.Keys && w.accredited <= r.members
      && Restrict(r.prod, w.accredited) == Replay(w, v, r.last.value + 1)
  }

  ghost predicate Sound(w: World, v: Version, r: Redis)
  {
    r.version == Some(v) ==> Faithful(w, v, r)
  }

  // A reader sees the scores the run found, or one whole cycle of this version.
  ghost predicate WholeCycle(w: World, v: Version, before: Redis, r: Redis)
  {
    || (r.last == before.last
        && forall u :: u in w.accredited && u in before.prod ==> u in r.prod && r.prod[u] == before.prod[u])
    || (r.last.Some? && Faithful(w, v, r))
  }

  lemma UndisturbedKeepsFaith(w: World, v: Version, r: Redis, s: Redis)
    requires Undisturbed(w, r, s)
    ensures Faithful(w, v, r) ==> Faithful(w, v, s)
    ensures w.accredited <= r.prod.Keys && w.accredited <= r.members ==> (Faithful(w, v, r) <==> Faithful(w, v, s))
  {
    hide Replay;
    if w.accredited <= r.prod.Keys {
      assert Restrict(s.prod, w.accredited) == Restrict(r.prod, w.accredited);
    }
  }

  // Faithful storage hands the next cycle the scores memory would have.
  lemma ReadBackResumes(w: World, v: Version, r: Redis, cycle: nat)
    requires Faithful(w, v, r) && r.last == Some(cycle)
    ensures Restrict(ReadBack(r), w.accredited) == Replay(w, v, cycle + 1)
  {
    assert Restrict(ReadBack(r), w.accredited) == Restrict(r.prod, w.accredited);
  }

  lemma SwapIsFaithful(w: World, v: Version, r: Redis, cycle: nat, prev: Scores)
    requires r.staging == CycleScores(w, v, cycle, prev)
    ensures var s := Swap(r, w.accredited, cycle); s.last == Some(cycle) && (Faithful(w, v, s) <==> InStep(w, v, cycle, prev))
    ensures var s := Swap(r, w.accredited, cycle);
            && s.members == r.members + w.accredited && s.sentinels == r.sentinels - {cycle} && s.staging == map[]
            && s.version == r.version && forall u :: u in r.prod && u !in w.accredited ==> u in s.prod && s.prod[u] == r.prod[u]
  {
    var s := Swap(r, w.accredited, cycle);
    assert Restrict(s.prod, w.accredited) == CycleScores(w, v, cycle, prev);
    hide Replay, CycleScores;
  }

  // Scores carried on, or read back, keep the next cycle in step.
  lemma StaysInStep(w: World, v: Version, cycle: nat, prev: Scores)
    requires Restrict(prev, w.accredited) == Replay(w, v, cycle)
    ensures InStep(w, v, cycle, prev)
  {
    ReplayIsRestricted(w, v, cycle);
  }

  lemma NextStaysInStep(w: World, v: Version, cycle: nat, prev: Scores)
    requires InStep(w, v, cycle, prev)
    ensures InStep(w, v, cycle + 1, CycleScores(w, v, cycle, prev))
  {
    ReplayIsRestricted(w, v, cycle + 1);
    hide Replay;
    StaysInStep(w, v, cycle + 1, CycleScores(w, v, cycle, prev));
  }

  lemma ReplayIsRestricted(w: World, v: Version, n: nat)
    ensures Restrict(Replay(w, v, n), w.accredited) == Replay(w, v, n)
  {
  }

  // ---------------------------------------------------------------------
  // The run
  // ---------------------------------------------------------------------

  // How many cycles have fully elapsed at this head.
  function Elapsed(w: World, v: Version, head: nat): nat
  {
    if w.cycleBlocks(v) > 0.0 && CurrentCycle(w, v, head) > 0 then CurrentCycle(w, v, head) else 0
  }

  // Stamping is safe when this version has a cycle to show for it, or nothing at
  // all is stored, or the stamp is there already.
  ghost predicate StampsSafely(w: World, v: Version, head: nat, r: Redis)
  {
    r.version == Some(v) || r.last.None? || Elapsed(w, v, head) >= 1
  }

  // The run has no cycle to compute: the stamp is in force and the cursor is not
  // behind, or no cycle of this version has elapsed.
  ghost predicate UpToDate(w: World, v: Version, head: nat, r: Redis)
  {
    Elapsed(w, v, head) == 0
    || (r.version == Some(v) && r.last.Some? && r.last.value + 1 >= Elapsed(w, v, head))
  }

  // A failed read of the stored scores passes for an empty map. It does no harm when
  // there was nothing to read, or when the next cycle comes out the same without.
  ghost predicate ReadsSafely(w: World, v: Version, swallowed: bool, r: Redis)
  {
    swallowed && r.version == Some(v) && r.last.Some? ==> InStep(w, v, r.last.value + 1, map[])
  }

  // What a run of this version, finished or stopped anywhere, may leave behind.
  ghost predicate MayLeave(w: World, v: Version, head: nat, swallowed: bool, r: Redis, s: Redis)
  {
    && (s.version == r.version || s.version == Some(v))
    && (Sound(w, v, r) && StampsSafely(w, v, head, r) && ReadsSafely(w, v, swallowed, r) ==> Sound(w, v, s))
  }

  /** What stops a run at a cycle: the time cap before or after it, the account list,
      the query, some of the staging commands, the sentinel or the swap. */
  datatype Fault =
    | Calm | CapReached | ListFails | QueryFails | StagingFails(failed: set<Account>) | MarkFails | SwapFails
    | CapReachedAfter

  // What becomes of a prune: whether its pipeline arrives, and which commands fail.
  datatype Pruning = Pruning(arrives: bool, sremFails: bool, delFails: set<Account>)

  // How the read of the stored scores goes.
  datatype Reading = Answers | FailsAtOnce | FailsAfterBackfill

  /** What a run meets: the first thing that goes wrong at each cycle, its prune, and
      the read. */
  datatype Course = Course(faults: nat -> Fault, prunes: nat -> Pruning, reading: Reading)

  // Nothing stops the run before it has passed this cycle.
  ghost predicate CalmThrough(course: Course, cycle: nat)
  {
    forall d: nat :: d <= cycle ==> course.faults(d) == Calm
  }

  // After this cycle, one of these states indexes nobody but the accredited.
  ghost predicate Pruned(w: World, cycle: Option<nat>, older: seq<Redis>, newer: seq<Redis>)
  {
    exists i :: |older| <= i < |newer| && newer[i].last == cycle && newer[i].members <= w.accredited
  }

  class BatchRunner {
    var batchRunning: bool
    var redis: Redis
    // Every state Redis has been in; a crash stops the run at one of them.
    ghost var history: seq<Redis>

    constructor (stored: Redis)
      ensures redis == stored && history == [stored] && !batchRunning
    {
      batchRunning, redis, history := false, stored, [stored];
    }

    method Write(r: Redis)
      modifies this`redis, this`history
      ensures redis == r && history == old(history) + [r]
    {
      redis := r;
      history := history + [r];
    }

    // Whatever other requests do to Redis while the run awaits: seeds of accounts
    // without a score, revocations, index backfills.
    method Await(w: World)
      modifies this`redis, this`history
      ensures Undisturbed(w, old(redis), redis) && Quiet(w, old(redis), old(history), history)
      ensures redis.staging == old(redis).staging && redis.sentinels == old(redis).sentinels
    {
      var requests := *;
      while requests > 0
        invariant Undisturbed(w, old(redis), redis) && Quiet(w, old(redis), old(history), history)
        invariant redis.staging == old(redis).staging && redis.sentinels == old(redis).sentinels
      {
        requests := requests - 1;
        var u: Account, bonus: real := *, *;
        if {
          case u !in redis.prod => Write(redis.(prod := redis.prod[u := bonus]));
          case true => Write(redis.(members := redis.members + {u}));
          case u !in w.accredited => Write(redis.(prod := redis.prod - {u}));
          case u !in w.accredited => Write(redis.(members := redis.members - {u}));
          case redis.members == {} => Write(redis.(members := redis.prod.Keys));
          case true => {}
        }
      }
    }

    // `clearStagingKeys`, then `clearInProgressSentinels`.
    method ClearAbandoned(w: World)
      modifies this`redis, this`history
      ensures redis == old(redis).(staging := map[], sentinels := {})
      ensures Quiet(w, old(redis), old(history), history)
    {
      Write(redis.(staging := map[]));
      Write(redis.(sentinels := {}));
    }

    // The DELs of the prune pipeline, some of which fail.
    method DeleteScores(w: World, outsiders: set<Account>, fails: set<Account>)
      requires outsiders !! w.accredited
      modifies this`redis, this`history
      ensures Undisturbed(w, old(redis), redis) && Quiet(w, old(redis), old(history), history)
      ensures redis == old(redis).(prod := old(redis).prod - (outsiders - fails))
      ensures if history == old(history) then redis == old(redis) else |history| > |old(history)| && Last(history) == redis
    {
      QuietSoFar(w, redis, history);
      hide Quiet, Undisturbed;
      ghost var was := redis.prod;
      var doomed := outsiders;
      while doomed != {}
        invariant doomed <= outsiders
        invariant Undisturbed(w, old(redis), redis) && Quiet(w, old(redis), old(history), history)
        invariant redis == old(redis).(prod := was - (outsiders - doomed - fails))
        invariant if history == old(history) then redis == old(redis) else |history| > |old(history)| && Last(history) == redis
        decreases |doomed|
      {
        var u :| u in doomed;
        OneMoreDeleted(was, outsiders, doomed, fails, u);
        doomed := doomed - {u};
        if u !in fails {
          OutsidersMatterNot(w, old(redis), redis, {u});
          QuietGrows(w, old(redis), old(history), history, redis.(prod := redis.prod - {u}));
          Write(redis.(prod := redis.prod - {u}));
        }
      }
      assert outsiders - {} - fails == outsiders - fails;
    }

    // `pruneDeAccreditedMembers`: the pipeline may not arrive, and its commands may
    // fail one by one. Applied in full, it leaves nothing of indexed accounts
    // outside the accredited set.
    method PruneDeAccreditedMembers(w: World, pruning: Pruning)
      modifies this`redis, this`history
      ensures Undisturbed(w, old(redis), redis) && Quiet(w, old(redis), old(history), history)
      ensures var stale := old(redis).members - w.accredited;
        redis == if !pruning.arrives then old(redis)
                 else old(redis).(members := if pruning.sremFails then old(redis).members
                                             else old(redis).members * w.accredited,
                                  prod := old(redis).prod - (stale - pruning.delFails))
      ensures pruning.arrives && !pruning.sremFails ==> |history| > |old(history)| && Last(history) == redis
    {
      var stale := redis.members - w.accredited;
      if !pruning.arrives {
        return;
      }
      if !pruning.sremFails {
        assert redis.members - stale == redis.members * w.accredited;
        Write(redis.(members := redis.members - stale));
      }
      DeleteScores(w, stale, pruning.delFails);
    }

    // `getBatchReputationMap`, with its one-time backfill of the index. A command
    // that fails is swallowed: the caller gets an empty map.
    method GetBatchReputationMap(w: World, reading: Reading) returns (scores: Scores, swallowed: bool)
      modifies this`redis, this`history
      ensures swallowed <==> reading != Answers
      ensures scores == if swallowed then map[]
                        else map u | u in old(redis).prod && (old(redis).members == {} || u in old(redis).members)
                               :: old(redis).prod[u]
      ensures Undisturbed(w, old(redis), redis) && Quiet(w, old(redis), old(history), history)
      ensures redis == old(redis).(members := redis.members)
    {
      scores, swallowed := map[], true;
      if reading == FailsAtOnce {
        return;
      }
      var stored := ReadBack(redis);
      if redis.members == {} && redis.prod != map[] {
        Write(redis.(members := redis.prod.Keys));
      }
      if reading == FailsAfterBackfill {
        return;
      }
      scores, swallowed := stored, false;
    }

    // The staging pipeline; false when a command failed, with the rest of the set staged.
    method StageScores(w: World, results: Scores, failed: set<Account>) returns (staged: bool)
      requires redis.staging == map[]
      modifies this`redis, this`history
      ensures redis == old(redis).(staging := results - failed)
      ensures staged <==> failed !! results.Keys
      ensures staged ==> redis.staging == results
      ensures Quiet(w, old(redis), old(history), history)
    {
      var users := results.Keys;
      staged := true;
      QuietSoFar(w, redis, history);
      hide Quiet, Undisturbed;
      while users != {}
        invariant users <= results.Keys
        invariant redis == old(redis).(staging := redis.staging)
        invariant redis.staging == results - (users + failed)
        invariant staged <==> failed !! results.Keys - users
        invariant Quiet(w, old(redis), old(history), history) && Undisturbed(w, old(redis), redis)
        decreases |users|
      {
        var u :| u in users;
        StagedOneMore(results, users, u, failed);
        users := users - {u};
        if u !in failed {
          var grown := redis.staging[u := results[u]];
          ScratchMattersNot(w, old(redis), redis, grown, redis.sentinels);
          QuietGrows(w, old(redis), old(history), history, redis.(staging := grown));
          Write(redis.(staging := grown));
        } else {
          staged := false;
        }
      }
    }

    // Set the sentinel and come to the swap, other requests in between.
    method MarkCycle(w: World, cycle: nat, fault: Fault) returns (marked: bool)
      modifies this`redis, this`history
      ensures marked <==> !fault.MarkFails? && !fault.SwapFails?
      ensures marked ==> cycle in redis.sentinels
      ensures Undisturbed(w, old(redis), redis) && Quiet(w, old(redis), old(history), history)
      ensures redis.staging == old(redis).staging
    {
      Await(w);
      if fault.MarkFails? {
        return false;
      }
      Write(redis.(sentinels := redis.sentinels + {cycle}));
      Await(w);
      marked := !fault.SwapFails?;
    }

    // Query, stage and mark one elapsed cycle.
    method StageCycle(w: World, cycle: nat, results: Scores, fault: Fault) returns (staged: bool)
      requires redis.staging == map[]
      modifies this`redis, this`history
      ensures fault.Calm? || fault.CapReachedAfter? ==> staged
      ensures staged ==> cycle in redis.sentinels
      ensures Undisturbed(w, old(redis), redis) && Quiet(w, old(redis), old(history), history)
      ensures staged ==> redis.staging == results
    {
      Await(w);
      if fault.QueryFails? {
        return false;
      }
      Await(w);
      staged := StageScores(w, results, if fault.StagingFails? then fault.failed else {});
      if staged {
        staged := MarkCycle(w, cycle, fault);
      }
    }

    // Drop who is no longer accredited, other requests before and after.
    method PruneCycle(w: World, pruning: Pruning)
      modifies this`redis, this`history
      ensures pruning.arrives && !pruning.sremFails ==> Pruned(w, old(redis).last, old(history), history)
      ensures Undisturbed(w, old(redis), redis) && Quiet(w, old(redis), old(history), history)
      ensures redis.staging == old(redis).staging
    {
      Await(w);
      PruneDeAccreditedMembers(w, pruning);
      ghost var sofar := history;
      Await(w);
      if pruning.arrives && !pruning.sremFails {
        assert history[|sofar| - 1] == Last(sofar);
      }
    }

    // Score, stage, mark, swap and prune one elapsed cycle: its scores reach
    // production whole, or the run gives up with the cursor where it was.
    method ScoreCycle(w: World, v: Version, cycle: nat, prev: Scores, fault: Fault, pruning: Pruning)
      returns (scores: Scores, advanced: bool)
      requires redis.staging == map[]
      modifies this`redis, this`history
      ensures fault.Calm? || fault.CapReachedAfter? ==> advanced
      ensures redis.version == old(redis).version
      ensures SameStamp(old(redis), old(history), history)
      ensures advanced ==> redis.staging == map[] && redis.last == Some(cycle)
      ensures advanced ==> StoredFirst(w, v, cycle, prev, old(history), history)
      ensures advanced && pruning.arrives && !pruning.sremFails ==> Pruned(w, Some(cycle), old(history), history)
      ensures !advanced ==> Undisturbed(w, old(redis), redis)
      ensures InStep(w, v, cycle, prev) ==>
        && (advanced ==> Faithful(w, v, redis) && InStep(w, v, cycle + 1, scores))
        && AtMostThisCycle(w, v, cycle, old(redis), old(history), history)
    {
      scores, advanced := prev, false;
      var results := CycleScores(w, v, cycle, prev);
      assert results.Keys == w.accredited;
      hide Replay, Faithful, CycleScores, InStep, StoredFirst, Restrict;
      var staged := StageCycle(w, cycle, results, fault);
      if !staged {
        return;
      }
      SwapIsFaithful(w, v, redis, cycle, prev);
      ghost var sofar := history;
      Write(Swap(redis, w.accredited, cycle));
      ghost var swapped := redis;
      assert w.accredited <= swapped.prod.Keys && w.accredited <= swapped.members && swapped.staging == map[];
      assert swapped.version == old(redis).version && swapped.last == Some(cycle);
      hide Swap;
      PruneCycle(w, pruning);
      SwapStretch(w, v, cycle, prev, old(redis), swapped, old(history), sofar, history);
      UndisturbedKeepsFaith(w, v, swapped, redis);
      if InStep(w, v, cycle, prev) {
        NextStaysInStep(w, v, cycle, prev);
      }
      scores, advanced := results, true;
    }

    // One pass of the loop body over an elapsed cycle.
    method ComputeCycle(w: World, v: Version, cycle: nat, prev: Scores, fault: Fault, pruning: Pruning)
      returns (scores: Scores, advanced: bool)
      requires redis.staging == map[]
      modifies this`redis, this`history
      ensures fault.Calm? || fault.CapReachedAfter? ==> advanced
      ensures redis.version == old(redis).version
      ensures SameStamp(old(redis), old(history), history)
      ensures advanced ==> redis.staging == map[] && redis.last == Some(cycle)
      ensures advanced ==> StoredFirst(w, v, cycle, prev, old(history), history)
      ensures !advanced ==> Undisturbed(w, old(redis), redis)
      ensures InStep(w, v, cycle, prev) ==>
        && (advanced ==> Faithful(w, v, redis) && InStep(w, v, cycle + 1, scores))
        && AtMostThisCycle(w, v, cycle, old(redis), old(history), history)
    {
      scores, advanced := prev, false;
      if fault.ListFails? {
        return;
      }
      if w.accredited == {} {
        advanced := true;
        Write(redis.(last := Some(cycle)));
        assert Replay(w, v, cycle + 1) == map[] == Restrict(redis.prod, w.accredited);
        assert CycleScores(w, v, cycle, prev) == map[];
        FirstIsStored(w, v, cycle, prev, old(history), history);
      } else {
        scores, advanced := ScoreCycle(w, v, cycle, prev, fault, pruning);
      }
    }

    // The catch-up loop, from the first cycle to compute.
    method CatchUp(w: World, v: Version, start: nat, current: nat, head: nat, scores: Scores, course: Course)
      returns (reached: bool, next: nat)
      requires w.cycleBlocks(v) > 0.0 && current == CurrentCycle(w, v, head) && start <= current
      requires redis.staging == map[]
      modifies this`redis, this`history
      ensures start <= next <= current && redis.version == old(redis).version
      ensures reached ==> next == current
      ensures CalmThrough(course, current) ==> reached
      ensures forall c: nat :: c < current && CalmThrough(course, c) ==> c < next
      ensures next > start ==> redis.last == Some(next - 1)
      ensures SameStamp(old(redis), old(history), history)
      ensures next == start ==> Undisturbed(w, old(redis), redis)
      ensures next > start ==> StoredFirst(w, v, start, scores, old(history), history)
      ensures InStep(w, v, start, scores) ==>
        && AllWhole(w, v, old(redis), old(history), history)
        && (next > start ==> Faithful(w, v, redis))
    {
      reached, next := false, start;
      var prev := scores;
      ghost var found := redis;
      ghost var inStep := InStep(w, v, start, scores);
      hide InStep, Faithful, StoredFirst;
      while next <= current
        invariant start <= next <= current && !reached
        invariant redis.staging == map[] && redis.version == found.version
        invariant SameStamp(found, old(history), history)
        invariant if next == start then Undisturbed(w, found, redis) && prev == scores
                  else redis.last == Some(next - 1) && StoredFirst(w, v, start, scores, old(history), history)
        invariant inStep ==>
          && InStep(w, v, next, prev)
          && AllWhole(w, v, found, old(history), history)
          && (next > start ==> Faithful(w, v, redis))
        decreases current - next
      {
        if course.faults(next).CapReached? {
          return;
        }
        OnlyElapsedCyclesEnd(w, v, head, next);
        if CycleEnd(w, v, next) > head as real {
          reached := true;
          return;
        }
        ghost var before, sofar := redis, history;
        var advanced;
        prev, advanced := ComputeCycle(w, v, next, prev, course.faults(next), course.prunes(next));
        if inStep {
          CycleIsWhole(w, v, found, before, old(history), sofar, history, next);
          if !advanced && next > start {
            UndisturbedKeepsFaith(w, v, before, redis);
          }
        }
        if !advanced {
          FirstStays(w, v, start, scores, old(history), sofar, history);
          return;
        }
        if next == start {
          FirstWasStored(w, v, start, scores, old(history), sofar, history);
        } else {
          FirstStays(w, v, start, scores, old(history), sofar, history);
        }
        next := next + 1;
        if course.faults(next - 1).CapReachedAfter? && w.accredited != {} {
          return;
        }
      }
    }

    // Read the previous scores back if there are any, and catch up.
    method Resume(w: World, v: Version, start: nat, current: nat, head: nat, course: Course)
      returns (reached: bool, next: nat, swallowed: bool)
      requires w.cycleBlocks(v) > 0.0 && current == CurrentCycle(w, v, head) && start <= current
      requires redis.staging == map[]
      requires start > 0 ==> redis.version == Some(v) && redis.last == Some(start - 1)
      modifies this`redis, this`history
      ensures start <= next <= current && redis.version == old(redis).version
      ensures reached ==> next == current
      ensures CalmThrough(course, current) ==> reached
      ensures forall c: nat :: c < current && CalmThrough(course, c) ==> c < next
      ensures next > start ==> redis.last == Some(next - 1)
      ensures swallowed <==> start > 0 && course.reading != Answers
      ensures SameStamp(old(redis), old(history), history)
      ensures next == start ==> Undisturbed(w, old(redis), redis)
      ensures swallowed && next > start ==> StoredFirst(w, v, start, map[], old(history), history)
      ensures Sound(w, v, old(redis)) && (swallowed ==> InStep(w, v, start, map[])) ==>
        && AllWhole(w, v, old(redis), old(history), history)
        && (next > start ==> Faithful(w, v, redis))
    {
      var prev := map[];
      ghost var found := redis;
      swallowed := false;
      if start == 0 {
        assert Restrict(prev, w.accredited) == Replay(w, v, start);
        StaysInStep(w, v, start, prev);
      }
      if start > 0 {
        prev, swallowed := GetBatchReputationMap(w, course.reading);
        if !swallowed && Sound(w, v, found) {
          ReadBackResumes(w, v, found, start - 1);
          StaysInStep(w, v, start, prev);
        }
      }
      hide Replay, Faithful, Restrict, CycleScores, ReadBack, InStep, StoredFirst;
      ghost var resumed, sofar := redis, history;
      reached, next := CatchUp(w, v, start, current, head, prev, course);
      if next > start {
        FirstWasStored(w, v, start, prev, old(history), sofar, history);
      }
      if Sound(w, v, found) && (swallowed ==> InStep(w, v, start, map[])) {
        TwoStretches(w, v, found, resumed, old(history), sofar, history);
      }
    }

    /** `runBatchComputation`. At every write, and so wherever it is stopped:
        readers see the scores it found or one whole cycle, and a stamp that says
        this version is in force stays true, provided the run may stamp safely and
        did not swallow a read that mattered. If it swallowed one and went on to
        store a cycle, that cycle is the replay's only if it comes out the same
        without previous scores. A run with HAF, Redis and the lock that nothing
        stops scores every finished cycle and puts its stamp in force; one without
        them leaves Redis as it is. */
    method RunBatchComputation(w: World, v: Version, head: nat, hafUp: bool, redisUp: bool, lockFree: bool, course: Course)
      returns (reached: bool, swallowed: bool)
      modifies this
      ensures batchRunning == old(batchRunning)
      ensures old(batchRunning) || !hafUp || !redisUp || !lockFree ==> redis == old(redis) && history == old(history)
      ensures !old(batchRunning) && hafUp && redisUp && lockFree && w.genesis > 0 && head > 0 && w.cycleBlocks(v) > 0.0 ==>
        forall c: nat :: CycleEnd(w, v, c) <= head as real && CalmThrough(course, c) ==>
          redis.last.Some? && redis.last.value >= c
      ensures !old(batchRunning) && hafUp && redisUp && lockFree && w.genesis > 0 && head > 0 && w.cycleBlocks(v) > 0.0 ==>
        (forall d: nat :: course.faults(d) == Calm) && head >= w.genesis ==>
          && redis.version == Some(v)
          && (course.reading == Answers && (old(redis).version == Some(v) ==> Faithful(w, v, old(redis))) ==>
                forall c: nat :: CycleEnd(w, v, c) <= head as real ==> Faithful(w, v, redis))
      ensures RunKeeps(w, v, head, swallowed, old(redis), old(history), history)
      ensures MayLeave(w, v, head, swallowed, old(redis), redis)
      ensures swallowed ==> course.reading != Answers && old(redis).version == Some(v) && old(redis).last.Some?
      ensures swallowed && redis.last != old(redis).last ==>
        StoredFirst(w, v, old(redis).last.value + 1, map[], old(history), history)
      ensures reached ==> redis.version == Some(v)
      ensures reached && Sound(w, v, old(redis)) && ReadsSafely(w, v, swallowed, old(redis)) && Elapsed(w, v, head) >= 1 ==>
        redis.last.Some? && redis.last.value >= Elapsed(w, v, head) - 1 && Faithful(w, v, redis)
      ensures UpToDate(w, v, head, old(redis)) ==>
        Undisturbed(w, old(redis).(version := redis.version), redis)
    {
      reached, swallowed := false, false;
      if batchRunning || !hafUp || !redisUp || !lockFree {
        return;
      }
      hide Replay, Faithful, Restrict, CycleScores, ReadBack, InStep, StoredFirst;
      ClearAbandoned(w);
      QuietKeeps(w, v, head, old(redis), old(history), history);
      assert Undisturbed(w, old(redis), redis) && Undisturbed(w, old(redis).(version := redis.version), redis);
      hide Undisturbed, Quiet, MayLeave, RunKeeps, AllWhole, SameStamp;
      if w.cycleBlocks(v) <= 0.0 || w.genesis == 0 || head == 0 {
        return;
      }
      var current := CurrentCycle(w, v, head);
      var changed := redis.version != Some(v);
      var effective := if changed || redis.last.None? then -1 else redis.last.value;
      ElapsedCyclesComeFirst(w, v, head);
      hide CurrentCycle, CycleEnd;
      if current < 0 || effective >= current {
        return;
      }
      batchRunning := true;
      ghost var cleared, sofar := redis, history;
      var next;
      reached, next, swallowed := Resume(w, v, effective + 1, current, head, course);
      ResumedKeeps(w, v, head, swallowed, old(redis), cleared, redis, effective + 1, next, reached, old(history), sofar, history);
      if swallowed && next > effective + 1 {
        FirstWasStored(w, v, effective + 1, map[], old(history), sofar, history);
      }
      assert (forall d: nat :: course.faults(d) == Calm) ==> CalmThrough(course, current);
      assert forall c: nat :: CycleEnd(w, v, c) <= head as real && CalmThrough(course, c) ==>
          redis.last.Some? && redis.last.value >= c;
      hide *;
      ghost var resumed, before := redis, history;
      if changed && reached {
        Write(redis.(version := Some(v)));
        StampKeeps(w, v, head, old(redis), resumed, old(history), before);
      }
      batchRunning := false;
    }
  }

  // Every state of the stretch is undisturbed, or holds the whole cycle.
  ghost predicate AtMostThisCycle(w: World, v: Version, cycle: nat, before: Redis, older: seq<Redis>, newer: seq<Redis>)
  {
    && older <= newer
    && forall i :: |older| <= i < |newer| ==>
         || Undisturbed(w, before, newer[i])
         || (newer[i].version == before.version && newer[i].last == Some(cycle) && Faithful(w, v, newer[i]))
  }

  lemma SwapStretch(w: World, v: Version, cycle: nat, prev: Scores, before: Redis, swapped: Redis, older: seq<Redis>,
                    mid: seq<Redis>, newer: seq<Redis>)
    requires Quiet(w, before, older, mid) && Quiet(w, swapped, mid + [swapped], newer)
    requires swapped.version == before.version && swapped.last == Some(cycle)
    requires w.accredited <= swapped.prod.Keys && w.accredited <= swapped.members
    requires Faithful(w, v, swapped) <==> InStep(w, v, cycle, prev)
    ensures StoredFirst(w, v, cycle, prev, older, newer) && SameStamp(before, older, newer)
    ensures InStep(w, v, cycle, prev) ==> AtMostThisCycle(w, v, cycle, before, older, newer)
  {
    hide Faithful, InStep;
    assert newer[|mid|] == swapped;
    forall i | |mid| <= i < |newer|
      ensures newer[i].version == before.version && newer[i].last == Some(cycle)
              && (Faithful(w, v, swapped) ==> Faithful(w, v, newer[i]))
    {
      assert i == |mid| || Undisturbed(w, swapped, newer[i]);
      if i > |mid| {
        UndisturbedKeepsFaith(w, v, swapped, newer[i]);
      }
    }
  }

  // The stretch stores the first cycle, faithful exactly when the scores it starts
  // from are in step.
  ghost predicate StoredFirst(w: World, v: Version, start: nat, scores: Scores, older: seq<Redis>, newer: seq<Redis>)
  {
    exists i :: |older| <= i < |newer| && newer[i].last == Some(start)
                && (Faithful(w, v, newer[i]) <==> InStep(w, v, start, scores))
  }

  lemma FirstIsStored(w: World, v: Version, start: nat, scores: Scores, older: seq<Redis>, newer: seq<Redis>)
    requires |older| < |newer| && Last(newer).last == Some(start)
    requires Faithful(w, v, Last(newer)) <==> InStep(w, v, start, scores)
    ensures StoredFirst(w, v, start, scores, older, newer)
  {
    assert newer[|newer| - 1] == Last(newer);
  }

  lemma FirstStays(w: World, v: Version, start: nat, scores: Scores, older: seq<Redis>, mid: seq<Redis>, newer: seq<Redis>)
    requires mid <= newer
    ensures StoredFirst(w, v, start, scores, older, mid) ==> StoredFirst(w, v, start, scores, older, newer)
  {
    if StoredFirst(w, v, start, scores, older, mid) {
      var i :| |older| <= i < |mid| && mid[i].last == Some(start)
               && (Faithful(w, v, mid[i]) <==> InStep(w, v, start, scores));
      assert newer[i] == mid[i];
    }
  }

  lemma FirstWasStored(w: World, v: Version, start: nat, scores: Scores, older: seq<Redis>, mid: seq<Redis>, newer: seq<Redis>)
    requires older <= mid && StoredFirst(w, v, start, scores, mid, newer)
    ensures StoredFirst(w, v, start, scores, older, newer)
  {
  }

  // What holds of every state a run passes through.
  ghost predicate RunKeeps(w: World, v: Version, head: nat, swallowed: bool, found: Redis, older: seq<Redis>,
                           newer: seq<Redis>)
  {
    && older <= newer
    && forall i :: |older| <= i < |newer| ==>
         && MayLeave(w, v, head, swallowed, found, newer[i])
         && (Sound(w, v, found) && ReadsSafely(w, v, swallowed, found) ==> WholeCycle(w, v, found, newer[i]))
  }

  // Every state of a stretch of history is one of the two a run may leave.
  ghost predicate AllWhole(w: World, v: Version, found: Redis, older: seq<Redis>, newer: seq<Redis>)
  {
    && older <= newer
    && forall i :: |older| <= i < |newer| ==>
         || Undisturbed(w, found, newer[i])
         || (newer[i].version == found.version && newer[i].last.Some? && Faithful(w, v, newer[i]))
  }

  lemma CycleIsWhole(w: World, v: Version, found: Redis, before: Redis, older: seq<Redis>, sofar: seq<Redis>,
                     newer: seq<Redis>, cycle: nat)
    requires AllWhole(w, v, found, older, sofar) && sofar <= newer
    requires Undisturbed(w, found, before)
             || (before.version == found.version && before.last.Some? && Faithful(w, v, before))
    requires AtMostThisCycle(w, v, cycle, before, sofar, newer)
    ensures AllWhole(w, v, found, older, newer)
  {
    forall i | |older| <= i < |newer|
      ensures Undisturbed(w, found, newer[i])
              || (newer[i].version == found.version && newer[i].last.Some? && Faithful(w, v, newer[i]))
    {
      if i >= |sofar| && Undisturbed(w, before, newer[i]) && Faithful(w, v, before) {
        UndisturbedKeepsFaith(w, v, before, newer[i]);
      }
    }
  }

  lemma WholeMayLeave(w: World, v: Version, head: nat, swallowed: bool, found: Redis, r: Redis)
    requires r.version == found.version
    requires Sound(w, v, found) && ReadsSafely(w, v, swallowed, found) ==>
               Undisturbed(w, found, r) || (r.last.Some? && Faithful(w, v, r))
    ensures MayLeave(w, v, head, swallowed, found, r)
    ensures Sound(w, v, found) && ReadsSafely(w, v, swallowed, found) ==> WholeCycle(w, v, found, r)
  {
    hide ReadsSafely;
    if Sound(w, v, found) && Undisturbed(w, found, r) && found.version == Some(v) {
      UndisturbedKeepsFaith(w, v, found, r);
    }
  }

  lemma QuietKeeps(w: World, v: Version, head: nat, found: Redis, older: seq<Redis>, newer: seq<Redis>)
    requires Quiet(w, found, older, newer)
    ensures RunKeeps(w, v, head, false, found, older, newer) && RunKeeps(w, v, head, true, found, older, newer)
    ensures forall r, swallowed :: Undisturbed(w, found, r) ==> MayLeave(w, v, head, swallowed, found, r)
  {
    forall i, swallowed | |older| <= i < |newer|
      ensures MayLeave(w, v, head, swallowed, found, newer[i])
      ensures Sound(w, v, found) && ReadsSafely(w, v, swallowed, found) ==> WholeCycle(w, v, found, newer[i])
    {
      WholeMayLeave(w, v, head, swallowed, found, newer[i]);
    }
    forall r, swallowed | Undisturbed(w, found, r) ensures MayLeave(w, v, head, swallowed, found, r) {
      WholeMayLeave(w, v, head, swallowed, found, r);
    }
  }

  lemma StretchKeeps(w: World, v: Version, head: nat, swallowed: bool, found: Redis, cleared: Redis, older: seq<Redis>,
                     sofar: seq<Redis>, newer: seq<Redis>)
    requires RunKeeps(w, v, head, swallowed, found, older, sofar)
    requires cleared == found.(staging := map[], sentinels := {})
    requires SameStamp(cleared, sofar, newer)
    requires Sound(w, v, cleared) && ReadsSafely(w, v, swallowed, cleared) ==> AllWhole(w, v, cleared, sofar, newer)
    ensures RunKeeps(w, v, head, swallowed, found, older, newer)
  {
    forall i | |sofar| <= i < |newer|
      ensures MayLeave(w, v, head, swallowed, found, newer[i])
      ensures Sound(w, v, found) && ReadsSafely(w, v, swallowed, found) ==> WholeCycle(w, v, found, newer[i])
    {
      WholeMayLeave(w, v, head, swallowed, found, newer[i]);
    }
  }

  // What the run has left when its loop is over.
  lemma ResumedKeeps(w: World, v: Version, head: nat, swallowed: bool, found: Redis, cleared: Redis, r: Redis, start: nat,
                     next: nat, reached: bool, older: seq<Redis>, sofar: seq<Redis>, newer: seq<Redis>)
    requires w.cycleBlocks(v) > 0.0 && 0 <= start <= next <= CurrentCycle(w, v, head)
    requires RunKeeps(w, v, head, swallowed, found, older, sofar) && SameStamp(cleared, sofar, newer)
    requires cleared == found.(staging := map[], sentinels := {}) && r.version == cleared.version
    requires start == if found.version != Some(v) || found.last.None? then 0 else found.last.value + 1
    requires (reached ==> next == CurrentCycle(w, v, head)) && (swallowed ==> start > 0)
    requires next == start ==> Undisturbed(w, cleared, r)
    requires Sound(w, v, cleared) && (swallowed ==> InStep(w, v, start, map[])) ==>
               && AllWhole(w, v, cleared, sofar, newer)
               && (next > start ==> r.last.Some? && r.last.value >= next - 1 && Faithful(w, v, r))
    ensures RunKeeps(w, v, head, swallowed, found, older, newer) && MayLeave(w, v, head, swallowed, found, r)
    ensures swallowed ==> found.version == Some(v) && found.last.Some?
    ensures next == start ==> Undisturbed(w, found, r)
    ensures reached && Sound(w, v, found) && ReadsSafely(w, v, swallowed, found) && Elapsed(w, v, head) >= 1 ==>
              r.last.Some? && r.last.value >= Elapsed(w, v, head) - 1 && Faithful(w, v, r)
    ensures UpToDate(w, v, head, found) ==> Undisturbed(w, found, r)
    ensures reached && found.version != Some(v) ==>
              if Elapsed(w, v, head) == 0 then Undisturbed(w, found, r) else Faithful(w, v, r) && r.last.Some?
  {
    hide InStep, Replay, Restrict;
    assert Sound(w, v, cleared) <==> Sound(w, v, found);
    assert ReadsSafely(w, v, swallowed, found) ==> (swallowed ==> InStep(w, v, start, map[]));
    StretchKeeps(w, v, head, swallowed, found, cleared, older, sofar, newer);
    if next == start && Undisturbed(w, found, r) {
      UndisturbedKeepsFaith(w, v, found, r);
    }
    hide Faithful, AllWhole, RunKeeps, SameStamp, CurrentCycle;
    WholeMayLeave(w, v, head, swallowed, found, r);
  }

  lemma StampKeeps(w: World, v: Version, head: nat, found: Redis, r: Redis, older: seq<Redis>, newer: seq<Redis>)
    requires RunKeeps(w, v, head, false, found, older, newer) && found.version != Some(v)
    requires if Elapsed(w, v, head) == 0 then Undisturbed(w, found, r) else Faithful(w, v, r) && r.last.Some?
    ensures var s := r.(version := Some(v));
            RunKeeps(w, v, head, false, found, older, newer + [s]) && MayLeave(w, v, head, false, found, s)
  {
  }

  lemma TwoStretches(w: World, v: Version, found: Redis, resumed: Redis, older: seq<Redis>, sofar: seq<Redis>,
                     newer: seq<Redis>)
    requires Quiet(w, found, older, sofar) && Undisturbed(w, found, resumed)
    requires AllWhole(w, v, resumed, sofar, newer)
    ensures AllWhole(w, v, found, older, newer)
  {
  }

  // ---------------------------------------------------------------------
  // Many runs
  // ---------------------------------------------------------------------

  /** One run: its version, the head it saw, and whether it swallowed a failed read. */
  datatype Attempt = Attempt(version: Version, head: nat, swallowed: bool)

  // Each attempt starts from what the one before it left.
  ghost predicate Chained(w: World, states: seq<Redis>, attempts: seq<Attempt>)
  {
    && |states| == |attempts| + 1
    && forall i :: 0 <= i < |attempts| ==> 
         MayLeave(w, attempts[i].version, attempts[i].head, attempts[i].swallowed, states[i], states[i + 1])
  }

  // Once another version has run, a version does not come back.
  predicate NoReuse(attempts: seq<Attempt>)
  {
    forall i, j, k :: 0 <= i < j < k < |attempts| && attempts[i].version == attempts[k].version ==>
      attempts[j].version == attempts[i].version
  }

  // No run stamps a version without a cycle over another's scores, and none swallows
  // a read that mattered.
  ghost predicate AllSafe(w: World, states: seq<Redis>, attempts: seq<Attempt>)
    requires |states| == |attempts| + 1
  {
    forall i :: 0 <= i < |attempts| ==>
      && StampsSafely(w, attempts[i].version, attempts[i].head, states[i])
      && ReadsSafely(w, attempts[i].version, attempts[i].swallowed, states[i])
  }

  lemma {:induction false} StampsAreOfPastVersions(w: World, states: seq<Redis>, attempts: seq<Attempt>, n: nat)
    requires Chained(w, states, attempts) && states[0].version.None? && n <= |attempts|
    ensures states[n].version.None? || exists i :: 0 <= i < n && states[n].version == Some(attempts[i].version)
  {
    if n > 0 {
      StampsAreOfPastVersions(w, states, attempts, n - 1);
      assert MayLeave(w, attempts[n - 1].version, attempts[n - 1].head, attempts[n - 1].swallowed, states[n - 1], states[n]);
    }
  }

  lemma NotStampedYet(w: World, states: seq<Redis>, attempts: seq<Attempt>, n: nat)
    requires Chained(w, states, attempts) && states[0].version.None? && NoReuse(attempts) && n < |attempts|
    requires n > 0 ==> attempts[n - 1].version != attempts[n].version
    ensures states[n].version != Some(attempts[n].version)
  {
    StampsAreOfPastVersions(w, states, attempts, n);
    forall i | 0 <= i < n ensures attempts[i].version != attempts[n].version {
      assert i == n - 1 || attempts[n - 1].version == attempts[n - 1].version;
    }
  }

  /** Over any sequence of runs, each finished or cut off at any write, under
      versions that do not come back: whenever the stored stamp is the running
      version, the stored scores are the crash-free replay up to the cursor. */
  lemma {:induction false} StampedScoresAreTheReplay(w: World, states: seq<Redis>, attempts: seq<Attempt>, n: nat)
    requires Chained(w, states, attempts) && states[0].version.None?
    requires NoReuse(attempts) && AllSafe(w, states, attempts)
    requires n < |attempts|
    ensures Sound(w, attempts[n].version, states[n]) && Sound(w, attempts[n].version, states[n + 1])
  {
    var v := attempts[n].version;
    if n > 0 && attempts[n - 1].version == v {
      StampedScoresAreTheReplay(w, states, attempts, n - 1);
    } else {
      NotStampedYet(w, states, attempts, n);
    }
    assert MayLeave(w, v, attempts[n].head, attempts[n].swallowed, states[n], states[n + 1]);
    assert StampsSafely(w, v, attempts[n].head, states[n]);
  }

  // Redis after the first n cycles of a replay that was then cut off.
  function AfterCycles(w: World, v: Version, n: nat, r: Redis): Redis
  {
    if n == 0 then r
    else
      var before := AfterCycles(w, v, n - 1, r);
      Swap(before.(staging := CycleScores(w, v, n - 1, Replay(w, v, n - 1))), w.accredited, n - 1)
  }

  lemma {:induction false} AfterCyclesHolds(w: World, v: Version, n: nat, r: Redis)
    requires n > 0
    ensures var s := AfterCycles(w, v, n, r);
            s.last == Some(n - 1) && s.version == r.version && Faithful(w, v, s)
  {
    if n > 1 {
      AfterCyclesHolds(w, v, n - 1, r);
    }
    ReplayIsRestricted(w, v, n - 1);
    StaysInStep(w, v, n - 1, Replay(w, v, n - 1));
    var before := AfterCycles(w, v, n - 1, r);
    SwapIsFaithful(w, v, before.(staging := CycleScores(w, v, n - 1, Replay(w, v, n - 1))), n - 1, Replay(w, v, n - 1));
  }

  lemma ReturningStamp(w: World, stamped: Version, other: Version, n: nat, r: Redis)
    requires n > 0 && r.version == Some(stamped)
    ensures Sound(w, stamped, AfterCycles(w, other, n, r)) <==> Replay(w, other, n) == Replay(w, stamped, n)
  {
    hide Replay, AfterCycles, Swap, CycleScores;
    AfterCyclesHolds(w, other, n, r);
    var s := AfterCycles(w, other, n, r);
    assert Restrict(s.prod, w.accredited) == Replay(w, other, n);
  }

  // Every version scores every account by itself.
  function Separating(stamped: Version): (Version, nat, Scores, Account) -> real
  {
    (v, cycle, prev, u) => if v == stamped then 1.0 else 2.0
  }

  lemma SeparatedReplays(w: World, stamped: Version, other: Version, n: nat)
    requires n > 0 && stamped != other && w.accredited != {}
    ensures var split := w.(score := Separating(stamped)); Replay(split, other, n) != Replay(split, stamped, n)
  {
    var split := w.(score := Separating(stamped));
    var u :| u in w.accredited;
    assert Replay(split, other, n)[u] == 2.0 && Replay(split, stamped, n)[u] == 1.0;
  }

  lemma InseparableReplays(w: World, stamped: Version, other: Version, n: nat)
    requires stamped == other || w.accredited == {}
    ensures Replay(w, other, n) == Replay(w, stamped, n)
  {
    assert w.accredited == {} ==> Replay(w, other, n) == map[] == Replay(w, stamped, n);
  }

  /** Versions that come back break it: cut a replay under another version off after n
      cycles and return to the stamped version. The old stamp is true exactly when the
      two versions score those cycles alike, and it is true whatever they compute
      exactly when it is the same version or nobody is accredited. */
  lemma ReturningVersionIsSoundIff(w: World, stamped: Version, other: Version, n: nat, r: Redis)
    requires n > 0 && r.version == Some(stamped)
    ensures Sound(w, stamped, AfterCycles(w, other, n, r)) <==> Replay(w, other, n) == Replay(w, stamped, n)
    ensures (forall score :: var same := w.(score := score); Sound(same, stamped, AfterCycles(same, other, n, r)))
       <==> stamped == other || w.accredited == {}
  {
    hide AfterCycles, Sound, Replay;
    ReturningStamp(w, stamped, other, n, r);
    if stamped != other && w.accredited != {} {
      SeparatedReplays(w, stamped, other, n);
      var split := w.(score := Separating(stamped));
      ReturningStamp(split, stamped, other, n, r);
      assert !Sound(split, stamped, AfterCycles(split, other, n, r));
    } else {
      forall score ensures var same := w.(score := score); Sound(same, stamped, AfterCycles(same, other, n, r)) {
        ReturningStamp(w.(score := score), stamped, other, n, r);
        InseparableReplays(w.(score := score), stamped, other, n);
      }
    }
  }

  // The score is 1 more than what is stored for the account, whatever the cycle.
  function Contradicting(r: Redis, u: Account): (Version, nat, Scores, Account) -> real
    requires u in r.prod
  {
    (v, cycle, prev, a) => r.prod[u] + 1.0
  }

  lemma UnsafeStampCanLie(w: World, v: Version, r: Redis, u: Account)
    requires r.version == Some(v) && r.last.Some? && u in w.accredited && u in r.prod
    ensures !Sound(w.(score := Contradicting(r, u)), v, r)
  {
    var other := w.(score := Contradicting(r, u));
    assert Replay(other, v, r.last.value + 1)[u] == r.prod[u] + 1.0;
    assert Restrict(r.prod, w.accredited)[u] == r.prod[u];
  }

  /** A run of a new version none of whose cycles has elapsed leaves the scores it
      found, under its own stamp. That stamp is true whatever the version computes
      exactly when nothing was stored, or nobody is accredited. */
  lemma EmptyStampIsSoundIff(w: World, v: Version, head: nat, found: Redis, left: Redis)
    requires Elapsed(w, v, head) == 0 && found.version != Some(v)
    requires left.version == Some(v) && Undisturbed(w, found.(version := Some(v)), left)
    ensures (forall score :: Sound(w.(score := score), v, left)) <==> StampsSafely(w, v, head, found) || w.accredited == {}
  {
    if left.last.Some? && w.accredited != {} {
      var u :| u in w.accredited;
      if u in left.prod {
        UnsafeStampCanLie(w, v, left, u);
      } else {
        assert !Sound(w.(score := w.score), v, left);
      }
    } else {
      forall score ensures Sound(w.(score := score), v, left) {
        assert w.accredited == {} ==>
          Replay(w.(score := score), v, if left.last.Some? then left.last.value + 1 else 1) == map[];
      }
    }
  }

  // The score says whether the account had one before.
  function Remembering(): (Version, nat, Scores, Account) -> real
  {
    (v, cycle, prev, u) => if u in prev then 1.0 else 2.0
  }

  lemma ForgottenCycle(w: World, v: Version, cycle: nat)
    requires cycle > 0 && w.accredited != {}
    ensures !InStep(w.(score := Remembering()), v, cycle, map[])
  {
    var recalls := w.(score := Remembering());
    var u :| u in w.accredited;
    assert u in Restrict(Replay(recalls, v, cycle), w.accredited);
    assert Replay(recalls, v, cycle + 1)[u] == 1.0 && CycleScores(recalls, v, cycle, map[])[u] == 2.0;
  }

  /** A run that swallows a failed read and then stores a cycle shows readers only
      whole cycles of the replay exactly when its first cycle comes out the same
      without previous scores; which no cycle but the first does under every scoring
      function, unless nobody is accredited. */
  lemma SwallowedReadIsFaithfulIff(w: World, v: Version, head: nat, found: Redis, older: seq<Redis>, newer: seq<Redis>)
    requires found.version == Some(v) && found.last.Some? && Sound(w, v, found)
    requires RunKeeps(w, v, head, true, found, older, newer)
    requires StoredFirst(w, v, found.last.value + 1, map[], older, newer)
    ensures (forall i :: |older| <= i < |newer| ==> WholeCycle(w, v, found, newer[i]))
       <==> InStep(w, v, found.last.value + 1, map[])
    ensures (forall score :: InStep(w.(score := score), v, found.last.value + 1, map[])) <==> w.accredited == {}
  {
    var start := found.last.value + 1;
    assert (forall i :: |older| <= i < |newer| ==> WholeCycle(w, v, found, newer[i])) <==> InStep(w, v, start, map[]) by {
      hide Faithful, InStep, MayLeave;
    }
    hide RunKeeps, StoredFirst, WholeCycle, Sound;
    if w.accredited == {} {
      forall score ensures InStep(w.(score := score), v, start, map[]) {
        assert CycleScores(w.(score := score), v, start, map[]) == map[] == Replay(w.(score := score), v, start + 1);
      }
    } else {
      ForgottenCycle(w, v, start);
    }
  }

  // One account, scored 1 under "short" and 2 under "long", whose cycles are a
  // hundred times as long.
  function TwoVersions(): World
  {
    World({"ann"}, 1, v => if v == "long" then 100.0 else 1.0, (v, c, prev, u) => if v == "long" then 2.0 else 1.0)
  }

  /** A weights change that lengthens the cycle can do just that: the new version
      is stamped over the old scores and, being up to date, never recomputes them
      until its own cycles catch up with the old cursor. */
  lemma LongerCyclesFreezeOldScores()
    ensures var w := TwoVersions();
            var r := AfterCycles(w, "short", 9, Redis(map[], {}, None, Some("short"), map[], {}));
            && Sound(w, "short", r) && Sound(w, "long", r) && !StampsSafely(w, "long", 10, r)
            && !Sound(w, "long", r.(version := Some("long")))
            && forall head :: head < 901 ==> UpToDate(w, "long", head, r.(version := Some("long")))
  {
    hide AfterCycles, Replay, Swap, CycleScores;
    var w := TwoVersions();
    var r := AfterCycles(w, "short", 9, Redis(map[], {}, None, Some("short"), map[], {}));
    AfterCyclesHolds(w, "short", 9, Redis(map[], {}, None, Some("short"), map[], {}));
    TwoVersionScores("short", 9);
    TwoVersionScores("long", 9);
    assert Restrict(r.prod, w.accredited)["ann"] == 1.0;
    forall head: nat | head < 901 ensures UpToDate(w, "long", head, r.(version := Some("long"))) {
      assert (head - 1) as real / 100.0 < 9.0;
    }
  }

  lemma TwoVersionScores(v: Version, n: nat)
    requires n > 0
    ensures Replay(TwoVersions(), v, n) == map["ann" := if v == "long" then 2.0 else 1.0]
  {
  }

  /** The same two versions show that a returning one can lie: after one cycle of the
      other, the old stamp stands over scores it never computed. */
  lemma ReturningVersionCanLie()
    ensures var w := TwoVersions();
            var r := AfterCycles(w, "short", 9, Redis(map[], {}, None, Some("short"), map[], {}));
            && Sound(w, "short", r)
            && var cutOff := AfterCycles(w, "long", 1, r);
               cutOff.version == Some("short") && cutOff.last == Some(0) && !Sound(w, "short", cutOff)
  {
    hide AfterCycles, Replay, Swap, CycleScores;
    var w, first := TwoVersions(), Redis(map[], {}, None, Some("short"), map[], {});
    var r := AfterCycles(w, "short", 9, first);
    AfterCyclesHolds(w, "short", 9, first);
    AfterCyclesHolds(w, "long", 1, r);
    ReturningStamp(w, "short", "long", 1, r);
    TwoVersionScores("short", 1);
    TwoVersionScores("long", 1);
    assert map["ann" := 1.0]["ann"] != map["ann" := 2.0]["ann"];
  }

  // One account that gains a point every cycle.
  function Growing(): World
  {
    World({"ann"}, 1, v => 1.0, (v, c, prev, u) => if u in prev then prev[u] + 1.0 else 1.0)
  }

  lemma GrowingScores()
    ensures Replay(Growing(), "v", 2) == map["ann" := 2.0] && Replay(Growing(), "v", 3) == map["ann" := 3.0]
  {
    var w := Growing();
    assert Replay(w, "v", 1) == map["ann" := 1.0];
    assert Restrict(map["ann" := 1.0], w.accredited) == map["ann" := 1.0];
    assert Replay(w, "v", 2) == map["ann" := 2.0];
    assert Restrict(map["ann" := 2.0], w.accredited) == map["ann" := 2.0];
  }

  /** A swallowed read can corrupt the scores: after two cycles at 2 points, the third
      is scored from nothing, comes out at 1, and stands under a stamp that is no
      longer true. */
  lemma SwallowedReadCanCorrupt()
    ensures var w := Growing();
            var r := AfterCycles(w, "v", 2, Redis(map[], {}, None, Some("v"), map[], {}));
            var third := Swap(r.(staging := CycleScores(w, "v", 2, map[])), w.accredited, 2);
            && Sound(w, "v", r) && r.last == Some(1) && "ann" in r.prod && r.prod["ann"] == 2.0
            && third.last == Some(2) && "ann" in third.prod && third.prod["ann"] == 1.0
            && !Sound(w, "v", third) && !WholeCycle(w, "v", r, third)
  {
    var w, first := Growing(), Redis(map[], {}, None, Some("v"), map[], {});
    var r := AfterCycles(w, "v", 2, first);
    AfterCyclesHolds(w, "v", 2, first);
    GrowingScores();
    hide AfterCycles, Replay;
    assert Restrict(r.prod, w.accredited)["ann"] == 2.0;
    var third := Swap(r.(staging := CycleScores(w, "v", 2, map[])), w.accredited, 2);
    assert CycleScores(w, "v", 2, map[]) == map["ann" := 1.0];
    assert third.prod["ann"] == 1.0 && Restrict(third.prod, w.accredited)["ann"] == 1.0;
    assert map["ann" := 3.0]["ann"] == 3.0;
  }
}
