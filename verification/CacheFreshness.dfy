/** What the cache promises over every interleaving: freshness after an invalidation
    and single flight; and where each promise ends. */
module CacheFreshness {
  import opened Prelude
  import opened QueryCache

  ghost predicate Possible(st: State, steps: seq<Step>, stable: Key -> bool)
    decreases |steps|
  {
    steps == [] || (Enabled(st, steps[0]) && Possible(Apply(st, steps[0], stable), steps[1..], stable))
  }

  ghost function After(st: State, steps: seq<Step>, stable: Key -> bool): State
    requires Possible(st, steps, stable)
    decreases |steps|
  {
    if steps == [] then st else After(Apply(st, steps[0], stable), steps[1..], stable)
  }

  lemma {:induction false} RunKeepsValid(st: State, steps: seq<Step>, stable: Key -> bool)
    requires Valid(st, stable) && Possible(st, steps, stable)
    ensures Valid(After(st, steps, stable), stable)
    decreases |steps|
  {
    hide Valid, Apply, Enabled;
    if steps != [] {
      StepKeepsValid(st, steps[0], stable);
      RunKeepsValid(Apply(st, steps[0], stable), steps[1..], stable);
    }
  }

  lemma EmptyIsValid(stable: Key -> bool)
    ensures Valid(EMPTY, stable) && FlightsOk(EMPTY) && RevalidationsOk(EMPTY)
  {
  }

  // ---------------------------------------------------------------------
  // Freshness
  // ---------------------------------------------------------------------

  /** Once an invalidation has returned, whatever is in the fresh slot of a key it
      covers comes from a fetch that started after the invalidation began. The same
      holds of the stale slot, unless the invalidation caught a fetch between its
      two writes. */
  lemma NothingStaleAfterInvalidation(steps: seq<Step>, stable: Key -> bool, r: Returned, key: Key)
    requires Possible(EMPTY, steps, stable)
    requires r in After(EMPTY, steps, stable).returned
    ensures var st := After(EMPTY, steps, stable);
            && (Covers(r.cover, key, stable) && Fresh(key) in st.store ==> st.store[Fresh(key)] > r.began)
            && (CoversStale(r.cover, key, stable) && Stale(key) in st.store ==>
                  st.store[Stale(key)] > r.began || key in r.caught)
  {
    EmptyIsValid(stable);
    RunKeepsValid(EMPTY, steps, stable);
    assert ReturnedOk(After(EMPTY, steps, stable), r, stable);
  }

  /** From the moment an invalidation has bumped its epochs, no fetch that started
      before it writes the fresh slot of a key it covers, running sweeps included. */
  lemma NoPreInvalidationWrite(st: State, id: nat, hasData: bool, stable: Key -> bool)
    requires Valid(st, stable) && Enabled(st, Resolve(id, hasData))
    requires Apply(st, Resolve(id, hasData), stable).store != st.store
    ensures forall i :: i in st.sweeps && Covers(st.sweeps[i].cover, st.fetches[id].key, stable) ==>
              st.fetches[id].started > st.sweeps[i].began
    ensures forall r :: r in st.returned && Covers(r.cover, st.fetches[id].key, stable) ==>
              st.fetches[id].started > r.began
  {
    var f := st.fetches[id];
    assert FetchOk(st, f) && Open(st, f, stable);
    forall i | i in st.sweeps && Covers(st.sweeps[i].cover, f.key, stable) ensures f.started > st.sweeps[i].began {
      assert SweepOk(st, st.sweeps[i], stable);
      OpenGatePostdatesInvalidations(st, f, stable, st.sweeps[i].cover, st.sweeps[i].began);
    }
    forall r | r in st.returned && Covers(r.cover, f.key, stable) ensures f.started > r.began {
      assert ReturnedOk(st, r, stable);
      OpenGatePostdatesInvalidations(st, f, stable, r.cover, r.began);
    }
  }

  // The fetch runs on, gate closed, having written nothing yet.
  ghost predicate ShutOut(st: State, id: nat, key: Key, stable: Key -> bool)
  {
    && id in st.fetches && st.fetches[id].key == key && !st.fetches[id].owesStale
    && FetchOk(st, st.fetches[id]) && !Open(st, st.fetches[id], stable)
  }

  /** A fetch that is running when a bump covers its key is shut out: it never
      writes either slot, however long it runs. */
  lemma BumpShutsOut(st: State, step: Step, id: nat, key: Key, stable: Key -> bool)
    requires Valid(st, stable) && Enabled(st, step) && id in st.fetches && st.fetches[id].key == key
    requires !st.fetches[id].resolved
    requires || (step.EndSweep? && Covers(st.sweeps[step.sweep].cover, key, stable))
             || step == Invalidate(key)
             || (step.BeginSweep? && Covers(step.cover, key, stable))
    ensures ShutOut(Apply(st, step, stable), id, key, stable)
  {
    assert FetchOk(st, st.fetches[id]);
    StepKeepsValid(st, step, stable);
    var after := Apply(st, step, stable);
    assert FetchOk(after, after.fetches[id]);
  }

  lemma {:induction false} ShutOutForGood(st: State, steps: seq<Step>, id: nat, key: Key, stable: Key -> bool)
    requires ShutOut(st, id, key, stable) && Possible(st, steps, stable)
    requires Finish(id) !in steps && Restart !in steps
    ensures ShutOut(After(st, steps, stable), id, key, stable)
    ensures forall hasData :: Enabled(After(st, steps, stable), Resolve(id, hasData)) ==>
              Apply(After(st, steps, stable), Resolve(id, hasData), stable).store == After(st, steps, stable).store
    ensures !Enabled(After(st, steps, stable), WriteStale(id))
    decreases |steps|
  {
    if steps != [] {
      ShutOutStep(st, steps[0], id, key, stable);
      ShutOutForGood(Apply(st, steps[0], stable), steps[1..], id, key, stable);
    }
  }

  lemma ShutOutStep(st: State, step: Step, id: nat, key: Key, stable: Key -> bool)
    requires ShutOut(st, id, key, stable) && Enabled(st, step) && step != Finish(id) && step != Restart
    ensures ShutOut(Apply(st, step, stable), id, key, stable)
  {
    if !OnFlights(step) && !step.Resolve? && !step.WriteStale? {
      SweepsKeepFetches(st, step, stable);
      hide Apply;
    }
  }

  // ---------------------------------------------------------------------
  // Single flight
  // ---------------------------------------------------------------------

  lemma StartKeepsFlights(st: State, id: nat, kind: Kind, key: Key)
    requires FlightsOk(st) && Enabled(st, Start(id, kind, key))
    ensures FlightsOk(StartFetch(st, id, kind, key))
  {
  }

  lemma FinishKeepsFlights(st: State, id: nat)
    requires FlightsOk(st) && id in st.fetches
    ensures FlightsOk(FinishFetch(st, id))
  {
  }

  // Only these steps start or end fetches, or touch the two maps of them.
  predicate OnFlights(step: Step)
  {
    step.Start? || step.StartThrows? || step.Finish? || step.Restart?
  }

  ghost predicate SameFlights(st: State, after: State)
  {
    && after.inflight == st.inflight && after.revalidating == st.revalidating && after.fetches.Keys == st.fetches.Keys
    && forall id :: id in st.fetches ==>
         after.fetches[id].kind == st.fetches[id].kind && after.fetches[id].key == st.fetches[id].key
  }

  lemma PhasesKeepFlights(st: State, step: Step, stable: Key -> bool)
    requires Enabled(st, step) && (step.Resolve? || step.WriteStale?)
    ensures SameFlights(st, Apply(st, step, stable))
  {
  }

  lemma SweepsKeepFetches(st: State, step: Step, stable: Key -> bool)
    requires Enabled(st, step) && !OnFlights(step) && !step.Resolve? && !step.WriteStale?
    ensures var after := Apply(st, step, stable);
            after.fetches == st.fetches && after.inflight == st.inflight && after.revalidating == st.revalidating
    ensures var after := Apply(st, step, stable);
            after.volatileEpoch >= st.volatileEpoch && after.stableEpoch >= st.stableEpoch && after.clock >= st.clock
    ensures var after := Apply(st, step, stable);
            && (after.volatileEpoch == st.volatileEpoch ==> after.volatileBump == st.volatileBump)
            && (after.stableEpoch == st.stableEpoch ==> after.stableBump == st.stableBump)
  {
    hide Matches, HalfWritten;
    match step
    case Invalidate(_) =>
    case BeginSweep(_, _) =>
    case Scan(_, _) =>
    case TakeReply(_) =>
    case EndScan(_) =>
    case Delete(_, _) =>
    case EndSweep(_) =>
    case Expire(_) =>
  }

  lemma OtherStepsKeepFlights(st: State, step: Step, stable: Key -> bool)
    requires Enabled(st, step) && !OnFlights(step)
    ensures SameFlights(st, Apply(st, step, stable))
  {
    if step.Resolve? || step.WriteStale? {
      PhasesKeepFlights(st, step, stable);
    } else {
      SweepsKeepFetches(st, step, stable);
      hide Apply;
    }
  }

  lemma FlightsKept(st: State, step: Step, stable: Key -> bool)
    requires FlightsOk(st) && Enabled(st, step)
    ensures FlightsOk(Apply(st, step, stable))
  {
    var after := Apply(st, step, stable);
    match step
    case Start(id, kind, key) =>
      assert SameFlights(StartFetch(st, id, kind, key), after);
      StartKeepsFlights(st, id, kind, key);
      FlightsSame(StartFetch(st, id, kind, key), after);
    case Finish(id) =>
      assert SameFlights(FinishFetch(st, id), after);
      FinishKeepsFlights(st, id);
      FlightsSame(FinishFetch(st, id), after);
    case StartThrows(kind, key) =>
      assert after.fetches == st.fetches;
    case Restart =>
    case _ =>
      OtherStepsKeepFlights(st, step, stable);
      FlightsSame(st, after);
  }

  lemma FlightsSame(st: State, after: State)
    requires SameFlights(st, after)
    ensures FlightsOk(st) ==> FlightsOk(after)
    ensures RevalidationsOk(st) ==> RevalidationsOk(after)
  {
    forall i, key ensures Revalidates(st, i, key) <==> Revalidates(after, i, key) {
    }
    if RevalidationsOk(st) {
      forall key | key in after.revalidating ensures exists i :: Revalidates(after, i, key) {
        var i :| Revalidates(st, i, key);
        assert Revalidates(after, i, key);
      }
    }
  }

  lemma StartKeepsRevalidations(st: State, id: nat, kind: Kind, key: Key)
    requires RevalidationsOk(st) && Enabled(st, Start(id, kind, key))
    ensures RevalidationsOk(StartFetch(st, id, kind, key))
  {
    var after := StartFetch(st, id, kind, key);
    forall i, k ensures Revalidates(after, i, k) <==>
      Revalidates(st, i, k) || (i == id && kind == Revalidation && k == key)
    {
    }
    forall k | k in after.revalidating ensures exists i :: Revalidates(after, i, k) {
      if k in st.revalidating {
        var i :| Revalidates(st, i, k);
        assert Revalidates(after, i, k);
      } else {
        assert Revalidates(after, id, k);
      }
    }
  }

  lemma FinishKeepsRevalidations(st: State, id: nat)
    requires RevalidationsOk(st) && id in st.fetches
    ensures RevalidationsOk(FinishFetch(st, id))
  {
    var after := FinishFetch(st, id);
    forall i, k ensures Revalidates(after, i, k) <==> Revalidates(st, i, k) && i != id {
    }
    forall k | k in after.revalidating ensures exists i :: Revalidates(after, i, k) {
      var i :| Revalidates(st, i, k);
      assert Revalidates(after, i, k);
    }
    forall i, k | Revalidates(after, i, k) ensures k in after.revalidating {
      assert Revalidates(st, id, st.fetches[id].key) || st.fetches[id].kind != Revalidation;
    }
  }

  lemma RevalidationsKept(st: State, step: Step, stable: Key -> bool)
    requires RevalidationsOk(st) && Enabled(st, step)
    ensures RevalidationsOk(Apply(st, step, stable))
  {
    var after := Apply(st, step, stable);
    match step
    case Start(id, kind, key) =>
      StartKeepsRevalidations(st, id, kind, key);
      FlightsSame(StartFetch(st, id, kind, key), after);
    case Finish(id) =>
      FinishKeepsRevalidations(st, id);
      FlightsSame(FinishFetch(st, id), after);
    case StartThrows(kind, key) =>
      FlightsSame(st, after.(inflight := st.inflight));
      FlightsIgnored(after.(inflight := st.inflight), after);
    case Restart =>
    case _ =>
      OtherStepsKeepFlights(st, step, stable);
      FlightsSame(st, after);
  }

  lemma FlightsIgnored(st: State, after: State)
    requires RevalidationsOk(st) && after.fetches == st.fetches && after.revalidating == st.revalidating
    ensures RevalidationsOk(after)
  {
    forall i, key ensures Revalidates(st, i, key) <==> Revalidates(after, i, key) {
    }
    forall key | key in after.revalidating ensures exists i :: Revalidates(after, i, key) {
      var i :| Revalidates(st, i, key);
      assert Revalidates(after, i, key);
    }
  }

  lemma {:induction false} RunKeepsFlights(st: State, steps: seq<Step>, stable: Key -> bool)
    requires FlightsOk(st) && RevalidationsOk(st) && Possible(st, steps, stable)
    ensures FlightsOk(After(st, steps, stable)) && RevalidationsOk(After(st, steps, stable))
    decreases |steps|
  {
    hide FlightsOk, RevalidationsOk, Apply, Enabled;
    if steps != [] {
      FlightsKept(st, steps[0], stable);
      RevalidationsKept(st, steps[0], stable);
      RunKeepsFlights(Apply(st, steps[0], stable), steps[1..], stable);
    }
  }

  ghost predicate Flies(st: State, id: nat, fk: FlightKey)
  {
    id in st.fetches && FlightOf(st.fetches[id].kind, st.fetches[id].key) == Some(fk)
  }

  // A fetcher of the flight threw synchronously instead of returning a promise, and
  // the process has not restarted since. The class accepts such a function; the
  // repository's callers pass functions that return promises.
  predicate Threw(steps: seq<Step>, fk: FlightKey)
  {
    exists t :: 0 <= t < |steps| && steps[t].StartThrows? && FlightOf(steps[t].kind, steps[t].key) == Some(fk)
                && Restart !in steps[t..]
  }

  lemma ThrewStep(steps: seq<Step>, step: Step, fk: FlightKey)
    ensures Threw(steps + [step], fk)
       <==> (step.StartThrows? && FlightOf(step.kind, step.key) == Some(fk)) || (Threw(steps, fk) && step != Restart)
  {
    var longer := steps + [step];
    if t :| 0 <= t < |steps| && steps[t].StartThrows? && FlightOf(steps[t].kind, steps[t].key) == Some(fk)
            && Restart !in steps[t..] && step != Restart {
      assert longer[t] == steps[t] && longer[t..] == steps[t..] + [step];
    }
    if step.StartThrows? && FlightOf(step.kind, step.key) == Some(fk) {
      assert longer[|steps|..] == [step];
    }
    if t :| 0 <= t < |longer| && longer[t].StartThrows? && FlightOf(longer[t].kind, longer[t].key) == Some(fk)
            && Restart !in longer[t..] {
      assert t < |steps| ==> steps[t] == longer[t] && longer[t..] == steps[t..] + [step];
    }
  }

  lemma {:induction false} LastStep(st: State, steps: seq<Step>, stable: Key -> bool)
    requires Possible(st, steps, stable) && |steps| > 0
    ensures var front := steps[..|steps| - 1];
            && Possible(st, front, stable) && Enabled(After(st, front, stable), Last(steps))
            && After(st, steps, stable) == Apply(After(st, front, stable), Last(steps), stable)
    decreases |steps|
  {
    hide Apply, Enabled;
    if |steps| == 1 {
      assert steps[1..] == [] && steps[..0] == [];
    } else {
      var front := steps[..|steps| - 1];
      LastStep(Apply(st, steps[0], stable), steps[1..], stable);
      assert steps[1..][..|steps| - 2] == front[1..] && front[0] == steps[0] && Last(steps[1..]) == Last(steps);
    }
  }

  ghost predicate Blocked(st: State, fk: FlightKey)
  {
    fk in st.inflight && st.inflight[fk].None?
  }

  lemma BlockedStep(st: State, step: Step, fk: FlightKey, stable: Key -> bool)
    requires FlightsOk(st) && Enabled(st, step)
    ensures Blocked(Apply(st, step, stable), fk)
       <==> (step.StartThrows? && FlightOf(step.kind, step.key) == Some(fk)) || (Blocked(st, fk) && step != Restart)
  {
    if !OnFlights(step) {
      OtherStepsKeepFlights(st, step, stable);
      hide Apply;
    }
  }

  /** A flight's slot is taken without a fetch to free it exactly when one of its
      fetchers threw synchronously since the process started. */
  lemma {:induction false} BlockedIffThrew(steps: seq<Step>, fk: FlightKey, stable: Key -> bool)
    requires Possible(EMPTY, steps, stable)
    ensures Blocked(After(EMPTY, steps, stable), fk) <==> Threw(steps, fk)
    decreases |steps|
  {
    if steps != [] {
      hide Apply, Enabled, FlightsOk, RevalidationsOk, Threw, Blocked;
      var front := steps[..|steps| - 1];
      LastStep(EMPTY, steps, stable);
      BlockedIffThrew(front, fk, stable);
      EmptyIsValid(stable);
      RunKeepsFlights(EMPTY, front, stable);
      BlockedStep(After(EMPTY, front, stable), Last(steps), fk, stable);
      assert steps == front + [Last(steps)];
      ThrewStep(front, Last(steps), fk);
    }
  }

  /** At most one fetcher runs per flight, the slot is taken exactly while it runs
      or after a fetcher threw synchronously, and at most one background revalidation
      runs per key. */
  lemma SingleFlight(steps: seq<Step>, stable: Key -> bool, i: nat, j: nat, fk: FlightKey, key: Key)
    requires Possible(EMPTY, steps, stable)
    ensures var st := After(EMPTY, steps, stable);
            && (Flies(st, i, fk) && Flies(st, j, fk) ==> i == j)
            && (fk in st.inflight <==> (exists id :: Flies(st, id, fk)) || Threw(steps, fk))
            && (Flies(st, i, fk) ==> fk in st.inflight && st.inflight[fk] == Some(i) && !Threw(steps, fk))
            && (Revalidates(st, i, key) && Revalidates(st, j, key) ==> i == j)
            && (key in st.revalidating <==> exists id :: Revalidates(st, id, key))
  {
    EmptyIsValid(stable);
    RunKeepsFlights(EMPTY, steps, stable);
    BlockedIffThrew(steps, fk, stable);
    hide Threw, Possible, After;
    var st := After(EMPTY, steps, stable);
    if fk in st.inflight && st.inflight[fk].Some? {
      assert Flies(st, st.inflight[fk].value, fk);
    }
  }

  /** Whatever fetches ended in, data, null or rejection, a flight that no fetch
      occupies admits the next one, unless a fetcher of it threw synchronously: then
      none starts until the process restarts. */
  lemma ThrowingFetcherBlocksItsKey(steps: seq<Step>, kind: Kind, key: Key, stable: Key -> bool)
    requires Possible(EMPTY, steps, stable) && FlightOf(kind, key).Some?
    ensures var st, fk := After(EMPTY, steps, stable), FlightOf(kind, key).value;
            Admits(st, kind, key) <==> (forall id :: !Flies(st, id, fk)) && !Threw(steps, fk)
  {
    SingleFlight(steps, stable, 0, 0, FlightOf(kind, key).value, key);
  }

  // A fetch of this kind runs for the key.
  ghost predicate Runs(st: State, kind: Kind, key: Key)
  {
    exists id :: id in st.fetches && st.fetches[id].kind == kind && st.fetches[id].key == key
  }

  lemma RunsOnItsFlight(st: State, kind: Kind, key: Key)
    ensures kind == GetOrSet ==> (Runs(st, kind, key) <==> exists id :: Flies(st, id, Plain(key)))
    ensures kind == ColdPath ==> (Runs(st, kind, key) <==> exists id :: Flies(st, id, Cold(key)))
    ensures kind == Revalidation ==> (Runs(st, kind, key) <==> exists id :: Revalidates(st, id, key))
  {
    if id :| id in st.fetches && st.fetches[id].kind == kind && st.fetches[id].key == key {
      assert kind == GetOrSet ==> Flies(st, id, Plain(key));
      assert kind == ColdPath ==> Flies(st, id, Cold(key));
      assert kind == Revalidation ==> Revalidates(st, id, key);
    }
  }

  predicate ThrewForKey(steps: seq<Step>, kind: Kind, key: Key)
  {
    exists t :: 0 <= t < |steps| && steps[t] == StartThrows(kind, key) && Restart !in steps[t..]
  }

  lemma ThrewOnItsFlight(steps: seq<Step>, kind: Kind, key: Key)
    ensures kind == GetOrSet ==> (ThrewForKey(steps, kind, key) <==> Threw(steps, Plain(key)))
    ensures kind == ColdPath ==> (ThrewForKey(steps, kind, key) <==> Threw(steps, Cold(key)))
  {
    if t :| 0 <= t < |steps| && steps[t] == StartThrows(kind, key) && Restart !in steps[t..] {
      assert steps[t].StartThrows?;
    }
  }

  /** Kind by kind: `getOrSet` and the cold path each start a fetch of a key exactly
      when they have none running and none of theirs threw synchronously since the
      process started, a revalidation exactly when none is running, and a periodic
      reload always. */
  lemma EachKindAdmits(steps: seq<Step>, stable: Key -> bool, kind: Kind, key: Key)
    requires Possible(EMPTY, steps, stable)
    ensures var st := After(EMPTY, steps, stable);
            Admits(st, kind, key) <==>
              || kind == Periodic
              || (!Runs(st, kind, key) && (kind == Revalidation || !ThrewForKey(steps, kind, key)))
  {
    var st := After(EMPTY, steps, stable);
    SingleFlight(steps, stable, 0, 0, Plain(key), key);
    hide Possible, After, Threw, ThrewForKey, Runs, Flies, Revalidates;
    RunsOnItsFlight(st, kind, key);
    ThrewOnItsFlight(steps, kind, key);
    if kind == GetOrSet || kind == ColdPath {
      ThrowingFetcherBlocksItsKey(steps, kind, key, stable);
    }
  }

  /** So none of the first three ever has two fetches of one key running. */
  lemma OneFetchOfEachKind(steps: seq<Step>, stable: Key -> bool, i: nat, j: nat)
    requires Possible(EMPTY, steps, stable)
    ensures var fetches := After(EMPTY, steps, stable).fetches;
            i in fetches && j in fetches && fetches[i].key == fetches[j].key ==>
              i == j || fetches[i].kind != fetches[j].kind || fetches[i].kind == Periodic
  {
    var st := After(EMPTY, steps, stable);
    if i in st.fetches && j in st.fetches {
      var key := st.fetches[i].key;
      SingleFlight(steps, stable, i, j, if st.fetches[i].kind == ColdPath then Cold(key) else Plain(key), key);
    }
  }

  // ---------------------------------------------------------------------
  // The write that asks no gate
  // ---------------------------------------------------------------------

  lemma {:induction false} Then(start: State, steps: seq<Step>, step: Step, stable: Key -> bool)
    requires Possible(start, steps, stable) && Enabled(After(start, steps, stable), step)
    ensures Possible(start, steps + [step], stable)
    ensures After(start, steps + [step], stable) == Apply(After(start, steps, stable), step, stable)
    decreases |steps|
  {
    if steps == [] {
      assert [step][1..] == [] && steps + [step] == [step];
      assert Possible(Apply(start, step, stable), [], stable);
    } else {
      Then(Apply(start, steps[0], stable), steps[1..], step, stable);
      assert (steps + [step])[1..] == steps[1..] + [step];
    }
  }

  /** The second of the two stale-while-revalidate writes asks no gate: a fetch
      caught between them can bring its pre-invalidation data back into the stale
      slot before the sweep returns. */
  lemma CaughtFetchRevivesStale(st: State, id: nat, i: nat, stable: Key -> bool)
    requires Enabled(st, WriteStale(id)) && Enabled(st, EndSweep(i)) && st.fetches[id].started < st.sweeps[i].began
    ensures var mid := Apply(st, WriteStale(id), stable);
            && Enabled(mid, EndSweep(i))
            && var after := Apply(mid, EndSweep(i), stable);
               var slot := Stale(st.fetches[id].key);
               && slot in after.store && after.store[slot] < st.sweeps[i].began
               && exists r :: r in after.returned && r.cover == st.sweeps[i].cover && r.began == st.sweeps[i].began
  {
    var w := st.sweeps[i];
    var after := Apply(Apply(st, WriteStale(id), stable), EndSweep(i), stable);
    assert Returned(w.cover, w.began, w.caught) in after.returned;
  }

  // A cold-path fetch is between its two writes, the fresh entry expires, and a
  // full clear has nothing to sweep.
  const HALF: seq<Step> := [Start(0, ColdPath, "rep"), Resolve(0, true), Expire(Fresh("rep"))]

  lemma HalfWay(stable: Key -> bool)
    ensures Possible(EMPTY, HALF, stable)
    ensures var st := After(EMPTY, HALF, stable);
            && st.store == map[] && st.sweeps == map[] && st.clock == 4
            && st.fetches == map[0 := Fetch(ColdPath, "rep", 1, 0, 0, true, true)]
  {
    assert Possible(EMPTY, [], stable) && After(EMPTY, [], stable) == EMPTY;
    hide Possible, After;
    Then(EMPTY, [], HALF[0], stable);
    Then(EMPTY, [] + [HALF[0]], HALF[1], stable);
    Then(EMPTY, [] + [HALF[0]] + [HALF[1]], HALF[2], stable);
    assert [] + [HALF[0]] + [HALF[1]] + [HALF[2]] == HALF;
  }

  /** And a run can get there. */
  lemma FetchCanBeCaught(stable: Key -> bool)
    ensures var caught := HALF + [BeginSweep(0, Everything)] + [EndScan(0)];
            && Possible(EMPTY, caught, stable)
            && var st := After(EMPTY, caught, stable);
               && Enabled(st, WriteStale(0)) && Enabled(st, EndSweep(0))
               && st.sweeps[0].cover == Everything && st.fetches[0].started < st.sweeps[0].began
  {
    HalfWay(stable);
    hide Possible, After;
    Then(EMPTY, HALF, BeginSweep(0, Everything), stable);
    assert After(EMPTY, HALF + [BeginSweep(0, Everything)], stable).sweeps[0].unseen == {};
    Then(EMPTY, HALF + [BeginSweep(0, Everything)], EndScan(0), stable);
  }
}
