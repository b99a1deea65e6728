/** Freshness told by the steps of a run alone: which step started the fetch behind an
    entry, and which steps made an invalidation. A state's clock is the number of the
    step that comes next, counted from 1. */
module CacheHistory {
  import opened Prelude
  import opened QueryCache
  import opened CacheFreshness
  import opened CacheStable

  // Step `at` started a fetch of the key.
  predicate StartedAt(steps: seq<Step>, n: nat, at: nat, key: Key)
  {
    n <= |steps| && 1 <= at <= n && steps[at - 1].Start? && steps[at - 1].key == key
  }

  // It was one of the two stale-while-revalidate paths.
  predicate ServesStale(steps: seq<Step>, at: nat)
  {
    1 <= at <= |steps| && steps[at - 1].Start? && (steps[at - 1].kind == ColdPath || steps[at - 1].kind == Revalidation)
  }

  ghost predicate FetchDated(steps: seq<Step>, n: nat, f: Fetch)
  {
    && StartedAt(steps, n, f.started, f.key) && steps[f.started - 1].kind == f.kind
    && (f.owesStale ==> ServesStale(steps, f.started))
  }

  // What is running or stored before step n was started by a step before it.
  ghost predicate Dated(steps: seq<Step>, n: nat, st: State)
  {
    && st.clock == n + 1
    && (forall id :: id in st.fetches ==> FetchDated(steps, n, st.fetches[id]))
    && (forall s :: s in st.store ==>
          StartedAt(steps, n, st.store[s], s.key) && (s.Stale? ==> ServesStale(steps, st.store[s])))
  }

  lemma DatesLast(steps: seq<Step>, n: nat, st: State)
    requires n < |steps| && Dated(steps, n, st)
    ensures Dated(steps, n + 1, st.(clock := st.clock + 1))
  {
    hide ServesStale;
  }

  lemma ResolveKeepsDates(steps: seq<Step>, n: nat, st: State, stable: Key -> bool)
    requires n < |steps| && Dated(steps, n, st) && Enabled(st, steps[n]) && steps[n].Resolve?
    ensures Dated(steps, n + 1, Apply(st, steps[n], stable))
  {
    var id := steps[n].id;
    var f := st.fetches[id];
    DatesLast(steps, n, st);
    assert FetchDated(steps, n + 1, f.(resolved := true));
    assert f.kind == ColdPath || f.kind == Revalidation ==> FetchDated(steps, n + 1, f.(resolved := true, owesStale := true));
    assert FetchDated(steps, n + 1, f.(resolved := true, owesStale := false)) && StartedAt(steps, n + 1, f.started, f.key);
    hide FetchDated, StartedAt, ServesStale, Open;
  }

  lemma StaleWriteKeepsDates(steps: seq<Step>, n: nat, st: State, stable: Key -> bool)
    requires n < |steps| && Dated(steps, n, st) && Enabled(st, steps[n]) && steps[n].WriteStale?
    ensures Dated(steps, n + 1, Apply(st, steps[n], stable))
  {
    var id := steps[n].id;
    var f := st.fetches[id];
    DatesLast(steps, n, st);
    assert FetchDated(steps, n + 1, f.(owesStale := false)) && StartedAt(steps, n + 1, f.started, f.key);
    assert ServesStale(steps, f.started);
    hide FetchDated, StartedAt, ServesStale;
  }

  lemma StepKeepsDates(steps: seq<Step>, n: nat, st: State, stable: Key -> bool)
    requires n < |steps| && Dated(steps, n, st) && Enabled(st, steps[n])
    ensures Dated(steps, n + 1, Apply(st, steps[n], stable))
  {
    var step := steps[n];
    if step.Resolve? {
      ResolveKeepsDates(steps, n, st, stable);
    } else if step.WriteStale? {
      StaleWriteKeepsDates(steps, n, st, stable);
    } else {
      DatesLast(steps, n, st);
      StoreShrinks(st, step, stable);
      FetchesShrink(st, step, stable);
      assert step.Start? ==> StartedAt(steps, n + 1, st.clock, step.key) && steps[st.clock - 1] == step;
      hide Apply, Enabled, StartedAt, ServesStale;
    }
  }

  lemma FetchesShrink(st: State, step: Step, stable: Key -> bool)
    requires Enabled(st, step) && !step.Resolve? && !step.WriteStale?
    ensures var after := Apply(st, step, stable);
            forall id :: id in after.fetches ==>
              || (id in st.fetches && after.fetches[id] == st.fetches[id])
              || (&& step.Start? && after.fetches[id].started == st.clock && after.fetches[id].key == step.key
                  && after.fetches[id].kind == step.kind && !after.fetches[id].owesStale)
  {
    if !OnFlights(step) {
      SweepsKeepFetches(st, step, stable);
      hide Apply;
    }
  }

  lemma StoreShrinks(st: State, step: Step, stable: Key -> bool)
    requires Enabled(st, step) && !step.Resolve? && !step.WriteStale?
    ensures var after := Apply(st, step, stable);
            && after.clock == st.clock + 1
            && forall s :: s in after.store ==> s in st.store && after.store[s] == st.store[s]
  {
    hide Matches, HalfWritten, FlightOf, Admits;
  }

  /** Every stored entry comes from a fetch of its key, and its date is the step that
      started that fetch. */
  lemma {:induction false} EntriesAreDated(states: seq<State>, steps: seq<Step>, n: nat, stable: Key -> bool)
    requires Trace(states, steps, stable) && n <= |steps|
    ensures |states| == |steps| + 1 && Dated(steps, n, states[n])
  {
    if n > 0 {
      EntriesAreDated(states, steps, n - 1, stable);
      assert Steps(states[n - 1], steps[n - 1], states[n], stable);
      StepKeepsDates(steps, n - 1, states[n - 1], stable);
    }
  }

  // Some fetch of the key has made the first of its two writes and not the second.
  ghost predicate BetweenWrites(st: State, key: Key)
  {
    exists id :: id in st.fetches && st.fetches[id].key == key && st.fetches[id].owesStale
  }

  // The sweep runs on, as it began.
  predicate SweepRuns(st: State, i: nat, cover: Cover, began: nat, caught: set<Key>)
  {
    i in st.sweeps && st.sweeps[i].cover == cover && st.sweeps[i].began == began && st.sweeps[i].caught == caught
  }

  lemma SweepStep(st: State, step: Step, i: nat, cover: Cover, began: nat, caught: set<Key>, stable: Key -> bool)
    requires Enabled(st, step) && SweepRuns(st, i, cover, began, caught) && step != Restart
    ensures var after := Apply(st, step, stable);
            if step == EndSweep(i) then Returned(cover, began, caught) in after.returned
            else SweepRuns(after, i, cover, began, caught)
  {
    hide Matches, HalfWritten, FlightOf, Admits, Open;
  }

  lemma {:induction false} SweepRunsOn(states: seq<State>, steps: seq<Step>, b: nat, n: nat, i: nat, cover: Cover,
                                       stable: Key -> bool)
    requires Trace(states, steps, stable) && b < n <= |steps| && steps[b] == BeginSweep(i, cover)
    requires forall m :: b < m < n ==> steps[m] != EndSweep(i) && steps[m] != Restart
    ensures |states| == |steps| + 1 && SweepRuns(states[n], i, cover, b + 1, HalfWritten(states[b]))
  {
    assert Steps(states[n - 1], steps[n - 1], states[n], stable);
    EntriesAreDated(states, steps, b, stable);
    hide HalfWritten, Trace;
    if n > b + 1 {
      SweepRunsOn(states, steps, b, n - 1, i, cover, stable);
      SweepStep(states[n - 1], steps[n - 1], i, cover, b + 1, HalfWritten(states[b]), stable);
    }
  }

  lemma ReturnedStaysStep(st: State, step: Step, stable: Key -> bool)
    requires Enabled(st, step)
    ensures st.returned <= Apply(st, step, stable).returned
  {
    hide Matches, HalfWritten, FlightOf, Admits, Open;
  }

  lemma {:induction false} ReturnedStays(states: seq<State>, steps: seq<Step>, e: nat, n: nat, r: Returned,
                                         stable: Key -> bool)
    requires Trace(states, steps, stable) && |states| == |steps| + 1 && e <= n <= |steps| && r in states[e].returned
    ensures r in states[n].returned
  {
    if e < n {
      ReturnedStays(states, steps, e, n - 1, r, stable);
      assert Steps(states[n - 1], steps[n - 1], states[n], stable);
      ReturnedStaysStep(states[n - 1], steps[n - 1], stable);
    }
  }

  lemma {:induction false} TraceIsValid(states: seq<State>, steps: seq<Step>, n: nat, stable: Key -> bool)
    requires Trace(states, steps, stable) && n <= |steps|
    ensures |states| == |steps| + 1 && Valid(states[n], stable)
  {
    hide Valid, Apply, Enabled;
    EmptyIsValid(stable);
    if n > 0 {
      TraceIsValid(states, steps, n - 1, stable);
      assert Steps(states[n - 1], steps[n - 1], states[n], stable);
      StepKeepsValid(states[n - 1], steps[n - 1], stable);
    }
  }

  /** After `invalidate` at step b, whatever later stands in the key's fresh slot comes
      from a fetch that a step after b started. */
  lemma InvalidatedKeyIsFresh(states: seq<State>, steps: seq<Step>, b: nat, n: nat, key: Key, stable: Key -> bool)
    requires Trace(states, steps, stable) && b < n <= |steps| && steps[b] == Invalidate(key)
    ensures |states| == |steps| + 1
    ensures Fresh(key) in states[n].store ==>
              exists m :: b < m < n && steps[m].Start? && steps[m].key == key && states[n].store[Fresh(key)] == m + 1
  {
    EntriesAreDated(states, steps, b, stable);
    EntriesAreDated(states, steps, n, stable);
    assert Steps(states[b], steps[b], states[b + 1], stable);
    var r := Returned(OneKey(key), b + 1, {});
    assert r in states[b + 1].returned;
    ReturnedStays(states, steps, b + 1, n, r, stable);
    TraceIsValid(states, steps, n, stable);
    assert ReturnedOk(states[n], r, stable) && Covers(r.cover, key, stable);
    hide Trace, Valid;
    DatedEntry(steps, n, states[n], b, Fresh(key));
  }

  lemma SweptSlots(states: seq<State>, steps: seq<Step>, b: nat, e: nat, n: nat, i: nat, cover: Cover, key: Key,
                   stable: Key -> bool)
    requires Trace(states, steps, stable) && b < e < n <= |steps|
    requires steps[b] == BeginSweep(i, cover) && steps[e] == EndSweep(i)
    requires forall m :: b < m < e ==> steps[m] != EndSweep(i) && steps[m] != Restart
    ensures |states| == |steps| + 1
    ensures Covers(cover, key, stable) && Fresh(key) in states[n].store ==> states[n].store[Fresh(key)] > b + 1
    ensures CoversStale(cover, key, stable) && Stale(key) in states[n].store ==>
              states[n].store[Stale(key)] > b + 1 || key in HalfWritten(states[b])
  {
    hide HalfWritten, Covers, CoversStale;
    SweepRunsOn(states, steps, b, e, i, cover, stable);
    assert Steps(states[e], steps[e], states[e + 1], stable);
    var r := Returned(cover, b + 1, HalfWritten(states[b]));
    SweepStep(states[e], steps[e], i, cover, b + 1, HalfWritten(states[b]), stable);
    ReturnedStays(states, steps, e + 1, n, r, stable);
    TraceIsValid(states, steps, n, stable);
    assert ReturnedOk(states[n], r, stable);
  }

  // The sweep is to clear this slot of the key: its name has the prefix, or all but
  // stable keys go, or everything does.
  predicate Sweeps(cover: Cover, name: string, key: Key, stable: Key -> bool)
  {
    match cover
    case OneKey(_) => false
    case ByPrefix(p) => p <= name
    case Volatile => !stable(key)
    case Everything => true
  }

  /** After a sweep from step b to step e, whatever later stands in a slot it was to
      clear comes from a fetch that a step after b started; except that a stale slot
      may hold older data if a fetch was between its two writes at step b. */
  lemma SweptSlotsAreFresh(states: seq<State>, steps: seq<Step>, b: nat, e: nat, n: nat, i: nat, cover: Cover, key: Key,
                           stable: Key -> bool)
    requires Trace(states, steps, stable) && b < e < n <= |steps|
    requires steps[b] == BeginSweep(i, cover) && steps[e] == EndSweep(i)
    requires forall m :: b < m < e ==> steps[m] != EndSweep(i) && steps[m] != Restart
    ensures |states| == |steps| + 1
    ensures Sweeps(cover, key, key, stable) && Fresh(key) in states[n].store ==>
              exists m :: b < m < n && steps[m].Start? && steps[m].key == key && states[n].store[Fresh(key)] == m + 1
    ensures Sweeps(cover, "swr:" + key, key, stable) && Stale(key) in states[n].store && !BetweenWrites(states[b], key) ==>
              exists m :: b < m < n && steps[m].Start? && steps[m].key == key && states[n].store[Stale(key)] == m + 1
                          && (steps[m].kind == ColdPath || steps[m].kind == Revalidation)
  {
    hide Trace, Dated;
    EntriesAreDated(states, steps, n, stable);
    SweptSlots(states, steps, b, e, n, i, cover, key, stable);
    assert key in HalfWritten(states[b]) ==> BetweenWrites(states[b], key);
    hide BetweenWrites, HalfWritten;
    DatedEntry(steps, n, states[n], b, Fresh(key));
    DatedEntry(steps, n, states[n], b, Stale(key));
  }

  lemma DatedEntry(steps: seq<Step>, n: nat, st: State, b: nat, s: Slot)
    requires Dated(steps, n, st) && n <= |steps|
    ensures s in st.store && st.store[s] > b + 1 ==>
              exists m :: b < m < n && steps[m].Start? && steps[m].key == s.key && st.store[s] == m + 1
                          && (s.Stale? ==> steps[m].kind == ColdPath || steps[m].kind == Revalidation)
  {
    if s in st.store && st.store[s] > b + 1 {
      assert StartedAt(steps, n, st.store[s], s.key);
      var m := st.store[s] - 1;
      assert steps[m].Start?;
    }
  }
}
