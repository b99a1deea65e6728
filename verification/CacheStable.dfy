/** The stable tier of the cache: which entries the block tick leaves alone, and how
    an entry can lose that protection. */
module CacheStable {
  import opened Prelude
  import opened QueryCache
  import opened CacheFreshness

  // Every stored entry of the stable tier is known to be stable, and no running
  // volatile sweep is about to delete one.
  ghost predicate StableTracked(st: State, stable: Key -> bool)
  {
    && (forall s :: s in st.store && stable(s.key) ==> s in st.stableKeys)
    && (forall i, s :: (i in st.sweeps && st.sweeps[i].cover.Volatile?
                        && s in st.sweeps[i].reply + st.sweeps[i].doomed && stable(s.key)) ==>
          s in st.stableKeys && s !in st.sweeps[i].doomed)
  }

  // The full clear empties its list of stable keys at the end, and a restart loses it.
  predicate ForgetsStable(st: State, step: Step)
    requires Enabled(st, step)
  {
    step == Restart || (step.EndSweep? && st.sweeps[step.sweep].cover.Everything?)
  }

  // A block tick has been told of the slot and has not filtered it yet.
  ghost predicate Pending(st: State, s: Slot)
  {
    exists i :: i in st.sweeps && st.sweeps[i].cover.Volatile? && s in st.sweeps[i].reply
  }

  // Flights and writes: a stable entry is listed as it is stored.
  lemma FlightsTrack(st: State, step: Step, stable: Key -> bool)
    requires StableTracked(st, stable) && Enabled(st, step) && (OnFlights(step) || step.Resolve? || step.WriteStale?)
    requires step != Restart
    ensures StableTracked(Apply(st, step, stable), stable)
  {
    var after := Apply(st, step, stable);
    assert after.sweeps == st.sweeps && st.stableKeys <= after.stableKeys;
  }

  lemma BeginTracks(st: State, i: nat, cover: Cover, stable: Key -> bool)
    requires StableTracked(st, stable)
    ensures StableTracked(BegunSweep(st, i, cover), stable)
  {
    hide HalfWritten, Matches;
  }

  // Sweeps: a tick's filter dooms nothing that is listed.
  lemma SweepsTrack(st: State, step: Step, stable: Key -> bool)
    requires StableTracked(st, stable) && Enabled(st, step)
    requires step.Scan? || step.TakeReply? || step.EndScan? || (step.EndSweep? && !st.sweeps[step.sweep].cover.Everything?)
    ensures StableTracked(Apply(st, step, stable), stable)
  {
    var after := Apply(st, step, stable);
    assert after.store == st.store && after.stableKeys == st.stableKeys;
    hide Matches;
  }

  // What a step may do to the entries and sweeps without losing track: it stores
  // nothing stable without listing it, and dooms nothing stable that is listed.
  lemma OtherStepsKeepTrack(st: State, step: Step, stable: Key -> bool)
    requires StableTracked(st, stable) && Enabled(st, step) && !ForgetsStable(st, step)
    ensures StableTracked(Apply(st, step, stable), stable)
  {
    hide StartFetch, ResolveFetch, StaleWritten, FinishFetch, BegunSweep, Scanned, Filtered, EndedSweep, Restarted;
    match step
    case Invalidate(_) => RemovalTracks(st, {Fresh(step.key)}, stable);
    case Expire(slot) => RemovalTracks(st, {slot}, stable);
    case Delete(_, chunk) => RemovalTracks(st, chunk, stable);
    case BeginSweep(i, cover) => BeginTracks(st, i, cover, stable);
    case Scan(_, _) => SweepsTrack(st, step, stable);
    case TakeReply(_) => SweepsTrack(st, step, stable);
    case EndScan(_) => SweepsTrack(st, step, stable);
    case EndSweep(_) => SweepsTrack(st, step, stable);
    case _ => FlightsTrack(st, step, stable);
  }

  lemma RemovalTracks(st: State, gone: set<Slot>, stable: Key -> bool)
    requires StableTracked(st, stable)
    ensures StableTracked(Removed(st, gone), stable)
  {
    var after := Removed(st, gone);
    assert forall i :: i in st.sweeps ==> after.sweeps[i] == st.sweeps[i].(unseen := st.sweeps[i].unseen - gone);
  }

  /** Every step keeps stable entries listed, except a restart over a stored stable
      entry and the end of a full clear with one stored or waiting to be filtered. */
  lemma TrackKeptIff(st: State, step: Step, stable: Key -> bool)
    requires StableTracked(st, stable) && Enabled(st, step)
    ensures StableTracked(Apply(st, step, stable), stable)
       <==> || !ForgetsStable(st, step)
            || forall s: Slot :: stable(s.key) ==> s !in st.store && (step == Restart || !Pending(st, s))
  {
    var after := Apply(st, step, stable);
    if !ForgetsStable(st, step) {
      OtherStepsKeepTrack(st, step, stable);
    } else if step == Restart {
      assert after.store == st.store && after.sweeps == map[] && after.stableKeys == {};
    } else {
      assert after.store == st.store && after.stableKeys == {} && after.sweeps == st.sweeps - {step.sweep};
      if s: Slot :| stable(s.key) && Pending(st, s) {
        var j :| j in st.sweeps && st.sweeps[j].cover.Volatile? && s in st.sweeps[j].reply;
        assert j in after.sweeps && after.sweeps[j] == st.sweeps[j];
      }
    }
  }

  // ---------------------------------------------------------------------
  // Over a run: why a stable entry is not listed
  // ---------------------------------------------------------------------

  // A run from an empty cache, as the states it passes through.
  ghost predicate Trace(states: seq<State>, steps: seq<Step>, stable: Key -> bool)
  {
    && |states| == |steps| + 1 && states[0] == EMPTY
    && forall n {:trigger steps[n]} :: 0 <= n < |steps| ==> Steps(states[n], steps[n], states[n + 1], stable)
  }

  ghost predicate Steps(st: State, step: Step, after: State, stable: Key -> bool)
  {
    Enabled(st, step) && after == Apply(st, step, stable)
  }

  // Every run has its states.
  lemma {:induction false} TraceOfRun(steps: seq<Step>, stable: Key -> bool) returns (states: seq<State>)
    requires Possible(EMPTY, steps, stable)
    ensures Trace(states, steps, stable) && Last(states) == After(EMPTY, steps, stable)
    decreases |steps|
  {
    if steps == [] {
      states := [EMPTY];
    } else {
      hide Apply, Enabled;
      LastStep(EMPTY, steps, stable);
      var front := steps[..|steps| - 1];
      var before := TraceOfRun(front, stable);
      states := before + [After(EMPTY, steps, stable)];
      forall n | 0 <= n < |steps| ensures Steps(states[n], steps[n], states[n + 1], stable) {
        assert n < |front| ==> front[n] == steps[n];
      }
    }
  }

  // The step writes the slot: a fetch resolves with data through an open gate, or
  // makes its second write.
  predicate Writes(st: State, step: Step, s: Slot, stable: Key -> bool)
    requires Enabled(st, step)
  {
    match step
    case Resolve(id, hasData) => hasData && Open(st, st.fetches[id], stable) && s == Fresh(st.fetches[id].key)
    case WriteStale(id) => s == Stale(st.fetches[id].key)
    case _ => false
  }

  // Step k was a restart or the end of a full clear, it met the slot stored or waiting
  // to be filtered, and no step since has written it.
  ghost predicate LostAt(states: seq<State>, steps: seq<Step>, s: Slot, k: nat, n: nat, stable: Key -> bool)
  {
    && k < n < |states| && n <= |steps| && Enabled(states[k], steps[k]) && ForgetsStable(states[k], steps[k])
    && (s in states[k].store || Pending(states[k], s))
    && forall m :: k < m < n ==> Enabled(states[m], steps[m]) && !Writes(states[m], steps[m], s, stable)
  }

  ghost predicate Lost(states: seq<State>, steps: seq<Step>, s: Slot, n: nat, stable: Key -> bool)
  {
    exists k: nat :: LostAt(states, steps, s, k, n, stable)
  }

  // An entry is off the list, stored or waiting, only if it was so before the step
  // or the step forgot it.
  lemma OffTheListStep(st: State, step: Step, s: Slot, stable: Key -> bool)
    requires Enabled(st, step) && stable(s.key)
    requires var after := Apply(st, step, stable);
             s !in after.stableKeys && (s in after.store || Pending(after, s))
    ensures (s in st.store || Pending(st, s)) && (s in st.stableKeys ==> ForgetsStable(st, step))
  {
    var after := Apply(st, step, stable);
    assert s in after.store ==> s in st.store;
    if Pending(after, s) {
      var i :| i in after.sweeps && after.sweeps[i].cover.Volatile? && s in after.sweeps[i].reply;
      ReplyStep(st, step, i, s, stable);
    }
  }

  lemma ReplyStep(st: State, step: Step, i: nat, s: Slot, stable: Key -> bool)
    requires Enabled(st, step)
    requires var after := Apply(st, step, stable);
             i in after.sweeps && after.sweeps[i].cover.Volatile? && s in after.sweeps[i].reply
    ensures s in st.store || (i in st.sweeps && st.sweeps[i].cover.Volatile? && s in st.sweeps[i].reply)
  {
  }

  lemma DoomedStep(st: State, step: Step, i: nat, s: Slot, stable: Key -> bool)
    requires Enabled(st, step)
    requires var after := Apply(st, step, stable);
             i in after.sweeps && after.sweeps[i].cover.Volatile? && s in after.sweeps[i].doomed
    ensures i in st.sweeps && st.sweeps[i].cover.Volatile?
    ensures s in st.sweeps[i].doomed || (step == TakeReply(i) && s in st.sweeps[i].reply && s !in st.stableKeys)
  {
  }

  // What forgets the list empties it, and only a write puts a slot back on it.
  lemma ListStep(st: State, step: Step, s: Slot, stable: Key -> bool)
    requires Enabled(st, step) && stable(s.key)
    ensures ForgetsStable(st, step) ==> s !in Apply(st, step, stable).stableKeys
    ensures !ForgetsStable(st, step) ==>
              (s in Apply(st, step, stable).stableKeys <==> s in st.stableKeys || Writes(st, step, s, stable))
  {
    hide Matches, HalfWritten;
  }

  lemma {:induction false} OffTheListIsLost(states: seq<State>, steps: seq<Step>, s: Slot, n: nat, stable: Key -> bool)
    requires Trace(states, steps, stable) && n < |states| && stable(s.key)
    requires s !in states[n].stableKeys && (s in states[n].store || Pending(states[n], s))
    ensures Lost(states, steps, s, n, stable)
  {
    if n > 0 {
      var k := n - 1;
      assert Steps(states[k], steps[k], states[k + 1], stable);
      hide Trace;
      OffTheListStep(states[k], steps[k], s, stable);
      ListStep(states[k], steps[k], s, stable);
      hide Apply, Enabled, Pending, Writes, ForgetsStable;
      if ForgetsStable(states[k], steps[k]) {
        assert LostAt(states, steps, s, k, n, stable);
      } else {
        OffTheListIsLost(states, steps, s, k, stable);
        var j: nat :| LostAt(states, steps, s, j, k, stable);
        assert LostAt(states, steps, s, j, n, stable);
      }
    }
  }

  // And what was lost is off the list.
  lemma {:induction false} LostIsOffTheList(states: seq<State>, steps: seq<Step>, s: Slot, j: nat, n: nat,
                                            stable: Key -> bool)
    requires Trace(states, steps, stable) && stable(s.key) && LostAt(states, steps, s, j, n, stable)
    ensures s !in states[n].stableKeys
  {
    hide Pending, Writes, ForgetsStable, Apply, Enabled;
    var k := n - 1;
    assert Steps(states[k], steps[k], states[k + 1], stable);
    ListStep(states[k], steps[k], s, stable);
    hide Trace;
    if j < k {
      assert LostAt(states, steps, s, j, k, stable);
      LostIsOffTheList(states, steps, s, j, k, stable);
    }
  }

  /** A block tick's filter dooms a stable slot exactly when a clear's end or a
      restart met it stored or waiting and no fetch has written it since. */
  lemma FilterDoomsExactlyLost(states: seq<State>, steps: seq<Step>, n: nat, s: Slot, stable: Key -> bool)
    requires Trace(states, steps, stable) && n < |steps| && steps[n].TakeReply? && stable(s.key)
    requires var w := states[n].sweeps; var i := steps[n].sweep;
             i in w && w[i].cover.Volatile? && s in w[i].reply && s !in w[i].doomed
    ensures steps[n].sweep in states[n + 1].sweeps
    ensures s in states[n + 1].sweeps[steps[n].sweep].doomed <==> Lost(states, steps, s, n, stable)
  {
    var i := steps[n].sweep;
    assert Steps(states[n], steps[n], states[n + 1], stable);
    assert s in states[n + 1].sweeps[i].doomed <==> s !in states[n].stableKeys;
    assert Pending(states[n], s);
    hide Trace, Apply, Enabled, Pending;
    if s !in states[n].stableKeys {
      OffTheListIsLost(states, steps, s, n, stable);
    }
    if j: nat :| LostAt(states, steps, s, j, n, stable) {
      LostIsOffTheList(states, steps, s, j, n, stable);
    }
  }

  // The filter of the tick doomed the slot, lost as it was.
  ghost predicate DoomedWhileLost(states: seq<State>, steps: seq<Step>, i: nat, s: Slot, n: nat, stable: Key -> bool)
  {
    exists t: nat :: t < n && t < |steps| && steps[t] == TakeReply(i) && Lost(states, steps, s, t, stable)
  }

  lemma {:induction false} DoomedIsLost(states: seq<State>, steps: seq<Step>, i: nat, s: Slot, n: nat, stable: Key -> bool)
    requires Trace(states, steps, stable) && n < |states| && stable(s.key)
    requires i in states[n].sweeps && states[n].sweeps[i].cover.Volatile? && s in states[n].sweeps[i].doomed
    ensures DoomedWhileLost(states, steps, i, s, n, stable)
  {
    if n > 0 {
      var k := n - 1;
      assert Steps(states[k], steps[k], states[k + 1], stable);
      hide Trace, Lost;
      DoomedStep(states[k], steps[k], i, s, stable);
      hide Apply, Enabled;
      if s in states[k].sweeps[i].doomed {
        DoomedIsLost(states, steps, i, s, k, stable);
      } else {
        assert Pending(states[k], s);
        OffTheListIsLost(states, steps, s, k, stable);
      }
    }
  }

  // A step of the block tick's sweep.
  predicate OfVolatileSweep(st: State, step: Step)
    requires Enabled(st, step)
  {
    match step
    case BeginSweep(_, cover) => cover.Volatile?
    case Scan(i, _) => st.sweeps[i].cover.Volatile?
    case TakeReply(i) => st.sweeps[i].cover.Volatile?
    case EndScan(i) => st.sweeps[i].cover.Volatile?
    case Delete(i, _) => st.sweeps[i].cover.Volatile?
    case EndSweep(i) => st.sweeps[i].cover.Volatile?
    case _ => false
  }

  lemma TickTouchesOnlyDoomed(st: State, step: Step, s: Slot, stable: Key -> bool)
    requires Enabled(st, step) && OfVolatileSweep(st, step) && s in st.store
    ensures var after := Apply(st, step, stable);
            && (s in after.store ==> after.store[s] == st.store[s])
            && (s !in after.store ==> step.Delete? && s in st.sweeps[step.sweep].doomed)
            && forall id :: id in st.fetches && stable(st.fetches[id].key) ==>
                 (Open(after, st.fetches[id], stable) <==> Open(st, st.fetches[id], stable))
  {
  }

  /** A block tick never shuts out a stable fetch, and over any run it deletes a
      stable entry only if its filter met the slot while it was lost: taken off the
      list by a clear's end or a restart, and not written since. */
  lemma TickSparesStable(states: seq<State>, steps: seq<Step>, step: Step, s: Slot, stable: Key -> bool)
    requires Trace(states, steps, stable) && Enabled(Last(states), step) && OfVolatileSweep(Last(states), step)
    requires s in Last(states).store && stable(s.key)
    ensures var st, after := Last(states), Apply(Last(states), step, stable);
            && (s in after.store ==> after.store[s] == st.store[s])
            && (s !in after.store ==> step.Delete? && DoomedWhileLost(states, steps, step.sweep, s, |steps|, stable))
            && forall id :: id in st.fetches && stable(st.fetches[id].key) ==>
                 (Open(after, st.fetches[id], stable) <==> Open(st, st.fetches[id], stable))
  {
    var after := Apply(Last(states), step, stable);
    TickTouchesOnlyDoomed(Last(states), step, s, stable);
    assert step.Delete? ==> Last(states).sweeps[step.sweep].cover.Volatile?;
    hide Apply;
    if s !in after.store {
      DoomedIsLost(states, steps, step.sweep, s, |steps|, stable);
    }
  }

  // ---------------------------------------------------------------------
  // Runs that lose an entry
  // ---------------------------------------------------------------------

  lemma TickScans(st: State, i: nat, stable: Key -> bool)
    requires i !in st.sweeps
    ensures var scanned := [BeginSweep(i, Volatile)] + [Scan(i, st.store.Keys)];
            && Possible(st, scanned, stable)
            && var after := After(st, scanned, stable);
               && after.store == st.store && after.stableKeys == st.stableKeys && i in after.sweeps
               && after.sweeps[i] == Sweep(Volatile, st.clock, HalfWritten(st), true, {}, st.store.Keys, {})
  {
    assert Possible(st, [], stable) && After(st, [], stable) == st;
    hide Possible, After, HalfWritten;
    assert (set s | s in st.store && Matches(Volatile, s)) - st.store.Keys == {};
    Then(st, [], BeginSweep(i, Volatile), stable);
    assert [] + [BeginSweep(i, Volatile)] == [BeginSweep(i, Volatile)];
    Then(st, [BeginSweep(i, Volatile)], Scan(i, st.store.Keys), stable);
  }

  // A block tick from its start to its first delete.
  function Tick(st: State, i: nat, s: Slot): seq<Step>
  {
    [BeginSweep(i, Volatile)] + [Scan(i, st.store.Keys)] + [TakeReply(i)] + [EndScan(i)] + [Delete(i, {s})]
  }

  /** A stored entry that is off the list does go: a tick that starts now can
      delete it. */
  lemma TickCanDelete(st: State, i: nat, s: Slot, stable: Key -> bool)
    requires i !in st.sweeps && s in st.store && s !in st.stableKeys
    ensures Possible(st, Tick(st, i, s), stable) && s !in After(st, Tick(st, i, s), stable).store
  {
    hide Possible, After;
    TickScans(st, i, stable);
    var scanned := [BeginSweep(i, Volatile)] + [Scan(i, st.store.Keys)];
    Then(st, scanned, TakeReply(i), stable);
    var w := After(st, scanned + [TakeReply(i)], stable).sweeps[i];
    assert w.unseen == {} && w.reply == {} && s in w.doomed;
    hide Apply, Enabled;
    LastDelete(st, scanned + [TakeReply(i)], i, s, stable);
  }

  lemma LastDelete(st: State, steps: seq<Step>, i: nat, s: Slot, stable: Key -> bool)
    requires Possible(st, steps, stable)
    requires var w := After(st, steps, stable).sweeps;
             i in w && w[i].scanning && w[i].unseen == {} && w[i].reply == {} && s in w[i].doomed
    ensures var done := steps + [EndScan(i)] + [Delete(i, {s})];
            Possible(st, done, stable) && s !in After(st, done, stable).store
  {
    hide Possible, After;
    Then(st, steps, EndScan(i), stable);
    Then(st, steps + [EndScan(i)], Delete(i, {s}), stable);
  }

  // A fetch starts while a full clear sweeps an empty store.
  const SWEEPING: seq<Step> := [BeginSweep(0, Everything), Start(0, GetOrSet, "rep"), EndScan(0)]

  lemma MidClear(stable: Key -> bool)
    ensures Possible(EMPTY, SWEEPING, stable)
    ensures var st := After(EMPTY, SWEEPING, stable);
            && st.store == map[] && st.sweeps == map[0 := Sweep(Everything, 1, {}, false, {}, {}, {})]
            && st.volatileEpoch == 1 && st.stableEpoch == 1
            && st.fetches == map[0 := Fetch(GetOrSet, "rep", 2, 1, 1, false, false)]
  {
    assert Possible(EMPTY, [], stable) && After(EMPTY, [], stable) == EMPTY;
    hide Possible, After;
    assert HalfWritten(EMPTY) == {} && (set s | s in EMPTY.store && Matches(Everything, s)) == {};
    Then(EMPTY, [], SWEEPING[0], stable);
    Then(EMPTY, [] + [SWEEPING[0]], SWEEPING[1], stable);
    Then(EMPTY, [] + [SWEEPING[0]] + [SWEEPING[1]], SWEEPING[2], stable);
    assert [] + [SWEEPING[0]] + [SWEEPING[1]] + [SWEEPING[2]] == SWEEPING;
  }

  /** A clear does return with a stable entry it no longer lists, and the next block
      tick deletes it: the fetch resolves before the clear is over. */
  lemma ClearCanForget(stable: Key -> bool)
    requires stable("rep")
    ensures var forgetting := SWEEPING + [Resolve(0, true)] + [EndSweep(0)];
            && Possible(EMPTY, forgetting, stable)
            && var st := After(EMPTY, forgetting, stable);
               && Fresh("rep") in st.store && Possible(st, Tick(st, 0, Fresh("rep")), stable)
               && Fresh("rep") !in After(st, Tick(st, 0, Fresh("rep")), stable).store
  {
    MidClear(stable);
    hide Possible, After;
    Then(EMPTY, SWEEPING, Resolve(0, true), stable);
    Then(EMPTY, SWEEPING + [Resolve(0, true)], EndSweep(0), stable);
    TickCanDelete(After(EMPTY, SWEEPING + [Resolve(0, true)] + [EndSweep(0)], stable), 0, Fresh("rep"), stable);
  }

  const RESTARTED: seq<Step> := [Start(0, GetOrSet, "rep"), Resolve(0, true), Restart]

  /** So does a restart: the entry outlives the process, the list does not, and the
      next block tick deletes it. */
  lemma RestartCanForget(stable: Key -> bool)
    requires stable("rep")
    ensures && Possible(EMPTY, RESTARTED, stable)
            && var st := After(EMPTY, RESTARTED, stable);
               && Fresh("rep") in st.store && Possible(st, Tick(st, 0, Fresh("rep")), stable)
               && Fresh("rep") !in After(st, Tick(st, 0, Fresh("rep")), stable).store
  {
    assert Possible(EMPTY, [], stable) && After(EMPTY, [], stable) == EMPTY;
    hide Possible, After;
    Then(EMPTY, [], RESTARTED[0], stable);
    Then(EMPTY, [] + [RESTARTED[0]], RESTARTED[1], stable);
    Then(EMPTY, [] + [RESTARTED[0]] + [RESTARTED[1]], RESTARTED[2], stable);
    assert [] + [RESTARTED[0]] + [RESTARTED[1]] + [RESTARTED[2]] == RESTARTED;
    TickCanDelete(After(EMPTY, RESTARTED, stable), 0, Fresh("rep"), stable);
  }
}
