/** The cache as an object: its fields, and its methods cut at their awaits.

    Each method is the code that runs between two awaits; `fetches` and `sweeps`
    hold what the suspended calls have captured. Every method makes the step of the
    model named in its contract, so whatever holds of all runs of steps holds of
    the object under any interleaving of its callers. */
module CacheObject {
  import opened Prelude
  import opened QueryCache
  import CacheFreshness

  // What the code leaves in the fields, as a step of the model.
  ghost predicate FlightsUntouched(st: State, after: State)
  {
    && after.clock == st.clock + 1
    && after.inflight == st.inflight && after.revalidating == st.revalidating && after.fetches == st.fetches
  }

  ghost predicate TwiceBumped(st: State, after: State, both: bool)
  {
    && after.volatileEpoch == st.volatileEpoch + 1 && after.volatileBump == st.clock
    && after.stableEpoch == st.stableEpoch + (if both then 1 else 0)
    && after.stableBump == if both then st.clock else st.stableBump
  }

  lemma InvalidatesStep(st: State, after: State, key: Key, stable: Key -> bool)
    requires FlightsUntouched(st, after) && TwiceBumped(st, after, true)
    requires after.store == st.store - {Fresh(key)} && after.stableKeys == st.stableKeys
    requires after.sweeps == map i | i in st.sweeps :: st.sweeps[i].(unseen := st.sweeps[i].unseen - {Fresh(key)})
    requires after.returned == st.returned + {Returned(OneKey(key), st.clock, {})}
    ensures after == Apply(st, Step.Invalidate(key), stable)
  {
  }

  lemma BeginsSweepStep(st: State, after: State, i: nat, cover: Cover, stable: Key -> bool)
    requires Enabled(st, Step.BeginSweep(i, cover)) && FlightsUntouched(st, after) && TwiceBumped(st, after, !cover.Volatile?)
    requires after.store == st.store && after.stableKeys == st.stableKeys && after.returned == st.returned
    requires after.sweeps == st.sweeps[i := Sweep(cover, st.clock, HalfWritten(st), true,
                                                  set s | s in st.store && Matches(cover, s), {}, {})]
    ensures after == Apply(st, Step.BeginSweep(i, cover), stable)
  {
    hide HalfWritten, Matches;
  }

  lemma EndsSweepStep(st: State, after: State, i: nat, stable: Key -> bool)
    requires Enabled(st, Step.EndSweep(i)) && FlightsUntouched(st, after)
    requires TwiceBumped(st, after, !st.sweeps[i].cover.Volatile?)
    requires after.store == st.store && after.sweeps == st.sweeps - {i}
    requires after.stableKeys == if st.sweeps[i].cover.Everything? then {} else st.stableKeys
    requires after.returned
          == st.returned + {Returned(st.sweeps[i].cover, st.sweeps[i].began, st.sweeps[i].caught)}
    ensures after == Apply(st, Step.EndSweep(i), stable)
  {
  }

  ghost predicate EpochsUntouched(st: State, after: State)
  {
    && after.volatileEpoch == st.volatileEpoch && after.volatileBump == st.volatileBump
    && after.stableEpoch == st.stableEpoch && after.stableBump == st.stableBump && after.returned == st.returned
  }

  lemma DeletesStep(st: State, after: State, i: nat, chunk: set<Slot>, stable: Key -> bool)
    requires Enabled(st, Delete(i, chunk)) && FlightsUntouched(st, after) && EpochsUntouched(st, after)
    requires after.store == st.store - chunk && after.stableKeys == st.stableKeys
    requires var left := map j | j in st.sweeps :: st.sweeps[j].(unseen := st.sweeps[j].unseen - chunk);
             after.sweeps == left[i := left[i].(doomed := left[i].doomed - chunk)]
    ensures after == Apply(st, Delete(i, chunk), stable)
  {
  }

  class Cache {
    var store: map<Slot, nat>
    var stableKeys: set<Slot>
    var inflight: map<FlightKey, Option<nat>>
    var revalidating: set<Key>
    var volatileEpoch: nat
    var stableEpoch: nat
    var fetches: map<nat, Fetch>
    var sweeps: map<nat, Sweep>
    var clock: nat
    ghost var volatileBump: nat
    ghost var stableBump: nat
    ghost var returned: set<Returned>
    const stable: Key -> bool

    constructor (tier: Key -> bool)
      ensures Model() == EMPTY && stable == tier && Consistent()
    {
      store, stableKeys, inflight, revalidating := map[], {}, map[], {};
      volatileEpoch, stableEpoch, fetches, sweeps, clock := 0, 0, map[], map[], 1;
      volatileBump, stableBump, returned, stable := 0, 0, {}, tier;
      new;
      CacheFreshness.EmptyIsValid(stable);
    }

    ghost function Model(): State
      reads this
    {
      State(clock, store, stableKeys, inflight, revalidating, volatileEpoch, stableEpoch, fetches, sweeps,
            volatileBump, stableBump, returned)
    }

    ghost predicate Consistent()
      reads this
    {
      Valid(Model(), stable) && FlightsOk(Model()) && RevalidationsOk(Model())
    }

    twostate predicate Made(step: Step)
      reads this
    {
      Enabled(old(Model()), step) && Model() == Apply(old(Model()), step, stable)
    }

    twostate lemma StepIsConsistent(step: Step)
      requires old(Consistent()) && Made(step)
      ensures Consistent()
    {
      StepKeepsValid(old(Model()), step, stable);
      CacheFreshness.FlightsKept(old(Model()), step, stable);
      CacheFreshness.RevalidationsKept(old(Model()), step, stable);
    }

    // Both epochs are captured as the fetcher starts.
    method Capture(id: nat, kind: Kind, key: Key)
      requires id !in fetches
      modifies this`fetches, this`clock
      ensures fetches == old(fetches)[id := Fetch(kind, key, old(clock), volatileEpoch, stableEpoch, false, false)]
      ensures clock == old(clock) + 1
    {
      fetches := fetches[id := Fetch(kind, key, clock, volatileEpoch, stableEpoch, false, false)];
      clock := clock + 1;
    }

    /** `getOrSet` from the miss to the first await: join the flight, or become it. */
    method GetOrSet(id: nat, key: Key) returns (joined: Option<Option<nat>>)
      requires Consistent() && id !in fetches
      modifies this
      ensures Consistent()
      ensures joined.Some? <==> Plain(key) in old(inflight)
      ensures joined.Some? ==> Model() == old(Model()) && joined.value == old(inflight)[Plain(key)]
      ensures joined.None? ==> Made(Start(id, Kind.GetOrSet, key))
    {
      hide Valid, FlightsOk, RevalidationsOk;
      if Plain(key) in inflight {
        return Some(inflight[Plain(key)]);
      }
      Capture(id, Kind.GetOrSet, key);
      inflight := inflight[Plain(key) := Some(id)];
      StepIsConsistent(Start(id, Kind.GetOrSet, key));
      joined := None;
    }

    /** `getOrSetSWR` from the fresh miss: stale data is returned at once and at most
        one background revalidation starts; without it the cold path coalesces. */
    method GetOrSetSWR(id: nat, key: Key) returns (served: bool, joined: Option<Option<nat>>)
      requires Consistent() && id !in fetches
      modifies this
      ensures Consistent()
      ensures served <==> Stale(key) in old(store)
      ensures served ==>
        if key in old(revalidating) then Model() == old(Model()) else Made(Start(id, Revalidation, key))
      ensures !served ==> (joined.Some? <==> Cold(key) in old(inflight))
      ensures !served ==>
        if joined.Some? then Model() == old(Model()) && joined.value == old(inflight)[Cold(key)]
        else Made(Start(id, ColdPath, key))
    {
      hide Valid, FlightsOk, RevalidationsOk;
      joined := None;
      served := Stale(key) in store;
      if served {
        if key !in revalidating {
          revalidating := revalidating + {key};
          Capture(id, Revalidation, key);
          StepIsConsistent(Start(id, Revalidation, key));
        }
        return;
      }
      if Cold(key) in inflight {
        joined := Some(inflight[Cold(key)]);
        return;
      }
      Capture(id, ColdPath, key);
      inflight := inflight[Cold(key) := Some(id)];
      StepIsConsistent(Start(id, ColdPath, key));
    }

    // `set`: the key is listed as stable before the command is issued.
    method Put(slot: Slot, started: nat)
      modifies this`store, this`stableKeys
      ensures store == old(store)[slot := started]
      ensures stableKeys == if stable(slot.key) then old(stableKeys) + {slot} else old(stableKeys)
    {
      if stable(slot.key) {
        stableKeys := stableKeys + {slot};
      }
      store := store[slot := started];
    }

    /** The fetcher settled: with data, with null, or by rejecting. */
    method Settle(id: nat, hasData: bool)
      requires Consistent() && id in fetches && !fetches[id].resolved
      modifies this
      ensures Consistent() && Made(Resolve(id, hasData))
    {
      hide Valid, FlightsOk, RevalidationsOk;
      var f := fetches[id];
      var notInvalidated := if stable(f.key) then f.stableAt == stableEpoch
                            else f.volatileAt == volatileEpoch && f.stableAt == stableEpoch;
      if hasData && notInvalidated {
        Put(Fresh(f.key), f.started);
        fetches := fetches[id := f.(resolved := true, owesStale := f.kind == ColdPath || f.kind == Revalidation)];
      } else {
        fetches := fetches[id := f.(resolved := true)];
      }
      clock := clock + 1;
      StepIsConsistent(Resolve(id, hasData));
    }

    // After the first write is acknowledged: the second.
    method PutStale(id: nat)
      requires Consistent() && id in fetches && fetches[id].owesStale
      modifies this
      ensures Consistent() && Made(WriteStale(id))
    {
      hide Valid, FlightsOk, RevalidationsOk;
      var f := fetches[id];
      Put(Stale(f.key), f.started);
      fetches := fetches[id := f.(owesStale := false)];
      clock := clock + 1;
      StepIsConsistent(WriteStale(id));
    }

    /** The `finally` block. */
    method Settled(id: nat)
      requires Consistent() && id in fetches && fetches[id].resolved && !fetches[id].owesStale
      modifies this
      ensures Consistent() && Made(Finish(id))
      ensures Admits(Model(), old(fetches)[id].kind, old(fetches)[id].key)
    {
      hide Valid, FlightsOk, RevalidationsOk;
      var f := fetches[id];
      match f.kind {
        case GetOrSet => inflight := inflight - {Plain(f.key)};
        case ColdPath => inflight := inflight - {Cold(f.key)};
        case Revalidation => revalidating := revalidating - {f.key};
        case Periodic => {}
      }
      fetches := fetches - {id};
      clock := clock + 1;
      StepIsConsistent(Finish(id));
    }

    method Bump(both: bool)
      modifies this`volatileEpoch, this`stableEpoch, this`volatileBump, this`stableBump
      ensures volatileEpoch == old(volatileEpoch) + 1 && volatileBump == clock
      ensures stableEpoch == old(stableEpoch) + (if both then 1 else 0)
      ensures stableBump == if both then clock else old(stableBump)
    {
      volatileEpoch := volatileEpoch + 1;
      volatileBump := clock;
      if both {
        stableEpoch := stableEpoch + 1;
        stableBump := clock;
      }
    }

    // A DEL takes effect; scans under way no longer owe what it removed.
    method Del(slots: set<Slot>)
      modifies this`store, this`sweeps
      ensures store == old(store) - slots
      ensures sweeps == map i | i in old(sweeps) :: old(sweeps)[i].(unseen := old(sweeps)[i].unseen - slots)
    {
      store := store - slots;
      sweeps := map i | i in sweeps :: sweeps[i].(unseen := sweeps[i].unseen - slots);
    }

    /** `invalidate`: the bumps and the delete are issued together. */
    method Invalidate(key: Key)
      requires Consistent()
      modifies this
      ensures Consistent() && Made(Step.Invalidate(key))
      ensures Fresh(key) !in store
    {
      hide Valid, FlightsOk, RevalidationsOk, Apply;
      Bump(true);
      Del({Fresh(key)});
      returned := returned + {Returned(OneKey(key), clock, {})};
      clock := clock + 1;
      InvalidatesStep(old(Model()), Model(), key, stable);
      StepIsConsistent(Step.Invalidate(key));
    }

    /** `clear`, `clearVolatile` and `invalidatePrefix` up to their first round. */
    method BeginSweep(i: nat, cover: Cover)
      requires Consistent() && i !in sweeps && !cover.OneKey?
      modifies this
      ensures Consistent() && Made(Step.BeginSweep(i, cover))
    {
      hide Valid, FlightsOk, RevalidationsOk, Apply;
      Bump(!cover.Volatile?);
      var halfWritten := set id | id in fetches && fetches[id].owesStale :: fetches[id].key;
      var present := set s | s in store && Matches(cover, s);
      sweeps := sweeps[i := Sweep(cover, clock, halfWritten, true, present, {}, {})];
      clock := clock + 1;
      BeginsSweepStep(old(Model()), Model(), i, cover, stable);
      StepIsConsistent(Step.BeginSweep(i, cover));
    }

    // A round's reply arrives: the filter picks what will be deleted.
    method FilterReply(i: nat)
      requires Consistent() && i in sweeps && sweeps[i].scanning
      modifies this
      ensures Consistent() && Made(TakeReply(i))
    {
      hide Valid, FlightsOk, RevalidationsOk;
      var w := sweeps[i];
      var chosen := set s | s in w.reply && (w.cover.Volatile? ==> s !in stableKeys);
      sweeps := sweeps[i := w.(reply := {}, doomed := w.doomed + chosen)];
      clock := clock + 1;
      StepIsConsistent(TakeReply(i));
    }

    method DeleteChunk(i: nat, chunk: set<Slot>)
      requires Consistent() && i in sweeps && !sweeps[i].scanning && chunk <= sweeps[i].doomed
      modifies this
      ensures Consistent() && Made(Delete(i, chunk))
    {
      hide Valid, FlightsOk, RevalidationsOk, Apply;
      Del(chunk);
      sweeps := sweeps[i := sweeps[i].(doomed := sweeps[i].doomed - chunk)];
      clock := clock + 1;
      DeletesStep(old(Model()), Model(), i, chunk, stable);
      StepIsConsistent(Delete(i, chunk));
    }

    /** After the last delete: the second bump, and for a full clear the end of the
        list of stable keys. */
    method EndSweep(i: nat)
      requires Consistent() && i in sweeps && !sweeps[i].scanning && sweeps[i].doomed == {}
      modifies this
      ensures Consistent() && Made(Step.EndSweep(i))
    {
      hide Valid, FlightsOk, RevalidationsOk, Apply;
      var w := sweeps[i];
      if w.cover.Everything? {
        stableKeys := {};
      }
      Bump(!w.cover.Volatile?);
      sweeps := sweeps - {i};
      returned := returned + {Returned(w.cover, w.began, w.caught)};
      clock := clock + 1;
      EndsSweepStep(old(Model()), Model(), i, stable);
      StepIsConsistent(Step.EndSweep(i));
    }
  }
}
