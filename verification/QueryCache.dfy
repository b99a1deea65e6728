/** The single-flight cache and its invalidation epochs, as the steps that run
    between two awaits.

    A fetch starts, resolves (the gate check and the first write are one step),
    may write the stale slot, and finishes. An `invalidate` is one step. A sweep
    bumps its epochs, scans in rounds, deletes in chunks and bumps again. Steps of
    any number of fetches and sweeps interleave. Redis executes commands in the
    order they are issued, entries may expire at any time, each key keeps one tier,
    and a scan returns every slot that was present throughout it. */
module QueryCache {
  import opened Prelude

  type Key = string

  // `key` and `swr:key`.
  datatype Slot = Fresh(key: Key) | Stale(key: Key)

  function Name(s: Slot): string
  {
    if s.Fresh? then s.key else "swr:" + s.key
  }

  datatype Kind = GetOrSet | ColdPath | Revalidation | Periodic

  // The in-flight key of `getOrSet`, or that of the cold path.
  datatype FlightKey = Plain(key: Key) | Cold(key: Key)

  function FlightOf(kind: Kind, key: Key): Option<FlightKey>
  {
    match kind
    case GetOrSet => Some(Plain(key))
    case ColdPath => Some(Cold(key))
    case _ => None
  }

  /** A running fetch: when it started, both epochs as it captured them, whether
      its data has arrived, and whether it still owes the stale slot a write. */
  datatype Fetch = Fetch(kind: Kind, key: Key, started: nat, volatileAt: nat, stableAt: nat,
                         resolved: bool, owesStale: bool)

  // What a returned or running invalidation covers.
  datatype Cover = OneKey(key: Key) | ByPrefix(prefix: string) | Volatile | Everything

  /** A running sweep: what the scan still has to return, what it returned and the
      process has not looked at, what will be deleted, and the keys some fetch had
      written fresh but not yet stale when the sweep began. */
  datatype Sweep = Sweep(cover: Cover, began: nat, caught: set<Key>, scanning: bool,
                         unseen: set<Slot>, reply: set<Slot>, doomed: set<Slot>)

  datatype Returned = Returned(cover: Cover, began: nat, caught: set<Key>)

  /** `inflight` maps to the fetch that runs, or to None once a fetcher has thrown
      synchronously instead of returning a promise: the `finally` then runs before the
      slot is set. (An async fetcher returns a rejected promise, whatever it throws:
      it starts, resolves without data and finishes.) `store` maps to the start of the
      fetch that wrote it. */
  datatype State = State(
    clock: nat,
    store: map<Slot, nat>,
    stableKeys: set<Slot>,
    inflight: map<FlightKey, Option<nat>>,
    revalidating: set<Key>,
    volatileEpoch: nat,
    stableEpoch: nat,
    fetches: map<nat, Fetch>,
    sweeps: map<nat, Sweep>,
    volatileBump: nat,
    stableBump: nat,
    returned: set<Returned>)

  const EMPTY := State(1, map[], {}, map[], {}, 0, 0, map[], map[], 0, 0, {})

  predicate Matches(cover: Cover, s: Slot)
  {
    match cover
    case OneKey(k) => s == Fresh(k)
    case ByPrefix(p) => p <= Name(s)
    case Volatile => true
    case Everything => true
  }

  // Whether the invalidation promises freshness for the key's fresh slot.
  predicate Covers(cover: Cover, key: Key, stable: Key -> bool)
  {
    Matches(cover, Fresh(key)) && (cover.Volatile? ==> !stable(key))
  }

  // Whether it deletes the key's stale slot; invalidating one key does not.
  predicate CoversStale(cover: Cover, key: Key, stable: Key -> bool)
  {
    !cover.OneKey? && Matches(cover, Stale(key)) && (cover.Volatile? ==> !stable(key))
  }

  // Keys whose fetch is between its two writes.
  function HalfWritten(st: State): set<Key>
  {
    set id | id in st.fetches && st.fetches[id].owesStale :: st.fetches[id].key
  }

  // The gate on a fetch's cache writes.
  predicate Open(st: State, f: Fetch, stable: Key -> bool)
  {
    f.stableAt == st.stableEpoch && (stable(f.key) || f.volatileAt == st.volatileEpoch)
  }

  function Removed(st: State, gone: set<Slot>): State
  {
    st.(store := st.store - gone,
        sweeps := map i | i in st.sweeps :: st.sweeps[i].(unseen := st.sweeps[i].unseen - gone))
  }

  function Bumped(st: State, cover: Cover): State
  {
    if cover.Volatile? then st.(volatileEpoch := st.volatileEpoch + 1, volatileBump := st.clock)
    else st.(volatileEpoch := st.volatileEpoch + 1, volatileBump := st.clock,
             stableEpoch := st.stableEpoch + 1, stableBump := st.clock)
  }

  function Written(st: State, s: Slot, started: nat, stable: Key -> bool): State
  {
    st.(store := st.store[s := started],
        stableKeys := if stable(s.key) then st.stableKeys + {s} else st.stableKeys)
  }

  // ---------------------------------------------------------------------
  // Steps
  // ---------------------------------------------------------------------

  datatype Step =
    | Start(id: nat, kind: Kind, key: Key)
    | StartThrows(kind: Kind, key: Key)
    | Resolve(id: nat, hasData: bool)
    | WriteStale(id: nat)
    | Finish(id: nat)
    | Invalidate(key: Key)
    | BeginSweep(sweep: nat, cover: Cover)
    | Scan(sweep: nat, batch: set<Slot>)
    | TakeReply(sweep: nat)
    | EndScan(sweep: nat)
    | Delete(sweep: nat, chunk: set<Slot>)
    | EndSweep(sweep: nat)
    | Expire(slot: Slot)
    | Restart

  predicate Admits(st: State, kind: Kind, key: Key)
  {
    && (FlightOf(kind, key).Some? ==> FlightOf(kind, key).value !in st.inflight)
    && (kind == Revalidation ==> key !in st.revalidating)
  }

  predicate Enabled(st: State, step: Step)
  {
    match step
    case Start(id, kind, key) => id !in st.fetches && Admits(st, kind, key)
    case StartThrows(kind, key) => FlightOf(kind, key).Some? && Admits(st, kind, key)
    case Resolve(id, _) => id in st.fetches && !st.fetches[id].resolved
    case WriteStale(id) => id in st.fetches && st.fetches[id].owesStale
    case Finish(id) => id in st.fetches && st.fetches[id].resolved && !st.fetches[id].owesStale
    case Invalidate(_) => true
    case BeginSweep(i, cover) => i !in st.sweeps && !cover.OneKey?
    case Scan(i, batch) =>
      && i in st.sweeps && st.sweeps[i].scanning && batch <= st.store.Keys
      && forall s :: s in batch ==> Matches(st.sweeps[i].cover, s)
    case TakeReply(i) => i in st.sweeps && st.sweeps[i].scanning
    case EndScan(i) => i in st.sweeps && st.sweeps[i].scanning && st.sweeps[i].unseen == {} && st.sweeps[i].reply == {}
    case Delete(i, chunk) => i in st.sweeps && !st.sweeps[i].scanning && chunk <= st.sweeps[i].doomed
    case EndSweep(i) => i in st.sweeps && !st.sweeps[i].scanning && st.sweeps[i].doomed == {}
    case Expire(_) => true
    case Restart => true
  }

  function StartFetch(st: State, id: nat, kind: Kind, key: Key): State
  {
    st.(fetches := st.fetches[id := Fetch(kind, key, st.clock, st.volatileEpoch, st.stableEpoch, false, false)],
        inflight := if FlightOf(kind, key).Some? then st.inflight[FlightOf(kind, key).value := Some(id)] else st.inflight,
        revalidating := if kind == Revalidation then st.revalidating + {key} else st.revalidating)
  }

  // Data that is not null goes to the fresh slot if the gate is open; the two
  // stale-while-revalidate paths then owe the stale slot a write as well.
  function ResolveFetch(st: State, id: nat, hasData: bool, stable: Key -> bool): State
    requires id in st.fetches
  {
    var f := st.fetches[id];
    if hasData && Open(st, f, stable) then
      Written(st, Fresh(f.key), f.started, stable)
        .(fetches := st.fetches[id := f.(resolved := true, owesStale := f.kind == ColdPath || f.kind == Revalidation)])
    else st.(fetches := st.fetches[id := f.(resolved := true)])
  }

  function FinishFetch(st: State, id: nat): State
    requires id in st.fetches
  {
    var f := st.fetches[id];
    st.(fetches := st.fetches - {id},
        inflight := if FlightOf(f.kind, f.key).Some? then st.inflight - {FlightOf(f.kind, f.key).value} else st.inflight,
        revalidating := if f.kind == Revalidation then st.revalidating - {f.key} else st.revalidating)
  }

  function EndedSweep(st: State, i: nat): State
    requires i in st.sweeps
  {
    var w := st.sweeps[i];
    Bumped(st, w.cover)
      .(sweeps := st.sweeps - {i},
        stableKeys := if w.cover.Everything? then {} else st.stableKeys,
        returned := st.returned + {Returned(w.cover, w.began, w.caught)})
  }

  function StaleWritten(st: State, id: nat, stable: Key -> bool): State
    requires id in st.fetches
  {
    Written(st, Stale(st.fetches[id].key), st.fetches[id].started, stable)
      .(fetches := st.fetches[id := st.fetches[id].(owesStale := false)])
  }

  function Invalidated(st: State, key: Key): State
  {
    Removed(Bumped(st, OneKey(key)), {Fresh(key)}).(returned := st.returned + {Returned(OneKey(key), st.clock, {})})
  }

  function BegunSweep(st: State, i: nat, cover: Cover): State
  {
    Bumped(st, cover)
      .(sweeps := st.sweeps[i := Sweep(cover, st.clock, HalfWritten(st), true,
                                       set s | s in st.store && Matches(cover, s), {}, {})])
  }

  function Scanned(st: State, i: nat, batch: set<Slot>): State
    requires i in st.sweeps
  {
    var w := st.sweeps[i];
    st.(sweeps := st.sweeps[i := w.(unseen := w.unseen - batch, reply := w.reply + batch)])
  }

  function Filtered(st: State, i: nat): State
    requires i in st.sweeps
  {
    var w := st.sweeps[i];
    var chosen := set s | s in w.reply && (w.cover.Volatile? ==> s !in st.stableKeys);
    st.(sweeps := st.sweeps[i := w.(reply := {}, doomed := w.doomed + chosen)])
  }

  function Deleted(st: State, i: nat, chunk: set<Slot>): State
    requires i in st.sweeps
  {
    var removed := Removed(st, chunk);
    removed.(sweeps := removed.sweeps[i := removed.sweeps[i].(doomed := removed.sweeps[i].doomed - chunk)])
  }

  function Restarted(st: State): State
  {
    st.(stableKeys := {}, inflight := map[], revalidating := {}, volatileEpoch := 0, stableEpoch := 0,
        fetches := map[], sweeps := map[])
  }

  function Apply(st: State, step: Step, stable: Key -> bool): State
    requires Enabled(st, step)
  {
    var after := match step
      case Start(id, kind, key) => StartFetch(st, id, kind, key)
      case StartThrows(kind, key) => st.(inflight := st.inflight[FlightOf(kind, key).value := None])
      case Resolve(id, hasData) => ResolveFetch(st, id, hasData, stable)
      case WriteStale(id) => StaleWritten(st, id, stable)
      case Finish(id) => FinishFetch(st, id)
      case Invalidate(key) => Invalidated(st, key)
      case BeginSweep(i, cover) => BegunSweep(st, i, cover)
      case Scan(i, batch) => Scanned(st, i, batch)
      case TakeReply(i) => Filtered(st, i)
      case EndScan(i) => st.(sweeps := st.sweeps[i := st.sweeps[i].(scanning := false)])
      case Delete(i, chunk) => Deleted(st, i, chunk)
      case EndSweep(i) => EndedSweep(st, i)
      case Expire(slot) => Removed(st, {slot})
      case Restart => Restarted(st);
    after.(clock := st.clock + 1)
  }

  // ---------------------------------------------------------------------
  // The invariant
  // ---------------------------------------------------------------------

  // An epoch still equal to the captured one has not been bumped since the start.
  ghost predicate FetchOk(st: State, f: Fetch)
  {
    && f.started < st.clock && f.volatileAt <= st.volatileEpoch && f.stableAt <= st.stableEpoch
    && (f.volatileAt == st.volatileEpoch ==> f.started > st.volatileBump)
    && (f.stableAt == st.stableEpoch ==> f.started > st.stableBump)
    && (f.owesStale ==> f.resolved)
  }

  // Every bump a cover makes is on record.
  ghost predicate BumpOnRecord(st: State, cover: Cover, began: nat)
  {
    began <= st.volatileBump && (!cover.Volatile? ==> began <= st.stableBump)
  }

  // An entry older than the sweep is still ahead of it.
  ghost predicate SweepOk(st: State, w: Sweep, stable: Key -> bool)
  {
    && BumpOnRecord(st, w.cover, w.began)
    && (!w.scanning ==> w.unseen == {} && w.reply == {})
    && (forall k :: Covers(w.cover, k, stable) && Fresh(k) in st.store && st.store[Fresh(k)] <= w.began ==>
          Fresh(k) in w.unseen + w.reply + w.doomed)
    && (forall k :: CoversStale(w.cover, k, stable) && Stale(k) in st.store && st.store[Stale(k)] <= w.began ==>
          Stale(k) in w.unseen + w.reply + w.doomed || k in w.caught)
    && CaughtOk(st, w.cover, w.began, w.caught, stable)
  }

  // A fetch that still owes the stale slot a write either started after the
  // invalidation or was caught by it.
  ghost predicate CaughtOk(st: State, cover: Cover, began: nat, caught: set<Key>, stable: Key -> bool)
  {
    forall id :: id in st.fetches && st.fetches[id].owesStale && CoversStale(cover, st.fetches[id].key, stable) ==>
      st.fetches[id].started > began || st.fetches[id].key in caught
  }

  ghost predicate ReturnedOk(st: State, r: Returned, stable: Key -> bool)
  {
    && BumpOnRecord(st, r.cover, r.began)
    && (forall k :: Covers(r.cover, k, stable) && Fresh(k) in st.store ==> st.store[Fresh(k)] > r.began)
    && (forall k :: CoversStale(r.cover, k, stable) && Stale(k) in st.store ==>
          st.store[Stale(k)] > r.began || k in r.caught)
    && CaughtOk(st, r.cover, r.began, r.caught, stable)
  }

  // Which flight a fetch holds: the one that maps to it, and no other.
  ghost predicate FlightsOk(st: State)
  {
    && (forall id :: id in st.fetches && FlightOf(st.fetches[id].kind, st.fetches[id].key).Some? ==>
          var fk := FlightOf(st.fetches[id].kind, st.fetches[id].key).value;
          fk in st.inflight && st.inflight[fk] == Some(id))
    && (forall fk :: fk in st.inflight && st.inflight[fk].Some? ==>
          var id := st.inflight[fk].value;
          id in st.fetches && FlightOf(st.fetches[id].kind, st.fetches[id].key) == Some(fk))
  }

  ghost predicate Revalidates(st: State, id: nat, key: Key)
  {
    id in st.fetches && st.fetches[id].kind == Revalidation && st.fetches[id].key == key
  }

  ghost predicate RevalidationsOk(st: State)
  {
    && (forall id, key :: Revalidates(st, id, key) ==> key in st.revalidating)
    && (forall key :: key in st.revalidating ==> exists id :: Revalidates(st, id, key))
    && (forall i, j, key :: Revalidates(st, i, key) && Revalidates(st, j, key) ==> i == j)
  }

  ghost predicate Valid(st: State, stable: Key -> bool)
  {
    && st.volatileBump < st.clock && st.stableBump < st.clock
    && (forall s :: s in st.store ==> st.store[s] < st.clock)
    && (forall s :: s in st.stableKeys ==> stable(s.key))
    && (forall id :: id in st.fetches ==> FetchOk(st, st.fetches[id]))
    && (forall i :: i in st.sweeps ==> SweepOk(st, st.sweeps[i], stable))
    && (forall r :: r in st.returned ==> ReturnedOk(st, r, stable))
  }

  lemma BumpKeeps(st: State, cover: Cover, stable: Key -> bool)
    requires Valid(st, stable)
    ensures var after := Bumped(st, cover).(clock := st.clock + 1);
            && Valid(after, stable) && BumpOnRecord(after, cover, st.clock)
  {
    var after := Bumped(st, cover).(clock := st.clock + 1);
    forall id | id in after.fetches ensures FetchOk(after, after.fetches[id]) {
      assert FetchOk(st, st.fetches[id]);
    }
    forall i | i in after.sweeps ensures SweepOk(after, after.sweeps[i], stable) {
      assert SweepOk(st, st.sweeps[i], stable);
    }
    forall r | r in after.returned ensures ReturnedOk(after, r, stable) {
      assert ReturnedOk(st, r, stable);
    }
  }

  lemma RemovalKeeps(st: State, gone: set<Slot>, stable: Key -> bool)
    requires Valid(st, stable)
    ensures Valid(Removed(st, gone), stable)
  {
    var after := Removed(st, gone);
    forall id | id in after.fetches ensures FetchOk(after, after.fetches[id]) {
      assert FetchOk(st, st.fetches[id]);
    }
    forall i | i in after.sweeps ensures SweepOk(after, after.sweeps[i], stable) {
      assert SweepOk(st, st.sweeps[i], stable);
    }
    forall r | r in after.returned ensures ReturnedOk(after, r, stable) {
      assert ReturnedOk(st, r, stable);
    }
  }

  /** A write through an open gate postdates every bump that covers the key, those
      of sweeps still running included. */
  lemma OpenGatePostdatesInvalidations(st: State, f: Fetch, stable: Key -> bool, cover: Cover, began: nat)
    requires FetchOk(st, f) && Open(st, f, stable)
    requires BumpOnRecord(st, cover, began) && Covers(cover, f.key, stable)
    ensures f.started > began
  {
  }

  lemma FreshWriteKeeps(st: State, id: nat, stable: Key -> bool)
    requires Valid(st, stable) && id in st.fetches && Open(st, st.fetches[id], stable)
    ensures Valid(Written(st, Fresh(st.fetches[id].key), st.fetches[id].started, stable), stable)
  {
    var f := st.fetches[id];
    var after := Written(st, Fresh(f.key), f.started, stable);
    assert FetchOk(st, f);
    forall j | j in after.fetches ensures FetchOk(after, after.fetches[j]) {
      assert FetchOk(st, st.fetches[j]);
    }
    forall i | i in after.sweeps ensures SweepOk(after, after.sweeps[i], stable) {
      var w := st.sweeps[i];
      assert SweepOk(st, w, stable);
      if Covers(w.cover, f.key, stable) {
        OpenGatePostdatesInvalidations(st, f, stable, w.cover, w.began);
      }
    }
    forall r | r in after.returned ensures ReturnedOk(after, r, stable) {
      assert ReturnedOk(st, r, stable);
      if Covers(r.cover, f.key, stable) {
        OpenGatePostdatesInvalidations(st, f, stable, r.cover, r.began);
      }
    }
  }

  lemma StartStepKeeps(st: State, id: nat, kind: Kind, key: Key, stable: Key -> bool)
    requires Valid(st, stable) && Enabled(st, Start(id, kind, key))
    ensures Valid(Apply(st, Start(id, kind, key), stable), stable)
  {
    var after := Apply(st, Start(id, kind, key), stable);
    forall j | j in after.fetches ensures FetchOk(after, after.fetches[j]) {
      assert j != id ==> FetchOk(st, st.fetches[j]);
    }
    OnlyFetchesChanged(st, after, stable);
  }

  ghost predicate OwesNoMore(st: State, after: State)
  {
    forall id :: id in after.fetches && after.fetches[id].owesStale ==>
      id in st.fetches && st.fetches[id] == after.fetches[id]
  }

  // Sweeps and returned invalidations only look at fetches that owe a write.
  lemma OnlyFetchesChanged(st: State, after: State, stable: Key -> bool)
    requires Valid(st, stable) && OwesNoMore(st, after)
    requires after.store == st.store && after.sweeps == st.sweeps && after.returned == st.returned
    requires after.volatileBump == st.volatileBump && after.stableBump == st.stableBump
    ensures forall i :: i in after.sweeps ==> SweepOk(after, after.sweeps[i], stable)
    ensures forall r :: r in after.returned ==> ReturnedOk(after, r, stable)
  {
    forall i | i in after.sweeps ensures SweepOk(after, after.sweeps[i], stable) {
      assert SweepOk(st, st.sweeps[i], stable);
    }
    forall r | r in after.returned ensures ReturnedOk(after, r, stable) {
      assert ReturnedOk(st, r, stable);
    }
  }

  // Once the fresh slot is written through an open gate, owing the stale slot a
  // write breaks no promise.
  lemma ResolvedKeeps(st: State, id: nat, owes: bool, stable: Key -> bool)
    requires Valid(st, stable) && id in st.fetches && !st.fetches[id].owesStale
    requires owes ==> Open(st, st.fetches[id], stable)
    ensures Valid(st.(fetches := st.fetches[id := st.fetches[id].(resolved := true, owesStale := owes)]), stable)
  {
    var f := st.fetches[id];
    var after := st.(fetches := st.fetches[id := f.(resolved := true, owesStale := owes)]);
    assert FetchOk(st, f);
    forall j | j in after.fetches ensures FetchOk(after, after.fetches[j]) {
      assert FetchOk(st, st.fetches[j]);
    }
    forall i | i in after.sweeps ensures SweepOk(after, after.sweeps[i], stable) {
      assert SweepOk(st, st.sweeps[i], stable);
    }
    forall r | r in after.returned ensures ReturnedOk(after, r, stable) {
      assert ReturnedOk(st, r, stable);
    }
  }

  lemma TickKeeps(st: State, stable: Key -> bool)
    requires Valid(st, stable)
    ensures Valid(st.(clock := st.clock + 1), stable)
  {
    var after := st.(clock := st.clock + 1);
    forall j | j in after.fetches ensures FetchOk(after, after.fetches[j]) {
      assert FetchOk(st, st.fetches[j]);
    }
    OnlyFetchesChanged(st, after, stable);
  }

  lemma ResolveKeeps(st: State, id: nat, hasData: bool, stable: Key -> bool)
    requires Valid(st, stable) && Enabled(st, Resolve(id, hasData))
    ensures Valid(Apply(st, Resolve(id, hasData), stable), stable)
  {
    var f := st.fetches[id];
    assert FetchOk(st, f) && !f.owesStale;
    var writes := hasData && Open(st, f, stable);
    var mid := if writes then Written(st, Fresh(f.key), f.started, stable) else st;
    var owes := writes && (f.kind == ColdPath || f.kind == Revalidation);
    var done := mid.(fetches := mid.fetches[id := f.(resolved := true, owesStale := owes)]);
    assert Apply(st, Resolve(id, hasData), stable) == done.(clock := done.clock + 1);
    assert id in mid.fetches && mid.fetches[id] == f && (owes ==> Open(mid, f, stable));
    hide *;
    if writes {
      FreshWriteKeeps(st, id, stable);
    }
    ResolvedKeeps(mid, id, owes, stable);
    TickKeeps(done, stable);
  }

  lemma StaleWriteKeeps(st: State, id: nat, stable: Key -> bool)
    requires Valid(st, stable) && Enabled(st, WriteStale(id))
    ensures Valid(Apply(st, WriteStale(id), stable), stable)
  {
    var after := Apply(st, WriteStale(id), stable);
    assert FetchOk(st, st.fetches[id]);
    forall j | j in after.fetches ensures FetchOk(after, after.fetches[j]) {
      assert FetchOk(st, st.fetches[j]);
    }
    forall i | i in after.sweeps ensures SweepOk(after, after.sweeps[i], stable) {
      assert SweepOk(st, st.sweeps[i], stable);
    }
    forall r | r in after.returned ensures ReturnedOk(after, r, stable) {
      assert ReturnedOk(st, r, stable);
    }
  }

  lemma FlightStepKeeps(st: State, step: Step, stable: Key -> bool)
    requires Valid(st, stable) && Enabled(st, step)
    requires step.StartThrows? || step.Finish?
    ensures Valid(Apply(st, step, stable), stable)
  {
    var after := Apply(st, step, stable);
    forall j | j in after.fetches ensures FetchOk(after, after.fetches[j]) {
      assert FetchOk(st, st.fetches[j]);
    }
    OnlyFetchesChanged(st, after, stable);
  }

  lemma RestartKeeps(st: State, stable: Key -> bool)
    requires Valid(st, stable)
    ensures Valid(Apply(st, Restart, stable), stable)
  {
    var after := Apply(st, Restart, stable);
    forall r | r in after.returned ensures ReturnedOk(after, r, stable) {
      assert ReturnedOk(st, r, stable);
    }
  }

  lemma SweepSet(st: State, i: nat, w: Sweep, stable: Key -> bool)
    requires Valid(st, stable) && SweepOk(st, w, stable)
    ensures Valid(st.(sweeps := st.sweeps[i := w]), stable)
  {
    var after := st.(sweeps := st.sweeps[i := w]);
    forall j | j in after.fetches ensures FetchOk(after, after.fetches[j]) {
      assert FetchOk(st, st.fetches[j]);
    }
    forall j | j in after.sweeps ensures SweepOk(after, after.sweeps[j], stable) {
      assert SweepOk(st, if j == i then w else st.sweeps[j], stable);
    }
    forall r | r in after.returned ensures ReturnedOk(after, r, stable) {
      assert ReturnedOk(st, r, stable);
    }
  }

  // Looking at a batch, filtering it, closing the scan and deleting a chunk keep
  // every old entry accounted for.
  lemma SweepMoves(st: State, w: Sweep, batch: set<Slot>, chunk: set<Slot>, stable: Key -> bool)
    requires SweepOk(st, w, stable) && (forall s :: s in st.stableKeys ==> stable(s.key))
    ensures w.scanning ==> SweepOk(st, w.(unseen := w.unseen - batch, reply := w.reply + batch), stable)
    ensures w.scanning ==> SweepOk(st, w.(reply := {}, doomed := w.doomed
              + set s | s in w.reply && (w.cover.Volatile? ==> s !in st.stableKeys)), stable)
    ensures w.unseen == {} && w.reply == {} ==> SweepOk(st, w.(scanning := false), stable)
    ensures chunk !! st.store.Keys ==> SweepOk(st, w.(doomed := w.doomed - chunk), stable)
  {
  }

  lemma ScanStepKeeps(st: State, step: Step, stable: Key -> bool)
    requires Valid(st, stable) && Enabled(st, step)
    requires step.Scan? || step.TakeReply? || step.EndScan?
    ensures Valid(Apply(st, step, stable), stable)
  {
    var i := step.sweep;
    var done := Apply(st, step, stable).(clock := st.clock);
    assert done == st.(sweeps := st.sweeps[i := done.sweeps[i]]);
    assert done.(clock := done.clock + 1) == Apply(st, step, stable);
    assert SweepOk(st, st.sweeps[i], stable);
    SweepMoves(st, st.sweeps[i], if step.Scan? then step.batch else {}, {}, stable);
    assert SweepOk(st, done.sweeps[i], stable);
    hide *;
    SweepSet(st, i, done.sweeps[i], stable);
    TickKeeps(done, stable);
  }

  lemma DeleteKeeps(st: State, i: nat, chunk: set<Slot>, stable: Key -> bool)
    requires Valid(st, stable) && Enabled(st, Delete(i, chunk))
    ensures Valid(Apply(st, Delete(i, chunk), stable), stable)
  {
    var mid := Removed(st, chunk);
    var w := mid.sweeps[i].(doomed := mid.sweeps[i].doomed - chunk);
    var done := mid.(sweeps := mid.sweeps[i := w]);
    assert done.(clock := done.clock + 1) == Apply(st, Delete(i, chunk), stable);
    RemovalKeeps(st, chunk, stable);
    assert SweepOk(mid, mid.sweeps[i], stable);
    SweepMoves(mid, mid.sweeps[i], {}, chunk, stable);
    assert SweepOk(mid, w, stable);
    hide *;
    SweepSet(mid, i, w, stable);
    TickKeeps(done, stable);
  }

  lemma NewSweepOk(st: State, after: State, cover: Cover, stable: Key -> bool)
    requires BumpOnRecord(after, cover, st.clock) && after.store == st.store && after.fetches == st.fetches
    ensures SweepOk(after, Sweep(cover, st.clock, HalfWritten(st), true,
                                 set s | s in st.store && Matches(cover, s), {}, {}), stable)
  {
  }

  lemma BeginSweepKeeps(st: State, i: nat, cover: Cover, stable: Key -> bool)
    requires Valid(st, stable) && Enabled(st, BeginSweep(i, cover))
    ensures Valid(Apply(st, BeginSweep(i, cover), stable), stable)
  {
    var mid := Bumped(st, cover).(clock := st.clock + 1);
    var w := Sweep(cover, st.clock, HalfWritten(st), true, set s | s in st.store && Matches(cover, s), {}, {});
    assert Apply(st, BeginSweep(i, cover), stable) == mid.(sweeps := mid.sweeps[i := w]);
    assert mid.store == st.store && mid.fetches == st.fetches;
    hide *;
    BumpKeeps(st, cover, stable);
    NewSweepOk(st, mid, cover, stable);
    SweepSet(mid, i, w, stable);
  }

  // A sweep with nothing left to delete has nothing old left to cover.
  lemma ReturnKeeps(st: State, i: nat, stableKeys: set<Slot>, stable: Key -> bool)
    requires Valid(st, stable) && Enabled(st, EndSweep(i)) && stableKeys <= st.stableKeys
    ensures var w := st.sweeps[i];
            Valid(st.(sweeps := st.sweeps - {i}, stableKeys := stableKeys,
                      returned := st.returned + {Returned(w.cover, w.began, w.caught)}), stable)
  {
    var w := st.sweeps[i];
    var after := st.(sweeps := st.sweeps - {i}, stableKeys := stableKeys,
                     returned := st.returned + {Returned(w.cover, w.began, w.caught)});
    assert SweepOk(st, w, stable) && w.unseen + w.reply + w.doomed == {};
    forall j | j in after.fetches ensures FetchOk(after, after.fetches[j]) {
      assert FetchOk(st, st.fetches[j]);
    }
    forall j | j in after.sweeps ensures SweepOk(after, after.sweeps[j], stable) {
      assert SweepOk(st, st.sweeps[j], stable);
    }
    forall r | r in after.returned ensures ReturnedOk(after, r, stable) {
      assert r in st.returned ==> ReturnedOk(st, r, stable);
    }
  }

  lemma EndSweepKeeps(st: State, i: nat, stable: Key -> bool)
    requires Valid(st, stable) && Enabled(st, EndSweep(i))
    ensures Valid(Apply(st, EndSweep(i), stable), stable)
  {
    hide Valid;
    var w := st.sweeps[i];
    var keys := if w.cover.Everything? then {} else st.stableKeys;
    ReturnKeeps(st, i, keys, stable);
    var done := st.(sweeps := st.sweeps - {i}, stableKeys := keys,
                    returned := st.returned + {Returned(w.cover, w.began, w.caught)});
    BumpKeeps(done, w.cover, stable);
    assert Bumped(done, w.cover).(clock := st.clock + 1) == Apply(st, EndSweep(i), stable);
  }

  lemma InvalidateKeeps(st: State, key: Key, stable: Key -> bool)
    requires Valid(st, stable)
    ensures Valid(Apply(st, Invalidate(key), stable), stable)
  {
    var bumped := Bumped(st, OneKey(key)).(clock := st.clock + 1);
    BumpKeeps(st, OneKey(key), stable);
    RemovalKeeps(bumped, {Fresh(key)}, stable);
    var mid, after := Removed(bumped, {Fresh(key)}), Apply(st, Invalidate(key), stable);
    assert after == mid.(returned := mid.returned + {Returned(OneKey(key), st.clock, {})});
    forall r | r in after.returned ensures ReturnedOk(after, r, stable) {
      assert r in mid.returned ==> ReturnedOk(mid, r, stable);
    }
    forall i | i in after.sweeps ensures SweepOk(after, after.sweeps[i], stable) {
      assert SweepOk(mid, mid.sweeps[i], stable);
    }
    forall j | j in after.fetches ensures FetchOk(after, after.fetches[j]) {
      assert FetchOk(mid, mid.fetches[j]);
    }
  }

  lemma ExpireKeeps(st: State, slot: Slot, stable: Key -> bool)
    requires Valid(st, stable)
    ensures Valid(Apply(st, Expire(slot), stable), stable)
  {
    var done := Removed(st, {slot});
    assert done.(clock := done.clock + 1) == Apply(st, Expire(slot), stable);
    hide *;
    RemovalKeeps(st, {slot}, stable);
    TickKeeps(done, stable);
  }

  lemma StepKeepsValid(st: State, step: Step, stable: Key -> bool)
    requires Valid(st, stable) && Enabled(st, step)
    ensures Valid(Apply(st, step, stable), stable)
  {
    hide *;
    match step
    case Start(id, kind, key) => StartStepKeeps(st, id, kind, key, stable);
    case StartThrows(_, _) => FlightStepKeeps(st, step, stable);
    case Resolve(id, hasData) => ResolveKeeps(st, id, hasData, stable);
    case WriteStale(id) => StaleWriteKeeps(st, id, stable);
    case Finish(_) => FlightStepKeeps(st, step, stable);
    case Invalidate(key) => InvalidateKeeps(st, key, stable);
    case BeginSweep(i, cover) => BeginSweepKeeps(st, i, cover, stable);
    case Scan(_, _) => ScanStepKeeps(st, step, stable);
    case TakeReply(_) => ScanStepKeeps(st, step, stable);
    case EndScan(_) => ScanStepKeeps(st, step, stable);
    case Delete(i, chunk) => DeleteKeeps(st, i, chunk, stable);
    case EndSweep(i) => EndSweepKeeps(st, i, stable);
    case Expire(slot) => ExpireKeeps(st, slot, stable);
    case Restart => RestartKeeps(st, stable);
  }
}
