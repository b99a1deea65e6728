/** The capped notification window: a fetch of one row more than the cap, a cut, and
    a whole block dropped when the cut falls inside it. */
module Notifications {
  import opened Prelude

  const NOTIFICATION_WINDOW_BLOCKS: nat := 100_000
  const NOTIFICATION_WINDOW_FETCH_CAP: nat := 1000

  // An event row: its block, its operation id, and which of that operation's rows it
  // is. One post that cites two papers of the recipient gives two.
  datatype Event = Event(block: nat, id: nat, subject: string)

  datatype Direction = Asc | Desc

  datatype Batch = Batch(events: seq<Event>, latestBlock: nat, hasMore: bool)

  predicate ByBlock(s: seq<Event>)
  {
    forall i, j :: 0 <= i < j < |s| ==> s[i].block <= s[j].block
  }

  // Block by block, and by operation id within a block. The query orders the rows of
  // one operation in any way.
  predicate InOrder(s: seq<Event>)
  {
    forall i, j :: 0 <= i < j < |s| ==>
      s[i].block < s[j].block || (s[i].block == s[j].block && s[i].id <= s[j].id)
  }

  // No block has events on both sides of n.
  predicate Edge(w: seq<Event>, n: nat)
    requires n <= |w|
  {
    n == 0 || n == |w| || w[n - 1].block != w[n].block
  }

  // The longest whole-block prefix that holds at most `cap` events.
  predicate WholePrefix(w: seq<Event>, cap: nat, n: nat)
  {
    && n <= |w| && n <= cap && Edge(w, n)
    && forall m: nat :: m <= |w| && m <= cap && Edge(w, m) ==> m <= n
  }

  // The longest such suffix starts at n.
  predicate WholeSuffix(w: seq<Event>, cap: nat, n: nat)
  {
    && n <= |w| && |w| - n <= cap && Edge(w, n)
    && forall m: nat :: m <= |w| && |w| - m <= cap && Edge(w, m) ==> m >= n
  }

  function Reversed(s: seq<Event>): seq<Event>
  {
    seq(|s|, i requires 0 <= i < |s| => s[|s| - 1 - i])
  }

  lemma {:induction false} ReversedMultiset(s: seq<Event>)
    ensures multiset(Reversed(s)) == multiset(s)
  {
    if s != [] {
      var front := s[..|s| - 1];
      ReversedMultiset(front);
      assert Reversed(s) == [Last(s)] + Reversed(front);
      assert s == front + [Last(s)];
    }
  }

  // ---------------------------------------------------------------------
  // `events.sort((a, b) => a.block_num - b.block_num)`, which is stable
  // ---------------------------------------------------------------------

  lemma InsertedMultiset(sorted: seq<Event>, at: nat, e: Event)
    requires at <= |sorted|
    ensures multiset(sorted[..at] + [e] + sorted[at..]) == multiset(sorted) + multiset{e}
    ensures at == |sorted| ==> sorted[..at] + [e] + sorted[at..] == sorted + [e]
  {
    assert sorted == sorted[..at] + sorted[at..];
  }

  lemma InsertedByBlock(sorted: seq<Event>, at: nat, e: Event)
    requires ByBlock(sorted) && at <= |sorted|
    requires at < |sorted| ==> e.block < sorted[at].block
    requires at > 0 ==> sorted[at - 1].block <= e.block
    ensures ByBlock(sorted[..at] + [e] + sorted[at..])
  {
    var r := sorted[..at] + [e] + sorted[at..];
    assert forall i :: 0 <= i < at ==> r[i] == sorted[i] && sorted[i].block <= e.block;
    assert forall i :: at < i < |r| ==> r[i] == sorted[i - 1] && e.block <= sorted[i - 1].block;
  }

  // Within a block the ids never rise.
  predicate IdsFall(s: seq<Event>)
  {
    forall i, j :: 0 <= i < j < |s| && s[i].block == s[j].block ==> s[i].id >= s[j].id
  }

  lemma InsertedKeepsIds(sorted: seq<Event>, at: nat, e: Event)
    requires ByBlock(sorted) && at <= |sorted|
    requires at < |sorted| ==> e.block < sorted[at].block
    requires IdsFall(sorted) && forall x :: x in sorted && x.block == e.block ==> x.id >= e.id
    ensures IdsFall(sorted[..at] + [e] + sorted[at..])
  {
    var r := sorted[..at] + [e] + sorted[at..];
    assert forall i :: at <= i < |sorted| ==> e.block < sorted[i].block;
    forall i, j | 0 <= i < j < |r| && r[i].block == r[j].block ensures r[i].id >= r[j].id {
      var k := if j < at then j else j - 1;
      assert i < at ==> r[i] == sorted[i] && sorted[i] in sorted;
      assert j != at ==> r[j] == sorted[k];
      assert i > at ==> r[i] == sorted[i - 1];
    }
  }

  // One insertion, after every event of the same block.
  method InsertByBlock(sorted: seq<Event>, e: Event) returns (r: seq<Event>)
    requires ByBlock(sorted)
    ensures ByBlock(r) && multiset(r) == multiset(sorted) + multiset{e}
    ensures (forall x :: x in sorted ==> x.block <= e.block) ==> r == sorted + [e]
    ensures IdsFall(sorted) && (forall x :: x in sorted && x.block == e.block ==> x.id >= e.id) ==> IdsFall(r)
  {
    var at := |sorted|;
    while at > 0 && e.block < sorted[at - 1].block
      invariant 0 <= at <= |sorted|
      invariant at < |sorted| ==> e.block < sorted[at].block
    {
      at := at - 1;
    }
    InsertedMultiset(sorted, at, e);
    InsertedByBlock(sorted, at, e);
    if IdsFall(sorted) && forall x :: x in sorted && x.block == e.block ==> x.id >= e.id {
      InsertedKeepsIds(sorted, at, e);
    }
    r := sorted[..at] + [e] + sorted[at..];
  }

  /** A stable sort by block: it changes nothing that is in order, and keeps events
      of one block as they came. */
  method SortByBlock(s: seq<Event>) returns (sorted: seq<Event>)
    ensures ByBlock(sorted) && multiset(sorted) == multiset(s)
    ensures ByBlock(s) ==> sorted == s
    ensures IdsFall(s) ==> IdsFall(sorted)
  {
    sorted := [];
    for i := 0 to |s|
      invariant ByBlock(sorted) && multiset(sorted) == multiset(s[..i])
      invariant ByBlock(s) ==> sorted == s[..i]
      invariant IdsFall(s) ==> IdsFall(sorted)
    {
      SeenBefore(s, i, sorted);
      assert s[..i + 1] == s[..i] + [s[i]];
      sorted := InsertByBlock(sorted, s[i]);
    }
    assert s[..|s|] == s;
  }

  lemma SeenBefore(s: seq<Event>, i: nat, sorted: seq<Event>)
    requires i < |s| && multiset(sorted) == multiset(s[..i])
    ensures ByBlock(s) ==> forall x :: x in sorted ==> x.block <= s[i].block
    ensures IdsFall(s) ==> forall x :: x in sorted && x.block == s[i].block ==> x.id >= s[i].id
  {
    forall x | x in sorted ensures exists k :: 0 <= k < i && s[k] == x {
      assert x in multiset(s[..i]);
      assert x in s[..i];
    }
  }

  // ---------------------------------------------------------------------
  // The fetch
  // ---------------------------------------------------------------------

  // `ORDER BY block_num dir, op_id dir LIMIT limit`. Every order the descending query
  // may return is the reverse of an ordered window.
  function Rows(window: seq<Event>, dir: Direction, limit: nat): seq<Event>
  {
    var ordered := if dir.Asc? then window else Reversed(window);
    if |ordered| <= limit then ordered else ordered[..limit]
  }

  // `events.filter((e) => e.block_num !== block)`.
  function WithoutBlock(events: seq<Event>, block: nat): seq<Event>
  {
    if events == [] then []
    else
      var front := WithoutBlock(events[..|events| - 1], block);
      if Last(events).block == block then front else front + [Last(events)]
  }

  lemma {:induction false} WithoutBlockCounts(events: seq<Event>, block: nat, e: Event)
    ensures multiset(WithoutBlock(events, block))[e] == if e.block == block then 0 else multiset(events)[e]
  {
    if events != [] {
      assert events == events[..|events| - 1] + [Last(events)];
      WithoutBlockCounts(events[..|events| - 1], block, e);
    }
  }

  lemma WithoutBlockMembers(events: seq<Event>, block: nat)
    ensures forall e :: e in WithoutBlock(events, block) ==> e in events
  {
    forall e | e in WithoutBlock(events, block) ensures e in events {
      WithoutBlockCounts(events, block, e);
      assert multiset(events)[e] > 0;
    }
  }

  predicate NotAfter(s: seq<Event>, e: Event)
  {
    forall x :: x in s ==> x.block <= e.block
  }

  predicate IdsAbove(s: seq<Event>, e: Event)
  {
    forall x :: x in s && x.block == e.block ==> x.id >= e.id
  }

  lemma Appended(s: seq<Event>, e: Event)
    ensures ByBlock(s) && NotAfter(s, e) ==> ByBlock(s + [e])
    ensures IdsFall(s) && IdsAbove(s, e) ==> IdsFall(s + [e])
  {
  }

  lemma LastIsLast(s: seq<Event>)
    requires s != []
    ensures ByBlock(s) ==> ByBlock(s[..|s| - 1]) && NotAfter(s[..|s| - 1], Last(s))
    ensures IdsFall(s) ==> IdsFall(s[..|s| - 1]) && IdsAbove(s[..|s| - 1], Last(s))
  {
  }

  lemma {:induction false} WithoutBlockKeepsOrder(events: seq<Event>, block: nat)
    ensures ByBlock(events) ==> ByBlock(WithoutBlock(events, block))
    ensures IdsFall(events) ==> IdsFall(WithoutBlock(events, block))
  {
    if events != [] {
      var front := events[..|events| - 1];
      WithoutBlockKeepsOrder(front, block);
      WithoutBlockMembers(front, block);
      LastIsLast(events);
      var kept := WithoutBlock(front, block);
      assert NotAfter(front, Last(events)) ==> NotAfter(kept, Last(events));
      assert IdsAbove(front, Last(events)) ==> IdsAbove(kept, Last(events));
      hide ByBlock, IdsFall, NotAfter, IdsAbove;
      Appended(kept, Last(events));
    }
  }

  lemma {:induction false} WithoutTail(events: seq<Event>, block: nat, n: nat)
    requires n <= |events|
    requires forall e :: e in events[..n] ==> e.block != block
    requires forall e :: e in events[n..] ==> e.block == block
    ensures WithoutBlock(events, block) == events[..n]
  {
    if events != [] {
      var front := events[..|events| - 1];
      if n == |events| {
        assert Last(events) in events[..n];
        assert front[..n - 1] == events[..n - 1] && front[n - 1..] == [];
        assert events[..n] == front + [Last(events)];
        assert forall e :: e in front ==> e in events[..n];
        WithoutTail(front, block, n - 1);
        assert front[..n - 1] == front;
      } else {
        assert Last(events) == events[n..][|events| - 1 - n];
        assert front[..n] == events[..n] && events[n..] == front[n..] + [Last(events)];
        WithoutTail(front, block, n);
      }
    }
  }

  // Where the cut falls: at the cap, or where the block it falls in begins.
  function StartOfBlock(w: seq<Event>, at: nat): (n: nat)
    requires ByBlock(w) && at < |w|
    ensures n <= at && Edge(w, n)
    ensures forall i :: n <= i <= at ==> w[i].block == w[at].block
    ensures forall i :: 0 <= i < n ==> w[i].block != w[at].block
  {
    if at == 0 || w[at - 1].block != w[at].block then at else StartOfBlock(w, at - 1)
  }

  function EndOfBlock(w: seq<Event>, at: nat): (n: nat)
    requires ByBlock(w) && at < |w|
    ensures at < n <= |w| && Edge(w, n)
    ensures forall i :: at <= i < n ==> w[i].block == w[at].block
    ensures forall i :: n <= i < |w| ==> w[i].block != w[at].block
    decreases |w| - at
  {
    if at == |w| - 1 || w[at + 1].block != w[at].block then at + 1 else EndOfBlock(w, at + 1)
  }

  function PrefixCut(w: seq<Event>, cap: nat): (n: nat)
    requires ByBlock(w) && cap >= 1
    ensures WholePrefix(w, cap, n)
  {
    if |w| <= cap then |w|
    else if w[cap].block != w[cap - 1].block then cap
    else
      var n := StartOfBlock(w, cap);
      assert forall m: nat :: n < m <= cap ==> w[m - 1].block == w[m].block;
      n
  }

  function SuffixCut(w: seq<Event>, cap: nat): (n: nat)
    requires ByBlock(w) && cap >= 1
    ensures WholeSuffix(w, cap, n)
  {
    if |w| <= cap then 0
    else
      var at := |w| - cap;
      if w[at].block != w[at - 1].block then at
      else
        var n := EndOfBlock(w, at);
        assert forall m: nat :: at <= m < n ==> w[m - 1].block == w[m].block;
        n
  }

  /** `fetchNotificationsFromHaf` over the events above the floor. The digest gets
      exactly the longest whole-block prefix within the cap, in order. The feed gets
      exactly the longest whole-block suffix, by block, each block's events newest
      first. `hasMore` says that the window exceeds the cap. */
  method FetchNotifications(window: seq<Event>, floor: nat, cap: nat, dir: Direction) returns (batch: Batch)
    requires InOrder(window) && cap >= 1
    ensures batch.hasMore <==> |window| > cap
    ensures ByBlock(batch.events)
    ensures dir.Asc? ==> batch.events == window[..PrefixCut(window, cap)]
    ensures dir.Desc? ==> multiset(batch.events) == multiset(window[SuffixCut(window, cap)..]) && IdsFall(batch.events)
    ensures batch.latestBlock == if batch.events == [] then floor else Last(batch.events).block
  {
    hide *;
    var rows := Rows(window, dir, cap + 1);
    var capHit := |rows| > cap;
    var kept := if capHit then rows[..cap] else rows;
    RowsProbe(window, dir, cap);
    OrderedByBlock(window);
    if dir.Desc? {
      DescendingKept(window, cap, kept);
    }
    var events := SortByBlock(kept);
    SameSize(events, kept);
    var delivered := events;
    if capHit && events != [] {
      if rows[cap].block == rows[cap - 1].block {
        var boundary := if dir.Desc? then events[0].block else Last(events).block;
        delivered := WithoutBlock(events, boundary);
      }
    }
    batch := Batch(delivered, if delivered == [] then floor else Last(delivered).block, capHit);
    if dir.Asc? {
      AscendingCut(window, cap, kept, events, delivered);
    } else {
      DescendingCut(window, cap, if |window| > cap then |window| - cap else 0, events, delivered);
    }
  }

  lemma OrderedByBlock(w: seq<Event>)
    requires InOrder(w)
    ensures ByBlock(w)
  {
  }

  lemma SameSize(s: seq<Event>, t: seq<Event>)
    requires multiset(s) == multiset(t)
    ensures |s| == |t|
  {
    assert |multiset(s)| == |multiset(t)|;
  }

  // One row beyond the cap tells whether the window exceeds it, and where the cut falls.
  lemma RowsProbe(w: seq<Event>, dir: Direction, cap: nat)
    requires cap >= 1
    ensures var rows, ordered := Rows(w, dir, cap + 1), if dir.Asc? then w else Reversed(w);
            && (|rows| > cap <==> |w| > cap)
            && (|w| > cap ==> rows[..cap] == ordered[..cap] && rows[cap] == ordered[cap] && rows[cap - 1] == ordered[cap - 1])
            && (|w| <= cap ==> rows == ordered)
  {
  }

  lemma AscendingCut(w: seq<Event>, cap: nat, kept: seq<Event>, events: seq<Event>, delivered: seq<Event>)
    requires ByBlock(w) && cap >= 1 && kept == (if |w| > cap then w[..cap] else w)
    requires ByBlock(kept) ==> events == kept
    requires ByBlock(events)
    requires delivered == if |w| > cap && w[cap].block == w[cap - 1].block then WithoutBlock(events, Last(events).block) else events
    ensures ByBlock(delivered) && delivered == w[..PrefixCut(w, cap)]
  {
    FrontByBlock(w, if |w| > cap then cap else |w|);
    assert w[..|w|] == w;
    if |w| > cap && w[cap].block == w[cap - 1].block {
      var n := StartOfBlock(w, cap);
      BoundaryBlock(w, cap, n);
      FrontByBlock(w, n);
      hide ByBlock, WholePrefix, Edge, WithoutBlock, StartOfBlock;
      WithoutTail(w[..cap], w[cap].block, n);
      assert w[..cap][..n] == w[..n];
    }
  }

  lemma FrontByBlock(w: seq<Event>, n: nat)
    requires ByBlock(w) && n <= |w|
    ensures ByBlock(w[..n])
  {
  }

  // The rows of the block the cut falls in are the last ones kept.
  lemma BoundaryBlock(w: seq<Event>, cap: nat, n: nat)
    requires n <= cap < |w|
    requires forall i :: n <= i <= cap ==> w[i].block == w[cap].block
    requires forall i :: 0 <= i < n ==> w[i].block != w[cap].block
    ensures forall e :: e in w[..cap][..n] ==> e.block != w[cap].block
    ensures forall e :: e in w[..cap][n..] ==> e.block == w[cap].block
  {
  }

  lemma DescendingCut(w: seq<Event>, cap: nat, at: nat, events: seq<Event>, delivered: seq<Event>)
    requires ByBlock(w) && cap >= 1 && at == (if |w| > cap then |w| - cap else 0)
    requires ByBlock(events) && IdsFall(events) && multiset(events) == multiset(w[at..])
    requires delivered == if |w| > cap && w[at].block == w[at - 1].block
                          then WithoutBlock(events, events[0].block) else events
    ensures ByBlock(delivered) && IdsFall(delivered)
    ensures multiset(delivered) == multiset(w[SuffixCut(w, cap)..])
  {
    hide ByBlock, IdsFall, WithoutBlock, WholeSuffix, Edge;
    if |w| > cap && w[at].block == w[at - 1].block {
      WithoutBlockKeepsOrder(events, events[0].block);
      SuffixCounts(w, at, events, delivered);
    }
  }

  // What the cap keeps, seen from the other end.
  lemma DescendingKept(w: seq<Event>, cap: nat, kept: seq<Event>)
    requires InOrder(w) && cap >= 1
    requires kept == (if |w| > cap then Reversed(w)[..cap] else Reversed(w))
    ensures var at := if |w| > cap then |w| - cap else 0;
            && multiset(kept) == multiset(w[at..]) && IdsFall(kept) && ByBlock(w[at..])
            && (|w| > cap ==> Reversed(w)[cap] == w[at - 1] && Reversed(w)[cap - 1] == w[at])
  {
    var at := if |w| > cap then |w| - cap else 0;
    TailInOrder(w, at);
    ReversedTail(w, at);
    ReversedIdsFall(w[at..]);
    ReversedMultiset(w[at..]);
    assert Reversed(w)[..|w|] == Reversed(w);
    hide InOrder, ByBlock, IdsFall;
  }

  lemma ReversedTail(w: seq<Event>, at: nat)
    requires at <= |w|
    ensures Reversed(w)[..|w| - at] == Reversed(w[at..])
  {
  }

  lemma TailInOrder(w: seq<Event>, at: nat)
    requires InOrder(w) && at <= |w|
    ensures InOrder(w[at..]) && ByBlock(w[at..])
  {
  }

  lemma ReversedIdsFall(s: seq<Event>)
    requires InOrder(s)
    ensures IdsFall(Reversed(s))
  {
  }

  lemma SuffixCounts(w: seq<Event>, at: nat, events: seq<Event>, delivered: seq<Event>)
    requires ByBlock(w) && at < |w| && ByBlock(events) && multiset(events) == multiset(w[at..])
    requires events != [] && delivered == WithoutBlock(events, events[0].block)
    ensures multiset(delivered) == multiset(w[EndOfBlock(w, at)..])
  {
    var n := EndOfBlock(w, at);
    FirstBlock(events, w[at..]);
    forall e ensures multiset(delivered)[e] == multiset(w[n..])[e] {
      SuffixWithout(w, at, n, e);
      WithoutBlockCounts(events, events[0].block, e);
    }
  }

  // The least block of a reordering is the least block.
  lemma FirstBlock(events: seq<Event>, tail: seq<Event>)
    requires ByBlock(events) && ByBlock(tail) && multiset(events) == multiset(tail) && tail != []
    ensures events != [] && events[0].block == tail[0].block
  {
    assert |events| == |multiset(events)| == |tail|;
    assert tail[0] in multiset(events) && events[0] in multiset(tail);
    assert tail[0] in events && events[0] in tail;
  }

  lemma SuffixWithout(w: seq<Event>, at: nat, n: nat, e: Event)
    requires at <= n <= |w|
    requires at < |w| && forall i :: at <= i < n ==> w[i].block == w[at].block
    requires forall i :: n <= i < |w| ==> w[i].block != w[at].block
    ensures multiset(w[n..])[e] == if e.block == w[at].block then 0 else multiset(w[at..])[e]
  {
    assert w[at..] == w[at..n] + w[n..];
    if e.block == w[at].block {
      assert e !in w[n..];
    } else {
      assert e !in w[at..n];
    }
  }

  /** The digest's batch is empty exactly when the window is, or when its oldest
      block alone exceeds the cap: that block cannot be delivered while it is the
      oldest. */
  lemma NothingDeliveredIff(w: seq<Event>, cap: nat)
    requires ByBlock(w) && cap >= 1
    ensures PrefixCut(w, cap) == 0 <==> w == [] || (|w| > cap && w[cap].block == w[0].block)
  {
    if |w| > cap && w[cap].block == w[cap - 1].block {
      var n := StartOfBlock(w, cap);
      assert n > 0 ==> w[0].block != w[cap].block;
    }
  }

  /** A window within the cap is delivered whole, in both directions. */
  lemma FittingWindowIsWhole(w: seq<Event>, cap: nat, n: nat, m: nat)
    requires ByBlock(w) && 1 <= cap && |w| <= cap && WholePrefix(w, cap, n) && WholeSuffix(w, cap, m)
    ensures n == |w| && m == 0
  {
    assert Edge(w, |w|) && Edge(w, 0);
  }

  // ---------------------------------------------------------------------
  // Floors and cursors
  // ---------------------------------------------------------------------

  function ComputeNotificationWindowFloor(head: nat, genesis: nat): (floor: nat)
    ensures floor >= genesis - 1 && floor >= head - 100_000
    ensures floor == genesis - 1 || floor == head - 100_000 || (floor == 0 && genesis == 0 && head < 100_000)
  {
    var genesisFloor := if genesis > 0 then genesis - 1 else 0;
    if head > NOTIFICATION_WINDOW_BLOCKS && head - NOTIFICATION_WINDOW_BLOCKS > genesisFloor
    then head - NOTIFICATION_WINDOW_BLOCKS else genesisFloor
  }

  // `filterEventsAfter`, on events in block order.
  function FilterEventsAfter(events: seq<Event>, since: nat): (after: seq<Event>)
    requires ByBlock(events)
    ensures |after| <= |events| && after == events[|events| - |after|..]
    ensures forall i :: 0 <= i < |events| ==> (events[i].block > since <==> i >= |events| - |after|)
  {
    if events == [] || events[0].block > since then events else FilterEventsAfter(events[1..], since)
  }
}
