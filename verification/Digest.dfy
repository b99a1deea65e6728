/** The digest: per user, a window of events, a cursor, an email and a cursor write
    that is not atomic with it. */
module Digest {
  import opened Prelude
  import opened Notifications

  type User = string

  /** What one run meets for one user: the events above the window floor (none when
      the query failed), whether mail is configured, how the send ends, and whether
      the cursor write fails. */
  datatype Weather = Weather(window: Option<seq<Event>>, smtpConfigured: bool, send: Send, writeThrows: bool)

  // A send goes out, is refused, or goes out and throws all the same.
  datatype Send = Delivers | Refused | DeliversUnheard

  datatype Outcome = Skipped | Sent

  // One user's side: the stored cursor, and the emails that went out.
  datatype Mailbox = Mailbox(cursor: nat, emails: seq<seq<Event>>)

  predicate Good(w: Weather)
  {
    w.window.Some? ==> InOrder(w.window.value)
  }

  function Clamped(cursor: nat, genesis: nat): nat
  {
    if genesis > 0 && cursor < genesis then genesis - 1 else cursor
  }

  lemma PrefixInOrder(w: seq<Event>, n: nat)
    requires InOrder(w) && n <= |w|
    ensures InOrder(w[..n]) && ByBlock(w[..n]) && ByBlock(w)
  {
  }

  // What the fetch delivers: the whole-block prefix within the cap.
  function Delivered(window: seq<Event>): (d: seq<Event>)
    requires InOrder(window)
    ensures ByBlock(d) && d <= window
  {
    PrefixInOrder(window, 0);
    var n := PrefixCut(window, NOTIFICATION_WINDOW_FETCH_CAP);
    PrefixInOrder(window, n);
    window[..n]
  }

  // What a run has to say to the user.
  function News(w: Weather, cursor: nat, genesis: nat): (news: seq<Event>)
    requires Good(w)
  {
    if w.window.None? then [] else FilterEventsAfter(Delivered(w.window.value), Clamped(cursor, genesis))
  }

  predicate SendThrows(w: Weather)
  {
    w.smtpConfigured && !w.send.Delivers?
  }

  predicate GoesOut(w: Weather)
  {
    w.smtpConfigured && !w.send.Refused?
  }

  // One run for one user.
  function Run(m: Mailbox, w: Weather, genesis: nat): Mailbox
    requires Good(w)
  {
    var news := News(w, m.cursor, genesis);
    if news == [] then m
    else
      Mailbox(if SendThrows(w) || w.writeThrows then m.cursor else Last(news).block,
              if GoesOut(w) then m.emails + [news] else m.emails)
  }

  // An email went out and the cursor stayed behind.
  predicate LosesTrack(w: Weather)
  {
    GoesOut(w) && (w.send.DeliversUnheard? || w.writeThrows)
  }

  // ---------------------------------------------------------------------
  // The run over all users
  // ---------------------------------------------------------------------

  class DigestRunner {
    var mailboxes: map<User, Mailbox>

    constructor (stored: map<User, Mailbox>)
      ensures mailboxes == stored
    {
      mailboxes := stored;
    }

    static method FetchOldest(window: seq<Event>) returns (events: seq<Event>)
      requires InOrder(window)
      ensures events == Delivered(window)
    {
      var batch := FetchNotifications(window, 0, NOTIFICATION_WINDOW_FETCH_CAP, Asc);
      hide InOrder, ByBlock, PrefixCut;
      events := batch.events;
    }

    // `sendDigestEmail`: without a mail host it returns as if it had sent.
    method SendDigestEmail(user: User, events: seq<Event>, w: Weather) returns (threw: bool)
      requires user in mailboxes
      modifies this
      ensures threw <==> SendThrows(w)
      ensures mailboxes == if GoesOut(w)
                           then old(mailboxes)[user := old(mailboxes)[user].(emails := old(mailboxes)[user].emails + [events])]
                           else old(mailboxes)
    {
      if !w.smtpConfigured {
        return false;
      }
      if w.send.Refused? {
        return true;
      }
      mailboxes := mailboxes[user := mailboxes[user].(emails := mailboxes[user].emails + [events])];
      threw := w.send.DeliversUnheard?;
    }

    method DigestUser(user: User, w: Weather, genesis: nat) returns (outcome: Outcome)
      requires user in mailboxes && Good(w)
      modifies this
      ensures mailboxes == old(mailboxes)[user := Run(old(mailboxes)[user], w, genesis)]
      ensures outcome == Sent <==>
        News(w, old(mailboxes)[user].cursor, genesis) != [] && !SendThrows(w) && !w.writeThrows
    {
      assert w.window.Some? ==> InOrder(w.window.value);
      hide Delivered, FilterEventsAfter, InOrder, ByBlock, Good, PrefixCut;
      var cursor := Clamped(mailboxes[user].cursor, genesis);
      if w.window.None? {
        return Skipped;
      }
      var events := FetchOldest(w.window.value);
      var news := FilterEventsAfter(events, cursor);
      assert news == News(w, mailboxes[user].cursor, genesis);
      hide News, Clamped;
      if news == [] {
        return Skipped;
      }
      var threw := SendDigestEmail(user, news, w);
      if threw || w.writeThrows {
        return Skipped;
      }
      mailboxes := mailboxes[user := mailboxes[user].(cursor := Last(news).block)];
      outcome := Sent;
    }

    /** `runDigest`: every user due gets one run, a failure for one leaves the others
        alone, and every user is counted once, as sent exactly when the cursor moved. */
    method RunDigest(due: seq<User>, weather: map<User, Weather>, genesis: nat) returns (sent: nat, skipped: nat)
      requires NoDuplicates(due) && forall u :: u in due ==> u in mailboxes && u in weather && Good(weather[u])
      modifies this
      ensures mailboxes.Keys == old(mailboxes).Keys && sent + skipped == |due|
      ensures sent == |set u | u in due && mailboxes[u].cursor > old(mailboxes)[u].cursor|
      ensures forall u :: u in mailboxes ==>
        mailboxes[u] == if u in due then Run(old(mailboxes)[u], weather[u], genesis) else old(mailboxes)[u]
    {
      hide Run, Good, News, SendThrows;
      sent, skipped := 0, 0;
      ghost var moved: set<User> := {};
      for i := 0 to |due|
        invariant mailboxes.Keys == old(mailboxes).Keys && sent + skipped == i && sent == |moved|
        invariant forall u :: u in moved <==> u in due[..i] && mailboxes[u].cursor > old(mailboxes)[u].cursor
        invariant forall u :: u in mailboxes ==>
          mailboxes[u] == if u in due[..i] then Run(old(mailboxes)[u], weather[u], genesis) else old(mailboxes)[u]
      {
        assert due[i] !in due[..i];
        CountedIffMoved(mailboxes[due[i]], weather[due[i]], genesis);
        var outcome := DigestUser(due[i], weather[due[i]], genesis);
        if outcome == Sent {
          sent := sent + 1;
          moved := moved + {due[i]};
        } else {
          skipped := skipped + 1;
        }
        assert due[..i + 1] == due[..i] + [due[i]];
      }
      assert due[..|due|] == due;
      assert moved == set u | u in due && mailboxes[u].cursor > old(mailboxes)[u].cursor;
    }
  }

  // ---------------------------------------------------------------------
  // One run
  // ---------------------------------------------------------------------

  // Every event of the window up to block `upto` and past the cursor.
  predicate Covers(news: seq<Event>, window: seq<Event>, cursor: nat, upto: nat)
  {
    forall e :: e in window && cursor < e.block <= upto ==> e in news
  }

  // A block the fetch delivers an event of is delivered whole, and so is what came
  // before it.
  lemma DeliveredIsWhole(window: seq<Event>, e: Event)
    requires InOrder(window) && e in window
    requires Delivered(window) != [] && e.block <= Last(Delivered(window)).block
    ensures e in Delivered(window)
  {
    var n := |Delivered(window)|;
    var i :| 0 <= i < |window| && window[i] == e;
    PrefixInOrder(window, 0);
    assert Edge(window, n);
    assert Delivered(window)[n - 1] == window[n - 1];
    assert forall k :: n <= k < |window| ==> window[n - 1].block < window[k].block;
    assert i < n;
    assert Delivered(window)[i] == e;
  }

  lemma FilterOrder(d: seq<Event>, since: nat)
    requires ByBlock(d)
    ensures ByBlock(FilterEventsAfter(d, since))
    ensures FilterEventsAfter(d, since) != [] ==> Last(FilterEventsAfter(d, since)) == Last(d)
  {
    hide FilterEventsAfter;
    var news := FilterEventsAfter(d, since);
    var k := |d| - |news|;
    assert forall i :: 0 <= i < |news| ==> news[i] == d[k + i];
  }

  lemma FilterMember(d: seq<Event>, since: nat, e: Event)
    requires ByBlock(d)
    ensures e in FilterEventsAfter(d, since) <==> e in d && e.block > since
  {
    hide FilterEventsAfter, ByBlock;
    var news := FilterEventsAfter(d, since);
    var k := |d| - |news|;
    if e in d && e.block > since {
      var i :| 0 <= i < |d| && d[i] == e;
      assert news[i - k] == e;
    }
    if e in news {
      var i :| 0 <= i < |news| && news[i] == e;
      assert d[k + i] == e;
    }
  }

  lemma FilterFacts(d: seq<Event>, since: nat)
    requires ByBlock(d)
    ensures var news := FilterEventsAfter(d, since);
            && ByBlock(news) && (forall e :: e in news <==> e in d && e.block > since)
            && (news != [] ==> Last(news) == Last(d))
  {
    hide *;
    FilterOrder(d, since);
    forall e {
      FilterMember(d, since, e);
    }
  }

  lemma NewsFacts(w: Weather, cursor: nat, genesis: nat)
    requires Good(w)
    ensures var news := News(w, cursor, genesis);
            && ByBlock(news)
            && (forall e :: e in news ==>
                  e.block > Clamped(cursor, genesis) && w.window.Some? && e in w.window.value)
            && (news != [] ==> Covers(news, w.window.value, Clamped(cursor, genesis), Last(news).block))
  {
    if w.window.Some? {
      var window, since := w.window.value, Clamped(cursor, genesis);
      var d := Delivered(window);
      FilterFacts(d, since);
      var news := News(w, cursor, genesis);
      assert news == FilterEventsAfter(d, since);
      assert forall e :: e in d ==> e in window;
      hide FilterEventsAfter, Delivered, InOrder, News, ByBlock;
      if news != [] {
        assert news != [] ==> d != [] by {
          assert Last(news) in news;
        }
        forall e | e in window && since < e.block <= Last(news).block ensures e in news {
          DeliveredIsWhole(window, e);
        }
      }
    }
  }

  /** A run that moves the cursor moves it strictly forward, to the last block it
      reports. */
  lemma CursorStrictlyRises(m: Mailbox, w: Weather, genesis: nat)
    requires Good(w)
    ensures Run(m, w, genesis).cursor != m.cursor ==> Run(m, w, genesis).cursor > m.cursor
    ensures Run(m, w, genesis).emails != m.emails && !LosesTrack(w) ==> Run(m, w, genesis).cursor > m.cursor
  {
    NewsFacts(w, m.cursor, genesis);
    var news := News(w, m.cursor, genesis);
    if news != [] {
      assert Last(news) in news;
    }
  }

  lemma CountedIffMoved(m: Mailbox, w: Weather, genesis: nat)
    requires Good(w)
    ensures News(w, m.cursor, genesis) != [] && !SendThrows(w) && !w.writeThrows <==> Run(m, w, genesis).cursor > m.cursor
  {
    CursorStrictlyRises(m, w, genesis);
    NewsFacts(w, m.cursor, genesis);
    hide News, Good;
    var news := News(w, m.cursor, genesis);
    assert news != [] ==> Last(news) in news;
  }

  /** Moving the cursor passes no event of the run's window that the run did not
      email, exactly when mail is configured: without a mail host the cursor moves
      past events that nobody is told. */
  lemma CursorPassesOnlySentIff(m: Mailbox, w: Weather, genesis: nat)
    requires Good(w) && Run(m, w, genesis).cursor != m.cursor
    ensures var after := Run(m, w, genesis);
            w.smtpConfigured <==>
              && |after.emails| == |m.emails| + 1 && w.window.Some?
              && forall e :: e in w.window.value && m.cursor < e.block <= after.cursor && e.block >= genesis ==>
                   e in Last(after.emails)
  {
    NewsFacts(w, m.cursor, genesis);
  }

  /** An email tells of events of the window past the stored cursor and none from
      before genesis. */
  lemma EmailsTellOnlyNews(m: Mailbox, w: Weather, genesis: nat)
    requires Good(w)
    ensures var after := Run(m, w, genesis);
            || after.emails == m.emails
            || (&& |after.emails| == |m.emails| + 1 && after.emails[..|m.emails|] == m.emails && w.window.Some?
                && forall e :: e in Last(after.emails) ==> e in w.window.value && e.block > m.cursor && e.block >= genesis)
  {
    NewsFacts(w, m.cursor, genesis);
  }

  /** A window within the cap leaves nothing behind: after a run that works, no event
      of it since genesis lies past the cursor. */
  lemma FittingWindowIsDrained(m: Mailbox, w: Weather, genesis: nat)
    requires Good(w) && w.window.Some? && |w.window.value| <= 1000
    requires (w.smtpConfigured ==> w.send.Delivers?) && !w.writeThrows
    ensures forall e :: e in w.window.value && e.block >= genesis ==> e.block <= Run(m, w, genesis).cursor
  {
    var window := w.window.value;
    assert Delivered(window) == window;
    FilterFacts(window, Clamped(m.cursor, genesis));
    NewsEndsIt(window);
    hide FilterEventsAfter, Delivered, ByBlock, InOrder;
  }

  // Another read of the same window may order the rows of one operation otherwise.
  predicate SameRows(v: Weather, w: Weather)
  {
    v.window.Some? && w.window.Some? && multiset(v.window.value) == multiset(w.window.value)
  }

  lemma SplitCounts(s: seq<Event>, n: nat, e: Event)
    requires n <= |s|
    ensures multiset(s)[e] == multiset(s[..n])[e] + multiset(s[n..])[e]
  {
    assert s == s[..n] + s[n..];
  }

  lemma CountsBelow(u: seq<Event>, w: seq<Event>, i: nat, e: Event)
    requires ByBlock(u) && ByBlock(w) && multiset(u) == multiset(w) && i < |u| && i < |w|
    requires u[i].block < w[i].block
    ensures multiset(u[..i + 1])[e] <= multiset(w[..i])[e]
  {
    SplitCounts(u, i + 1, e);
    SplitCounts(w, i, e);
    if e in u[..i + 1] {
      assert e.block <= u[i].block;
      assert e !in w[i..];
    }
  }

  lemma CountsFit(a: multiset<Event>, b: multiset<Event>)
    requires forall e :: a[e] <= b[e]
    ensures |a| <= |b|
  {
    assert b == a + (b - a);
  }

  lemma NotLaterAt(u: seq<Event>, w: seq<Event>, i: nat)
    requires ByBlock(u) && ByBlock(w) && multiset(u) == multiset(w) && i < |u| && i < |w|
    ensures w[i].block <= u[i].block
  {
    var a, b := multiset(u[..i + 1]), multiset(w[..i]);
    assert |a| == i + 1 && |b| == i;
    if u[i].block < w[i].block {
      forall e ensures a[e] <= b[e] {
        CountsBelow(u, w, i, e);
      }
      hide ByBlock;
      CountsFit(a, b);
    }
  }

  // Either order has the same block at every place.
  lemma SameBlocks(u: seq<Event>, w: seq<Event>)
    requires ByBlock(u) && ByBlock(w) && multiset(u) == multiset(w)
    ensures |u| == |w| && forall i :: 0 <= i < |u| ==> u[i].block == w[i].block
  {
    assert |multiset(u)| == |multiset(w)|;
    hide ByBlock;
    forall i | 0 <= i < |u| ensures u[i].block == w[i].block {
      NotLaterAt(u, w, i);
      NotLaterAt(w, u, i);
    }
  }

  lemma SameCut(u: seq<Event>, w: seq<Event>, cap: nat)
    requires ByBlock(u) && ByBlock(w) && multiset(u) == multiset(w) && cap >= 1
    ensures |u| == |w| && PrefixCut(u, cap) == PrefixCut(w, cap)
  {
    SameBlocks(u, w);
    forall n: nat | n <= |u| ensures Edge(u, n) <==> Edge(w, n) {
    }
    hide ByBlock, Edge, PrefixCut;
  }

  // A whole-block prefix holds the same rows in either order.
  lemma SamePrefix(u: seq<Event>, w: seq<Event>, n: nat)
    requires ByBlock(u) && ByBlock(w) && multiset(u) == multiset(w) && n <= |u| == |w| && Edge(u, n)
    ensures multiset(u[..n]) == multiset(w[..n])
  {
    SameBlocks(u, w);
    assert u[..|u|] == u && w[..|w|] == w;
    if 0 < n < |u| {
      hide ByBlock;
      forall e ensures multiset(u[..n])[e] == multiset(w[..n])[e] {
        PrefixCounts(u, n, e);
        PrefixCounts(w, n, e);
      }
    }
  }

  lemma PrefixCounts(w: seq<Event>, n: nat, e: Event)
    requires ByBlock(w) && 0 < n < |w| && w[n - 1].block != w[n].block
    ensures multiset(w[..n])[e] == if e.block <= w[n - 1].block then multiset(w)[e] else 0
  {
    SplitCounts(w, n, e);
    if e.block <= w[n - 1].block {
      assert e !in w[n..];
    } else {
      assert e !in w[..n];
    }
  }

  lemma FilterCounts(d: seq<Event>, since: nat, e: Event)
    requires ByBlock(d)
    ensures multiset(FilterEventsAfter(d, since))[e] == if e.block > since then multiset(d)[e] else 0
  {
    var news := FilterEventsAfter(d, since);
    var k := |d| - |news|;
    hide FilterEventsAfter, ByBlock;
    assert d == d[..k] + d[k..] && news == d[k..];
    if e.block > since {
      assert e !in d[..k];
    } else {
      assert e !in d[k..];
    }
  }

  lemma SameDelivered(v: Weather, w: Weather)
    requires Good(v) && Good(w) && SameRows(v, w)
    ensures multiset(Delivered(v.window.value)) == multiset(Delivered(w.window.value))
  {
    var u, x := v.window.value, w.window.value;
    PrefixInOrder(u, 0);
    PrefixInOrder(x, 0);
    SameCut(u, x, NOTIFICATION_WINDOW_FETCH_CAP);
    assert WholePrefix(u, NOTIFICATION_WINDOW_FETCH_CAP, PrefixCut(u, NOTIFICATION_WINDOW_FETCH_CAP));
    hide ByBlock, InOrder, PrefixCut;
    SamePrefix(u, x, PrefixCut(u, NOTIFICATION_WINDOW_FETCH_CAP));
  }

  lemma SameFiltered(c: seq<Event>, d: seq<Event>, since: nat)
    requires ByBlock(c) && ByBlock(d) && multiset(c) == multiset(d)
    ensures multiset(FilterEventsAfter(c, since)) == multiset(FilterEventsAfter(d, since))
    ensures |FilterEventsAfter(c, since)| == |FilterEventsAfter(d, since)|
  {
    hide ByBlock, FilterEventsAfter;
    forall e ensures multiset(FilterEventsAfter(c, since))[e] == multiset(FilterEventsAfter(d, since))[e] {
      FilterCounts(c, since, e);
      FilterCounts(d, since, e);
    }
    SameSize(FilterEventsAfter(c, since), FilterEventsAfter(d, since));
  }

  // What a run has to say does not depend on that order.
  lemma SameNews(v: Weather, w: Weather, cursor: nat, genesis: nat)
    requires Good(v) && Good(w) && SameRows(v, w)
    ensures multiset(News(v, cursor, genesis)) == multiset(News(w, cursor, genesis))
    ensures |News(v, cursor, genesis)| == |News(w, cursor, genesis)|
  {
    SameDelivered(v, w);
    hide Delivered, FilterEventsAfter, InOrder, ByBlock;
    SameFiltered(Delivered(v.window.value), Delivered(w.window.value), Clamped(cursor, genesis));
  }

  // Past the cursor a run leaves, the window it saw holds no news.
  lemma NoNewsLeft(w: Weather, cursor: nat, genesis: nat)
    requires Good(w) && News(w, cursor, genesis) != []
    ensures News(w, Last(News(w, cursor, genesis)).block, genesis) == []
  {
    var d := Delivered(w.window.value);
    NewsFacts(w, cursor, genesis);
    FilterFacts(d, Clamped(cursor, genesis));
    var moved := Last(News(w, cursor, genesis)).block;
    assert moved == Last(d).block;
    FilterFacts(d, Clamped(moved, genesis));
    NewsEndsIt(d);
    assert Last(News(w, cursor, genesis)) in News(w, cursor, genesis);
    var again := News(w, moved, genesis);
    assert forall e :: e in again ==> e in d && e.block > moved;
    assert multiset(again) == multiset{} && |multiset(again)| == |again|;
  }

  /** Running again on the same window finds nothing new, even when the window held
      more than was reported: the rest waits until the floor has moved. */
  lemma SecondRunFindsNothing(m: Mailbox, w: Weather, v: Weather, genesis: nat)
    requires Good(w) && Good(v) && SameRows(v, w)
    requires Run(m, w, genesis).cursor != m.cursor
    ensures Run(Run(m, w, genesis), v, genesis) == Run(m, w, genesis)
  {
    var moved := Run(m, w, genesis).cursor;
    hide News, Good, SameRows, Clamped;
    NoNewsLeft(w, m.cursor, genesis);
    SameNews(v, w, moved, genesis);
  }

  // ---------------------------------------------------------------------
  // Many runs
  // ---------------------------------------------------------------------

  predicate AllGood(ws: seq<Weather>)
  {
    forall i :: 0 <= i < |ws| ==> Good(ws[i])
  }

  function Runs(m: Mailbox, ws: seq<Weather>, genesis: nat): Mailbox
    requires AllGood(ws)
  {
    if ws == [] then m else Run(Runs(m, ws[..|ws| - 1], genesis), Last(ws), genesis)
  }

  // No run sent an email and then failed to store the cursor.
  predicate NeverLosesTrack(ws: seq<Weather>)
  {
    forall i :: 0 <= i < |ws| ==> !LosesTrack(ws[i])
  }

  // No event is in two emails.
  predicate ToldOnce(emails: seq<seq<Event>>)
  {
    forall i, j :: 0 <= i < j < |emails| ==> forall e :: e in emails[i] ==> e !in emails[j]
  }

  predicate AllBefore(emails: seq<seq<Event>>, cursor: nat)
  {
    forall i, e :: 0 <= i < |emails| && e in emails[i] ==> e.block <= cursor
  }

  lemma OneRunStaysBehindCursor(m: Mailbox, w: Weather, genesis: nat)
    requires Good(w) && !LosesTrack(w) && AllBefore(m.emails, m.cursor) && ToldOnce(m.emails)
    ensures var after := Run(m, w, genesis);
            after.cursor >= m.cursor && AllBefore(after.emails, after.cursor) && ToldOnce(after.emails)
  {
    NewsFacts(w, m.cursor, genesis);
    CursorStrictlyRises(m, w, genesis);
    var news := News(w, m.cursor, genesis);
    NewsEndsIt(news);
    if news != [] {
      OneMoreEmail(m.emails, news, m.cursor, Last(news).block);
    }
    hide News, Good, ByBlock, AllBefore, ToldOnce;
  }

  lemma OneMoreEmail(emails: seq<seq<Event>>, news: seq<Event>, cursor: nat, moved: nat)
    requires AllBefore(emails, cursor) && ToldOnce(emails) && cursor <= moved
    requires forall e :: e in news ==> cursor < e.block <= moved
    ensures AllBefore(emails + [news], moved) && ToldOnce(emails + [news]) && AllBefore(emails, moved)
  {
  }

  lemma {:induction false} EmailsStayBehindCursor(cursor: nat, ws: seq<Weather>, genesis: nat)
    requires AllGood(ws) && NeverLosesTrack(ws)
    ensures var m := Runs(Mailbox(cursor, []), ws, genesis);
            m.cursor >= cursor && AllBefore(m.emails, m.cursor) && ToldOnce(m.emails)
  {
    if ws != [] {
      EmailsStayBehindCursor(cursor, ws[..|ws| - 1], genesis);
      hide Run, Good, AllBefore, ToldOnce;
      OneRunStaysBehindCursor(Runs(Mailbox(cursor, []), ws[..|ws| - 1], genesis), Last(ws), genesis);
    }
  }

  lemma NewsEndsIt(news: seq<Event>)
    requires ByBlock(news)
    ensures forall e :: e in news ==> e.block <= Last(news).block
  {
    forall e | e in news ensures e.block <= Last(news).block {
      var k :| 0 <= k < |news| && news[k] == e;
    }
  }

  /** Over any sequence of runs on whatever windows they find, no event is emailed
      twice and the cursor never falls, unless an email went out and the cursor
      stayed behind. */
  lemma NoEventTwice(cursor: nat, ws: seq<Weather>, genesis: nat, i: nat, j: nat, e: Event)
    requires AllGood(ws) && NeverLosesTrack(ws)
    requires i < j < |Runs(Mailbox(cursor, []), ws, genesis).emails|
    ensures var emails := Runs(Mailbox(cursor, []), ws, genesis).emails; !(e in emails[i] && e in emails[j])
  {
    EmailsStayBehindCursor(cursor, ws, genesis);
  }

  /** One is enough: whether the send threw after it went out or the cursor write was
      lost, the next run on the same window that gets an email out sends that one
      again. */
  lemma LostTrackRepeats(m: Mailbox, w: Weather, v: Weather, genesis: nat)
    requires Good(w) && Good(v) && SameRows(v, w) && News(w, m.cursor, genesis) != []
    requires LosesTrack(w) && GoesOut(v)
    ensures var after := Run(Run(m, w, genesis), v, genesis);
            |after.emails| == |m.emails| + 2
            && multiset(after.emails[|m.emails|]) == multiset(after.emails[|m.emails| + 1])
  {
    hide News, Good, SameRows;
    SameNews(v, w, m.cursor, genesis);
  }
}
