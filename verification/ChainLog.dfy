/** Operations read back from the chain. A query sees them as an unordered set of
    rows and ranks them; a replay sees them as a sequence in chain order. */
module ChainLog {
  import opened Prelude

  datatype Op<+A> = Op(pos: Pos, signers: seq<string>, action: A)

  type Log<+A> = seq<Op<A>>

  // Operation ids strictly increase and blocks never decrease.
  ghost predicate ChainOrdered<A>(log: Log<A>)
  {
    forall i, j :: 0 <= i < j < |log| ==> Before(log[i].pos, log[j].pos)
  }

  function Rows<A(==)>(log: Log<A>): set<Op<A>>
  {
    set o | o in log
  }

  ghost predicate IsLatest<A>(rows: set<Op<A>>, o: Op<A>)
  {
    o in rows && forall p :: p in rows && p != o ==> Before(p.pos, o.pos)
  }

  ghost predicate Ranked<A>(rows: set<Op<A>>)
  {
    forall p, q :: p in rows && q in rows && p != q ==> Before(p.pos, q.pos) || Before(q.pos, p.pos)
  }

  lemma {:induction false} LatestExists<A>(rows: set<Op<A>>)
    requires Ranked(rows) && rows != {}
    ensures exists o :: IsLatest(rows, o)
  {
    var o :| o in rows;
    if rows == {o} {
      assert IsLatest(rows, o);
    } else {
      LatestExists(rows - {o});
      var p :| IsLatest(rows - {o}, p);
      assert IsLatest(rows, if Before(o.pos, p.pos) then p else o);
    }
  }

  /** The row a `ROW_NUMBER() ... ORDER BY block_num DESC, id DESC` ranks first. */
  ghost function Latest<A>(rows: set<Op<A>>): (o: Op<A>)
    requires Ranked(rows) && rows != {}
    ensures IsLatest(rows, o)
  {
    LatestExists(rows);
    var o :| IsLatest(rows, o);
    o
  }

  lemma OrderedRowsAreRanked<A>(log: Log<A>, rows: set<Op<A>>)
    requires ChainOrdered(log) && rows <= Rows(log)
    ensures Ranked(rows)
  {
    forall p, q | p in rows && q in rows && p != q ensures Before(p.pos, q.pos) || Before(q.pos, p.pos) {
      var i :| 0 <= i < |log| && log[i] == p;
      var j :| 0 <= j < |log| && log[j] == q;
    }
  }

  // An operation that follows every row becomes the first-ranked one.
  lemma AppendedIsLatest<A>(rows: set<Op<A>>, o: Op<A>)
    requires forall p :: p in rows ==> Before(p.pos, o.pos)
    requires Ranked(rows + {o})
    ensures Latest(rows + {o}) == o
  {
    assert o in rows + {o};
  }

  lemma OrderedFront<A>(log: Log<A>)
    requires ChainOrdered(log) && |log| > 0
    ensures ChainOrdered(log[..|log| - 1])
    ensures Rows(log) == Rows(log[..|log| - 1]) + {Last(log)}
    ensures forall p :: p in Rows(log[..|log| - 1]) ==> Before(p.pos, Last(log).pos)
  {
    assert log == log[..|log| - 1] + [Last(log)];
  }

  // ---------------------------------------------------------------------
  // Last signal wins
  // ---------------------------------------------------------------------

  /** One pass in chain order in which some operations say yes or no and the last
      to say anything is believed. */
  function LastSignal<A>(log: Log<A>, signal: Op<A> -> Option<bool>): Option<bool>
  {
    if log == [] then None
    else if signal(Last(log)).Some? then signal(Last(log))
    else LastSignal(log[..|log| - 1], signal)
  }

  /** Believing the last signal of a pass is believing the first-ranked row. */
  lemma {:induction false} LastSignalIsLatest<A>(log: Log<A>, signal: Op<A> -> Option<bool>, carriers: set<Op<A>>)
    requires ChainOrdered(log)
    requires forall o :: o in carriers <==> o in log && signal(o).Some?
    ensures Ranked(carriers)
    ensures LastSignal(log, signal) == if carriers == {} then None else signal(Latest(carriers))
  {
    OrderedRowsAreRanked(log, carriers);
    if log != [] {
      var front, op := log[..|log| - 1], Last(log);
      OrderedFront(log);
      assert log == front + [op];
      if signal(op).Some? {
        assert IsLatest(carriers, op);
      } else {
        LastSignalIsLatest(front, signal, carriers);
      }
    }
  }
}
