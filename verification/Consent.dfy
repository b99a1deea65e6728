/** Consented authorship (Routes 1 and 2): who, beyond a paper's broadcaster, has
    accepted authorship of it.

    The process resolves it in `computeConsentedAuthors` and the database in
    `consentedAuthorsCteBody`. Both are compared with replaying the operations in
    chain order, and with each other. */
module Consent {
  import opened Prelude
  import opened ChainLog
  import opened ContinuationChain

  type Account = string

  datatype Action =
    | AuthorAccept(root: PostId)
    | AuthorResign(root: PostId)
    | RevokeAuthorship(paper: PostId, claimer: Account)

  type ConsentOp = Op<Action>

  /** One author entry of one operation on a chain post, with the operation's
      block. Anchors are already normalized. */
  datatype ClaimedSlot = ClaimedSlot(hive: Option<Account>, orcid: Option<string>, firstBlock: nat)

  // The attested ORCID of each account that has a live one.
  type Attestations = map<Account, Option<string>>

  // `required_posting_auths ->> 0`, with "" for an operation that has none.
  function Signer(op: ConsentOp): Account
  {
    if |op.signers| > 0 then op.signers[0] else ""
  }

  function AttestedOrcid(attested: Attestations, s: Account): Option<string>
  {
    if s in attested then attested[s] else None
  }

  predicate Present(orcid: Option<string>)
  {
    orcid.Some? && orcid.value != ""
  }

  // `slotsAnchoring`: by hive name, or by the signer's attested ORCID.
  predicate Anchors(slot: ClaimedSlot, s: Account, orcid: Option<string>)
  {
    slot.hive == Some(s) || (Present(slot.orcid) && Present(orcid) && slot.orcid == orcid)
  }

  ghost predicate IsMin(s: set<nat>, m: nat)
  {
    m in s && forall n :: n in s ==> m <= n
  }

  lemma {:induction false} MinExists(s: set<nat>)
    requires s != {}
    ensures exists m :: IsMin(s, m)
  {
    var a :| a in s;
    if s == {a} {
      assert IsMin(s, a);
    } else {
      MinExists(s - {a});
      var b :| IsMin(s - {a}, b);
      var m := if a < b then a else b;
      forall n | n in s ensures m <= n {
        assert n == a || n in s - {a};
      }
      assert IsMin(s, m);
    }
  }

  ghost function MinOf(s: set<nat>): (m: nat)
    requires s != {}
    ensures IsMin(s, m)
  {
    MinExists(s);
    var m :| IsMin(s, m);
    m
  }

  // ---------------------------------------------------------------------
  // The in-process resolution, as a query over a set of operations
  // ---------------------------------------------------------------------

  function AnchorBlocks(slots: set<ClaimedSlot>, s: Account, orcid: Option<string>): set<nat>
  {
    set x | x in slots && Anchors(x, s, orcid) :: x.firstBlock
  }

  function OpsOf(ops: set<ConsentOp>, s: Account): set<ConsentOp>
  {
    set o | o in ops && Signer(o) == s
  }

  // An accept counts only strictly after the slot first appeared; anything else
  // always counts.
  predicate InTime(o: ConsentOp, firstBlock: nat)
  {
    o.action.AuthorAccept? ==> o.pos.block > firstBlock
  }

  function ValidOps(ops: set<ConsentOp>, s: Account, firstBlock: nat): set<ConsentOp>
  {
    set o | o in OpsOf(ops, s) && InTime(o, firstBlock)
  }

  ghost predicate LatestAccepts(ops: set<ConsentOp>)
    requires Ranked(ops)
  {
    ops != {} && Latest(ops).action.AuthorAccept?
  }

  // Rule 2: the latest valid operation of an anchored signer is an accept.
  ghost predicate SignerConsents(slots: set<ClaimedSlot>, orcid: Option<string>, ops: set<ConsentOp>, s: Account)
    requires Ranked(ops)
  {
    var blocks := AnchorBlocks(slots, s, orcid);
    s != "" && blocks != {} && LatestAccepts(ValidOps(ops, s, MinOf(blocks)))
  }

  // What `computeConsentedAuthors` returns, as membership.
  ghost predicate Consented(root: Account, slots: set<ClaimedSlot>, attested: Attestations,
                            ops: set<ConsentOp>, s: Account)
    requires Ranked(ops)
  {
    if s == root then AnchorBlocks(slots, s, AttestedOrcid(attested, s)) != {}
    else SignerConsents(slots, AttestedOrcid(attested, s), ops, s)
  }

  /** The latest operation alone decides, valid or not: a late invalid accept has
      no valid accept before it. Every pushdown below rests on this. */
  lemma LatestOpDecides(ops: set<ConsentOp>, s: Account, firstBlock: nat)
    requires Ranked(ops)
    ensures LatestAccepts(ValidOps(ops, s, firstBlock))
       <==> LatestAccepts(OpsOf(ops, s)) && InTime(Latest(OpsOf(ops, s)), firstBlock)
  {
    var all, valid := OpsOf(ops, s), ValidOps(ops, s, firstBlock);
    if all != {} {
      var last := Latest(all);
      if InTime(last, firstBlock) {
        assert last in valid;
        assert Latest(valid) == last;
      } else if valid != {} {
        var v := Latest(valid);
        assert v in all && v != last ==> Before(v.pos, last.pos);
      }
    }
  }

  // ---------------------------------------------------------------------
  // The in-process resolution is the replay
  // ---------------------------------------------------------------------

  // One operation of the replay: an in-time accept enters, a resign leaves,
  // everything else is ignored.
  ghost function ReplayStep(consented: set<Account>, op: ConsentOp, root: Account, slots: set<ClaimedSlot>,
                            attested: Attestations): set<Account>
  {
    var s := Signer(op);
    var blocks := AnchorBlocks(slots, s, AttestedOrcid(attested, s));
    if s == "" || s == root || blocks == {} then consented
    else if !op.action.AuthorAccept? then consented - {s}
    else if op.pos.block > MinOf(blocks) then consented + {s}
    else consented
  }

  ghost function Replay(log: Log<Action>, root: Account, slots: set<ClaimedSlot>, attested: Attestations): set<Account>
  {
    if log == [] then
      if AnchorBlocks(slots, root, AttestedOrcid(attested, root)) != {} then {root} else {}
    else
      ReplayStep(Replay(log[..|log| - 1], root, slots, attested), Last(log), root, slots, attested)
  }

  lemma StepFollowsLatest(rows: set<ConsentOp>, op: ConsentOp, root: Account, slots: set<ClaimedSlot>,
                          attested: Attestations, consented: set<Account>, s: Account)
    requires Ranked(rows) && Ranked(rows + {op}) && forall p :: p in rows ==> Before(p.pos, op.pos)
    requires s in consented <==> Consented(root, slots, attested, rows, s)
    ensures s in ReplayStep(consented, op, root, slots, attested)
       <==> Consented(root, slots, attested, rows + {op}, s)
  {
    var blocks := AnchorBlocks(slots, s, AttestedOrcid(attested, s));
    if blocks != {} && s != root {
      var first := MinOf(blocks);
      var before, after := ValidOps(rows, s, first), ValidOps(rows + {op}, s, first);
      if Signer(op) == s && InTime(op, first) {
        assert after == before + {op};
        AppendedIsLatest(before, op);
      } else {
        assert after == before;
      }
    }
  }

  /** The latest valid operation of each signer decides exactly as a replay of
      the operations in chain order does. */
  lemma {:induction false} ConsentEqualsReplay(log: Log<Action>, root: Account, slots: set<ClaimedSlot>,
                                               attested: Attestations, s: Account)
    requires ChainOrdered(log)
    ensures Ranked(Rows(log))
    ensures Consented(root, slots, attested, Rows(log), s) <==> s in Replay(log, root, slots, attested)
  {
    OrderedRowsAreRanked(log, Rows(log));
    if log != [] {
      OrderedFront(log);
      ConsentEqualsReplay(log[..|log| - 1], root, slots, attested, s);
      StepFollowsLatest(Rows(log[..|log| - 1]), Last(log), root, slots, attested,
                        Replay(log[..|log| - 1], root, slots, attested), s);
    }
  }

  // ---------------------------------------------------------------------
  // The in-process resolution as it runs
  // ---------------------------------------------------------------------

  function SlotSet(slots: seq<ClaimedSlot>): set<ClaimedSlot>
  {
    set x | x in slots
  }

  method SlotsAnchoring(slots: seq<ClaimedSlot>, s: Account, orcid: Option<string>) returns (anchors: seq<ClaimedSlot>)
    ensures forall x :: x in anchors <==> x in slots && Anchors(x, s, orcid)
  {
    anchors := [];
    for i := 0 to |slots|
      invariant forall x :: x in anchors <==> x in slots[..i] && Anchors(x, s, orcid)
    {
      if Anchors(slots[i], s, orcid) {
        anchors := anchors + [slots[i]];
      }
    }
  }

  method EarliestBlock(slots: seq<ClaimedSlot>) returns (m: nat)
    requires |slots| > 0
    ensures exists i :: 0 <= i < |slots| && slots[i].firstBlock == m
    ensures forall i :: 0 <= i < |slots| ==> m <= slots[i].firstBlock
  {
    m := slots[0].firstBlock;
    for i := 1 to |slots|
      invariant exists j :: 0 <= j < i && slots[j].firstBlock == m
      invariant forall j :: 0 <= j < i ==> m <= slots[j].firstBlock
    {
      if slots[i].firstBlock < m {
        m := slots[i].firstBlock;
      }
    }
  }

  predicate Descending(ops: seq<ConsentOp>)
  {
    forall i, j :: 0 <= i < j < |ops| ==> !Before(ops[i].pos, ops[j].pos)
  }

  lemma InsertKeepsDescending(sorted: seq<ConsentOp>, at: nat, op: ConsentOp)
    requires Descending(sorted) && at <= |sorted|
    requires forall j :: 0 <= j < at ==> Before(op.pos, sorted[j].pos)
    requires at < |sorted| ==> !Before(op.pos, sorted[at].pos)
    ensures var grown := sorted[..at] + [op] + sorted[at..];
            Descending(grown) && Rows(grown) == Rows(sorted) + {op}
  {
    var grown := sorted[..at] + [op] + sorted[at..];
    forall o ensures o in grown <==> o in sorted || o == op {
      assert sorted == sorted[..at] + sorted[at..];
    }
    forall i, j | 0 <= i < j < |grown| ensures !Before(grown[i].pos, grown[j].pos) {
      if at < j {
        assert grown[j] == sorted[j - 1];
        assert i > at ==> grown[i] == sorted[i - 1];
      }
    }
  }

  lemma HeadIsLatest(sorted: seq<ConsentOp>)
    requires Descending(sorted) && |sorted| > 0 && Ranked(Rows(sorted))
    ensures IsLatest(Rows(sorted), sorted[0])
  {
    forall p | p in Rows(sorted) && p != sorted[0] ensures Before(p.pos, sorted[0].pos) {
      var i :| 0 <= i < |sorted| && sorted[i] == p;
      assert sorted[0] in Rows(sorted);
    }
  }

  // `ops.sort(compareOpsDesc)`.
  method SortDescending(ops: seq<ConsentOp>) returns (sorted: seq<ConsentOp>)
    ensures Descending(sorted) && Rows(sorted) == Rows(ops)
  {
    sorted := [];
    for i := 0 to |ops|
      invariant Descending(sorted) && Rows(sorted) == Rows(ops[..i])
    {
      var at := 0;
      while at < |sorted| && Before(ops[i].pos, sorted[at].pos)
        invariant 0 <= at <= |sorted|
        invariant forall j :: 0 <= j < at ==> Before(ops[i].pos, sorted[j].pos)
      {
        at := at + 1;
      }
      InsertKeepsDescending(sorted, at, ops[i]);
      assert Rows(ops[..i + 1]) == Rows(ops[..i]) + {ops[i]};
      sorted := sorted[..at] + [ops[i]] + sorted[at..];
    }
    assert ops == ops[..|ops|];
  }

  method KeepInTime(ops: seq<ConsentOp>, firstBlock: nat) returns (valid: seq<ConsentOp>)
    ensures forall o :: o in valid <==> o in ops && InTime(o, firstBlock)
  {
    valid := [];
    for i := 0 to |ops|
      invariant forall o :: o in valid <==> o in ops[..i] && InTime(o, firstBlock)
    {
      if InTime(ops[i], firstBlock) {
        valid := valid + [ops[i]];
      }
    }
  }

  ghost predicate GroupsSigners(groups: map<Account, seq<ConsentOp>>, ops: set<ConsentOp>)
  {
    forall s :: if s in groups then s != "" && groups[s] != [] && Rows(groups[s]) == OpsOf(ops, s)
                else s == "" || OpsOf(ops, s) == {}
  }

  method GroupBySigner(ops: seq<ConsentOp>) returns (groups: map<Account, seq<ConsentOp>>)
    ensures GroupsSigners(groups, Rows(ops))
  {
    groups := map[];
    for i := 0 to |ops|
      invariant GroupsSigners(groups, Rows(ops[..i]))
    {
      var s := Signer(ops[i]);
      ghost var before, after := Rows(ops[..i]), Rows(ops[..i + 1]);
      assert after == before + {ops[i]};
      forall t ensures OpsOf(after, t) == if t == s then OpsOf(before, t) + {ops[i]} else OpsOf(before, t) {
      }
      if s != "" {
        groups := groups[s := (if s in groups then groups[s] else []) + [ops[i]]];
      }
    }
    assert ops == ops[..|ops|];
  }

  // The decision for one signer.
  method SignerDecision(slots: seq<ClaimedSlot>, orcid: Option<string>, ops: seq<ConsentOp>, s: Account)
    returns (accepts: bool)
    requires Ranked(Rows(ops)) && s != "" && forall o :: o in ops ==> Signer(o) == s
    ensures accepts <==> SignerConsents(SlotSet(slots), orcid, Rows(ops), s)
  {
    var anchors := SlotsAnchoring(slots, s, orcid);
    ghost var blocks := AnchorBlocks(SlotSet(slots), s, orcid);
    if |anchors| == 0 {
      return false;
    }
    assert anchors[0].firstBlock in blocks;
    var first := EarliestBlock(anchors);
    assert IsMin(blocks, first);
    var valid := KeepInTime(ops, first);
    forall o ensures o in Rows(valid) <==> o in ValidOps(Rows(ops), s, first) {
      assert o in Rows(ops) <==> o in ops;
    }
    assert Rows(valid) == ValidOps(Rows(ops), s, first);
    if |valid| == 0 {
      return false;
    }
    var sorted := SortDescending(valid);
    assert valid[0] in Rows(sorted);
    HeadIsLatest(sorted);
    accepts := sorted[0].action.AuthorAccept?;
  }

  /** `computeConsentedAuthors`: whatever order the operations arrive in, the set
      is the one the query over them describes. */
  method ComputeConsentedAuthors(root: Account, slots: seq<ClaimedSlot>, attested: Attestations, ops: seq<ConsentOp>)
    returns (consented: set<Account>)
    requires Ranked(Rows(ops))
    ensures forall s :: s in consented <==> Consented(root, SlotSet(slots), attested, Rows(ops), s)
  {
    consented := {};
    var rootAnchors := SlotsAnchoring(slots, root, AttestedOrcid(attested, root));
    if |rootAnchors| > 0 {
      assert rootAnchors[0].firstBlock in AnchorBlocks(SlotSet(slots), root, AttestedOrcid(attested, root));
      consented := {root};
    }
    var groups := GroupBySigner(ops);
    var signers := groups.Keys;
    while signers != {}
      invariant signers <= groups.Keys
      invariant forall s :: s in consented <==>
        s !in signers - {root} && Consented(root, SlotSet(slots), attested, Rows(ops), s)
      decreases |signers|
    {
      var signer :| signer in signers;
      signers := signers - {signer};
      if signer != root {
        var mine := groups[signer];
        assert forall o :: o in mine ==> o in Rows(mine);
        var accepts := SignerDecision(slots, AttestedOrcid(attested, signer), mine, signer);
        SameOwnOps(Rows(ops), Rows(mine), SlotSet(slots), AttestedOrcid(attested, signer), signer);
        if accepts {
          consented := consented + {signer};
        }
      }
    }
  }

  lemma SameOwnOps(ops: set<ConsentOp>, own: set<ConsentOp>, slots: set<ClaimedSlot>, orcid: Option<string>, s: Account)
    requires Ranked(ops) && Ranked(own) && OpsOf(own, s) == OpsOf(ops, s)
    ensures SignerConsents(slots, orcid, own, s) <==> SignerConsents(slots, orcid, ops, s)
  {
    var blocks := AnchorBlocks(slots, s, orcid);
    if blocks != {} {
      assert ValidOps(own, s, MinOf(blocks)) == ValidOps(ops, s, MinOf(blocks));
    }
  }

  // ---------------------------------------------------------------------
  // What the fetch leaves out
  // ---------------------------------------------------------------------

  const FETCH_CONSENT_OPS_LIMIT: nat := 1000

  function PaperOps(ops: set<ConsentOp>, root: PostId): set<ConsentOp>
  {
    set o | o in ops && !o.action.RevokeAuthorship? && o.action.root == root
  }

  // The accounts `getConsentedAuthors` lets the query look at.
  function EligibleSigners(slots: set<ClaimedSlot>, attested: Attestations): set<Account>
  {
    (set x | x in slots && x.hive.Some? :: x.hive.value)
    + (set s | s in attested && Present(attested[s]) && exists x :: x in slots && x.orcid == attested[s])
  }

  function Selected(ops: set<ConsentOp>, root: PostId, eligible: set<Account>): set<ConsentOp>
  {
    set o | o in PaperOps(ops, root) && Signer(o) in eligible
  }

  lemma EligibleIffAnchored(slots: set<ClaimedSlot>, attested: Attestations, s: Account)
    ensures s in EligibleSigners(slots, attested) <==> AnchorBlocks(slots, s, AttestedOrcid(attested, s)) != {}
  {
    var orcid := AttestedOrcid(attested, s);
    if s in EligibleSigners(slots, attested) {
      var x :| x in slots && Anchors(x, s, orcid);
      assert x.firstBlock in AnchorBlocks(slots, s, orcid);
    }
    if AnchorBlocks(slots, s, orcid) != {} {
      var x :| x in slots && Anchors(x, s, orcid);
    }
  }

  /** Filtering the operations by eligible signer in the query changes nobody's
      consent. */
  lemma SignerPushdownKeepsAnswer(ops: set<ConsentOp>, root: PostId, slots: set<ClaimedSlot>, attested: Attestations,
                                  s: Account)
    requires Ranked(ops)
    ensures Consented(root.author, slots, attested, Selected(ops, root, EligibleSigners(slots, attested)), s)
       <==> Consented(root.author, slots, attested, PaperOps(ops, root), s)
  {
    EligibleIffAnchored(slots, attested, s);
    if s in EligibleSigners(slots, attested) {
      var selected := Selected(ops, root, EligibleSigners(slots, attested));
      assert OpsOf(selected, s) == OpsOf(PaperOps(ops, root), s);
      SameOwnOps(PaperOps(ops, root), selected, slots, AttestedOrcid(attested, s), s);
    }
  }

  // Ids rank operations as the chain does.
  ghost predicate IdsFollowChain(ops: set<ConsentOp>)
  {
    forall p, q :: p in ops && q in ops && p != q ==> (p.pos.id < q.pos.id <==> Before(p.pos, q.pos))
  }

  // `ORDER BY id DESC LIMIT limit`.
  ghost predicate LatestById(all: set<ConsentOp>, window: set<ConsentOp>, limit: nat)
  {
    && window <= all && |window| <= limit && (window == all || |window| == limit)
    && forall p, q :: p in window && q in all - window ==> q.pos.id < p.pos.id
  }

  /** Cutting to the latest operations by id is exact for every signer that still
      has one in the window, and drops the others: no resign is ever forgotten in
      favour of an older accept. */
  lemma TruncationDropsOnlyAbsentSigners(all: set<ConsentOp>, window: set<ConsentOp>, limit: nat, root: Account,
                                         slots: set<ClaimedSlot>, attested: Attestations, s: Account)
    requires Ranked(all) && IdsFollowChain(all) && LatestById(all, window, limit)
    ensures s == root ==> (Consented(root, slots, attested, window, s) <==> Consented(root, slots, attested, all, s))
    ensures s != root ==>
      (Consented(root, slots, attested, window, s)
       <==> Consented(root, slots, attested, all, s) && OpsOf(window, s) != {})
    ensures |all| <= limit ==> window == all
  {
    if !(all <= window) {
      var o :| o in all && o !in window;
      SubsetSize(window + {o}, all);
    }
    var blocks := AnchorBlocks(slots, s, AttestedOrcid(attested, s));
    if s != root && blocks != {} {
      var first := MinOf(blocks);
      LatestOpDecides(all, s, first);
      LatestOpDecides(window, s, first);
      if OpsOf(window, s) != {} {
        var o := Latest(OpsOf(window, s));
        forall q | q in OpsOf(all, s) && q != o ensures Before(q.pos, o.pos) {
          assert q in window ==> q in OpsOf(window, s);
        }
        assert IsLatest(OpsOf(all, s), o);
      }
    }
  }

  // The log as the operation view lists it.
  ghost predicate IdsIncrease(log: Log<Action>)
  {
    forall i, j :: 0 <= i < j < |log| ==> log[i].pos.id < log[j].pos.id && log[i].pos.block <= log[j].pos.block
  }

  lemma IncreasingIdsFollowChain(log: Log<Action>)
    requires IdsIncrease(log)
    ensures ChainOrdered(log) && Ranked(Rows(log)) && IdsFollowChain(Rows(log))
  {
    OrderedRowsAreRanked(log, Rows(log));
    forall p, q | p in Rows(log) && q in Rows(log) && p != q ensures p.pos.id < q.pos.id <==> Before(p.pos, q.pos) {
      var i :| 0 <= i < |log| && log[i] == p;
      var j :| 0 <= j < |log| && log[j] == q;
    }
  }

  lemma SuffixGains(log: Log<Action>, i: nat, root: PostId, eligible: set<Account>)
    requires IdsIncrease(log) && i < |log|
    ensures log[i] !in log[i + 1..]
    ensures Rows(log[i..]) == Rows(log[i + 1..]) + {log[i]}
    ensures Selected(Rows(log[i..]), root, eligible) == Selected(Rows(log[i + 1..]), root, eligible)
              + (if !log[i].action.RevokeAuthorship? && log[i].action.root == root && Signer(log[i]) in eligible
                 then {log[i]} else {})
  {
    assert log[i..] == [log[i]] + log[i + 1..];
  }

  lemma SuffixIsLatestById(log: Log<Action>, i: nat, root: PostId, eligible: set<Account>, limit: nat)
    requires IdsIncrease(log) && i <= |log|
    requires var window := Selected(Rows(log[i..]), root, eligible); |window| <= limit && (i == 0 || |window| == limit)
    ensures LatestById(Selected(Rows(log), root, eligible), Selected(Rows(log[i..]), root, eligible), limit)
  {
    var all, window := Selected(Rows(log), root, eligible), Selected(Rows(log[i..]), root, eligible);
    assert i == 0 ==> log[i..] == log;
    forall m | i <= m < |log| ensures log[m] in Rows(log[i..]) {
      assert log[i..][m - i] == log[m];
    }
    forall p, q | p in window && q in all - window ensures q.pos.id < p.pos.id {
      var j :| i <= j < |log| && log[j] == p;
      var k :| 0 <= k < |log| && log[k] == q;
    }
  }

  lemma AppendSelected(rows: seq<ConsentOp>, o: ConsentOp)
    requires o !in rows
    ensures Rows(rows + [o]) == Rows(rows) + {o} && |Rows(rows + [o])| == |Rows(rows)| + 1
  {
    assert Rows(rows + [o]) == Rows(rows) + {o};
  }

  // The query itself: `ORDER BY id DESC LIMIT ...` over the matching rows.
  method NewestSelected(log: Log<Action>, root: PostId, eligible: set<Account>) returns (rows: seq<ConsentOp>)
    requires IdsIncrease(log)
    ensures LatestById(Selected(Rows(log), root, eligible), Rows(rows), 1000)
  {
    rows := [];
    var i := |log|;
    while i > 0 && |rows| < FETCH_CONSENT_OPS_LIMIT
      invariant 0 <= i <= |log| && |Rows(rows)| == |rows| <= FETCH_CONSENT_OPS_LIMIT
      invariant Rows(rows) == Selected(Rows(log[i..]), root, eligible)
      decreases i
    {
      SuffixGains(log, i - 1, root, eligible);
      i := i - 1;
      var o := log[i];
      if !o.action.RevokeAuthorship? && o.action.root == root && Signer(o) in eligible {
        assert o in rows ==> o in Rows(rows);
        AppendSelected(rows, o);
        rows := rows + [o];
      }
    }
    SuffixIsLatestById(log, i, root, eligible, FETCH_CONSENT_OPS_LIMIT);
  }

  /** `fetchConsentOpsForPaper`: None when the database cannot answer, and
      otherwise the newest eligible operations on the paper. */
  method FetchConsentOpsForPaper(haf: Option<Log<Action>>, queryFails: bool, root: PostId, eligible: set<Account>)
    returns (fetched: Option<seq<ConsentOp>>)
    requires haf.Some? ==> IdsIncrease(haf.value)
    ensures fetched.None? <==> haf.None? || (eligible != {} && queryFails)
    ensures fetched.Some? ==>
      LatestById(Selected(Rows(haf.value), root, eligible), Rows(fetched.value), 1000)
  {
    if haf.None? {
      return None;
    }
    if eligible == {} {
      return Some([]);
    }
    if queryFails {
      return None;
    }
    var rows := NewestSelected(haf.value, root, eligible);
    fetched := Some(rows);
  }

  method SlotHives(slots: seq<ClaimedSlot>) returns (hives: set<Account>, orcids: set<string>)
    ensures hives == set x | x in slots && x.hive.Some? :: x.hive.value
    ensures orcids == set x | x in slots && Present(x.orcid) :: x.orcid.value
  {
    hives, orcids := {}, {};
    for i := 0 to |slots|
      invariant hives == set x | x in slots[..i] && x.hive.Some? :: x.hive.value
      invariant orcids == set x | x in slots[..i] && Present(x.orcid) :: x.orcid.value
    {
      assert slots[..i + 1] == slots[..i] + [slots[i]];
      if Present(slots[i].orcid) {
        orcids := orcids + {slots[i].orcid.value};
      }
      if slots[i].hive.Some? {
        hives := hives + {slots[i].hive.value};
      }
    }
    assert slots == slots[..|slots|];
  }

  method DeriveEligible(slots: seq<ClaimedSlot>, attested: Attestations) returns (eligible: set<Account>)
    ensures eligible == EligibleSigners(SlotSet(slots), attested)
  {
    var hives, orcids := SlotHives(slots);
    eligible := hives;
    var accounts := attested.Keys;
    while accounts != {}
      invariant accounts <= attested.Keys
      invariant eligible == hives + set s | s in attested && s !in accounts && Present(attested[s]) && attested[s].value in orcids
      decreases |accounts|
    {
      var account :| account in accounts;
      accounts := accounts - {account};
      if Present(attested[account]) && attested[account].value in orcids {
        eligible := eligible + {account};
      }
    }
    forall s | s in attested && Present(attested[s])
      ensures attested[s].value in orcids <==> exists x :: x in SlotSet(slots) && x.orcid == attested[s]
    {
      if attested[s].value in orcids {
        var x :| x in slots && Present(x.orcid) && x.orcid.value == attested[s].value;
        assert x in SlotSet(slots);
      }
    }
  }

  /** `getConsentedAuthors`: it fails closed, and otherwise answers for the whole
      history of the paper except that a signer all of whose operations lie below
      the cap is left out. Below the cap it is exact. */
  method GetConsentedAuthors(haf: Option<Log<Action>>, queryFails: bool, root: PostId, slots: seq<ClaimedSlot>,
                             attested: Attestations)
    returns (consented: Option<set<Account>>, fetched: set<ConsentOp>)
    requires haf.Some? ==> IdsIncrease(haf.value)
    ensures consented.None? <==> haf.None? || (queryFails && EligibleSigners(SlotSet(slots), attested) != {})
    ensures haf.Some? ==> Ranked(Rows(haf.value))
    ensures consented.Some? ==>
      forall s :: s in consented.value
        <==> && Consented(root.author, SlotSet(slots), attested, PaperOps(Rows(haf.value), root), s)
             && (s == root.author || OpsOf(fetched, s) != {})
    ensures consented.Some? ==>
      LatestById(Selected(Rows(haf.value), root, EligibleSigners(SlotSet(slots), attested)), fetched,
                 1000)
  {
    if haf.Some? {
      IncreasingIdsFollowChain(haf.value);
    }
    var eligible := DeriveEligible(slots, attested);
    var ops := FetchConsentOpsForPaper(haf, queryFails, root, eligible);
    fetched := {};
    match ops {
      case None =>
        consented := None;
      case Some(rows) =>
        fetched := set o | o in rows;
        ghost var all := Selected(Rows(haf.value), root, eligible);
        var result := ComputeConsentedAuthors(root.author, slots, attested, rows);
        forall s ensures s in result
          <==> && Consented(root.author, SlotSet(slots), attested, PaperOps(Rows(haf.value), root), s)
               && (s == root.author || OpsOf(fetched, s) != {})
        {
          SignerPushdownKeepsAnswer(Rows(haf.value), root, SlotSet(slots), attested, s);
          TruncationDropsOnlyAbsentSigners(all, fetched, FETCH_CONSENT_OPS_LIMIT, root.author, SlotSet(slots),
                                           attested, s);
        }
        consented := Some(result);
    }
  }
}
