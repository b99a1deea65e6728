/** Routes 1 and 2 as the database resolves them (`consentedAuthorsCteBody`), over
    the canonical chain, and the seeds and scopes that bound the query. */
module ConsentQuery {
  import opened Prelude
  import opened ChainLog
  import opened ContinuationChain
  import opened Consent

  datatype Officials = Officials(bridge: Account, admin: Account)

  // A root paper with the slot occurrences of every operation on its chain.
  datatype Paper = Paper(root: PostId, isBridge: bool, slots: set<ClaimedSlot>)

  // ---------------------------------------------------------------------
  // consent_signer_eligibility
  // ---------------------------------------------------------------------

  function HiveBlocks(slots: set<ClaimedSlot>, hive: Account): set<nat>
  {
    set x | x in slots && x.hive == Some(hive) :: x.firstBlock
  }

  function OrcidBlocks(slots: set<ClaimedSlot>, orcid: string): set<nat>
  {
    set x | x in slots && x.orcid == Some(orcid) :: x.firstBlock
  }

  // Each group of occurrences is reduced to its first block before the groups
  // that anchor one signer are joined. ORCID groups never anchor on a bridge paper.
  ghost function AnchorGroups(p: Paper, s: Account, orcid: Option<string>): set<nat>
  {
    (if HiveBlocks(p.slots, s) != {} then {MinOf(HiveBlocks(p.slots, s))} else {})
    + (if !p.isBridge && Present(orcid) && OrcidBlocks(p.slots, orcid.value) != {}
       then {MinOf(OrcidBlocks(p.slots, orcid.value))} else {})
  }

  /** Grouping first and taking the least group afterwards gives the anchors, and
      the first block, of the per-slot rule. */
  lemma GroupsAreAnchors(p: Paper, s: Account, orcid: Option<string>)
    ensures var blocks := AnchorBlocks(p.slots, s, if p.isBridge then None else orcid);
            && (AnchorGroups(p, s, orcid) == {} <==> blocks == {})
            && (blocks != {} ==> MinOf(AnchorGroups(p, s, orcid)) == MinOf(blocks))
  {
    var used := if p.isBridge then None else orcid;
    var blocks := AnchorBlocks(p.slots, s, used);
    var hive := HiveBlocks(p.slots, s);
    var byOrcid := if Present(used) then OrcidBlocks(p.slots, used.value) else {};
    assert blocks == hive + byOrcid by {
      forall b ensures b in blocks <==> b in hive + byOrcid {
        if b in blocks {
          var x :| x in p.slots && Anchors(x, s, used) && x.firstBlock == b;
        }
        if b in byOrcid {
          var x :| x in p.slots && x.orcid == Some(used.value) && x.firstBlock == b;
          assert Anchors(x, s, used);
        }
      }
    }
    if blocks != {} {
      var m := MinOf(AnchorGroups(p, s, orcid));
      assert IsMin(blocks, m);
    }
  }

  // ---------------------------------------------------------------------
  // route2_stream, route2_latest and consented_authors
  // ---------------------------------------------------------------------

  predicate ValidConsent(o: ConsentOp, root: PostId, s: Account, firstBlock: nat)
  {
    && !o.action.RevokeAuthorship? && o.action.root == root && Signer(o) == s
    && (o.action.AuthorResign? || o.pos.block > firstBlock)
  }

  predicate ValidDemotion(o: ConsentOp, root: PostId, s: Account, officials: Officials)
  {
    && o.action.RevokeAuthorship? && o.action.paper == root && o.action.claimer == s && |o.signers| > 0
    && Signer(o) in {root.author, officials.bridge, officials.admin, s}
  }

  predicate InScope(signers: Option<set<Account>>, s: Account)
  {
    signers.Some? ==> s in signers.value
  }

  function Stream(ops: set<ConsentOp>, root: PostId, officials: Officials, s: Account, firstBlock: nat,
                  signers: Option<set<Account>>): set<ConsentOp>
  {
    set o | o in ops && (ValidConsent(o, root, s, firstBlock) || ValidDemotion(o, root, s, officials))
            && InScope(signers, s)
  }

  // The rows of `route2_stream` for one account; an anchor is never empty.
  ghost function Route2Stream(p: Paper, officials: Officials, attested: Attestations, ops: set<ConsentOp>,
                              signers: Option<set<Account>>, s: Account): (rows: set<ConsentOp>)
    ensures rows <= ops
  {
    var groups := AnchorGroups(p, s, AttestedOrcid(attested, s));
    if s == "" || groups == {} then {}
    else Stream(ops, p.root, officials, s, MinOf(groups), signers)
  }

  ghost predicate Route2(p: Paper, officials: Officials, attested: Attestations, ops: set<ConsentOp>,
                         signers: Option<set<Account>>, s: Account)
    requires Ranked(ops)
  {
    LatestAccepts(Route2Stream(p, officials, attested, ops, signers, s))
  }

  ghost predicate Route1(p: Paper, officials: Officials, attested: Attestations, ops: set<ConsentOp>,
                         signers: Option<set<Account>>, s: Account)
    requires Ranked(ops)
  {
    var stream := Route2Stream(p, officials, attested, ops, signers, s);
    && s == p.root.author && InScope(signers, s)
    && (HiveBlocks(p.slots, s) != {} || p.isBridge)
    && (stream == {} || LatestAccepts(stream))
  }

  /** Narrowing the query to a set of accounts returns exactly the rows of those
      accounts. */
  lemma ScopedRowsAreFilteredRows(p: Paper, officials: Officials, attested: Attestations, ops: set<ConsentOp>,
                                  signers: set<Account>, s: Account)
    requires Ranked(ops)
    ensures || Route1(p, officials, attested, ops, Some(signers), s)
            || Route2(p, officials, attested, ops, Some(signers), s)
       <==> && s in signers
            && (Route1(p, officials, attested, ops, None, s) || Route2(p, officials, attested, ops, None, s))
  {
    var scoped := Route2Stream(p, officials, attested, ops, Some(signers), s);
    if s in signers {
      assert scoped == Route2Stream(p, officials, attested, ops, None, s);
    } else {
      assert scoped == {};
    }
  }

  // ---------------------------------------------------------------------
  // The query is a replay
  // ---------------------------------------------------------------------

  // What one operation says about an account's Route-2 standing, if anything.
  ghost function Signal(p: Paper, officials: Officials, attested: Attestations, s: Account): ConsentOp -> Option<bool>
  {
    var groups := AnchorGroups(p, s, AttestedOrcid(attested, s));
    o =>
      if s == "" || groups == {} then None
      else if ValidConsent(o, p.root, s, MinOf(groups)) then Some(o.action.AuthorAccept?)
      else if ValidDemotion(o, p.root, s, officials) then Some(false)
      else None
  }

  /** Route 2 is last-signal-wins in chain order: an in-time accept says yes, a
      resign or a properly signed revoke says no. */
  lemma Route2IsLastSignal(p: Paper, officials: Officials, attested: Attestations, log: Log<Action>, s: Account)
    requires ChainOrdered(log)
    ensures Ranked(Rows(log))
    ensures Route2(p, officials, attested, Rows(log), None, s)
       <==> LastSignal(log, Signal(p, officials, attested, s)) == Some(true)
  {
    OrderedRowsAreRanked(log, Rows(log));
    var stream := Route2Stream(p, officials, attested, Rows(log), None, s);
    var signal := Signal(p, officials, attested, s);
    forall o ensures o in stream <==> o in log && signal(o).Some? {
    }
    LastSignalIsLatest(log, signal, stream);
  }

  // ---------------------------------------------------------------------
  // The two resolutions compared
  // ---------------------------------------------------------------------

  function Demotions(ops: set<ConsentOp>, root: PostId, s: Account, officials: Officials): set<ConsentOp>
  {
    set o | o in ops && ValidDemotion(o, root, s, officials)
  }

  // A properly signed revoke comes after everything the account signed.
  ghost predicate DemotedLast(ops: set<ConsentOp>, root: PostId, s: Account, officials: Officials)
    requires Ranked(ops)
  {
    var own := OpsOf(PaperOps(ops, root), s);
    exists r :: r in Demotions(ops, root, s, officials) && (own == {} || Before(Latest(own).pos, r.pos))
  }

  /** On a native paper, and for every account but the broadcaster, the database
      finds an account consented exactly when the process does and no properly
      signed revoke came after it. Without revokes the two agree. */
  lemma TwinsAgreeIff(p: Paper, officials: Officials, attested: Attestations, ops: set<ConsentOp>, s: Account)
    requires Ranked(ops) && !p.isBridge && s != p.root.author
    ensures Route2(p, officials, attested, ops, None, s)
       <==> && Consented(p.root.author, p.slots, attested, PaperOps(ops, p.root), s)
            && !DemotedLast(ops, p.root, s, officials)
    ensures Demotions(ops, p.root, s, officials) == {} ==>
      (Route2(p, officials, attested, ops, None, s)
       <==> Consented(p.root.author, p.slots, attested, PaperOps(ops, p.root), s))
  {
    var orcid := AttestedOrcid(attested, s);
    GroupsAreAnchors(p, s, orcid);
    var blocks := AnchorBlocks(p.slots, s, orcid);
    if s != "" && blocks != {} {
      StreamsCompared(p.root, officials, ops, s, MinOf(blocks));
    }
  }

  lemma StreamsCompared(root: PostId, officials: Officials, ops: set<ConsentOp>, s: Account, first: nat)
    requires Ranked(ops)
    ensures LatestAccepts(Stream(ops, root, officials, s, first, None))
       <==> LatestAccepts(ValidOps(PaperOps(ops, root), s, first)) && !DemotedLast(ops, root, s, officials)
  {
    var stream := Stream(ops, root, officials, s, first, None);
    var valid := ValidOps(PaperOps(ops, root), s, first);
    var own := OpsOf(PaperOps(ops, root), s);
    var demotions := Demotions(ops, root, s, officials);
    assert stream == valid + demotions;
    LatestOpDecides(PaperOps(ops, root), s, first);
    if LatestAccepts(valid) {
      var last := Latest(own);
      assert Latest(valid) == last;
      if demotions == {} || !DemotedLast(ops, root, s, officials) {
        assert IsLatest(stream, last);
      }
    }
    if LatestAccepts(stream) {
      var last := Latest(stream);
      assert last in valid && Latest(valid) == last;
      assert Latest(own) == last;
    }
  }

  /** Naming an account in more slots never costs it consent: its first block can
      only get earlier. */
  lemma MoreSlotsKeepRoute2(p: Paper, q: Paper, officials: Officials, attested: Attestations, ops: set<ConsentOp>,
                            s: Account)
    requires Ranked(ops) && p.root == q.root && p.isBridge == q.isBridge && p.slots <= q.slots
    requires Route2(p, officials, attested, ops, None, s)
    ensures Route2(q, officials, attested, ops, None, s)
  {
    var orcid := AttestedOrcid(attested, s);
    GroupsAreAnchors(p, s, orcid);
    GroupsAreAnchors(q, s, orcid);
    var used := if p.isBridge then None else orcid;
    var blocks, more := AnchorBlocks(p.slots, s, used), AnchorBlocks(q.slots, s, used);
    assert blocks <= more;
    var stream := Route2Stream(p, officials, attested, ops, None, s);
    var stream' := Route2Stream(q, officials, attested, ops, None, s);
    assert MinOf(more) <= MinOf(blocks);
    assert Latest(stream) in stream';
    var last := Latest(stream');
    assert last.action.AuthorAccept? || last in stream;
  }

  // ---------------------------------------------------------------------
  // Seeding the walk
  // ---------------------------------------------------------------------

  /** The posts, the slot occurrences of the operations on each, and which posts
      are bridge papers. */
  datatype Corpus = Corpus(posts: Posts, slotsOf: map<PostId, set<ClaimedSlot>>, bridges: set<PostId>)

  function SlotsOn(corpus: Corpus, post: PostId): set<ClaimedSlot>
  {
    if post in corpus.slotsOf then corpus.slotsOf[post] else {}
  }

  function WalkSlots(corpus: Corpus, chain: Path): set<ClaimedSlot>
  {
    set i, x | 0 <= i < |chain| && x in SlotsOn(corpus, chain[i]) :: x
  }

  // A row of `canonical_chain` under these seeds, for this root.
  ghost predicate CanonicalRow(corpus: Corpus, seeds: set<PostId>, root: PostId, row: Path)
  {
    |row| > 0 && row[0] == root
    && exists rows :: Derives(corpus.posts, ChainTree(corpus.posts, seeds), rows) && Last(rows) == row
  }

  // `ops_slot_occurrences`: occurrences joined to the canonical rows of the root.
  ghost function CanonicalSlots(corpus: Corpus, seeds: set<PostId>, root: PostId): set<ClaimedSlot>
  {
    set post, x | post in corpus.slotsOf && x in corpus.slotsOf[post]
                  && (exists row :: CanonicalRow(corpus, seeds, root, row) && Last(row) == post) :: x
  }

  ghost predicate IsSeededPaper(corpus: Corpus, seeds: set<PostId>, root: PostId)
  {
    root in seeds && root in corpus.posts && corpus.posts[root].isPaper
  }

  /** The slots a root collects depend on its own chain alone, whatever else is
      walked in the same query. */
  lemma SlotsFollowTheWalk(corpus: Corpus, seeds: set<PostId>, root: PostId)
    requires DistinctCreation(corpus.posts)
    ensures CanonicalSlots(corpus, seeds, root)
         == if IsSeededPaper(corpus, seeds, root) then WalkSlots(corpus, Walk(corpus.posts, [root])) else {}
  {
    var slots := CanonicalSlots(corpus, seeds, root);
    if IsSeededPaper(corpus, seeds, root) {
      hide Walk, CanonicalSlots, WalkSlots, DistinctCreation;
      forall x ensures x in slots <==> x in WalkSlots(corpus, Walk(corpus.posts, [root])) {
        RowSlotOnWalk(corpus, seeds, root, x);
        WalkSlotOnRow(corpus, seeds, root, x);
      }
    } else {
      forall row ensures !CanonicalRow(corpus, seeds, root, row) {
        CanonicalChainIsTheWalk(corpus.posts, seeds, row);
      }
    }
  }

  lemma RowSlotOnWalk(corpus: Corpus, seeds: set<PostId>, root: PostId, x: ClaimedSlot)
    requires DistinctCreation(corpus.posts) && IsSeededPaper(corpus, seeds, root)
    ensures x in CanonicalSlots(corpus, seeds, root) ==> x in WalkSlots(corpus, Walk(corpus.posts, [root]))
  {
    var walk := Walk(corpus.posts, [root]);
    if x in CanonicalSlots(corpus, seeds, root) {
      var post, row :| post in corpus.slotsOf && x in corpus.slotsOf[post]
                       && CanonicalRow(corpus, seeds, root, row) && Last(row) == post;
      CanonicalChainIsTheWalk(corpus.posts, seeds, row);
      hide Walk, DistinctCreation, Derives;
      assert row <= walk && x in SlotsOn(corpus, walk[|row| - 1]);
    }
  }

  lemma WalkSlotOnRow(corpus: Corpus, seeds: set<PostId>, root: PostId, x: ClaimedSlot)
    requires DistinctCreation(corpus.posts) && IsSeededPaper(corpus, seeds, root)
    ensures x in WalkSlots(corpus, Walk(corpus.posts, [root])) ==> x in CanonicalSlots(corpus, seeds, root)
  {
    var walk := Walk(corpus.posts, [root]);
    assert [root] <= walk;
    hide Walk, DistinctCreation, Derives;
    if x in WalkSlots(corpus, walk) {
      var i :| 0 <= i < |walk| && x in SlotsOn(corpus, walk[i]);
      var row := walk[..i + 1];
      assert row <= walk && row[0] == root && Last(row) == walk[i];
      CanonicalChainIsTheWalk(corpus.posts, seeds, row);
      assert CanonicalRow(corpus, seeds, root, row) && walk[i] in corpus.slotsOf;
    }
  }

  ghost predicate Route2Row(corpus: Corpus, officials: Officials, attested: Attestations, ops: set<ConsentOp>,
                            seeds: set<PostId>, root: PostId, account: Account)
    requires Ranked(ops)
  {
    Route2(Paper(root, root in corpus.bridges, CanonicalSlots(corpus, seeds, root)), officials, attested, ops, None,
           account)
  }

  // `{ roots: 'all' }`: every post that continues nothing.
  function AllRoots(posts: Posts): set<PostId>
  {
    set r | r in posts && posts[r].continues.None?
  }

  datatype SeedScope = Everything | BySigner(account: Account) | OnPapers(papers: set<PostId>)

  // `consent_seed`: the papers the scoped consent operations cite.
  function ConsentSeed(ops: set<ConsentOp>, scope: SeedScope): set<PostId>
  {
    set o | o in ops && !o.action.RevokeAuthorship?
            && (scope.BySigner? ==> Signer(o) == scope.account)
            && (scope.OnPapers? ==> o.action.root in scope.papers)
         :: o.action.root
  }

  predicate Asked(scope: SeedScope, root: PostId, account: Account)
  {
    match scope
    case Everything => true
    case BySigner(a) => account == a
    case OnPapers(papers) => root in papers
  }

  predicate ContinuesNothing(posts: Posts, root: PostId)
  {
    root in posts ==> posts[root].continues.None?
  }

  /** Bounding the walk by consent operations, under any scope that asks about the
      row, loses no consented account; it adds one only on a post that itself
      continues another, which walking from all roots never seeds. */
  lemma SeedAgreesIffRoot(corpus: Corpus, officials: Officials, attested: Attestations, ops: set<ConsentOp>,
                          scope: SeedScope, root: PostId, account: Account)
    requires Ranked(ops) && DistinctCreation(corpus.posts) && Asked(scope, root, account)
    ensures Route2Row(corpus, officials, attested, ops, AllRoots(corpus.posts), root, account)
       <==> && Route2Row(corpus, officials, attested, ops, ConsentSeed(ops, scope), root, account)
            && ContinuesNothing(corpus.posts, root)
  {
    var all, seed := AllRoots(corpus.posts), ConsentSeed(ops, scope);
    SlotsFollowTheWalk(corpus, all, root);
    SlotsFollowTheWalk(corpus, seed, root);
    if Route2Row(corpus, officials, attested, ops, all, root, account) {
      ConsentIsSeeded(Paper(root, root in corpus.bridges, CanonicalSlots(corpus, all, root)),
                      officials, attested, ops, scope, account);
    }
    NoSlotsNoConsent(Paper(root, root in corpus.bridges, {}), officials, attested, ops, account);
  }

  lemma ConsentIsSeeded(p: Paper, officials: Officials, attested: Attestations, ops: set<ConsentOp>,
                        scope: SeedScope, s: Account)
    requires Ranked(ops) && Asked(scope, p.root, s) && Route2(p, officials, attested, ops, None, s)
    ensures p.root in ConsentSeed(ops, scope)
  {
    var accept := Latest(Route2Stream(p, officials, attested, ops, None, s));
    assert accept in ops && accept.action.root == p.root && Signer(accept) == s;
  }

  lemma NoSlotsNoConsent(p: Paper, officials: Officials, attested: Attestations, ops: set<ConsentOp>, s: Account)
    requires Ranked(ops) && p.slots == {}
    ensures !Route2(p, officials, attested, ops, None, s)
  {
    assert AnchorGroups(p, s, AttestedOrcid(attested, s)) == {};
  }

  // Ann's second version continues her first and names Bob, who accepts
  // authorship of the second version instead of the first.
  const FIRST := PostId("ann", "first")
  const SECOND := PostId("ann", "second")
  const BOBS_SLOT := ClaimedSlot(Some("bob"), None, 2)
  const BOB_ACCEPTS: ConsentOp := Op(Pos(3, 3), ["bob"], AuthorAccept(SECOND))

  function VersionedCorpus(): Corpus
  {
    Corpus(map[FIRST := Post(None, {"ann"}, [], true, Pos(1, 1)),
               SECOND := Post(Some(FIRST), {"ann", "bob"}, [], true, Pos(2, 2))],
           map[SECOND := {BOBS_SLOT}], {})
  }

  /** The seeds do differ: an accept that cites a continuation resolves under the
      bounded walk and not under the walk from all roots. */
  lemma SeedAdmitsContinuations(officials: Officials)
    ensures Ranked({BOB_ACCEPTS}) && DistinctCreation(VersionedCorpus().posts)
    ensures Route2Row(VersionedCorpus(), officials, map[], {BOB_ACCEPTS}, ConsentSeed({BOB_ACCEPTS}, Everything),
                      SECOND, "bob")
    ensures !Route2Row(VersionedCorpus(), officials, map[], {BOB_ACCEPTS}, AllRoots(VersionedCorpus().posts),
                       SECOND, "bob")
  {
    var corpus, ops := VersionedCorpus(), {BOB_ACCEPTS};
    var seed := ConsentSeed(ops, Everything);
    assert BOB_ACCEPTS in ops && Signer(BOB_ACCEPTS) == "bob";
    assert SECOND in seed;
    SlotsFollowTheWalk(corpus, seed, SECOND);
    var walk := Walk(corpus.posts, [SECOND]);
    assert walk[0] == SECOND && BOBS_SLOT in SlotsOn(corpus, walk[0]);
    var small := Paper(SECOND, false, {BOBS_SLOT});
    assert Anchors(BOBS_SLOT, "bob", None) && BOBS_SLOT.firstBlock in HiveBlocks(small.slots, "bob");
    assert HiveBlocks(small.slots, "bob") == {2};
    assert BOB_ACCEPTS in Route2Stream(small, officials, map[], ops, None, "bob");
    assert Route2Stream(small, officials, map[], ops, None, "bob") == ops;
    MoreSlotsKeepRoute2(small, Paper(SECOND, false, CanonicalSlots(corpus, seed, SECOND)), officials, map[], ops,
                        "bob");
    SeedAgreesIffRoot(corpus, officials, map[], ops, Everything, SECOND, "bob");
  }
}
