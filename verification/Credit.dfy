/** The three credit arms of the reputation cycle (`user_papers`): the broadcaster
    of a native paper, an accepted claimer, and a consented co-author. */
module Credit {
  import opened Prelude
  import opened ChainLog
  import opened ContinuationChain
  import C = Consent
  import Q = ConsentQuery
  import Claims

  type Account = string

  /** What one cycle reads: the corpus, the posts of this application, the trust
      operations and the claim events. */
  datatype World = World(
    corpus: Q.Corpus,
    ofThisApp: set<PostId>,
    attested: C.Attestations,
    consentOps: set<C.ConsentOp>,
    claimOps: set<Claims.ClaimOp>,
    bridge: Account,
    admin: Account)
  {
    ghost predicate Valid()
    {
      DistinctCreation(corpus.posts) && Ranked(consentOps)
    }

    // The filters every arm puts on the post.
    predicate Creditable(paper: PostId)
    {
      && paper in corpus.posts && corpus.posts[paper].isPaper && corpus.posts[paper].continues.None?
      && paper in ofThisApp
    }
  }

  ghost function PaperUnder(w: World, seeds: set<PostId>, root: PostId): Q.Paper
  {
    Q.Paper(root, root in w.corpus.bridges, Q.CanonicalSlots(w.corpus, seeds, root))
  }

  ghost function Stream(w: World, seeds: set<PostId>, signers: Option<set<Account>>, root: PostId, a: Account)
    : set<C.ConsentOp>
  {
    Q.Route2Stream(PaperUnder(w, seeds, root), Q.Officials(w.bridge, w.admin), w.attested, w.consentOps, signers, a)
  }

  ghost predicate Accepted(w: World, scope: Claims.Scope, paper: PostId, a: Account)
    requires w.Valid()
  {
    exists r :: r in Claims.AuthorshipClaims(w.corpus.posts, Claims.Scoped(w.claimOps, scope),
                                                 Claims.Officials(w.bridge, w.admin))
                && r.claimer == Some(a) && r.paper == paper && r.status == Claims.Accepted
  }

  // `consent_seed` of the cycle: papers a target user accepted or resigned, or a
  // revoke names one on.
  function BatchSeed(ops: set<C.ConsentOp>, targets: set<Account>): set<PostId>
  {
    (set o | o in ops && !o.action.RevokeAuthorship? && C.Signer(o) in targets :: o.action.root)
    + (set o | o in ops && o.action.RevokeAuthorship? && o.action.claimer in targets :: o.action.paper)
  }

  // ---------------------------------------------------------------------
  // The arms, over the batch's seeds and scopes
  // ---------------------------------------------------------------------

  ghost predicate NativeArm(w: World, targets: set<Account>, paper: PostId, a: Account)
    requires w.Valid()
  {
    var stream := Stream(w, BatchSeed(w.consentOps, targets), Some(targets), paper, a);
    && w.Creditable(paper) && paper !in w.corpus.bridges && a in targets && a == paper.author
    && (stream == {} || C.LatestAccepts(stream))
  }

  ghost predicate ClaimedArm(w: World, targets: set<Account>, paper: PostId, a: Account)
    requires w.Valid()
  {
    w.Creditable(paper) && Accepted(w, Claims.ForClaimers(targets), paper, a) && a != paper.author
  }

  ghost predicate ConsentedArm(w: World, targets: set<Account>, paper: PostId, a: Account)
    requires w.Valid()
  {
    var p, officials := PaperUnder(w, BatchSeed(w.consentOps, targets), paper), Q.Officials(w.bridge, w.admin);
    && w.Creditable(paper) && a != paper.author
    && (Q.Route1(p, officials, w.attested, w.consentOps, Some(targets), a)
        || Q.Route2(p, officials, w.attested, w.consentOps, Some(targets), a))
    && !Accepted(w, Claims.ForClaimers(targets), paper, a)
  }

  // How many `user_papers` rows credit `a` for the paper; each arm yields
  // distinct rows, and the arms are joined by UNION ALL.
  ghost function CreditRows(w: World, targets: set<Account>, paper: PostId, a: Account): nat
    requires w.Valid()
  {
    (if NativeArm(w, targets, paper, a) then 1 else 0)
    + (if ClaimedArm(w, targets, paper, a) then 1 else 0)
    + (if ConsentedArm(w, targets, paper, a) then 1 else 0)
  }

  // ---------------------------------------------------------------------
  // The consent model: Routes 1, 2 and 3, over everything
  // ---------------------------------------------------------------------

  ghost predicate Credited(w: World, paper: PostId, a: Account)
    requires w.Valid()
  {
    var p := Q.Paper(paper, paper in w.corpus.bridges, Q.CanonicalSlots(w.corpus, Q.AllRoots(w.corpus.posts), paper));
    var officials := Q.Officials(w.bridge, w.admin);
    var stream := Q.Route2Stream(p, officials, w.attested, w.consentOps, None, a);
    && paper in w.corpus.posts && w.corpus.posts[paper].isPaper && w.corpus.posts[paper].continues.None?
    && paper in w.ofThisApp
    && if a == paper.author then paper !in w.corpus.bridges && (stream == {} || C.LatestAccepts(stream))
       else Q.Route2(p, officials, w.attested, w.consentOps, None, a) || Claimed(w, paper, a)
  }

  // The account has an accepted claim on the paper.
  ghost predicate Claimed(w: World, paper: PostId, a: Account)
    requires w.Valid()
  {
    exists o :: o in w.claimOps && o.action.kind.ClaimAuthorship? && o.action.paper == paper && Claims.Claimer(o) == Some(a)
                && Claims.StatusOf(w.corpus.posts, w.claimOps, Claims.Officials(w.bridge, w.admin), o) == Claims.Accepted
  }

  /** The batch seed misses nothing about its target users: their operation
      stream on a paper is the one a walk from all roots finds. */
  lemma BatchSeedKeepsStreams(w: World, targets: set<Account>, paper: PostId, a: Account)
    requires w.Valid() && w.Creditable(paper) && a in targets
    ensures Stream(w, BatchSeed(w.consentOps, targets), Some(targets), paper, a)
         == Stream(w, Q.AllRoots(w.corpus.posts), None, paper, a)
  {
    var seed, all := BatchSeed(w.consentOps, targets), Q.AllRoots(w.corpus.posts);
    Q.SlotsFollowTheWalk(w.corpus, seed, paper);
    Q.SlotsFollowTheWalk(w.corpus, all, paper);
    var narrow, wide := Stream(w, seed, Some(targets), paper, a), Stream(w, all, None, paper, a);
    if paper !in seed {
      NoSlotsNoStream(w, PaperUnder(w, seed, paper), Some(targets), a);
      forall o ensures o !in wide {
        StreamIsSeeded(w, targets, PaperUnder(w, all, paper), a, o);
      }
    }
  }

  lemma NoSlotsNoStream(w: World, p: Q.Paper, signers: Option<set<Account>>, a: Account)
    requires p.slots == {}
    ensures Q.Route2Stream(p, Q.Officials(w.bridge, w.admin), w.attested, w.consentOps, signers, a) == {}
  {
    assert Q.AnchorGroups(p, a, C.AttestedOrcid(w.attested, a)) == {};
  }

  lemma StreamIsSeeded(w: World, targets: set<Account>, p: Q.Paper, a: Account, o: C.ConsentOp)
    requires a in targets
    ensures o in Q.Route2Stream(p, Q.Officials(w.bridge, w.admin), w.attested, w.consentOps, None, a)
      ==> p.root in BatchSeed(w.consentOps, targets)
  {
  }

  /** A recipient is credited for a paper exactly once if Routes 1, 2 or 3 credit
      it and never otherwise, however many routes do, and although the cycle only
      looks at operations that involve its target users. */
  lemma CreditedExactlyOnce(w: World, targets: set<Account>, paper: PostId, a: Account)
    requires w.Valid()
    ensures CreditRows(w, targets, paper, a) == if a in targets && Credited(w, paper, a) then 1 else 0
  {
    ScopedAcceptance(w, targets, paper, a);
    var p := PaperUnder(w, BatchSeed(w.consentOps, targets), paper);
    Q.ScopedRowsAreFilteredRows(p, Q.Officials(w.bridge, w.admin), w.attested, w.consentOps, targets, a);
    if a in targets && w.Creditable(paper) {
      BatchSeedKeepsStreams(w, targets, paper, a);
    }
  }

  lemma ScopedAcceptance(w: World, targets: set<Account>, paper: PostId, a: Account)
    requires w.Valid()
    ensures Accepted(w, Claims.ForClaimers(targets), paper, a) <==> a in targets && Claimed(w, paper, a)
  {
    var posts, officials := w.corpus.posts, Claims.Officials(w.bridge, w.admin);
    forall r {
      Claims.ScopeIsFilter(posts, w.claimOps, officials, Claims.ForClaimers(targets), r);
    }
    hide Claims.StatusOf, Claims.Scoped;
    if Claimed(w, paper, a) {
      var o :| o in w.claimOps && o.action.kind.ClaimAuthorship? && o.action.paper == paper && Claims.Claimer(o) == Some(a)
               && Claims.StatusOf(posts, w.claimOps, officials, o) == Claims.Accepted;
      assert Claims.RowOf(posts, w.claimOps, officials, o) in Claims.AuthorshipClaims(posts, w.claimOps, officials);
    }
  }
}
