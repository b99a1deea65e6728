/** Authorship claims on name-only slots (Route 3), as `authorshipClaimsCteBody`
    resolves them: a claim, the approvals and revocations that follow it, and the
    slot its index names. */
module Claims {
  import opened Prelude
  import opened ChainLog
  import opened ContinuationChain

  type Account = string

  datatype Kind = ClaimAuthorship(authorIndex: Option<nat>) | ApproveAuthorship | RevokeAuthorship

  datatype Event = Event(kind: Kind, claimerField: Option<Account>, paper: PostId)

  type ClaimOp = Op<Event>

  datatype Officials = Officials(bridge: Account, admin: Account)

  // `required_posting_auths ->> 0`, NULL when there is none.
  function Signer(o: ClaimOp): Option<Account>
  {
    if |o.signers| > 0 then Some(o.signers[0]) else None
  }

  // `COALESCE(json ->> 'claimer', required_posting_auths ->> 0)`.
  function Claimer(o: ClaimOp): Option<Account>
  {
    if o.action.claimerField.Some? then o.action.claimerField else Signer(o)
  }

  // Rows join on their key, and NULL joins nothing.
  predicate SameKey(o: ClaimOp, claim: ClaimOp)
  {
    Claimer(o).Some? && Claimer(o) == Claimer(claim) && o.action.paper == claim.action.paper
  }

  predicate ProperApproval(o: ClaimOp, officials: Officials)
  {
    o.action.kind.ApproveAuthorship? && Signer(o) in {Some(o.action.paper.author), Some(officials.bridge)}
  }

  predicate ProperRevocation(o: ClaimOp, officials: Officials)
  {
    && o.action.kind.RevokeAuthorship? && Signer(o).Some?
    && Signer(o) in {Some(o.action.paper.author), Some(officials.bridge), Some(officials.admin), Claimer(o)}
  }

  // ---------------------------------------------------------------------
  // The status CASE
  // ---------------------------------------------------------------------

  datatype Status = Accepted | Pending | Revoked

  function Approvals(rows: set<ClaimOp>, officials: Officials, claim: ClaimOp): set<ClaimOp>
  {
    set o | o in rows && SameKey(o, claim) && ProperApproval(o, officials)
  }

  // A revocation after the claim, and after the last proper approval of it,
  // whenever that approval was made.
  predicate VoidedBy(rows: set<ClaimOp>, officials: Officials, claim: ClaimOp, rv: ClaimOp)
  {
    && rv in rows && SameKey(rv, claim) && ProperRevocation(rv, officials)
    && rv.pos.block > claim.pos.block
    && forall ap :: ap in Approvals(rows, officials, claim) ==> rv.pos.block > ap.pos.block
  }

  predicate Voided(rows: set<ClaimOp>, officials: Officials, claim: ClaimOp)
  {
    exists rv :: rv in rows && VoidedBy(rows, officials, claim, rv)
  }

  predicate Approved(rows: set<ClaimOp>, officials: Officials, claim: ClaimOp)
  {
    exists ap :: ap in Approvals(rows, officials, claim) && ap.pos.block > claim.pos.block
  }

  // The claimed index names a slot of the paper's author union that carries
  // neither a Hive name nor an ORCID.
  ghost predicate NamesClaimableSlot(posts: Posts, paper: PostId, index: Option<nat>)
    requires DistinctCreation(posts)
  {
    && index.Some? && paper in posts && posts[paper].isPaper
    && var union := DisplayOrder(Occurrences(posts, Walk(posts, [paper])));
       index.value < |union| && union[index.value].NameSlot?
  }

  ghost function StatusOf(posts: Posts, rows: set<ClaimOp>, officials: Officials, claim: ClaimOp): Status
    requires DistinctCreation(posts) && claim.action.kind.ClaimAuthorship?
  {
    if Voided(rows, officials, claim) then Revoked
    else if Approved(rows, officials, claim)
            && NamesClaimableSlot(posts, claim.action.paper, claim.action.kind.authorIndex) then Accepted
    else Pending
  }

  // ---------------------------------------------------------------------
  // The status is the last signal
  // ---------------------------------------------------------------------

  datatype Standing = Unanswered | ApprovedAt(block: nat) | RevokedLast

  // One later operation of the replay. A revocation in the block of the last
  // approval loses to it, whichever came first.
  function Hear(standing: Standing, o: ClaimOp, officials: Officials, claim: ClaimOp): Standing
  {
    if !SameKey(o, claim) || o.pos.block <= claim.pos.block then standing
    else if ProperApproval(o, officials) then ApprovedAt(o.pos.block)
    else if ProperRevocation(o, officials) && standing != ApprovedAt(o.pos.block) then RevokedLast
    else standing
  }

  function HearAll(log: Log<Event>, officials: Officials, claim: ClaimOp): Standing
  {
    if log == [] then Unanswered
    else Hear(HearAll(log[..|log| - 1], officials, claim), Last(log), officials, claim)
  }

  ghost predicate LastApproval(rows: set<ClaimOp>, officials: Officials, claim: ClaimOp, block: nat)
  {
    && block > claim.pos.block
    && (exists ap :: ap in Approvals(rows, officials, claim) && ap.pos.block == block)
    && forall ap :: ap in Approvals(rows, officials, claim) ==> ap.pos.block <= block
  }

  ghost predicate StandingMeans(rows: set<ClaimOp>, officials: Officials, claim: ClaimOp, standing: Standing)
  {
    && (standing.RevokedLast? <==> Voided(rows, officials, claim))
    && (standing.ApprovedAt? ==> LastApproval(rows, officials, claim, standing.block))
    && (standing.Unanswered? ==> !Approved(rows, officials, claim))
  }

  lemma HearKeepsMeaning(rows: set<ClaimOp>, officials: Officials, claim: ClaimOp, standing: Standing, o: ClaimOp)
    requires forall p :: p in rows ==> p.pos.block <= o.pos.block
    requires StandingMeans(rows, officials, claim, standing)
    ensures StandingMeans(rows + {o}, officials, claim, Hear(standing, o, officials, claim))
  {
    var grown := rows + {o};
    var before, after := Approvals(rows, officials, claim), Approvals(grown, officials, claim);
    var next := Hear(standing, o, officials, claim);
    if SameKey(o, claim) && o.pos.block > claim.pos.block && ProperApproval(o, officials) {
      assert after == before + {o};
      assert LastApproval(grown, officials, claim, o.pos.block);
    } else if SameKey(o, claim) && o.pos.block > claim.pos.block && ProperRevocation(o, officials) {
      assert after == before;
      if next.RevokedLast? {
        if standing.RevokedLast? {
          var rv :| rv in rows && VoidedBy(rows, officials, claim, rv);
          assert VoidedBy(grown, officials, claim, rv);
        } else {
          assert VoidedBy(grown, officials, claim, o);
        }
      } else {
        assert LastApproval(grown, officials, claim, o.pos.block);
      }
    } else {
      StaleOrImproperIsInert(rows, officials, claim, o);
      assert standing.ApprovedAt? ==> LastApproval(grown, officials, claim, standing.block);
    }
  }

  // An operation that is not a proper answer after the claim.
  predicate Answers(o: ClaimOp, officials: Officials, claim: ClaimOp)
  {
    && SameKey(o, claim) && o.pos.block > claim.pos.block
    && (ProperApproval(o, officials) || ProperRevocation(o, officials))
  }

  /** An operation that answers another claim, precedes this one, or is not
      properly signed changes nothing about it, however many there are. */
  lemma StaleOrImproperIsInert(rows: set<ClaimOp>, officials: Officials, claim: ClaimOp, o: ClaimOp)
    requires !Answers(o, officials, claim)
    ensures Voided(rows + {o}, officials, claim) <==> Voided(rows, officials, claim)
    ensures Approved(rows + {o}, officials, claim) <==> Approved(rows, officials, claim)
    ensures forall b :: LastApproval(rows + {o}, officials, claim, b) <==> LastApproval(rows, officials, claim, b)
  {
    var grown := rows + {o};
    var before, after := Approvals(rows, officials, claim), Approvals(grown, officials, claim);
    assert before <= after && forall ap :: ap in after ==> ap in before || (ap == o && o.pos.block <= claim.pos.block);
    forall rv ensures VoidedBy(rows, officials, claim, rv) <==> VoidedBy(grown, officials, claim, rv) {
    }
    if Voided(rows, officials, claim) {
      var rv :| rv in rows && VoidedBy(rows, officials, claim, rv);
      assert rv in grown;
    }
    forall b ensures LastApproval(grown, officials, claim, b) <==> LastApproval(rows, officials, claim, b) {
    }
  }

  lemma {:induction false} HeardStandingMeans(log: Log<Event>, officials: Officials, claim: ClaimOp)
    requires ChainOrdered(log)
    ensures StandingMeans(Rows(log), officials, claim, HearAll(log, officials, claim))
  {
    if log != [] {
      OrderedFront(log);
      HeardStandingMeans(log[..|log| - 1], officials, claim);
      HearKeepsMeaning(Rows(log[..|log| - 1]), officials, claim,
                       HearAll(log[..|log| - 1], officials, claim), Last(log));
    }
  }

  /** The CASE over unordered rows is a replay: the last properly signed answer
      after the claim stands, an approval beating a revocation of its own block. */
  lemma StatusIsLastAnswer(posts: Posts, log: Log<Event>, officials: Officials, claim: ClaimOp)
    requires DistinctCreation(posts) && ChainOrdered(log) && claim.action.kind.ClaimAuthorship?
    ensures StatusOf(posts, Rows(log), officials, claim)
         == match HearAll(log, officials, claim)
            case RevokedLast => Revoked
            case Unanswered => Pending
            case ApprovedAt(_) =>
              if NamesClaimableSlot(posts, claim.action.paper, claim.action.kind.authorIndex) then Accepted else Pending
  {
    HeardStandingMeans(log, officials, claim);
  }

  // The operation is about this account's claim: it names it, or names nobody and
  // is signed by it.
  predicate Concerns(o: ClaimOp, c: Account)
  {
    || o.action.claimerField == Some(c)
    || (o.action.claimerField.None? && |o.signers| > 0 && o.signers[0] == c)
  }

  /** Only the poster and the bridge approve, and only they, the admin and the claimer
      revoke: an answer signed by anybody else, or by nobody, changes no status. Nor
      does one to a claim on another paper or by another account, or one that is not
      later than the claim. */
  lemma UnauthorizedAnswersAreInert(posts: Posts, rows: set<ClaimOp>, officials: Officials, claim: ClaimOp, o: ClaimOp,
                                    signer: Account)
    requires DistinctCreation(posts) && claim.action.kind.ClaimAuthorship? && !o.action.kind.ClaimAuthorship?
    requires o.signers == [] || o.signers[0] == signer
    requires || o.signers == [] || o.action.paper != claim.action.paper || o.pos.block <= claim.pos.block
             || (forall c :: Concerns(o, c) ==> !Concerns(claim, c))
             || (&& signer != o.action.paper.author && signer != officials.bridge
                 && (o.action.kind.RevokeAuthorship? ==> signer != officials.admin && !Concerns(o, signer)))
    ensures StatusOf(posts, rows + {o}, officials, claim) == StatusOf(posts, rows, officials, claim)
  {
    assert Claimer(o).Some? ==> Concerns(o, Claimer(o).value);
    assert Claimer(claim).Some? ==> Concerns(claim, Claimer(claim).value);
    StaleOrImproperIsInert(rows, officials, claim, o);
  }

  /** Signed by one of these, an answer to the claim that comes last has its effect:
      an approval accepts a claim on a slot that only has a name, and a revocation
      in a later block revokes. */
  lemma AuthorizedAnswersCount(posts: Posts, log: Log<Event>, officials: Officials, claim: ClaimOp, o: ClaimOp,
                               signer: Account, c: Account)
    requires DistinctCreation(posts) && claim.action.kind.ClaimAuthorship? && ChainOrdered(log + [o])
    requires Concerns(claim, c) && Concerns(o, c) && o.action.paper == claim.action.paper
    requires o.pos.block > claim.pos.block && |o.signers| > 0 && o.signers[0] == signer
    ensures o.action.kind.ApproveAuthorship? && (signer == claim.action.paper.author || signer == officials.bridge) ==>
              var paper, index := claim.action.paper, claim.action.kind.authorIndex;
              StatusOf(posts, Rows(log + [o]), officials, claim)
              == if && paper in posts && posts[paper].isPaper && index.Some?
                    && var names := DisplayOrder(Occurrences(posts, Walk(posts, [paper])));
                       index.value < |names| && names[index.value].NameSlot?
                 then Accepted else Pending
    ensures && o.action.kind.RevokeAuthorship? && (forall p :: p in log ==> p.pos.block < o.pos.block)
            && (signer == claim.action.paper.author || signer == officials.bridge || signer == officials.admin || signer == c)
            ==> StatusOf(posts, Rows(log + [o]), officials, claim) == Revoked
  {
    assert (log + [o])[..|log|] == log && Last(log + [o]) == o;
    StatusIsLastAnswer(posts, log + [o], officials, claim);
    assert forall i, j :: 0 <= i < j < |log| ==> (log + [o])[i] == log[i] && (log + [o])[j] == log[j];
    HeardStandingMeans(log, officials, claim);
    assert HearAll(log + [o], officials, claim) == Hear(HearAll(log, officials, claim), o, officials, claim);
  }

  /** Publishing more posts never takes an accepted claim away: its index keeps
      naming the same slot. */
  lemma AcceptedClaimsSurviveGrowth(older: Posts, newer: Posts, rows: set<ClaimOp>, officials: Officials,
                                  claim: ClaimOp)
    requires DistinctCreation(older) && DistinctCreation(newer) && GrewLater(older, newer)
    requires claim.action.kind.ClaimAuthorship? && StatusOf(older, rows, officials, claim) == Accepted
    ensures StatusOf(newer, rows, officials, claim) == Accepted
  {
    LaterPostsKeepAuthorIndexes(older, newer, claim.action.paper);
    var index := claim.action.kind.authorIndex.value;
    var before := DisplayOrder(Occurrences(older, Walk(older, [claim.action.paper])));
    var after := DisplayOrder(Occurrences(newer, Walk(newer, [claim.action.paper])));
    assert before[index] == after[index];
  }

  // ---------------------------------------------------------------------
  // Scopes
  // ---------------------------------------------------------------------

  datatype Scope =
    | Unscoped
    | ForClaimer(claimer: Account)
    | ForClaimers(claimers: set<Account>)
    | ForPaper(paper: PostId)
    | ForPapers(papers: set<PostId>)

  predicate KeyInScope(scope: Scope, claimer: Option<Account>, paper: PostId)
  {
    match scope
    case Unscoped => true
    case ForClaimer(c) => claimer == Some(c)
    case ForClaimers(cs) => claimer.Some? && claimer.value in cs
    case ForPaper(p) => paper == p
    case ForPapers(ps) => ps != {} && paper in ps
  }

  // `claim_events` under a scope.
  function Scoped(rows: set<ClaimOp>, scope: Scope): set<ClaimOp>
  {
    set o | o in rows && KeyInScope(scope, Claimer(o), o.action.paper)
  }

  datatype ClaimRow = ClaimRow(claimer: Option<Account>, paper: PostId, authorIndex: Option<nat>, status: Status)

  ghost function RowOf(posts: Posts, rows: set<ClaimOp>, officials: Officials, claim: ClaimOp): ClaimRow
    requires DistinctCreation(posts) && claim.action.kind.ClaimAuthorship?
  {
    ClaimRow(Claimer(claim), claim.action.paper, claim.action.kind.authorIndex, StatusOf(posts, rows, officials, claim))
  }

  // `authorship_claims`.
  ghost function AuthorshipClaims(posts: Posts, rows: set<ClaimOp>, officials: Officials): set<ClaimRow>
    requires DistinctCreation(posts)
  {
    set o | o in rows && o.action.kind.ClaimAuthorship? :: RowOf(posts, rows, officials, o)
  }

  lemma ScopedStatus(posts: Posts, rows: set<ClaimOp>, officials: Officials, scope: Scope, claim: ClaimOp)
    requires DistinctCreation(posts) && claim.action.kind.ClaimAuthorship? && claim in Scoped(rows, scope)
    ensures StatusOf(posts, Scoped(rows, scope), officials, claim) == StatusOf(posts, rows, officials, claim)
  {
    var scoped := Scoped(rows, scope);
    forall o | o in rows && SameKey(o, claim) ensures o in scoped {
    }
    assert Approvals(scoped, officials, claim) == Approvals(rows, officials, claim);
    if Voided(rows, officials, claim) {
      var rv :| rv in rows && VoidedBy(rows, officials, claim, rv);
      assert rv in scoped && VoidedBy(scoped, officials, claim, rv);
    }
    if Voided(scoped, officials, claim) {
      var rv :| rv in scoped && VoidedBy(scoped, officials, claim, rv);
      assert VoidedBy(rows, officials, claim, rv);
    }
  }

  /** Resolving a scoped set of events gives the unscoped rows of that scope, with
      the same statuses, for every scope the builder offers. */
  lemma ScopeIsFilter(posts: Posts, rows: set<ClaimOp>, officials: Officials, scope: Scope, r: ClaimRow)
    requires DistinctCreation(posts)
    ensures r in AuthorshipClaims(posts, Scoped(rows, scope), officials)
       <==> && r in AuthorshipClaims(posts, rows, officials)
            && match scope
               case Unscoped => true
               case ForClaimer(c) => r.claimer == Some(c)
               case ForClaimers(cs) => r.claimer.Some? && r.claimer.value in cs
               case ForPaper(p) => r.paper == p
               case ForPapers(ps) => r.paper in ps
  {
    var scoped := Scoped(rows, scope);
    if r in AuthorshipClaims(posts, scoped, officials) {
      var o :| o in scoped && o.action.kind.ClaimAuthorship? && RowOf(posts, scoped, officials, o) == r;
      ScopedStatus(posts, rows, officials, scope, o);
      assert RowOf(posts, rows, officials, o) == r;
    }
    if r in AuthorshipClaims(posts, rows, officials) && KeyInScope(scope, r.claimer, r.paper) {
      var o :| o in rows && o.action.kind.ClaimAuthorship? && RowOf(posts, rows, officials, o) == r;
      ScopedStatus(posts, rows, officials, scope, o);
      assert RowOf(posts, scoped, officials, o) == r;
    }
  }
}
