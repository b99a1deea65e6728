/** Who has consented, read off the log operation by operation: the rules of Routes 1
    and 2 for the process and for the database, with every signature, anchor and block
    spelled out. */
module ConsentInWords {
  import opened Prelude
  import opened ChainLog
  import opened ContinuationChain
  import opened Consent
  import opened ConsentQuery

  predicate SignedBy(o: ConsentOp, s: Account)
  {
    |o.signers| > 0 && o.signers[0] == s
  }

  // The slot names the account, or carries the ORCID attested for it.
  predicate Names(x: ClaimedSlot, attested: Attestations, s: Account)
  {
    || x.hive == Some(s)
    || (s in attested && attested[s].Some? && attested[s].value != "" && x.orcid == attested[s])
  }

  // The first row of a set whose rows say yes or no, in terms of the log.
  lemma LastWord<A>(log: Log<A>, yes: set<Op<A>>, no: set<Op<A>>)
    requires ChainOrdered(log) && yes <= Rows(log) && no <= Rows(log) && yes !! no
    ensures Ranked(yes + no)
    ensures yes + no != {} && Latest(yes + no) in yes
       <==> exists i :: 0 <= i < |log| && log[i] in yes && forall j :: i < j < |log| ==> log[j] !in no
    ensures yes + no == {} || Latest(yes + no) in yes
       <==> forall j :: 0 <= j < |log| && log[j] in no ==> exists i :: j < i < |log| && log[i] in yes
  {
    var all := yes + no;
    OrderedRowsAreRanked(log, all);
    if all != {} {
      var k :| 0 <= k < |log| && log[k] == Latest(all);
      var last := Latest(all);
      forall j | k < j < |log| ensures log[j] !in all {
        assert Before(last.pos, log[j].pos);
        assert log[j] in all ==> log[j] == last || Before(log[j].pos, last.pos);
      }
      forall j | 0 <= j < |log| && log[j] in all ensures j <= k {
      }
    }
  }

  // ---------------------------------------------------------------------
  // The process
  // ---------------------------------------------------------------------

  // An accept after a slot that names its signer appeared.
  predicate CountsFor(o: ConsentOp, slots: set<ClaimedSlot>, attested: Attestations, s: Account)
  {
    o.action.AuthorAccept? && SignedBy(o, s) && exists x :: x in slots && Names(x, attested, s) && x.firstBlock < o.pos.block
  }

  lemma AnchorsAreNames(slots: set<ClaimedSlot>, attested: Attestations, s: Account)
    ensures forall x :: Anchors(x, s, AttestedOrcid(attested, s)) <==> Names(x, attested, s)
    ensures AnchorBlocks(slots, s, AttestedOrcid(attested, s)) != {} <==> exists x :: x in slots && Names(x, attested, s)
  {
    var blocks := AnchorBlocks(slots, s, AttestedOrcid(attested, s));
    if x :| x in slots && Names(x, attested, s) {
      assert x.firstBlock in blocks;
    }
  }

  lemma InTimeIsAfterASlot(slots: set<ClaimedSlot>, attested: Attestations, s: Account, block: nat)
    requires AnchorBlocks(slots, s, AttestedOrcid(attested, s)) != {}
    ensures block > MinOf(AnchorBlocks(slots, s, AttestedOrcid(attested, s)))
       <==> exists x :: x in slots && Names(x, attested, s) && x.firstBlock < block
  {
    AnchorsAreNames(slots, attested, s);
    var blocks := AnchorBlocks(slots, s, AttestedOrcid(attested, s));
    if x :| x in slots && Names(x, attested, s) && x.firstBlock < block {
      assert x.firstBlock in blocks;
    }
  }

  /** In the process the root's account consents exactly when a slot names it, and any
      other exactly when the last operation it signed is an accept after some slot
      that names it. */
  lemma ProcessInWords(root: Account, slots: set<ClaimedSlot>, attested: Attestations, log: Log<Action>, s: Account)
    requires ChainOrdered(log) && s != ""
    ensures Ranked(Rows(log))
    ensures s == root ==>
      (Consented(root, slots, attested, Rows(log), s) <==> exists x :: x in slots && Names(x, attested, s))
    ensures s != root ==>
      (Consented(root, slots, attested, Rows(log), s)
       <==> exists i :: 0 <= i < |log| && CountsFor(log[i], slots, attested, s)
                        && forall j :: i < j < |log| ==> !SignedBy(log[j], s) || log[j].action.AuthorAccept?)
  {
    OrderedRowsAreRanked(log, Rows(log));
    AnchorsAreNames(slots, attested, s);
    if AnchorBlocks(slots, s, AttestedOrcid(attested, s)) != {} {
      LastOfValid(slots, attested, log, s);
    }
    hide AnchorBlocks, ValidOps, LatestAccepts, Ranked, SignedBy;
  }

  lemma LastOfValid(slots: set<ClaimedSlot>, attested: Attestations, log: Log<Action>, s: Account)
    requires ChainOrdered(log) && s != "" && AnchorBlocks(slots, s, AttestedOrcid(attested, s)) != {}
    ensures Ranked(Rows(log))
    ensures LatestAccepts(ValidOps(Rows(log), s, MinOf(AnchorBlocks(slots, s, AttestedOrcid(attested, s)))))
       <==> exists i :: 0 <= i < |log| && CountsFor(log[i], slots, attested, s)
                        && forall j :: i < j < |log| ==> !SignedBy(log[j], s) || log[j].action.AuthorAccept?
  {
    OrderedRowsAreRanked(log, Rows(log));
    var valid := ValidOps(Rows(log), s, MinOf(AnchorBlocks(slots, s, AttestedOrcid(attested, s))));
    var yes := set o | o in valid && o.action.AuthorAccept?;
    var no := set o | o in valid && !o.action.AuthorAccept?;
    assert yes + no == valid;
    forall i | 0 <= i < |log|
      ensures log[i] in yes <==> CountsFor(log[i], slots, attested, s)
      ensures log[i] in no <==> SignedBy(log[i], s) && !log[i].action.AuthorAccept?
    {
      InTimeIsAfterASlot(slots, attested, s, log[i].pos.block);
    }
    hide AnchorBlocks, ValidOps, CountsFor, SignedBy;
    LastWord(log, yes, no);
  }

  // ---------------------------------------------------------------------
  // The database
  // ---------------------------------------------------------------------

  // On a bridge paper only a name counts.
  predicate NamesOn(p: Paper, x: ClaimedSlot, attested: Attestations, s: Account)
  {
    x in p.slots && (x.hive == Some(s) || (!p.isBridge && Names(x, attested, s)))
  }

  predicate AcceptsInTime(o: ConsentOp, p: Paper, attested: Attestations, s: Account)
  {
    && o.action == AuthorAccept(p.root) && SignedBy(o, s)
    && exists x :: x in p.slots && NamesOn(p, x, attested, s) && x.firstBlock < o.pos.block
  }

  // The account's own resign, or a revoke of it by the poster, the bridge, the admin
  // or itself.
  predicate Withdraws(o: ConsentOp, p: Paper, officials: Officials, s: Account)
  {
    || (o.action == AuthorResign(p.root) && SignedBy(o, s))
    || (&& o.action == RevokeAuthorship(p.root, s)
        && (SignedBy(o, p.root.author) || SignedBy(o, officials.bridge) || SignedBy(o, officials.admin) || SignedBy(o, s)))
  }

  ghost predicate HasAnchor(p: Paper, attested: Attestations, s: Account)
  {
    exists x :: x in p.slots && NamesOn(p, x, attested, s)
  }

  lemma GroupsInWords(p: Paper, attested: Attestations, s: Account, block: nat)
    ensures var groups := AnchorGroups(p, s, AttestedOrcid(attested, s));
            && (groups != {} <==> HasAnchor(p, attested, s))
            && (groups != {} ==>
                  (block > MinOf(groups) <==> exists x :: x in p.slots && NamesOn(p, x, attested, s) && x.firstBlock < block))
  {
    var orcid := AttestedOrcid(attested, s);
    GroupsAreAnchors(p, s, orcid);
    var blocks := AnchorBlocks(p.slots, s, if p.isBridge then None else orcid);
    forall x ensures NamesOn(p, x, attested, s) <==> x in p.slots && Anchors(x, s, if p.isBridge then None else orcid) {
    }
    forall x | NamesOn(p, x, attested, s) ensures x.firstBlock in blocks {
    }
    if blocks != {} && block > MinOf(blocks) {
      var x :| x in p.slots && Anchors(x, s, if p.isBridge then None else orcid) && x.firstBlock == MinOf(blocks);
      assert NamesOn(p, x, attested, s) && x.firstBlock < block;
    }
  }

  // The rows behind both routes, in words.
  lemma StreamInWords(p: Paper, officials: Officials, attested: Attestations, ops: set<ConsentOp>, s: Account, o: ConsentOp)
    requires s != "" && o in ops
    ensures var stream := Route2Stream(p, officials, attested, ops, None, s);
            && (o in stream && o.action.AuthorAccept? <==> AcceptsInTime(o, p, attested, s))
            && (o in stream && !o.action.AuthorAccept? <==> HasAnchor(p, attested, s) && Withdraws(o, p, officials, s))
  {
    GroupsInWords(p, attested, s, o.pos.block);
    hide AnchorGroups, NamesOn;
  }

  lemma StreamSplits(p: Paper, officials: Officials, attested: Attestations, log: Log<Action>, s: Account)
    requires ChainOrdered(log) && s != ""
    ensures Ranked(Rows(log))
    ensures LatestAccepts(Route2Stream(p, officials, attested, Rows(log), None, s))
       <==> exists i :: 0 <= i < |log| && AcceptsInTime(log[i], p, attested, s)
                        && forall j :: i < j < |log| ==> !Withdraws(log[j], p, officials, s)
    ensures (var stream := Route2Stream(p, officials, attested, Rows(log), None, s); stream == {} || LatestAccepts(stream))
       <==> forall j :: 0 <= j < |log| && HasAnchor(p, attested, s) && Withdraws(log[j], p, officials, s) ==>
              exists i :: j < i < |log| && AcceptsInTime(log[i], p, attested, s)
  {
    OrderedRowsAreRanked(log, Rows(log));
    var stream := Route2Stream(p, officials, attested, Rows(log), None, s);
    var yes := set o | o in stream && o.action.AuthorAccept?;
    var no := set o | o in stream && !o.action.AuthorAccept?;
    assert yes + no == stream;
    hide Route2Stream, NamesOn;
    forall i | 0 <= i < |log|
      ensures log[i] in yes <==> AcceptsInTime(log[i], p, attested, s)
      ensures log[i] in no <==> HasAnchor(p, attested, s) && Withdraws(log[i], p, officials, s)
      ensures AcceptsInTime(log[i], p, attested, s) ==> HasAnchor(p, attested, s)
    {
      StreamInWords(p, officials, attested, Rows(log), s, log[i]);
    }
    hide AcceptsInTime, Withdraws, HasAnchor, Route2Stream;
    LastWord(log, yes, no);
  }

  /** In the database an account consents by Route 2 exactly when it accepted after
      some slot that names it, and has neither resigned nor been properly revoked
      since. */
  lemma Route2InWords(p: Paper, officials: Officials, attested: Attestations, log: Log<Action>, s: Account)
    requires ChainOrdered(log) && s != ""
    ensures Ranked(Rows(log))
    ensures Route2(p, officials, attested, Rows(log), None, s)
       <==> exists i :: 0 <= i < |log| && AcceptsInTime(log[i], p, attested, s)
                        && forall j :: i < j < |log| ==> !Withdraws(log[j], p, officials, s)
  {
    StreamSplits(p, officials, attested, log, s);
  }

  /** By Route 1 the poster, and nobody else, consents without a word, if a slot names
      it or the paper is the bridge's, unless it has an anchor and last resigned or
      was properly revoked. */
  lemma Route1InWords(p: Paper, officials: Officials, attested: Attestations, log: Log<Action>, s: Account)
    requires ChainOrdered(log) && s != ""
    ensures Ranked(Rows(log))
    ensures Route1(p, officials, attested, Rows(log), None, s)
       <==> && s == p.root.author && (p.isBridge || exists x :: x in p.slots && x.hive == Some(s))
            && forall j :: 0 <= j < |log| && HasAnchor(p, attested, s) && Withdraws(log[j], p, officials, s) ==>
                 exists i :: j < i < |log| && AcceptsInTime(log[i], p, attested, s)
  {
    StreamSplits(p, officials, attested, log, s);
    var stream := Route2Stream(p, officials, attested, Rows(log), None, s);
    assert HiveBlocks(p.slots, s) != {} <==> exists x :: x in p.slots && x.hive == Some(s) by {
      if x :| x in p.slots && x.hive == Some(s) {
        assert x.firstBlock in HiveBlocks(p.slots, s);
      }
    }
    hide AcceptsInTime, Withdraws, HasAnchor, Route2Stream, HiveBlocks, LatestAccepts;
  }
}
