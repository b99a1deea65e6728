/** What one vote, one review and one month do to the scores of a cycle, on the ballots
    and reviews themselves. */
module ReputationEffects {
  import opened Prelude
  import opened ChainLog
  import opened ReputationScore

  // ---------------------------------------------------------------------
  // One voter of a ballot
  // ---------------------------------------------------------------------

  // The vote in force, 0 when there is none.
  ghost function Vote(ballot: Ballot, v: Account): int
    requires Ranked(ballot)
  {
    if LatestWeight(ballot, v).Some? then LatestWeight(ballot, v).value else 0
  }

  // What v adds to one side.
  ghost function Share(c: Context, sqrt: real --> real, ballot: Ballot, excluded: set<Account>, up: bool, v: Account): real
    requires Usable(c, sqrt, ballot)
  {
    if v in Voters(c, ballot, excluded, up) then Pull(c, sqrt, ballot, v) else 0.0
  }

  predicate MayVote(c: Context, excluded: set<Account>, v: Account)
  {
    v in c.accredited && v !in excluded
  }

  function Worth(weight: real, vote: int): real
  {
    weight * vote as real / 10000.0
  }

  lemma ShareIsTheVote(c: Context, sqrt: real --> real, ballot: Ballot, excluded: set<Account>, v: Account)
    requires Usable(c, sqrt, ballot)
    ensures var vote := Vote(ballot, v);
            && Share(c, sqrt, ballot, excluded, true, v)
               == (if MayVote(c, excluded, v) && vote > 0 then Worth(VoterWeight(c, sqrt, v), vote) else 0.0)
            && Share(c, sqrt, ballot, excluded, false, v)
               == (if MayVote(c, excluded, v) && vote < 0 then Worth(VoterWeight(c, sqrt, v), -vote) else 0.0)
  {
    hide VoterWeight, Readable, IsSqrt;
  }

  lemma WeightedSplits(c: Context, sqrt: real --> real, ballot: Ballot, excluded: set<Account>, up: bool, v: Account)
    requires Usable(c, sqrt, ballot)
    ensures Weighted(c, sqrt, ballot, excluded, up)
         == Share(c, sqrt, ballot, excluded, up, v)
            + SumOver(Voters(c, ballot, excluded, up) - {v}, u requires Usable(c, sqrt, ballot) => Pull(c, sqrt, ballot, u))
  {
    var voters := Voters(c, ballot, excluded, up);
    hide Voters, VoterWeight, IsSqrt, Readable, Ranked;
    if v in voters {
      SumTakesOut(voters, u requires Usable(c, sqrt, ballot) => Pull(c, sqrt, ballot, u), v);
    } else {
      assert voters - {v} == voters;
    }
  }

  /** Ballots on which only v's signals differ differ by v's share alone. */
  lemma OneVoterDiffers(c: Context, sqrt: real --> real, ballot: Ballot, other: Ballot, excluded: set<Account>, up: bool,
                        v: Account)
    requires Usable(c, sqrt, ballot) && Usable(c, sqrt, other)
    requires forall u :: u != v ==> SignalsOf(ballot, u) == SignalsOf(other, u)
    ensures Weighted(c, sqrt, ballot, excluded, up) - Share(c, sqrt, ballot, excluded, up, v)
         == Weighted(c, sqrt, other, excluded, up) - Share(c, sqrt, other, excluded, up, v)
  {
    WeightedSplits(c, sqrt, ballot, excluded, up, v);
    WeightedSplits(c, sqrt, other, excluded, up, v);
    forall u | u != v ensures LatestWeight(ballot, u) == LatestWeight(other, u) {
    }
    var rest := Voters(c, ballot, excluded, up) - {v};
    assert rest == Voters(c, other, excluded, up) - {v};
    SamePulls(c, sqrt, ballot, other, rest);
  }

  // A signal by an account that sent none before.
  ghost predicate FirstOf(ballot: Ballot, o: Signal, v: Account)
  {
    && |o.signers| > 0 && o.signers[0] == v && o.action.Some?
    && forall p :: p in ballot && |p.signers| > 0 ==> p.signers[0] != v
  }

  lemma FirstIsTheVote(ballot: Ballot, o: Signal, v: Account)
    requires Ranked(ballot) && Ranked(ballot + {o}) && FirstOf(ballot, o, v)
    ensures Vote(ballot, v) == 0 && Vote(ballot + {o}, v) == o.action.value
    ensures forall u :: u != v ==> SignalsOf(ballot + {o}, u) == SignalsOf(ballot, u)
  {
    assert SignalsOf(ballot, v) == {} && SignalsOf(ballot + {o}, v) == {o};
  }

  /** A first vote adds its voter's weight times the vote to its side and nothing to
      the other; one by an account that may not vote adds nothing. */
  lemma FirstVoteAdds(c: Context, sqrt: real --> real, ballot: Ballot, o: Signal, v: Account, excluded: set<Account>)
    requires Usable(c, sqrt, ballot) && Usable(c, sqrt, ballot + {o}) && FirstOf(ballot, o, v)
    ensures v in c.accredited && v !in excluded ==>
              var k := o.action.value;
              && Weighted(c, sqrt, ballot + {o}, excluded, true)
                 == Weighted(c, sqrt, ballot, excluded, true)
                    + (if k > 0 then VoterWeight(c, sqrt, v) * k as real / 10000.0 else 0.0)
              && Weighted(c, sqrt, ballot + {o}, excluded, false)
                 == Weighted(c, sqrt, ballot, excluded, false)
                    + (if k < 0 then VoterWeight(c, sqrt, v) * (-k) as real / 10000.0 else 0.0)
    ensures v !in c.accredited || v in excluded ==>
              forall up :: Weighted(c, sqrt, ballot + {o}, excluded, up) == Weighted(c, sqrt, ballot, excluded, up)
  {
    hide Weighted, VoterWeight, IsSqrt, Readable, Ranked, Worth;
    FirstVoteIsWorth(c, sqrt, ballot, o, v, excluded);
    if MayVote(c, excluded, v) {
      WorthIs(VoterWeight(c, sqrt, v), o.action.value);
      WorthIs(VoterWeight(c, sqrt, v), -o.action.value);
    }
  }

  lemma WorthIs(weight: real, vote: int)
    ensures Worth(weight, vote) == weight * vote as real / 10000.0
  {
  }

  lemma FirstVoteIsWorth(c: Context, sqrt: real --> real, ballot: Ballot, o: Signal, v: Account, excluded: set<Account>)
    requires Usable(c, sqrt, ballot) && Usable(c, sqrt, ballot + {o}) && FirstOf(ballot, o, v)
    ensures forall up :: Weighted(c, sqrt, ballot + {o}, excluded, up) - Weighted(c, sqrt, ballot, excluded, up)
                      == if !MayVote(c, excluded, v) || o.action.value == 0 || up != (o.action.value > 0) then 0.0
                         else Worth(VoterWeight(c, sqrt, v), if up then o.action.value else -o.action.value)
  {
    FirstIsTheVote(ballot, o, v);
    hide Weighted, Share, VoterWeight, Worth, Vote, IsSqrt, Readable, Ranked;
    ShareIsTheVote(c, sqrt, ballot, excluded, v);
    ShareIsTheVote(c, sqrt, ballot + {o}, excluded, v);
    forall up {
      OneVoterDiffers(c, sqrt, ballot + {o}, ballot, excluded, up, v);
    }
  }

  lemma NoVotes(c: Context, sqrt: real --> real, excluded: set<Account>, up: bool)
    requires Usable(c, sqrt, {})
    ensures Weighted(c, sqrt, {}, excluded, up) == 0.0
  {
    forall v ensures v !in Voters(c, {}, excluded, up) {
      assert SignalsOf({}, v) == {};
    }
    assert Voters(c, {}, excluded, up) == {};
  }

  // ---------------------------------------------------------------------
  // A vote that rises
  // ---------------------------------------------------------------------

  // Only v's signals differ, and its vote does not fall.
  ghost predicate Raises(c: Context, sqrt: real --> real, ballot: Ballot, other: Ballot, v: Account)
  {
    && Usable(c, sqrt, ballot) && Usable(c, sqrt, other)
    && (forall u :: u != v ==> SignalsOf(ballot, u) == SignalsOf(other, u))
    && Vote(ballot, v) <= Vote(other, v)
  }

  lemma RaisedShares(weight: real, vote: int, higher: int)
    requires weight >= 0.0 && vote <= higher
    ensures (if vote > 0 then Worth(weight, vote) else 0.0) <= (if higher > 0 then Worth(weight, higher) else 0.0)
    ensures (if higher < 0 then Worth(weight, -higher) else 0.0) <= (if vote < 0 then Worth(weight, -vote) else 0.0)
  {
    ProductGrows(vote as real, higher as real, weight);
    AgeingCostsNothingNegative(weight, if higher > 0 then higher as real else 0.0);
    AgeingCostsNothingNegative(weight, if vote < 0 then (-vote) as real else 0.0);
    assert weight * (-vote) as real == -(vote as real * weight) && weight * (-higher) as real == -(higher as real * weight);
  }

  lemma RaisedSides(c: Context, sqrt: real --> real, ballot: Ballot, other: Ballot, v: Account, excluded: set<Account>)
    requires Raises(c, sqrt, ballot, other, v)
    ensures Weighted(c, sqrt, ballot, excluded, true) <= Weighted(c, sqrt, other, excluded, true)
    ensures Weighted(c, sqrt, other, excluded, false) <= Weighted(c, sqrt, ballot, excluded, false)
  {
    hide Weighted, Share, Vote, SignalsOf, IsSqrt, Readable, Ranked;
    SharesInOrder(c, sqrt, ballot, other, v, excluded);
    OneVoterDiffers(c, sqrt, ballot, other, excluded, true, v);
    OneVoterDiffers(c, sqrt, ballot, other, excluded, false, v);
  }

  lemma SharesInOrder(c: Context, sqrt: real --> real, ballot: Ballot, other: Ballot, v: Account, excluded: set<Account>)
    requires Usable(c, sqrt, ballot) && Usable(c, sqrt, other) && Vote(ballot, v) <= Vote(other, v)
    ensures Share(c, sqrt, ballot, excluded, true, v) <= Share(c, sqrt, other, excluded, true, v)
    ensures Share(c, sqrt, other, excluded, false, v) <= Share(c, sqrt, ballot, excluded, false, v)
  {
    assert MayVote(c, excluded, v) ==> VoterWeight(c, sqrt, v) >= 0.0;
    hide Share, VoterWeight, Worth, Vote, IsSqrt, Readable, Ranked;
    ShareIsTheVote(c, sqrt, ballot, excluded, v);
    ShareIsTheVote(c, sqrt, other, excluded, v);
    if MayVote(c, excluded, v) {
      RaisedShares(VoterWeight(c, sqrt, v), Vote(ballot, v), Vote(other, v));
    }
  }

  /** Raising one account's vote on a paper, from whatever it was and whoever it is,
      never lowers the paper's score. */
  lemma RaisedVoteNeverLowersPaper(c: Context, w: map<Key, real>, sqrt: real --> real, p: PaperFacts, other: Ballot,
                                   v: Account)
    requires Loaded(w) && w[Downvote] >= 0.0 && Raises(c, sqrt, p.ballot, other, v)
    ensures PaperScore(c, w, sqrt, p) <= PaperScore(c, w, sqrt, p.(ballot := other))
  {
    RaisedSides(c, sqrt, p.ballot, other, v, p.excluded);
    hide Weighted, Raises, PaperFormula, Loaded;
    VotesPullTheirWay(w, Quality(c, p.reviews, p.excluded),
                      Weighted(c, sqrt, p.ballot, p.excluded, true), Weighted(c, sqrt, other, p.excluded, true),
                      Weighted(c, sqrt, p.ballot, p.excluded, false), Weighted(c, sqrt, other, p.excluded, false), p.months);
  }

  /** So a first vote pulls its way. */
  lemma FirstVotePullsItsWay(c: Context, w: map<Key, real>, sqrt: real --> real, p: PaperFacts, o: Signal, v: Account)
    requires Loaded(w) && w[Downvote] >= 0.0 && Usable(c, sqrt, p.ballot) && Usable(c, sqrt, p.ballot + {o})
    requires FirstOf(p.ballot, o, v)
    ensures var after := p.(ballot := p.ballot + {o});
            && (o.action.value >= 0 ==> PaperScore(c, w, sqrt, p) <= PaperScore(c, w, sqrt, after))
            && (o.action.value <= 0 ==> PaperScore(c, w, sqrt, after) <= PaperScore(c, w, sqrt, p))
  {
    var after := p.(ballot := p.ballot + {o});
    FirstIsTheVote(p.ballot, o, v);
    hide PaperScore, Usable, Vote, SignalsOf, Loaded;
    if o.action.value >= 0 {
      RaisedVoteNeverLowersPaper(c, w, sqrt, p, after.ballot, v);
    }
    if o.action.value <= 0 {
      RaisedVoteNeverLowersPaper(c, w, sqrt, after, p.ballot, v);
    }
  }

  /** Nor a review's. */
  lemma RaisedVoteNeverLowersReview(c: Context, w: map<Key, real>, sqrt: real --> real, r: ReviewFacts, other: Ballot,
                                    v: Account)
    requires Loaded(w) && w[Downvote] >= 0.0 && Raises(c, sqrt, r.ballot, other, v)
    ensures ReviewScore(c, w, sqrt, r) <= ReviewScore(c, w, sqrt, r.(ballot := other))
  {
    hide Weighted, ReviewFormula, Loaded;
    RaisedSides(c, sqrt, r.ballot, other, v, {r.author});
    hide Raises;
    ReviewFormulaGrows(w, Weighted(c, sqrt, r.ballot, {r.author}, true), Weighted(c, sqrt, other, {r.author}, true),
                       Weighted(c, sqrt, r.ballot, {r.author}, false), Weighted(c, sqrt, other, {r.author}, false), r.months);
  }

  lemma ReviewFormulaGrows(w: map<Key, real>, up: real, more: real, down: real, less: real, months: real)
    requires Loaded(w) && w[Downvote] >= 0.0 && up <= more && less <= down
    ensures ReviewFormula(w, up, down, months) <= ReviewFormula(w, more, less, months)
  {
    assert InDomain(DecayFloor, w[DecayFloor]);
    ProductGrows(less, down, w[Downvote]);
    hide Product;
    assert Net(up, down, w[Review], w[Downvote]) <= Net(more, less, w[Review], w[Downvote]);
    hide Capped, Decay, Net;
    CappedGrows(w[Review], Net(up, down, w[Review], w[Downvote]), Net(more, less, w[Review], w[Downvote]), Decay(w, months));
  }

  lemma ValueGrows(quality: real, entries: nat, up: real, more: real, factor: real, decay: real)
    requires quality >= 0.0 && up <= more && factor >= 0.0 && decay >= 0.0
    ensures CitationFormula(quality, entries, up, factor, decay) <= CitationFormula(quality, entries, more, factor, decay)
  {
    hide Product, CitationShare;
    ProductGrows(up, more, entries as real);
    CitationShareGrows(quality, Product(entries as real, up), Product(entries as real, more));
    var x := CitationShare(quality, Product(entries as real, up));
    var y := CitationShare(quality, Product(entries as real, more));
    ProductGrows(x, y, factor);
    ProductGrows(Product(x, factor), Product(y, factor), decay);
  }

  lemma CitationShareGrows(quality: real, upvotes: real, more: real)
    requires quality >= 0.0 && upvotes <= more
    ensures CitationShare(quality, upvotes) <= CitationShare(quality, more)
  {
    hide Product, Clipped;
    ProductGrows(Min(upvotes, 1.0), Min(more, 1.0), quality);
    ClippedGrows(Product(quality, Min(upvotes, 1.0)), Product(quality, Min(more, 1.0)));
  }

  lemma ClippedGrows(x: real, y: real)
    requires x <= y
    ensures Clipped(x) <= Clipped(y)
  {
  }

  /** Nor the value of a citation in the paper voted on. */
  lemma RaisedVoteNeverLowersCitation(c: Context, w: map<Key, real>, sqrt: real --> real, p: CitingFacts, other: Ballot,
                                      v: Account)
    requires Loaded(w) && Raises(c, sqrt, p.ballot, other, v) && (p.isSelf || w[Citation] >= 0.0)
    ensures CitationValue(c, w, sqrt, p) <= CitationValue(c, w, sqrt, p.(ballot := other))
  {
    assert InDomain(DecayFloor, w[DecayFloor]) && InDomain(SelfCitationDiscount, w[SelfCitationDiscount]);
    hide Weighted, CitationFormula, Loaded, Quality, Decay;
    RaisedSides(c, sqrt, p.ballot, other, v, p.voteExcluded);
    hide Raises;
    ValueGrows(Quality(c, p.reviews, p.reviewExcluded), p.entries, Weighted(c, sqrt, p.ballot, p.voteExcluded, true),
               Weighted(c, sqrt, other, p.voteExcluded, true),
               if p.isSelf then w[SelfCitationDiscount] else w[Citation], Decay(w, p.months));
  }

  // ---------------------------------------------------------------------
  // What a single vote is worth
  // ---------------------------------------------------------------------

  // The ballot that holds one signal, by v, of weight k.
  ghost predicate OnlyVote(ballot: Ballot, v: Account, k: int)
  {
    exists o :: ballot == {o} && |o.signers| > 0 && o.signers[0] == v && o.action == Some(k)
  }

  lemma OnlyVoteSides(c: Context, sqrt: real --> real, ballot: Ballot, v: Account, k: int, excluded: set<Account>)
    requires Usable(c, sqrt, ballot) && OnlyVote(ballot, v, k) && v in c.accredited && v !in excluded && v !in c.prev
    ensures Weighted(c, sqrt, ballot, excluded, true) == (if k > 0 then k as real / 10000.0 else 0.0)
    ensures Weighted(c, sqrt, ballot, excluded, false) == (if k < 0 then (-k) as real / 10000.0 else 0.0)
  {
    var o :| ballot == {o} && |o.signers| > 0 && o.signers[0] == v && o.action == Some(k);
    assert {} + {o} == ballot && Ranked<Option<int>>({});
    NoVotes(c, sqrt, excluded, true);
    NoVotes(c, sqrt, excluded, false);
    FirstVoteAdds(c, sqrt, {}, o, v, excluded);
  }

  lemma PullsOfOneSide(cap: real, factor: real, pull: real, decay: real)
    requires cap >= 0.0 && pull >= 0.0
    ensures Capped(cap, Net(pull, 0.0, cap, factor), decay) == Product(Min(pull, cap), decay)
    ensures factor >= 0.0 ==> Capped(cap, Net(0.0, pull, cap, factor), decay) == Product(-Min(Product(pull, factor), cap), decay)
  {
    if factor >= 0.0 {
      AgeingCostsNothingNegative(pull, factor);
      var cost := pull * factor;
      assert Max(-cap, Min(cap, Min(0.0, cap) - cost)) == -Min(cost, cap);
    }
  }

  lemma CappedWithin(cap: real, x: real, decay: real)
    requires -cap <= x <= cap
    ensures Capped(cap, x, decay) == Product(x, decay)
  {
  }

  lemma QualityTakesItsShare(quality: real, x: real)
    requires 0.0 <= quality <= 1.0 && x >= 0.0
    ensures 0.0 <= Product(quality, x) <= x && quality * x - 0.0 * x == Product(quality, x)
  {
    AgeingCostsNothingNegative(quality, x);
    AgeingCostsNothingNegative(1.0 - quality, x);
    assert (1.0 - quality) * x == x - quality * x;
  }

  lemma OneSidedPaper(w: map<Key, real>, quality: real, pull: real, months: real)
    requires Loaded(w) && w[Paper] >= 0.0 && pull >= 0.0 && 0.0 <= quality <= 1.0
    ensures PaperFormula(w, quality, pull, 0.0, months) == Product(Product(quality, Min(pull, w[Paper])), Decay(w, months))
    ensures w[Downvote] >= 0.0 ==>
              PaperFormula(w, quality, 0.0, pull, months) == Product(-Min(Product(pull, w[Downvote]), w[Paper]), Decay(w, months))
  {
    var cap, factor, decay := w[Paper], w[Downvote], Decay(w, months);
    var support := Min(pull, cap);
    assert 0.0 <= support <= cap && Min(0.0, cap) == 0.0;
    hide Decay, Capped, Min, Max, Loaded;
    QualityTakesItsShare(quality, support);
    assert Balance(w, quality, pull, 0.0) == Product(quality, support);
    assert Balance(w, quality, 0.0, pull) == Net(0.0, pull, cap, factor);
    hide Balance, Net, Product;
    CappedWithin(cap, Product(quality, support), decay);
    PullsOfOneSide(cap, factor, pull, decay);
  }

  lemma OneSidedReview(w: map<Key, real>, pull: real, months: real)
    requires Loaded(w) && w[Review] >= 0.0 && pull >= 0.0
    ensures ReviewFormula(w, pull, 0.0, months) == Product(Min(pull, w[Review]), Decay(w, months))
    ensures w[Downvote] >= 0.0 ==>
              ReviewFormula(w, 0.0, pull, months) == Product(-Min(Product(pull, w[Downvote]), w[Review]), Decay(w, months))
  {
    var cap, factor, decay := w[Review], w[Downvote], Decay(w, months);
    hide Decay, Capped, Min, Max, Net, Product;
    PullsOfOneSide(cap, factor, pull, decay);
  }

  /** On a paper, the one vote of an unscored account adds its share of a full vote, up
      to the paper weight, times the quality its reviews give it, or takes it times
      the downvote weight, down to as much below nothing; all of it times the decay. */
  lemma OnlyVoteOnPaper(c: Context, w: map<Key, real>, sqrt: real --> real, p: PaperFacts, v: Account, k: int)
    requires Loaded(w) && w[Paper] >= 0.0 && Usable(c, sqrt, p.ballot) && OnlyVote(p.ballot, v, k)
    requires v in c.accredited && v !in p.excluded && v !in c.prev
    ensures k > 0 ==>
              PaperScore(c, w, sqrt, p)
              == Quality(c, p.reviews, p.excluded) * Min(k as real / 10000.0, w[Paper]) * Decay(w, p.months)
    ensures k < 0 && w[Downvote] >= 0.0 ==>
              PaperScore(c, w, sqrt, p) == -Min((-k) as real / 10000.0 * w[Downvote], w[Paper]) * Decay(w, p.months)
  {
    hide Weighted, PaperFormula, Loaded, OnlyVote, Decay, Quality;
    OnlyVoteSides(c, sqrt, p.ballot, v, k, p.excluded);
    hide Usable, Min;
    OneSidedPaper(w, Quality(c, p.reviews, p.excluded), (if k > 0 then k else -k) as real / 10000.0, p.months);
  }

  /** The same on a review. */
  lemma OnlyVoteOnReview(c: Context, w: map<Key, real>, sqrt: real --> real, r: ReviewFacts, v: Account, k: int)
    requires Loaded(w) && w[Review] >= 0.0 && Usable(c, sqrt, r.ballot) && OnlyVote(r.ballot, v, k)
    requires v in c.accredited && v != r.author && v !in c.prev
    ensures k > 0 ==> ReviewScore(c, w, sqrt, r) == Min(k as real / 10000.0, w[Review]) * Decay(w, r.months)
    ensures k < 0 && w[Downvote] >= 0.0 ==>
              ReviewScore(c, w, sqrt, r) == -Min((-k) as real / 10000.0 * w[Downvote], w[Review]) * Decay(w, r.months)
  {
    hide Weighted, ReviewFormula, Loaded, OnlyVote, Decay;
    OnlyVoteSides(c, sqrt, r.ballot, v, k, {r.author});
    hide Usable, Min;
    OneSidedReview(w, (if k > 0 then k else -k) as real / 10000.0, r.months);
  }

  /** A full upvote on a citing paper makes the citation worth its whole weight, the
      self-citation discount if the citing paper is the user's own, times its quality
      and decay, and a downvote worth nothing. */
  lemma OnlyVoteOnCitation(c: Context, w: map<Key, real>, sqrt: real --> real, p: CitingFacts, v: Account, k: int)
    requires Loaded(w) && Usable(c, sqrt, p.ballot) && OnlyVote(p.ballot, v, k)
    requires v in c.accredited && v !in p.voteExcluded && v !in c.prev && p.entries >= 1
    ensures k >= 10000 ==>
              CitationValue(c, w, sqrt, p)
              == Product(Product(Quality(c, p.reviews, p.reviewExcluded),
                                 if p.isSelf then w[SelfCitationDiscount] else w[Citation]), Decay(w, p.months))
    ensures k <= 0 ==> CitationValue(c, w, sqrt, p) == 0.0
  {
    assert SelfCitationDiscount in w && Citation in w;
    hide Weighted, Decay, CitationFormula, OnlyVote, Loaded, Quality;
    OnlyVoteSides(c, sqrt, p.ballot, v, k, p.voteExcluded);
    hide Usable, Product;
    OneSidedCitation(Quality(c, p.reviews, p.reviewExcluded), p.entries, if k > 0 then k as real / 10000.0 else 0.0,
                     if p.isSelf then w[SelfCitationDiscount] else w[Citation], Decay(w, p.months));
  }

  lemma OneSidedCitation(quality: real, entries: nat, pull: real, factor: real, decay: real)
    requires entries >= 1 && 0.0 <= quality <= 1.0
    ensures pull >= 1.0 ==> CitationFormula(quality, entries, pull, factor, decay) == Product(Product(quality, factor), decay)
    ensures pull == 0.0 ==> CitationFormula(quality, entries, pull, factor, decay) == 0.0
  {
    hide CitationShare;
    if pull >= 1.0 {
      FullSupport(quality, entries as real, pull);
    } else if pull == 0.0 {
      NoSupport(quality, entries as real);
      assert Product(0.0, factor) == 0.0;
    }
  }

  lemma FullSupport(quality: real, entries: real, pull: real)
    requires entries >= 1.0 && pull >= 1.0 && 0.0 <= quality <= 1.0
    ensures CitationShare(quality, Product(entries, pull)) == quality
  {
    AgeingCostsNothingNegative(entries - 1.0, pull);
    assert Product(entries, pull) >= 1.0;
    assert Product(quality, 1.0) == quality;
  }

  lemma NoSupport(quality: real, entries: real)
    ensures CitationShare(quality, Product(entries, 0.0)) == 0.0
  {
    assert Product(entries, 0.0) == 0.0 && Product(quality, 0.0) == 0.0;
  }

  // ---------------------------------------------------------------------
  // Reviews and age
  // ---------------------------------------------------------------------

  lemma JudgedLast(c: Context, reviews: seq<Rating>, r: Rating, excluded: set<Account>)
    requires (r.author in c.accredited || r.author == c.anon) && r.author !in excluded
    ensures Judging(c, reviews + [r], excluded) == Judging(c, reviews, excluded) + [r]
  {
    if reviews != [] {
      assert (reviews + [r])[1..] == reviews[1..] + [r];
      JudgedLast(c, reviews[1..], r, excluded);
    }
  }

  lemma {:induction false} StarsAdd(reviews: seq<Rating>, r: Rating)
    ensures StarSum(reviews + [r])
         == StarSum(reviews) + (r.methodology + r.novelty + r.clarity + r.significance) as real / 4.0
  {
    if reviews == [] {
      assert [r][1..] == [] && [] + [r] == [r];
      assert StarSum([r]) == (r.methodology + r.novelty + r.clarity + r.significance) as real / 4.0 + StarSum([r][1..]);
    } else {
      assert (reviews + [r])[1..] == reviews[1..] + [r];
      StarsAdd(reviews[1..], r);
    }
  }

  lemma ShareTimesCount(sum: real, n: nat)
    requires n > 0
    ensures Product(StarShare(sum, n as real), n as real) == sum / 5.0
  {
    var quotient := sum / n as real;
    assert quotient * n as real == sum;
  }

  // The mean, multiplied out.
  lemma QualityTimesReviews(c: Context, reviews: seq<Rating>, excluded: set<Account>)
    ensures var judging := Judging(c, reviews, excluded);
            Product(Quality(c, reviews, excluded), |judging| as real) == StarSum(judging) / 5.0
  {
    var judging := Judging(c, reviews, excluded);
    if judging == [] {
      assert Product(1.0, 0.0) == 0.0 == StarSum([]);
    } else {
      hide Judging, StarSum, StarShare, Product;
      ShareTimesCount(StarSum(judging), |judging|);
    }
  }

  /** The quality factor is the mean of four stars out of five over the reviews by
      accredited accounts, or the anonymous proxy, that may judge: one more of these
      enters the mean, any other changes nothing, and without any it is 1. */
  lemma QualityIsTheMean(c: Context, reviews: seq<Rating>, r: Rating, excluded: set<Account>)
    ensures Quality(c, [], excluded) == 1.0 && |Judging(c, [], excluded)| == 0
    ensures var n, stars := |Judging(c, reviews, excluded)|, r.methodology + r.novelty + r.clarity + r.significance;
            var after := reviews + [r];
            if (r.author in c.accredited || r.author == c.anon) && r.author !in excluded then
              && |Judging(c, after, excluded)| == n + 1
              && Product(Quality(c, after, excluded), (n + 1) as real)
                 == Product(Quality(c, reviews, excluded), n as real) + stars as real / 20.0
            else
              |Judging(c, after, excluded)| == n && Quality(c, after, excluded) == Quality(c, reviews, excluded)
  {
    if (r.author in c.accredited || r.author == c.anon) && r.author !in excluded {
      JudgedLast(c, reviews, r, excluded);
      StarsAdd(Judging(c, reviews, excluded), r);
      hide Quality, StarSum, Judging, Product;
      QualityTimesReviews(c, reviews, excluded);
      QualityTimesReviews(c, reviews + [r], excluded);
    } else {
      SameJudging(c, reviews, r, excluded);
      hide Judging, StarSum, Product, StarShare;
    }
  }

  /** Past the grace period every month takes the rate, down to the floor. */
  lemma DecayTakesTheRate(w: map<Key, real>, months: real, more: real)
    requires Loaded(w) && months >= w[DecayGraceMonths] && more >= 0.0
    ensures Decay(w, w[DecayGraceMonths]) == 1.0
    ensures Decay(w, months + more) == Max(w[DecayFloor], Decay(w, months) - more * w[DecayRate])
  {
    assert InDomain(DecayRate, w[DecayRate]) && InDomain(DecayFloor, w[DecayFloor]);
    var grace, rate := w[DecayGraceMonths], w[DecayRate];
    AgeingCostsNothingNegative(more, rate);
    assert (months + more - grace) * rate == (months - grace) * rate + more * rate;
  }

  // ---------------------------------------------------------------------
  // The total
  // ---------------------------------------------------------------------

  /** Rounding moves to the nearest tenth, halves away from zero. */
  lemma RoundsToTenths(x: real)
    ensures Round1(-x) == -Round1(x)
    ensures x >= 0.0 ==>
              (Round1(x) * 10.0).Floor as real == Round1(x) * 10.0 && -0.05 < Round1(x) - x <= 0.05
  {
    if x >= 0.0 {
      var n := (x * 10.0 + 0.5).Floor;
      assert Round1(x) == n as real / 10.0 && Round1(x) * 10.0 == n as real;
    }
  }

  lemma RoundingGrows(x: real, y: real)
    requires x <= y
    ensures Round1(x) <= Round1(y)
  {
    if x >= 0.0 {
      FloorGrows(x * 10.0 + 0.5, y * 10.0 + 0.5);
    } else if y < 0.0 {
      FloorGrows(-y * 10.0 + 0.5, -x * 10.0 + 0.5);
    }
  }

  lemma FloorGrows(x: real, y: real)
    requires x <= y
    ensures x.Floor <= y.Floor
  {
  }

  lemma {:induction false} SumsGrow(s: seq<real>, t: seq<real>)
    requires |s| == |t| && forall i :: 0 <= i < |s| ==> s[i] <= t[i]
    ensures SumSeq(s) <= SumSeq(t)
  {
    if s != [] {
      SumsGrow(s[1..], t[1..]);
    }
  }

  // Nothing of the one is worth less than its counterpart of the other.
  ghost predicate WorthNoMore(c: Context, w: map<Key, real>, sqrt: real --> real, u: UserFacts, t: UserFacts)
    requires Loaded(w) && AllUsable(c, sqrt, u) && AllUsable(c, sqrt, t)
  {
    && |u.papers| == |t.papers| && |u.reviews| == |t.reviews| && |u.citing| == |t.citing|
    && (forall i :: 0 <= i < |u.papers| ==> PaperScore(c, w, sqrt, u.papers[i]) <= PaperScore(c, w, sqrt, t.papers[i]))
    && (forall i :: 0 <= i < |u.reviews| ==> ReviewScore(c, w, sqrt, u.reviews[i]) <= ReviewScore(c, w, sqrt, t.reviews[i]))
    && (forall i :: 0 <= i < |u.citing| ==> CitationValue(c, w, sqrt, u.citing[i]) <= CitationValue(c, w, sqrt, t.citing[i]))
  }

  lemma TotalRises(w: map<Key, real>, p: real, r: real, q: real, p': real, r': real, q': real)
    requires Loaded(w) && p <= p' && r <= r' && q <= q'
    ensures Total(w, p, r, q) <= Total(w, p', r', q')
  {
    hide Round1;
    RoundingGrows(p + r + Min(w[CitationMax], q) + w[AccreditationBonus],
                  p' + r' + Min(w[CitationMax], q') + w[AccreditationBonus]);
  }

  /** A user's total never falls when papers, reviews or citations rise in worth. */
  lemma UserScoreGrows(c: Context, w: map<Key, real>, sqrt: real --> real, u: UserFacts, t: UserFacts)
    requires Loaded(w) && AllUsable(c, sqrt, u) && AllUsable(c, sqrt, t) && WorthNoMore(c, w, sqrt, u, t)
    ensures UserScore(c, w, sqrt, u) <= UserScore(c, w, sqrt, t)
  {
    hide PaperScore, ReviewScore, CitationValue, SumSeq, Total, Usable, Loaded;
    SumsGrow(PaperScores(c, w, sqrt, u), PaperScores(c, w, sqrt, t));
    SumsGrow(ReviewScores(c, w, sqrt, u), ReviewScores(c, w, sqrt, t));
    SumsGrow(CitationValues(c, w, sqrt, u), CitationValues(c, w, sqrt, t));
    TotalRises(w, SumSeq(PaperScores(c, w, sqrt, u)), SumSeq(ReviewScores(c, w, sqrt, u)), SumSeq(CitationValues(c, w, sqrt, u)),
               SumSeq(PaperScores(c, w, sqrt, t)), SumSeq(ReviewScores(c, w, sqrt, t)), SumSeq(CitationValues(c, w, sqrt, t)));
  }

  /** An account with one paper, one review and one citing paper, with the paper alone,
      or with nothing: their worth and the bonus add up, the citation within its
      maximum. */
  lemma SmallTotals(c: Context, w: map<Key, real>, sqrt: real --> real, p: PaperFacts, r: ReviewFacts, q: CitingFacts)
    requires Loaded(w) && Usable(c, sqrt, p.ballot) && Usable(c, sqrt, r.ballot) && Usable(c, sqrt, q.ballot)
    requires w[CitationMax] >= 0.0
    ensures UserScore(c, w, sqrt, UserFacts([], [], [])) == Min(100.0, Max(0.0, Round1(w[AccreditationBonus])))
    ensures UserScore(c, w, sqrt, UserFacts([p], [], []))
         == Min(100.0, Max(0.0, Round1(PaperScore(c, w, sqrt, p) + w[AccreditationBonus])))
    ensures UserScore(c, w, sqrt, UserFacts([p], [r], [q]))
         == Min(100.0, Max(0.0, Round1(PaperScore(c, w, sqrt, p) + ReviewScore(c, w, sqrt, r)
                                       + Min(w[CitationMax], CitationValue(c, w, sqrt, q)) + w[AccreditationBonus])))
  {
    hide PaperScore, ReviewScore, CitationValue, Round1, Usable;
    var u, one, none := UserFacts([p], [r], [q]), UserFacts([p], [], []), UserFacts([], [], []);
    assert PaperScores(c, w, sqrt, one) == [PaperScore(c, w, sqrt, p)];
    assert ReviewScores(c, w, sqrt, one) == CitationValues(c, w, sqrt, one) == [];
    assert PaperScores(c, w, sqrt, u) == [PaperScore(c, w, sqrt, p)];
    assert ReviewScores(c, w, sqrt, u) == [ReviewScore(c, w, sqrt, r)];
    assert CitationValues(c, w, sqrt, u) == [CitationValue(c, w, sqrt, q)];
    SumOfOne(PaperScore(c, w, sqrt, p));
    SumOfOne(ReviewScore(c, w, sqrt, r));
    SumOfOne(CitationValue(c, w, sqrt, q));
    assert PaperScores(c, w, sqrt, none) == ReviewScores(c, w, sqrt, none) == CitationValues(c, w, sqrt, none) == [];
  }

  lemma SumOfOne(x: real)
    ensures SumSeq([x]) == x
  {
  }

  // ---------------------------------------------------------------------
  // In a cycle
  // ---------------------------------------------------------------------


  /** Raising one account's vote on a user's paper never lowers that user's score in
      the cycle, and moves nobody else's. */
  lemma RaisedVoteInCycle(facts: CycleFacts, accredited: set<Account>, w: map<Key, real>, sqrt: real --> real, prev: Scores,
                          u: Account, i: nat, other: Ballot, v: Account)
    requires IsSqrt(sqrt) && Loaded(w) && w[Downvote] >= 0.0 && WellFormed(facts) && Readable(prev, accredited)
    requires u in accredited && u in facts.users && i < |facts.users[u].papers|
    requires Raises(Context(accredited, facts.active, prev, facts.anon), sqrt, facts.users[u].papers[i].ballot, other, v)
    ensures var papers := facts.users[u].papers;
            var after := facts.(users := facts.users[u := facts.users[u].(papers := papers[i := papers[i].(ballot := other)])]);
            && WellFormed(after)
            && var before, now := RunCycle(facts, accredited, w, sqrt, prev), RunCycle(after, accredited, w, sqrt, prev);
               && before.Some? && now.Some? && before.value.Keys == now.value.Keys == accredited
               && before.value[u] <= now.value[u]
               && forall a :: a in accredited && a != u ==> now.value[a] == before.value[a]
  {
    var c := Context(accredited, facts.active, prev, facts.anon);
    var papers := facts.users[u].papers;
    var t := facts.users[u].(papers := papers[i := papers[i].(ballot := other)]);
    var after := facts.(users := facts.users[u := t]);
    assert RankedFacts(facts.users[u]) && RankedFacts(t) && AllUsable(c, sqrt, facts.users[u]);
    assert WellFormed(after);
    hide UserScore, Raises, Loaded, Ranked, IsSqrt, RankedFacts, RunCycle, WellFormed;
    var before, now := RunCycle(facts, accredited, w, sqrt, prev), RunCycle(after, accredited, w, sqrt, prev);
    CycleOf(facts, accredited, w, sqrt, prev, u);
    CycleOf(after, accredited, w, sqrt, prev, u);
    forall a | a in accredited && a != u ensures now.value[a] == before.value[a] {
      CycleOf(facts, accredited, w, sqrt, prev, a);
      CycleOf(after, accredited, w, sqrt, prev, a);
    }
    RaisedVoteRaisesTotal(c, w, sqrt, facts.users[u], i, other, v);
  }

  lemma CycleOf(facts: CycleFacts, accredited: set<Account>, w: map<Key, real>, sqrt: real --> real, prev: Scores, a: Account)
    requires IsSqrt(sqrt) && Loaded(w) && WellFormed(facts) && Readable(prev, accredited) && a in accredited
    ensures var c := Context(accredited, facts.active, prev, facts.anon);
            var u := if a in facts.users then facts.users[a] else UserFacts([], [], []);
            var result := RunCycle(facts, accredited, w, sqrt, prev);
            && AllUsable(c, sqrt, u)
            && result.Some? && result.value.Keys == accredited && result.value[a] == UserScore(c, w, sqrt, u)
  {
    hide UserScore, Loaded;
    assert a in facts.users ==> RankedFacts(facts.users[a]);
  }

  lemma RaisedVoteRaisesTotal(c: Context, w: map<Key, real>, sqrt: real --> real, u: UserFacts, i: nat, other: Ballot,
                              v: Account)
    requires Loaded(w) && w[Downvote] >= 0.0 && AllUsable(c, sqrt, u) && i < |u.papers|
    requires Raises(c, sqrt, u.papers[i].ballot, other, v)
    ensures var t := u.(papers := u.papers[i := u.papers[i].(ballot := other)]);
            AllUsable(c, sqrt, t) && UserScore(c, w, sqrt, u) <= UserScore(c, w, sqrt, t)
  {
    var t := u.(papers := u.papers[i := u.papers[i].(ballot := other)]);
    assert AllUsable(c, sqrt, t);
    hide UserScore, PaperScore, ReviewScore, CitationValue, Raises, Loaded, Usable;
    RaisedVoteNeverLowersPaper(c, w, sqrt, u.papers[i], other, v);
    UserScoreGrows(c, w, sqrt, u, t);
  }

  // Bob's one vote on Ann's fresh paper.
  function VotedPaper(weight: int): PaperFacts
  {
    PaperFacts(0.0, {Op(Pos(1, 1), ["bob"], Some(weight))}, [], {"ann"})
  }

  function AnnAndBob(): Context
  {
    Context({"ann", "bob"}, {}, map[], "anon")
  }

  predicate InFigures(w: map<Key, real>)
  {
    Loaded(w) && w[Paper] == 20.0 && w[Downvote] == 2.0 && w[AccreditationBonus] == 5.0 && w[CitationMax] == 15.0
  }

  lemma VotedPaperIsUsable(weight: int, c: Context, sqrt: real --> real)
    requires IsSqrt(sqrt) && c.prev == map[]
    ensures Usable(c, sqrt, VotedPaper(weight).ballot) && OnlyVote(VotedPaper(weight).ballot, "bob", weight)
    ensures Usable(c, sqrt, {})
  {
    assert VotedPaper(weight).ballot == {Op(Pos(1, 1), ["bob"], Some(weight))};
  }

  lemma FullUpvoteScores(c: Context, w: map<Key, real>, sqrt: real --> real, p: PaperFacts, v: Account)
    requires InFigures(w) && Usable(c, sqrt, p.ballot) && OnlyVote(p.ballot, v, 10000) && p.reviews == [] && p.months == 0.0
    requires v in c.accredited && v !in p.excluded && v !in c.prev
    ensures PaperScore(c, w, sqrt, p) == 1.0
  {
    hide PaperScore, Usable, OnlyVote, Decay;
    NothingDecaysAtOnce(w);
    assert Quality(c, p.reviews, p.excluded) == 1.0;
    hide Quality;
    OnlyVoteOnPaper(c, w, sqrt, p, v, 10000);
  }

  lemma FullDownvoteScores(c: Context, w: map<Key, real>, sqrt: real --> real, p: PaperFacts, v: Account)
    requires InFigures(w) && Usable(c, sqrt, p.ballot) && OnlyVote(p.ballot, v, -10000) && p.reviews == [] && p.months == 0.0
    requires v in c.accredited && v !in p.excluded && v !in c.prev
    ensures PaperScore(c, w, sqrt, p) == -2.0
  {
    hide PaperScore, Usable, OnlyVote, Decay;
    NothingDecaysAtOnce(w);
    OnlyVoteOnPaper(c, w, sqrt, p, v, -10000);
  }

  lemma NothingDecaysAtOnce(w: map<Key, real>)
    requires Loaded(w)
    ensures Decay(w, 0.0) == 1.0
  {
    assert InDomain(DecayGraceMonths, w[DecayGraceMonths]);
  }

  lemma VotedPaperScores(w: map<Key, real>, sqrt: real --> real, weight: int)
    requires IsSqrt(sqrt) && InFigures(w) && (weight == 10000 || weight == -10000)
    ensures Usable(AnnAndBob(), sqrt, VotedPaper(weight).ballot)
    ensures PaperScore(AnnAndBob(), w, sqrt, VotedPaper(weight)) == if weight > 0 then 1.0 else -2.0
  {
    VotedPaperIsUsable(weight, AnnAndBob(), sqrt);
    hide PaperScore, Usable, OnlyVote, InFigures, IsSqrt;
    if weight > 0 {
      FullUpvoteScores(AnnAndBob(), w, sqrt, VotedPaper(weight), "bob");
    } else {
      FullDownvoteScores(AnnAndBob(), w, sqrt, VotedPaper(weight), "bob");
    }
  }

  lemma VotedTotals(w: map<Key, real>, sqrt: real --> real, weight: int)
    requires IsSqrt(sqrt) && InFigures(w) && (weight == 10000 || weight == -10000)
    ensures Usable(AnnAndBob(), sqrt, VotedPaper(weight).ballot)
    ensures UserScore(AnnAndBob(), w, sqrt, UserFacts([VotedPaper(weight)], [], [])) == if weight > 0 then 6.0 else 3.0
    ensures UserScore(AnnAndBob(), w, sqrt, UserFacts([], [], [])) == 5.0
  {
    VotedPaperScores(w, sqrt, weight);
    VotedPaperIsUsable(weight, AnnAndBob(), sqrt);
    assert Round1(6.0) == 6.0 && Round1(3.0) == 3.0 && Round1(5.0) == 5.0;
    hide PaperScore, ReviewScore, CitationValue, UserScore, Usable, Loaded, IsSqrt, AnnAndBob, VotedPaper, Round1;
    SmallTotals(AnnAndBob(), w, sqrt, VotedPaper(weight), ReviewFacts(0.0, {}, "ann"),
                CitingFacts(0.0, false, 0, {}, [], {}, {}));
  }

  function VotedFacts(weight: int): CycleFacts
  {
    CycleFacts({}, "anon", map["ann" := UserFacts([VotedPaper(weight)], [], [])])
  }

  lemma VotedFactsAreWellFormed(weight: int)
    ensures WellFormed(VotedFacts(weight))
  {
    assert RankedFacts(VotedFacts(weight).users["ann"]);
  }

  lemma VotedCycle(w: map<Key, real>, sqrt: real --> real, weight: int)
    requires IsSqrt(sqrt) && InFigures(w) && (weight == 10000 || weight == -10000)
    ensures WellFormed(VotedFacts(weight))
    ensures var result := RunCycle(VotedFacts(weight), {"ann", "bob"}, w, sqrt, map[]);
            && result.Some? && result.value.Keys == {"ann", "bob"}
            && result.value["ann"] == (if weight > 0 then 6.0 else 3.0) && result.value["bob"] == 5.0
  {
    VotedTotals(w, sqrt, weight);
    VotedFactsAreWellFormed(weight);
    hide IsSqrt, UserScore, Loaded, WellFormed, VotedPaper, Usable;
  }

  /** In figures, under the default weights and no previous scores: a full upvote by
      Bob makes Ann's 5 points 6, a full downvote makes them 3, and Bob keeps his 5. */
  lemma OneVoteInFigures(sqrt: real --> real)
    requires IsSqrt(sqrt)
    ensures Loaded(DEFAULTS) && WellFormed(VotedFacts(10000)) && WellFormed(VotedFacts(-10000))
    ensures var result := RunCycle(VotedFacts(10000), {"ann", "bob"}, DEFAULTS, sqrt, map[]);
            result.Some? && result.value.Keys == {"ann", "bob"} && result.value["ann"] == 6.0 && result.value["bob"] == 5.0
    ensures var result := RunCycle(VotedFacts(-10000), {"ann", "bob"}, DEFAULTS, sqrt, map[]);
            result.Some? && result.value.Keys == {"ann", "bob"} && result.value["ann"] == 3.0 && result.value["bob"] == 5.0
  {
    AllKeysListed();
    assert InFigures(DEFAULTS);
    hide IsSqrt, RunCycle, InFigures, Loaded, WellFormed, VotedFacts;
    VotedCycle(DEFAULTS, sqrt, 10000);
    VotedCycle(DEFAULTS, sqrt, -10000);
  }
}
