/** The score of one reputation cycle: sanitized weights, vote resolution, the
    voter-weight curve, the paper, review and citation arms, and the total.

    Arithmetic is exact over reals. The square root is a parameter that is defined on
    non-negative arguments only, so every call has to prove its argument is in the
    domain; what else is used of it is that its square is the argument. */
module ReputationScore {
  import opened Prelude
  import opened ChainLog

  type Account = string
  type Scores = map<Account, real>

  // ---------------------------------------------------------------------
  // Weights
  // ---------------------------------------------------------------------

  datatype Key =
    | Paper | Review | Downvote | Citation | CitationMax | AccreditationBonus | SelfCitationDiscount
    | DecayRate | DecayFloor | DecayGraceMonths | CycleBlocks

  // A field of the payload: a finite number, or anything else.
  datatype Json = Number(value: real) | Unusable

  const KEYS := [Paper, Review, Downvote, Citation, CitationMax, AccreditationBonus, SelfCitationDiscount,
                 DecayRate, DecayFloor, DecayGraceMonths, CycleBlocks]

  const DEFAULTS: map<Key, real> := map[
    Paper := 20.0, Review := 10.0, Downvote := 2.0, Citation := 3.0, CitationMax := 15.0, AccreditationBonus := 5.0,
    SelfCitationDiscount := 0.05, DecayRate := 0.02, DecayFloor := 0.3, DecayGraceMonths := 6.0, CycleBlocks := 28800.0]

  predicate InDomain(k: Key, x: real)
  {
    match k
    case DecayFloor => 0.0 <= x <= 1.0
    case SelfCitationDiscount => 0.0 <= x <= 1.0
    case DecayRate => 0.0 <= x
    case DecayGraceMonths => 0.0 <= x
    case _ => true
  }

  // The nearest value of the field's domain.
  ghost predicate Nearest(k: Key, given: real, x: real)
  {
    InDomain(k, x) && forall y :: InDomain(k, y) ==> Distance(given, x) <= Distance(given, y)
  }

  function Distance(x: real, y: real): real
  {
    if x < y then y - x else x - y
  }

  // The typed fields of the payload.
  method NumericFields(input: map<Key, Json>) returns (out: map<Key, real>)
    ensures forall k :: k in out <==> k in input && input[k].Number?
    ensures forall k :: k in out ==> out[k] == input[k].value
  {
    out := map[];
    for i := 0 to |KEYS|
      invariant forall k :: k in out <==> k in KEYS[..i] && k in input && input[k].Number?
      invariant forall k :: k in out ==> out[k] == input[k].value
    {
      if KEYS[i] in input && input[KEYS[i]].Number? {
        out := out[KEYS[i] := input[KEYS[i]].value];
      }
    }
    AllKeysListed();
    assert KEYS[..|KEYS|] == KEYS;
  }

  function Clamp(k: Key, x: real): (y: real)
    ensures Nearest(k, x, y)
  {
    match k
    case DecayFloor => Min(1.0, Max(0.0, x))
    case SelfCitationDiscount => Min(1.0, Max(0.0, x))
    case DecayRate => Max(0.0, x)
    case DecayGraceMonths => Max(0.0, x)
    case _ => x
  }

  /** `sanitizeReputationWeights`: exactly the numeric fields, each moved to the
      nearest value its domain allows. */
  method SanitizeReputationWeights(raw: Option<map<Key, Json>>) returns (out: map<Key, real>)
    ensures raw.None? ==> out == map[]
    ensures raw.Some? ==> forall k :: k in out <==> k in raw.value && raw.value[k].Number?
    ensures forall k :: k in out ==> raw.Some? && k in raw.value && raw.value[k].Number?
                                     && Nearest(k, raw.value[k].value, out[k])
  {
    if raw.None? {
      return map[];
    }
    var fields := NumericFields(raw.value);
    out := fields;
    if DecayFloor in out {
      out := out[DecayFloor := Min(1.0, Max(0.0, out[DecayFloor]))];
    }
    if SelfCitationDiscount in out {
      out := out[SelfCitationDiscount := Min(1.0, Max(0.0, out[SelfCitationDiscount]))];
    }
    if DecayRate in out {
      out := out[DecayRate := Max(0.0, out[DecayRate])];
    }
    if DecayGraceMonths in out {
      out := out[DecayGraceMonths := Max(0.0, out[DecayGraceMonths])];
    }
    assert forall k :: k in out ==> out[k] == Clamp(k, fields[k]);
  }

  lemma AllKeysListed()
    ensures forall k: Key :: k in KEYS
    ensures forall k: Key :: k in DEFAULTS && InDomain(k, DEFAULTS[k])
  {
    forall k: Key ensures k in KEYS && k in DEFAULTS && InDomain(k, DEFAULTS[k]) {
      match k
      case Paper => assert KEYS[0] == k;
      case Review => assert KEYS[1] == k;
      case Downvote => assert KEYS[2] == k;
      case Citation => assert KEYS[3] == k;
      case CitationMax => assert KEYS[4] == k;
      case AccreditationBonus => assert KEYS[5] == k;
      case SelfCitationDiscount => assert KEYS[6] == k;
      case DecayRate => assert KEYS[7] == k;
      case DecayFloor => assert KEYS[8] == k;
      case DecayGraceMonths => assert KEYS[9] == k;
      case CycleBlocks => assert KEYS[10] == k;
    }
  }

  // A complete weight set as the loader produces it.
  predicate Loaded(w: map<Key, real>)
  {
    (forall k: Key :: k in w) && forall k: Key :: InDomain(k, w[k])
  }

  /** Whatever the payload, the weights in force are complete and within their
      domains. */
  method LoadReputationWeights(raw: Option<map<Key, Json>>) returns (w: map<Key, real>)
    ensures Loaded(w)
    ensures forall k :: k in w ==>
      if raw.Some? && k in raw.value && raw.value[k].Number? then Nearest(k, raw.value[k].value, w[k])
      else w[k] == DEFAULTS[k]
    ensures raw.None? ==>
      && w[Paper] == 20.0 && w[Review] == 10.0 && w[Downvote] == 2.0 && w[Citation] == 3.0 && w[CitationMax] == 15.0
      && w[AccreditationBonus] == 5.0 && w[SelfCitationDiscount] == 0.05 && w[DecayRate] == 0.02 && w[DecayFloor] == 0.3
      && w[DecayGraceMonths] == 6.0 && w[CycleBlocks] == 28800.0
  {
    var sanitized := SanitizeReputationWeights(raw);
    AllKeysListed();
    w := DEFAULTS + sanitized;
  }

  // ---------------------------------------------------------------------
  // The calc-version fingerprint
  // ---------------------------------------------------------------------

  // Where a key stands in the codepoint order of the field names.
  function Place(k: Key): nat
  {
    match k
    case AccreditationBonus => 0
    case Citation => 1
    case CitationMax => 2
    case CycleBlocks => 3
    case DecayFloor => 4
    case DecayGraceMonths => 5
    case DecayRate => 6
    case Downvote => 7
    case Paper => 8
    case Review => 9
    case SelfCitationDiscount => 10
  }

  predicate Sorted(s: seq<(Key, real)>)
  {
    forall i, j :: 0 <= i < j < |s| ==> Place(s[i].0) < Place(s[j].0)
  }

  function InsertEntry(e: (Key, real), s: seq<(Key, real)>): seq<(Key, real)>
  {
    if s == [] || Place(e.0) < Place(s[0].0) then [e] + s else [s[0]] + InsertEntry(e, s[1..])
  }

  // What is hashed: the entries of the weight object, sorted by key.
  function Canonical(entries: seq<(Key, real)>): seq<(Key, real)>
  {
    if entries == [] then [] else InsertEntry(entries[0], Canonical(entries[1..]))
  }

  predicate DistinctKeys(entries: seq<(Key, real)>)
  {
    forall i, j :: 0 <= i < j < |entries| ==> entries[i].0 != entries[j].0
  }

  lemma PlacesDiffer(a: Key, b: Key)
    ensures a != b ==> Place(a) != Place(b)
  {
  }

  lemma ConsSorted(e: (Key, real), s: seq<(Key, real)>)
    requires Sorted(s) && forall x :: x in s ==> Place(e.0) < Place(x.0)
    ensures Sorted([e] + s)
  {
    hide Place;
  }

  lemma {:induction false} InsertKeepsSorted(e: (Key, real), s: seq<(Key, real)>)
    requires Sorted(s) && forall x :: x in s ==> x.0 != e.0
    ensures Sorted(InsertEntry(e, s)) && forall x :: x in InsertEntry(e, s) <==> x == e || x in s
  {
    hide Place;
    if s != [] {
      SortedTail(s);
      assert s == [s[0]] + s[1..];
      if Place(e.0) < Place(s[0].0) {
        ConsSorted(e, s);
      } else {
        InsertKeepsSorted(e, s[1..]);
        PlacesDiffer(e.0, s[0].0);
        ConsSorted(s[0], InsertEntry(e, s[1..]));
      }
    }
  }

  lemma {:induction false} CanonicalIsSorted(entries: seq<(Key, real)>)
    requires DistinctKeys(entries)
    ensures Sorted(Canonical(entries)) && forall x :: x in Canonical(entries) <==> x in entries
  {
    if entries != [] {
      assert entries == [entries[0]] + entries[1..];
      CanonicalIsSorted(entries[1..]);
      forall x | x in entries[1..] ensures x.0 != entries[0].0 {
        var i :| 0 <= i < |entries[1..]| && entries[1..][i] == x;
      }
      InsertKeepsSorted(entries[0], Canonical(entries[1..]));
    }
  }

  lemma SortedTail(s: seq<(Key, real)>)
    requires Sorted(s) && s != []
    ensures Sorted(s[1..]) && forall x :: x in s[1..] <==> x in s && x != s[0]
    ensures forall x :: x in s ==> x == s[0] || Place(s[0].0) < Place(x.0)
  {
    forall x | x in s ensures x == s[0] || (x in s[1..] && Place(s[0].0) < Place(x.0)) {
      var i :| 0 <= i < |s| && s[i] == x;
      assert i > 0 ==> s[1..][i - 1] == x;
    }
    forall x | x in s[1..] ensures x in s && x != s[0] {
      var i :| 0 <= i < |s[1..]| && s[1..][i] == x;
      assert s[i + 1] == x;
    }
  }

  lemma {:induction false} SortedIsUnique(s: seq<(Key, real)>, t: seq<(Key, real)>)
    requires Sorted(s) && Sorted(t) && forall x :: x in s <==> x in t
    ensures s == t
  {
    assert forall i :: 0 <= i < |s| ==> s[i] in t;
    assert forall i :: 0 <= i < |t| ==> t[i] in s;
    if s != [] && t != [] {
      SortedTail(s);
      SortedTail(t);
      assert s[0] in s && t[0] in t && s[0] == t[0];
      assert s == [s[0]] + s[1..] && t == [t[0]] + t[1..];
      hide Sorted, Place;
      SortedIsUnique(s[1..], t[1..]);
    }
  }

  /** The fingerprint sees the weights and nothing else: two weight objects are
      hashed from the same text exactly when they hold the same fields and values,
      whatever order their fields were inserted in. */
  lemma CanonicalSeesOnlyWeights(a: seq<(Key, real)>, b: seq<(Key, real)>)
    requires DistinctKeys(a) && DistinctKeys(b)
    ensures Canonical(a) == Canonical(b) <==> forall x :: x in a <==> x in b
  {
    CanonicalIsSorted(a);
    CanonicalIsSorted(b);
    if forall x :: x in a <==> x in b {
      SortedIsUnique(Canonical(a), Canonical(b));
    }
  }

  // ---------------------------------------------------------------------
  // Votes
  // ---------------------------------------------------------------------

  // A vote or revote operation; a malformed revote carries no weight.
  type Signal = Op<Option<int>>
  type Ballot = set<Signal>

  function SignalsOf(ballot: Ballot, v: Account): Ballot
  {
    set o | o in ballot && |o.signers| > 0 && o.signers[0] == v
  }

  // `DISTINCT ON (voter, ...) ORDER BY block_num DESC, op_id DESC`.
  ghost function LatestWeight(ballot: Ballot, v: Account): Option<int>
    requires Ranked(ballot)
  {
    var mine := SignalsOf(ballot, v);
    if mine == {} then None else Latest(mine).action
  }

  ghost predicate Counts(ballot: Ballot, excluded: set<Account>, v: Account)
    requires Ranked(ballot)
  {
    v !in excluded && LatestWeight(ballot, v).Some? && LatestWeight(ballot, v).value != 0
  }

  // One pass over the votes in chain order.
  function ReplayVotes(log: Log<Option<int>>): map<Account, Option<int>>
  {
    if log == [] then map[]
    else
      var before := ReplayVotes(log[..|log| - 1]);
      if |Last(log).signers| > 0 then before[Last(log).signers[0] := Last(log).action] else before
  }

  /** An account's vote on a post is the last signal it sent, a malformed one
      included, whichever of the two operation streams carried it. */
  lemma {:induction false} VotesEqualReplay(log: Log<Option<int>>, v: Account)
    requires ChainOrdered(log)
    ensures Ranked(Rows(log))
    ensures LatestWeight(Rows(log), v) == if v in ReplayVotes(log) then ReplayVotes(log)[v] else None
  {
    OrderedRowsAreRanked(log, Rows(log));
    if log != [] {
      var front, op := log[..|log| - 1], Last(log);
      OrderedFront(log);
      VotesEqualReplay(front, v);
      SignalsInReplay(front, v);
      if |op.signers| > 0 && op.signers[0] == v {
        assert SignalsOf(Rows(log), v) == SignalsOf(Rows(front), v) + {op};
        AppendedIsLatest(SignalsOf(Rows(front), v), op);
      } else {
        assert SignalsOf(Rows(log), v) == SignalsOf(Rows(front), v);
      }
    }
  }

  lemma {:induction false} SignalsInReplay(log: Log<Option<int>>, v: Account)
    ensures v in ReplayVotes(log) <==> SignalsOf(Rows(log), v) != {}
  {
    if log != [] {
      var front, op := log[..|log| - 1], Last(log);
      assert log == front + [op];
      SignalsInReplay(front, v);
      if v in ReplayVotes(front) {
        var o :| o in SignalsOf(Rows(front), v);
        assert o in SignalsOf(Rows(log), v);
      }
      if |op.signers| > 0 && op.signers[0] == v {
        assert op in SignalsOf(Rows(log), v);
      }
    }
  }

  // ---------------------------------------------------------------------
  // Voter weights
  // ---------------------------------------------------------------------

  ghost predicate IsSqrt(sqrt: real --> real)
  {
    forall x :: x >= 0.0 ==> sqrt.requires(x) && sqrt(x) >= 0.0 && sqrt(x) * sqrt(x) == x
  }

  // Every account whose weight the cycle computes has a score with a square root.
  predicate Readable(prev: Scores, accredited: set<Account>)
  {
    forall v :: v in accredited && v in prev ==> prev[v] >= 0.0
  }

  /** What one cycle knows of the previous one and of who voted from where. */
  datatype Context = Context(
    accredited: set<Account>,
    active: set<Account>,
    prev: Scores,
    anon: Account)

  // `voter_weights`.
  ghost function VoterWeight(c: Context, sqrt: real --> real, v: Account): (weight: real)
    requires IsSqrt(sqrt) && Readable(c.prev, c.accredited) && v in c.accredited
    ensures 0.0 <= weight <= 1.0
    ensures v !in c.prev ==> weight == 1.0
    ensures v in c.active ==> weight >= 0.4
  {
    if v !in c.prev then 1.0
    else if v in c.active then Min(1.0, Max(0.4, 0.4 + 0.6 * sqrt(c.prev[v] / 100.0)))
    else Min(1.0, sqrt(c.prev[v] / 100.0))
  }

  ghost predicate Usable(c: Context, sqrt: real --> real, ballot: Ballot)
  {
    IsSqrt(sqrt) && Readable(c.prev, c.accredited) && Ranked(ballot)
  }

  // What a voter adds to one side: its weight times its vote, in units of a full vote.
  ghost function Pull(c: Context, sqrt: real --> real, ballot: Ballot, v: Account): real
    requires Usable(c, sqrt, ballot)
  {
    if v !in c.accredited || LatestWeight(ballot, v).None? then 0.0
    else
      var weight := LatestWeight(ballot, v).value;
      VoterWeight(c, sqrt, v) * (if weight > 0 then weight else -weight) as real / 10000.0
  }

  ghost function Voters(c: Context, ballot: Ballot, excluded: set<Account>, up: bool): set<Account>
    requires Ranked(ballot)
  {
    set v | v in c.accredited && Counts(ballot, excluded, v) && (LatestWeight(ballot, v).value > 0 <==> up)
  }

  ghost function Weighted(c: Context, sqrt: real --> real, ballot: Ballot, excluded: set<Account>, up: bool): real
    requires Usable(c, sqrt, ballot)
  {
    SumOver(Voters(c, ballot, excluded, up), v requires Usable(c, sqrt, ballot) => Pull(c, sqrt, ballot, v))
  }

  // ---------------------------------------------------------------------
  // Decay
  // ---------------------------------------------------------------------

  // `decayMultiplierSql`.
  function Decay(w: map<Key, real>, months: real): (d: real)
    requires Loaded(w)
    ensures w[DecayFloor] <= d <= 1.0
    ensures months <= w[DecayGraceMonths] ==> d == 1.0
  {
    assert InDomain(DecayRate, w[DecayRate]) && InDomain(DecayFloor, w[DecayFloor]);
    if months <= w[DecayGraceMonths] then 1.0
    else
      AgeingCostsNothingNegative(months - w[DecayGraceMonths], w[DecayRate]);
      Max(w[DecayFloor], 1.0 - (months - w[DecayGraceMonths]) * w[DecayRate])
  }

  lemma AgeingCostsNothingNegative(x: real, y: real)
    requires x >= 0.0 && y >= 0.0
    ensures x * y >= 0.0
  {
  }

  /** Ageing never raises the multiplier. */
  lemma DecayIsMonotone(w: map<Key, real>, younger: real, older: real)
    requires Loaded(w) && younger <= older
    ensures Decay(w, older) <= Decay(w, younger)
  {
    assert InDomain(DecayRate, w[DecayRate]) && InDomain(DecayFloor, w[DecayFloor]);
    var grace, rate := w[DecayGraceMonths], w[DecayRate];
    if younger > grace {
      AgeingCostsNothingNegative(older - younger, rate);
      assert (older - grace) * rate == (younger - grace) * rate + (older - younger) * rate;
    }
  }

  // ---------------------------------------------------------------------
  // Papers, reviews, citations
  // ---------------------------------------------------------------------

  type Stars = x: int | 1 <= x <= 5 witness 1

  datatype Rating = Rating(author: Account, methodology: Stars, novelty: Stars, clarity: Stars, significance: Stars)

  /** A credited paper: its age at the cycle's reference block, the votes and
      reviews on it, and the accounts that may not judge it: its poster, its named
      co-authors, and everyone credited for it. */
  datatype PaperFacts = PaperFacts(months: real, ballot: Ballot, reviews: seq<Rating>, excluded: set<Account>)

  datatype ReviewFacts = ReviewFacts(months: real, ballot: Ballot, author: Account)

  /** A paper citing the user, with the number of its citation entries that do:
      the vote rows are joined once per entry. */
  datatype CitingFacts = CitingFacts(
    months: real, isSelf: bool, entries: nat, ballot: Ballot, reviews: seq<Rating>,
    voteExcluded: set<Account>, reviewExcluded: set<Account>)

  datatype UserFacts = UserFacts(papers: seq<PaperFacts>, reviews: seq<ReviewFacts>, citing: seq<CitingFacts>)

  // The reviews that count: from accredited accounts or the anonymous proxy.
  function Judging(c: Context, reviews: seq<Rating>, excluded: set<Account>): seq<Rating>
  {
    if reviews == [] then []
    else
      var rest := Judging(c, reviews[1..], excluded);
      if (reviews[0].author in c.accredited || reviews[0].author == c.anon) && reviews[0].author !in excluded
      then [reviews[0]] + rest else rest
  }

  function StarSum(reviews: seq<Rating>): (sum: real)
    ensures |reviews| as real <= sum <= 5.0 * |reviews| as real
  {
    if reviews == [] then 0.0
    else
      var r := reviews[0];
      (r.methodology + r.novelty + r.clarity + r.significance) as real / 4.0 + StarSum(reviews[1..])
  }

  // `COALESCE(AVG(...) / 5.0, 1.0)`.
  function Quality(c: Context, reviews: seq<Rating>, excluded: set<Account>): (q: real)
    ensures 0.2 <= q <= 1.0
  {
    var judging := Judging(c, reviews, excluded);
    if judging == [] then 1.0
    else
      AverageBounds(StarSum(judging), |judging| as real);
      StarShare(StarSum(judging), |judging| as real)
  }

  function StarShare(sum: real, n: real): real
    requires n > 0.0
  {
    sum / n / 5.0
  }

  lemma AverageBounds(sum: real, n: real)
    requires n > 0.0 && n <= sum <= 5.0 * n
    ensures 0.2 <= StarShare(sum, n) <= 1.0
  {
    var mean := sum / n;
    assert mean * n == sum;
    assert (mean - 1.0) * n >= 0.0 && (5.0 - mean) * n >= 0.0;
  }

  // `GREATEST(-cap, LEAST(cap, x)) * decay`.
  function Capped(cap: real, x: real, decay: real): real
  {
    Max(-cap, Min(cap, x)) * decay
  }

  // Support counts up to the paper weight; objection counts without limit.
  function Balance(w: map<Key, real>, quality: real, up: real, down: real): real
    requires Loaded(w)
  {
    quality * Min(up, w[Paper]) - down * w[Downvote]
  }

  function PaperFormula(w: map<Key, real>, quality: real, up: real, down: real, months: real): real
    requires Loaded(w)
  {
    Capped(w[Paper], Balance(w, quality, up, down), Decay(w, months))
  }

  ghost function PaperScore(c: Context, w: map<Key, real>, sqrt: real --> real, p: PaperFacts): real
    requires Loaded(w) && Usable(c, sqrt, p.ballot)
  {
    PaperFormula(w, Quality(c, p.reviews, p.excluded), Weighted(c, sqrt, p.ballot, p.excluded, true),
                 Weighted(c, sqrt, p.ballot, p.excluded, false), p.months)
  }

  function ReviewFormula(w: map<Key, real>, up: real, down: real, months: real): real
    requires Loaded(w)
  {
    Capped(w[Review], Net(up, down, w[Review], w[Downvote]), Decay(w, months))
  }

  function Net(up: real, down: real, cap: real, factor: real): real
  {
    Min(up, cap) - Product(down, factor)
  }

  ghost function ReviewScore(c: Context, w: map<Key, real>, sqrt: real --> real, r: ReviewFacts): real
    requires Loaded(w) && Usable(c, sqrt, r.ballot)
  {
    ReviewFormula(w, Weighted(c, sqrt, r.ballot, {r.author}, true), Weighted(c, sqrt, r.ballot, {r.author}, false), r.months)
  }

  function CitationFormula(quality: real, entries: nat, up: real, factor: real, decay: real): real
  {
    Product(Product(CitationShare(quality, Product(entries as real, up)), factor), decay)
  }

  function CitationShare(quality: real, upvotes: real): real
  {
    Clipped(Product(quality, Min(upvotes, 1.0)))
  }

  function Clipped(x: real): real
  {
    Max(0.0, Min(1.0, x))
  }

  ghost function CitationValue(c: Context, w: map<Key, real>, sqrt: real --> real, p: CitingFacts): real
    requires Loaded(w) && Usable(c, sqrt, p.ballot)
  {
    CitationFormula(Quality(c, p.reviews, p.reviewExcluded), p.entries, Weighted(c, sqrt, p.ballot, p.voteExcluded, true),
                    if p.isSelf then w[SelfCitationDiscount] else w[Citation], Decay(w, p.months))
  }

  // ---------------------------------------------------------------------
  // What holds of the arms
  // ---------------------------------------------------------------------

  lemma ClampedTimesFactor(cap: real, x: real, decay: real)
    requires cap >= 0.0 && 0.0 <= decay <= 1.0
    ensures -cap <= Capped(cap, x, decay) <= cap
  {
    var clamped := Max(-cap, Min(cap, x));
    AgeingCostsNothingNegative(cap - clamped, decay);
    AgeingCostsNothingNegative(cap + clamped, decay);
    AgeingCostsNothingNegative(cap, 1.0 - decay);
    assert (cap - clamped) * decay == cap * decay - clamped * decay;
    assert (cap + clamped) * decay == cap * decay + clamped * decay;
    assert cap * (1.0 - decay) == cap - cap * decay;
  }

  /** A paper moves its author's score by at most the paper weight, exactly when
      that weight is not negative, which the sanitizer does not guarantee. */
  lemma PaperScoreBoundedIff(c: Context, w: map<Key, real>, sqrt: real --> real, p: PaperFacts)
    requires Loaded(w) && Usable(c, sqrt, p.ballot)
    ensures -w[Paper] <= PaperScore(c, w, sqrt, p) <= w[Paper] <==> w[Paper] >= 0.0
  {
    hide Weighted, Quality, Decay, Usable;
    assert InDomain(DecayFloor, w[DecayFloor]);
    if w[Paper] >= 0.0 {
      hide Balance, Capped;
      ClampedTimesFactor(w[Paper],
        Balance(w, Quality(c, p.reviews, p.excluded), Weighted(c, sqrt, p.ballot, p.excluded, true),
                Weighted(c, sqrt, p.ballot, p.excluded, false)),
        Decay(w, p.months));
    }
  }

  lemma ReviewScoreBoundedIff(c: Context, w: map<Key, real>, sqrt: real --> real, r: ReviewFacts)
    requires Loaded(w) && Usable(c, sqrt, r.ballot)
    ensures -w[Review] <= ReviewScore(c, w, sqrt, r) <= w[Review] <==> w[Review] >= 0.0
  {
    hide Weighted, Decay, Usable;
    assert InDomain(DecayFloor, w[DecayFloor]);
    if w[Review] >= 0.0 {
      hide Capped;
      ClampedTimesFactor(w[Review],
        Net(Weighted(c, sqrt, r.ballot, {r.author}, true), Weighted(c, sqrt, r.ballot, {r.author}, false),
            w[Review], w[Downvote]),
        Decay(w, r.months));
    }
  }

  /** Under a negative paper weight votes and reviews no longer matter: every
      paper earns the same positive amount, discounted by age alone. */
  lemma NegativePaperWeightIgnoresVotes(c: Context, w: map<Key, real>, sqrt: real --> real, p: PaperFacts)
    requires Loaded(w) && Usable(c, sqrt, p.ballot) && w[Paper] < 0.0
    ensures PaperScore(c, w, sqrt, p) == -w[Paper] * Decay(w, p.months)
  {
    hide Weighted, Quality, Decay, Balance, Usable;
  }

  lemma ProductOfShares(x: real, y: real)
    requires 0.0 <= x <= 1.0 && 0.0 <= y <= 1.0
    ensures 0.0 <= x * y <= 1.0
  {
    AgeingCostsNothingNegative(x, y);
    AgeingCostsNothingNegative(x, 1.0 - y);
    assert x * (1.0 - y) == x - x * y;
  }

  lemma ProductGrows(x: real, y: real, factor: real)
    requires x <= y && factor >= 0.0
    ensures x * factor <= y * factor
    ensures Product(x, factor) <= Product(y, factor) && Product(factor, x) <= Product(factor, y)
  {
    AgeingCostsNothingNegative(y - x, factor);
    assert (y - x) * factor == y * factor - x * factor;
  }

  /** More support never lowers a paper's score, more objection never raises it, and
      support beyond the paper weight adds nothing. */
  lemma VotesPullTheirWay(w: map<Key, real>, quality: real, up: real, more: real, down: real, less: real, months: real)
    requires Loaded(w) && w[Downvote] >= 0.0 && quality >= 0.0
    requires up <= more && less <= down
    ensures PaperFormula(w, quality, up, down, months) <= PaperFormula(w, quality, more, less, months)
    ensures up >= w[Paper] ==>
      PaperFormula(w, quality, up, down, months) == PaperFormula(w, quality, more, down, months)
  {
    assert InDomain(DecayFloor, w[DecayFloor]);
    BalanceGrows(w, quality, up, more, down, less);
    hide Balance, Capped, Decay;
    CappedGrows(w[Paper], Balance(w, quality, up, down), Balance(w, quality, more, less), Decay(w, months));
  }

  lemma BalanceGrows(w: map<Key, real>, quality: real, up: real, more: real, down: real, less: real)
    requires Loaded(w) && w[Downvote] >= 0.0 && quality >= 0.0 && up <= more && less <= down
    ensures Balance(w, quality, up, down) <= Balance(w, quality, more, less)
    ensures up >= w[Paper] ==> Balance(w, quality, up, down) == Balance(w, quality, more, down)
  {
    var a, b := Min(up, w[Paper]), Min(more, w[Paper]);
    assert a <= b && (up >= w[Paper] ==> a == b);
    DifferenceGrows(quality, a, b, down, less, w[Downvote]);
    hide Min;
  }

  lemma DifferenceGrows(quality: real, a: real, b: real, down: real, less: real, factor: real)
    requires quality >= 0.0 && factor >= 0.0 && a <= b && less <= down
    ensures quality * a - down * factor <= quality * b - less * factor
  {
    ProductGrows(a, b, quality);
    ProductGrows(less, down, factor);
    assert quality * a == a * quality && quality * b == b * quality;
  }

  lemma CappedGrows(cap: real, x: real, y: real, decay: real)
    requires x <= y && decay >= 0.0
    ensures Capped(cap, x, decay) <= Capped(cap, y, decay)
  {
    ProductGrows(Max(-cap, Min(cap, x)), Max(-cap, Min(cap, y)), decay);
  }

  lemma LargerSquare(a: real, b: real)
    requires 0.0 <= a < b
    ensures a * a < b * b
  {
    var gap, sum := b - a, a + b;
    assert gap * sum > 0.0;
    assert gap * sum == gap * a + gap * b == b * b - a * a;
  }

  lemma SquaresOrder(a: real, b: real)
    requires a >= 0.0 && b >= 0.0
    ensures a * a <= b * b ==> a <= b
    ensures a * a == b * b ==> a == b
  {
    if a > b {
      LargerSquare(b, a);
    }
    if b > a {
      LargerSquare(a, b);
    }
  }

  lemma RootGrows(sqrt: real --> real, x: real, y: real)
    requires IsSqrt(sqrt) && 0.0 <= x <= y
    ensures sqrt(x) <= sqrt(y)
  {
    SquaresOrder(sqrt(x), sqrt(y));
  }

  lemma RootOf(sqrt: real --> real, root: real, x: real)
    requires IsSqrt(sqrt) && root >= 0.0 && root * root == x
    ensures x >= 0.0 && sqrt(x) == root
  {
    SquaresOrder(0.0, root);
    assert x >= 0.0;
    SquaresOrder(sqrt(x), root);
  }

  /** The voter-weight curve: 0 (or 0.4 for an active author) at score 0, half a
      vote (or 0.7) at score 25, a full vote at score 100, and rising throughout. */
  lemma VoterWeightCurve(c: Context, sqrt: real --> real, v: Account, higher: real)
    requires IsSqrt(sqrt) && Readable(c.prev, c.accredited) && v in c.accredited && v in c.prev
    requires c.prev[v] <= higher
    ensures c.prev[v] == 0.0 ==> VoterWeight(c, sqrt, v) == if v in c.active then 0.4 else 0.0
    ensures c.prev[v] == 25.0 ==> VoterWeight(c, sqrt, v) == if v in c.active then 0.7 else 0.5
    ensures c.prev[v] >= 100.0 ==> VoterWeight(c, sqrt, v) == 1.0
    ensures VoterWeight(c, sqrt, v) <= VoterWeight(c.(prev := c.prev[v := higher]), sqrt, v)
  {
    var x := c.prev[v] / 100.0;
    RootOf(sqrt, 0.0, 0.0);
    RootOf(sqrt, 0.5, 0.25);
    RootOf(sqrt, 1.0, 1.0);
    if x >= 1.0 {
      RootGrows(sqrt, 1.0, x);
    }
    RootGrows(sqrt, x, higher / 100.0);
    assert c.prev[v] == 25.0 ==> x == 0.25;
    hide IsSqrt;
  }

  /** A citation is worth at most its weight and never less than nothing, however
      often the citing paper lists the user. */
  lemma CitationValueBounded(c: Context, w: map<Key, real>, sqrt: real --> real, p: CitingFacts)
    requires Loaded(w) && Usable(c, sqrt, p.ballot)
    requires w[Citation] >= 0.0
    ensures 0.0 <= CitationValue(c, w, sqrt, p) <= if p.isSelf then w[SelfCitationDiscount] else w[Citation]
  {
    hide Weighted, Quality, Decay, Usable;
    assert InDomain(DecayFloor, w[DecayFloor]) && InDomain(SelfCitationDiscount, w[SelfCitationDiscount]);
    var upvotes := p.entries as real * Weighted(c, sqrt, p.ballot, p.voteExcluded, true);
    var share := CitationShare(Quality(c, p.reviews, p.reviewExcluded), upvotes);
    var factor := if p.isSelf then w[SelfCitationDiscount] else w[Citation];
    var d := Decay(w, p.months);
    ProductOfShares(share, d);
    assert share * factor * d == factor * (share * d);
    AgeingCostsNothingNegative(factor, share * d);
    AgeingCostsNothingNegative(factor, 1.0 - share * d);
    assert factor * (1.0 - share * d) == factor - factor * (share * d);
  }

  lemma SameBallots(c: Context, sqrt: real --> real, ballot: Ballot, other: Ballot, excluded: set<Account>, up: bool)
    requires Usable(c, sqrt, ballot) && Usable(c, sqrt, other)
    requires forall v :: v !in excluded ==> SignalsOf(ballot, v) == SignalsOf(other, v)
    ensures Weighted(c, sqrt, ballot, excluded, up) == Weighted(c, sqrt, other, excluded, up)
  {
    forall v | v !in excluded ensures LatestWeight(ballot, v) == LatestWeight(other, v) {
    }
    var voters := Voters(c, ballot, excluded, up);
    assert voters == Voters(c, other, excluded, up);
    SamePulls(c, sqrt, ballot, other, voters);
  }

  lemma SamePulls(c: Context, sqrt: real --> real, ballot: Ballot, other: Ballot, voters: set<Account>)
    requires Usable(c, sqrt, ballot) && Usable(c, sqrt, other)
    requires forall v :: v in voters ==> LatestWeight(ballot, v) == LatestWeight(other, v)
    ensures SumOver(voters, v requires Usable(c, sqrt, ballot) => Pull(c, sqrt, ballot, v))
         == SumOver(voters, v requires Usable(c, sqrt, other) => Pull(c, sqrt, other, v))
  {
    hide LatestWeight, VoterWeight, SumOver, Ranked, IsSqrt, Readable;
    SumAgrees(voters,
              v requires Usable(c, sqrt, ballot) => Pull(c, sqrt, ballot, v),
              v requires Usable(c, sqrt, other) => Pull(c, sqrt, other, v));
  }

  lemma SameJudging(c: Context, reviews: seq<Rating>, extra: Rating, excluded: set<Account>)
    requires extra.author in excluded || (extra.author !in c.accredited && extra.author != c.anon)
    ensures Judging(c, reviews + [extra], excluded) == Judging(c, reviews, excluded)
  {
    if reviews == [] {
    } else {
      assert (reviews + [extra])[1..] == reviews[1..] + [extra];
      SameJudging(c, reviews[1..], extra, excluded);
    }
  }

  lemma SameInputsSameScore(c: Context, w: map<Key, real>, sqrt: real --> real, p: PaperFacts, q: PaperFacts)
    requires Loaded(w) && Usable(c, sqrt, p.ballot) && Usable(c, sqrt, q.ballot) && p.months == q.months
    requires Quality(c, p.reviews, p.excluded) == Quality(c, q.reviews, q.excluded)
    requires Weighted(c, sqrt, p.ballot, p.excluded, true) == Weighted(c, sqrt, q.ballot, q.excluded, true)
    requires Weighted(c, sqrt, p.ballot, p.excluded, false) == Weighted(c, sqrt, q.ballot, q.excluded, false)
    ensures PaperScore(c, w, sqrt, p) == PaperScore(c, w, sqrt, q)
  {
    hide PaperFormula;
  }

  /** Accounts barred from judging a paper cannot move its score: not by any
      votes, and not by another review. */
  lemma CreditedAccountsAreInert(c: Context, w: map<Key, real>, sqrt: real --> real, p: PaperFacts, other: Ballot,
                                 extra: Rating)
    requires Loaded(w) && Usable(c, sqrt, p.ballot) && Usable(c, sqrt, other)
    requires forall v :: v !in p.excluded ==> SignalsOf(p.ballot, v) == SignalsOf(other, v)
    requires extra.author in p.excluded
    ensures PaperScore(c, w, sqrt, p) == PaperScore(c, w, sqrt, p.(ballot := other, reviews := p.reviews + [extra]))
  {
    SameBallots(c, sqrt, p.ballot, other, p.excluded, true);
    SameBallots(c, sqrt, p.ballot, other, p.excluded, false);
    SameJudging(c, p.reviews, extra, p.excluded);
    SameInputsSameScore(c, w, sqrt, p, p.(ballot := other, reviews := p.reviews + [extra]));
  }

  // ---------------------------------------------------------------------
  // One cycle
  // ---------------------------------------------------------------------

  ghost predicate AllUsable(c: Context, sqrt: real --> real, u: UserFacts)
  {
    && (forall i :: 0 <= i < |u.papers| ==> Usable(c, sqrt, u.papers[i].ballot))
    && (forall i :: 0 <= i < |u.reviews| ==> Usable(c, sqrt, u.reviews[i].ballot))
    && (forall i :: 0 <= i < |u.citing| ==> Usable(c, sqrt, u.citing[i].ballot))
  }

  function SumSeq(s: seq<real>): real
  {
    if s == [] then 0.0 else s[0] + SumSeq(s[1..])
  }

  // `ROUND(x, 1)`: to one decimal, halves away from zero.
  function Round1(x: real): real
  {
    if x >= 0.0 then (x * 10.0 + 0.5).Floor as real / 10.0
    else -((-x * 10.0 + 0.5).Floor as real / 10.0)
  }

  ghost function UserScore(c: Context, w: map<Key, real>, sqrt: real --> real, u: UserFacts): (score: real)
    requires Loaded(w) && AllUsable(c, sqrt, u)
    ensures 0.0 <= score <= 100.0
  {
    Total(w, SumSeq(PaperScores(c, w, sqrt, u)), SumSeq(ReviewScores(c, w, sqrt, u)), SumSeq(CitationValues(c, w, sqrt, u)))
  }

  ghost function PaperScores(c: Context, w: map<Key, real>, sqrt: real --> real, u: UserFacts): seq<real>
    requires Loaded(w) && AllUsable(c, sqrt, u)
  {
    seq(|u.papers|, i requires 0 <= i < |u.papers| => PaperScore(c, w, sqrt, u.papers[i]))
  }

  ghost function ReviewScores(c: Context, w: map<Key, real>, sqrt: real --> real, u: UserFacts): seq<real>
    requires Loaded(w) && AllUsable(c, sqrt, u)
  {
    seq(|u.reviews|, i requires 0 <= i < |u.reviews| => ReviewScore(c, w, sqrt, u.reviews[i]))
  }

  ghost function CitationValues(c: Context, w: map<Key, real>, sqrt: real --> real, u: UserFacts): seq<real>
    requires Loaded(w) && AllUsable(c, sqrt, u)
  {
    seq(|u.citing|, i requires 0 <= i < |u.citing| => CitationValue(c, w, sqrt, u.citing[i]))
  }

  function Total(w: map<Key, real>, papers: real, reviews: real, citations: real): real
    requires Loaded(w)
  {
    Min(100.0, Max(0.0, Round1(papers + reviews + Min(w[CitationMax], citations) + w[AccreditationBonus])))
  }

  /** A cycle's view of the chain. */
  datatype CycleFacts = CycleFacts(active: set<Account>, anon: Account, users: map<Account, UserFacts>)

  ghost predicate WellFormed(facts: CycleFacts)
  {
    forall u :: u in facts.users ==> RankedFacts(facts.users[u])
  }

  ghost predicate RankedFacts(u: UserFacts)
  {
    && (forall i :: 0 <= i < |u.papers| ==> Ranked(u.papers[i].ballot))
    && (forall i :: 0 <= i < |u.reviews| ==> Ranked(u.reviews[i].ballot))
    && (forall i :: 0 <= i < |u.citing| ==> Ranked(u.citing[i].ballot))
  }

  // One scoring query for the accredited accounts; it fails as a whole when a
  // previous score has no square root.
  ghost function RunCycle(facts: CycleFacts, accredited: set<Account>, w: map<Key, real>, sqrt: real --> real,
                          prev: Scores): (result: Option<Scores>)
    requires IsSqrt(sqrt) && Loaded(w) && WellFormed(facts)
    ensures result.Some? <==> Readable(prev, accredited)
    ensures result.Some? ==> result.value.Keys == accredited
                             && forall u :: u in accredited ==> 0.0 <= result.value[u] <= 100.0
  {
    if !Readable(prev, accredited) then None
    else
      var c := Context(accredited, facts.active, prev, facts.anon);
      Some(map u | u in accredited ::
        UserScore(c, w, sqrt, if u in facts.users then facts.users[u] else UserFacts([], [], [])))
  }

  // ---------------------------------------------------------------------
  // Whole runs
  // ---------------------------------------------------------------------

  /** The scores as stored and, while a run is under way, as it carries them: a run
      reads the stored scores once and feeds its own results from cycle to cycle. */
  datatype Standing = Standing(stored: Scores, carried: Option<Scores>)

  const BOOTSTRAP := Standing(map[], None)

  /** What changes them: the start of a run, from the stored scores or from none (a
      replay from cycle 0, or a read that failed), its cycles and its end; the seed
      of a fresh accreditation, stored only where there is no score yet; and the
      removal of a stored score by a revocation or a prune. */
  datatype Event =
    | BeginRun(fromStored: bool)
    | Cycle(facts: CycleFacts, accredited: set<Account>, weights: map<Key, real>)
    | EndRun
    | Seed(account: Account, weights: map<Key, real>)
    | Drop(account: Account)

  ghost predicate Possible(st: Standing, e: Event)
  {
    match e
    case BeginRun(_) => st.carried.None?
    case Cycle(facts, _, w) => st.carried.Some? && WellFormed(facts) && Loaded(w)
    case Seed(_, w) => Loaded(w)
    case _ => true
  }

  // A cycle whose query fails ends the run.
  ghost function Step(st: Standing, e: Event, sqrt: real --> real): Standing
    requires IsSqrt(sqrt) && Possible(st, e)
  {
    match e
    case BeginRun(fromStored) => st.(carried := Some(if fromStored then st.stored else map[]))
    case Cycle(facts, accredited, w) =>
      var result := RunCycle(facts, accredited, w, sqrt, st.carried.value);
      if result.Some? then Standing(st.stored + result.value, result) else st.(carried := None)
    case EndRun => st.(carried := None)
    case Seed(a, w) => if a in st.stored then st else st.(stored := st.stored[a := w[AccreditationBonus]])
    case Drop(a) => st.(stored := st.stored - {a})
  }

  ghost predicate Steps(st: Standing, e: Event, after: Standing, sqrt: real --> real)
    requires IsSqrt(sqrt)
  {
    Possible(st, e) && after == Step(st, e, sqrt)
  }

  // A history from the empty store, as the standings it passes through.
  ghost predicate Trace(states: seq<Standing>, events: seq<Event>, sqrt: real --> real)
    requires IsSqrt(sqrt)
  {
    && |states| == |events| + 1 && states[0] == BOOTSTRAP
    && forall n {:trigger events[n]} :: 0 <= n < |events| ==> Steps(states[n], events[n], states[n + 1], sqrt)
  }

  predicate Negative(scores: Scores, u: Account)
  {
    u in scores && scores[u] < 0.0
  }

  predicate CarriesNegative(st: Standing, u: Account)
  {
    st.carried.Some? && Negative(st.carried.value, u)
  }

  // The event stores a negative score for the account.
  predicate SeedsNegative(st: Standing, e: Event, u: Account)
  {
    e.Seed? && e.account == u && u !in st.stored && AccreditationBonus in e.weights
    && e.weights[AccreditationBonus] < 0.0
  }

  // The event removes the account's stored score or replaces it by a cycle's.
  predicate Replaces(st: Standing, e: Event, u: Account)
  {
    || e == Drop(u)
    || (e.Cycle? && u in e.accredited && st.carried.Some? && Readable(st.carried.value, e.accredited))
  }

  lemma StoredStep(st: Standing, e: Event, after: Standing, u: Account, sqrt: real --> real)
    requires IsSqrt(sqrt) && Steps(st, e, after, sqrt)
    ensures Negative(after.stored, u) <==> SeedsNegative(st, e, u) || (Negative(st.stored, u) && !Replaces(st, e, u))
  {
    hide IsSqrt, RunCycle;
    if e.Cycle? {
      var result := RunCycle(e.facts, e.accredited, e.weights, sqrt, st.carried.value);
      assert result.Some? <==> Readable(st.carried.value, e.accredited);
    }
  }

  lemma CarriedStep(st: Standing, e: Event, after: Standing, u: Account, sqrt: real --> real)
    requires IsSqrt(sqrt) && Steps(st, e, after, sqrt)
    ensures CarriesNegative(after, u)
       <==> (e == BeginRun(true) && Negative(st.stored, u)) || (CarriesNegative(st, u) && (e.Seed? || e.Drop?))
  {
    hide IsSqrt, RunCycle;
  }

  // Event s stored a negative score, and none before event n replaced it.
  predicate StillSeeded(states: seq<Standing>, events: seq<Event>, u: Account, s: nat, n: nat)
    requires |states| == |events| + 1
  {
    && s < n <= |events| && SeedsNegative(states[s], events[s], u)
    && forall m :: s < m < n ==> !Replaces(states[m], events[m], u)
  }

  // A run read the stored scores at event j and has scored no cycle before event n.
  predicate FirstCycleOf(events: seq<Event>, j: nat, n: nat)
  {
    j < n <= |events| && events[j] == BeginRun(true) && forall m :: j < m < n ==> events[m].Seed? || events[m].Drop?
  }

  lemma TraceAt(states: seq<Standing>, events: seq<Event>, k: nat, sqrt: real --> real)
    requires IsSqrt(sqrt) && Trace(states, events, sqrt)
    ensures |states| == |events| + 1 && states[0] == BOOTSTRAP
    ensures k < |events| ==> Steps(states[k], events[k], states[k + 1], sqrt)
  {
  }

  lemma SeededStep(states: seq<Standing>, events: seq<Event>, u: Account, s: nat, k: nat)
    requires |states| == |events| + 1 && k < |events|
    ensures StillSeeded(states, events, u, s, k + 1)
       <==> (s == k && SeedsNegative(states[k], events[k], u))
            || (StillSeeded(states, events, u, s, k) && !Replaces(states[k], events[k], u))
  {
    hide SeedsNegative, Replaces;
  }

  /** A stored score is negative exactly while a seed put it there and neither a
      removal nor a cycle has replaced it. */
  lemma {:induction false} NegativeScoresAreSeeds(states: seq<Standing>, events: seq<Event>, u: Account, n: nat,
                                                  sqrt: real --> real)
    requires IsSqrt(sqrt) && Trace(states, events, sqrt) && n <= |events|
    ensures |states| == |events| + 1
    ensures Negative(states[n].stored, u) <==> exists s: nat :: StillSeeded(states, events, u, s, n)
  {
    hide IsSqrt, Trace, Steps, Negative, SeedsNegative, Replaces;
    TraceAt(states, events, 0, sqrt);
    if n == 0 {
      NothingNegative(u);
    } else {
      var k := n - 1;
      NegativeScoresAreSeeds(states, events, u, k, sqrt);
      TraceAt(states, events, k, sqrt);
      StoredStep(states[k], events[k], states[n], u, sqrt);
      hide *;
      forall s: nat {
        SeededStep(states, events, u, s, k);
      }
      if Negative(states[n].stored, u) {
        if SeedsNegative(states[k], events[k], u) {
          assert StillSeeded(states, events, u, k, n);
        } else {
          var s: nat :| StillSeeded(states, events, u, s, k);
          assert StillSeeded(states, events, u, s, n);
        }
      }
      if s: nat :| StillSeeded(states, events, u, s, n) {
        assert s == k || StillSeeded(states, events, u, s, k);
      }
    }
  }

  lemma NothingNegative(u: Account)
    ensures !Negative(BOOTSTRAP.stored, u) && !CarriesNegative(BOOTSTRAP, u)
  {
  }

  lemma FirstCycleStep(events: seq<Event>, j: nat, k: nat)
    requires k < |events|
    ensures FirstCycleOf(events, j, k + 1)
       <==> (j == k && events[k] == BeginRun(true)) || (FirstCycleOf(events, j, k) && (events[k].Seed? || events[k].Drop?))
    ensures FirstCycleOf(events, j, k + 1) ==> j <= k
  {
  }

  lemma {:induction false} CarriedFromTheStore(states: seq<Standing>, events: seq<Event>, u: Account, n: nat,
                                               sqrt: real --> real)
    requires IsSqrt(sqrt) && Trace(states, events, sqrt) && n <= |events|
    ensures |states| == |events| + 1
    ensures CarriesNegative(states[n], u)
       <==> exists j: nat :: FirstCycleOf(events, j, n) && Negative(states[j].stored, u)
  {
    hide IsSqrt, Trace, Steps, Negative, CarriesNegative;
    TraceAt(states, events, 0, sqrt);
    if n == 0 {
      NothingNegative(u);
    } else {
      var k := n - 1;
      CarriedFromTheStore(states, events, u, k, sqrt);
      TraceAt(states, events, k, sqrt);
      CarriedStep(states[k], events[k], states[n], u, sqrt);
      hide *;
      forall j: nat {
        FirstCycleStep(events, j, k);
      }
      if CarriesNegative(states[n], u) {
        if events[k] == BeginRun(true) && Negative(states[k].stored, u) {
          assert FirstCycleOf(events, k, n);
        } else {
          var j: nat :| FirstCycleOf(events, j, k) && Negative(states[j].stored, u);
          assert FirstCycleOf(events, j, n);
        }
      }
    }
  }

  // What a cycle's query answers.
  ghost function Outcome(st: Standing, e: Event, sqrt: real --> real): Option<Scores>
    requires IsSqrt(sqrt) && Possible(st, e) && e.Cycle?
  {
    RunCycle(e.facts, e.accredited, e.weights, sqrt, st.carried.value)
  }

  /** Over every history, a cycle fails exactly when it is the first of a run that
      read the stored scores while a negative seed of an account it counts was still
      among them. A seed that lands later in a run fails none of that run's cycles,
      and the first that counts the account replaces it. */
  lemma NegativeSeedStopsScoring(states: seq<Standing>, events: seq<Event>, n: nat, sqrt: real --> real)
    requires IsSqrt(sqrt) && Trace(states, events, sqrt) && n < |events| && events[n].Cycle?
    ensures Possible(states[n], events[n])
    ensures Outcome(states[n], events[n], sqrt).None?
       <==> exists u: Account, s: nat, j: nat :: u in events[n].accredited && FirstCycleOf(events, j, n)
                                                 && StillSeeded(states, events, u, s, j)
  {
    var e, accredited := events[n], events[n].accredited;
    assert Steps(states[n], e, states[n + 1], sqrt);
    assert Outcome(states[n], e, sqrt).None? <==> exists u :: u in accredited && CarriesNegative(states[n], u);
    hide IsSqrt, Outcome, Trace, Negative, CarriesNegative, StillSeeded, FirstCycleOf, Possible;
    forall u: Account
      ensures CarriesNegative(states[n], u)
         <==> exists j: nat :: FirstCycleOf(events, j, n) && Negative(states[j].stored, u)
    {
      CarriedFromTheStore(states, events, u, n, sqrt);
    }
    forall u: Account, j: nat | j < n
      ensures Negative(states[j].stored, u) <==> exists s: nat :: StillSeeded(states, events, u, s, j)
    {
      NegativeScoresAreSeeds(states, events, u, j, sqrt);
    }
  }

  /** As long as no seed carries a negative bonus, every cycle of every history has
      all its square roots defined, and no stored score is ever negative. */
  lemma EveryCycleIsDefined(states: seq<Standing>, events: seq<Event>, n: nat, u: Account, sqrt: real --> real)
    requires IsSqrt(sqrt) && Trace(states, events, sqrt) && n < |events|
    requires forall i :: 0 <= i < |events| && events[i].Seed? ==>
               AccreditationBonus in events[i].weights && events[i].weights[AccreditationBonus] >= 0.0
    ensures Possible(states[n], events[n])
    ensures events[n].Cycle? ==> Outcome(states[n], events[n], sqrt).Some?
    ensures u in states[n].stored ==> states[n].stored[u] >= 0.0
  {
    assert Steps(states[n], events[n], states[n + 1], sqrt);
    assert forall v: Account, s: nat, j: nat :: !StillSeeded(states, events, v, s, j);
    hide IsSqrt, Trace, StillSeeded, Outcome, Possible;
    if events[n].Cycle? {
      NegativeSeedStopsScoring(states, events, n, sqrt);
    }
    NegativeScoresAreSeeds(states, events, u, n, sqrt);
  }

  // After event s no run starts from nothing, the account is not dropped, and every
  // cycle counts it.
  predicate KeepsCounting(events: seq<Event>, u: Account, s: nat)
  {
    forall i :: s < i < |events| ==>
      match events[i]
      case BeginRun(fromStored) => fromStored
      case Cycle(_, accredited, _) => u in accredited
      case Drop(a) => a != u
      case _ => true
  }

  /** So one such seed between runs is enough: until the account is dropped, or a run
      starts from nothing, no later cycle succeeds. */
  lemma {:induction false} OneSeedStopsEveryCycle(states: seq<Standing>, events: seq<Event>, u: Account, s: nat, n: nat,
                                                  sqrt: real --> real)
    requires IsSqrt(sqrt) && Trace(states, events, sqrt) && s < n <= |events|
    requires SeedsNegative(states[s], events[s], u) && states[s].carried.None? && KeepsCounting(events, u, s)
    ensures Negative(states[n].stored, u) && (states[n].carried.Some? ==> CarriesNegative(states[n], u))
    ensures n < |events| && events[n].Cycle? ==>
              Possible(states[n], events[n]) && Outcome(states[n], events[n], sqrt).None?
  {
    var k := n - 1;
    assert Steps(states[k], events[k], states[k + 1], sqrt);
    assert n < |events| ==> Steps(states[n], events[n], states[n + 1], sqrt);
    hide IsSqrt, Trace;
    StoredStep(states[k], events[k], states[n], u, sqrt);
    CarriedStep(states[k], events[k], states[n], u, sqrt);
    if s < k {
      OneSeedStopsEveryCycle(states, events, u, s, k, sqrt);
    }
  }
}
