/** Claiming account-creation tokens in batches until the resource credits run out. */
module AccountClaims {

  const CLAIMS_PER_TX: nat := 50

  // What n claims cost.
  function Price(n: nat, cost: nat): nat
  {
    n * cost
  }

  lemma PriceAdds(n: nat, m: nat, cost: nat)
    ensures Price(n + m, cost) == Price(n, cost) + Price(m, cost)
  {
  }

  lemma PriceGrows(n: nat, cost: nat)
    requires n >= 1
    ensures Price(n, cost) >= cost && (n == 1 ==> Price(n, cost) == cost)
  {
    PriceAdds(n - 1, 1, cost);
  }

  lemma PriceGap(n: nat, m: nat, cost: nat)
    ensures n < m ==> Price(n, cost) + cost <= Price(m, cost)
  {
    if n < m {
      PriceGrows(m - n, cost);
      PriceAdds(n, m - n, cost);
    }
  }

  /** What fits a budget is the budget divided by the cost, rounded down. */
  lemma AffordableIsQuotient(budget: nat, claimed: nat, cost: nat, rest: nat)
    requires cost > 0 && budget == Price(claimed, cost) + rest && rest < cost
    ensures claimed == budget / cost
  {
    var q: nat := budget / cost;
    assert budget == Price(q, cost) + budget % cost;
    PriceGap(q, claimed, cost);
    PriceGap(claimed, q, cost);
    hide Price;
  }

  /** The onboarding account on chain: its resource credits and its tokens. Credits
      do not regenerate while the loop runs, and every claim costs the same. */
  class Chain {
    var credits: nat
    var pending: nat

    constructor (initial: nat)
      ensures credits == initial && pending == 0
    {
      credits, pending := initial, 0;
    }

    // A transaction of n claims lands if the credits cover it and nothing else fails.
    method Claim(n: nat, cost: nat, otherFailure: bool) returns (landed: bool)
      modifies this
      ensures landed <==> Price(n, cost) <= old(credits) && !otherFailure
      ensures pending == old(pending) + (if landed then n else 0)
      ensures credits == old(credits) - (if landed then Price(n, cost) else 0)
    {
      landed := Price(n, cost) <= credits && !otherFailure;
      if landed {
        pending := pending + n;
        credits := credits - Price(n, cost);
      }
    }
  }

  /** How an attempt to broadcast ends, the credits apart. */
  datatype Fate = Answers | FailsOtherwise | TimesOut(lands: bool)

  /** `claimAccountTokens`. It ends for every budget: each round either spends
      credits or shrinks the batch. Although it only ever halves, it leaves less than
      one claim's credits unspent unless something other than credits failed, and
      what it reports is off the chain by at most the batch that timed out. */
  method ClaimAccountTokens(chain: Chain, cost: nat, keySet: bool, fates: nat -> Fate)
    returns (claimed: nat, timedOut: bool, inDoubt: nat)
    requires cost > 0
    modifies chain
    ensures !keySet ==> claimed == 0 && !timedOut && chain.pending == old(chain.pending)
    ensures keySet && !timedOut && (forall k: nat :: fates(k) != FailsOtherwise) ==> claimed == old(chain.credits) / cost
    ensures timedOut ==> exists k: nat :: fates(k).TimesOut?
    ensures keySet && fates(0).TimesOut? ==> timedOut && claimed == 0 && inDoubt == 50
    ensures !timedOut ==> chain.pending == old(chain.pending) + claimed
    ensures timedOut ==>
      && 1 <= inDoubt <= 50
      && (chain.pending == old(chain.pending) + claimed || chain.pending == old(chain.pending) + claimed + inDoubt)
    ensures chain.pending >= old(chain.pending)
            && old(chain.credits) == chain.credits + Price(chain.pending - old(chain.pending), cost)
  {
    assert Price(0, cost) == 0;
    hide Price;
    claimed, timedOut, inDoubt := 0, false, 0;
    if !keySet {
      return;
    }
    var batchSize: nat, attempt: nat, failed := CLAIMS_PER_TX, 0, false;
    while batchSize >= 1
      invariant batchSize <= CLAIMS_PER_TX && (attempt == 0 ==> claimed == 0 && batchSize == CLAIMS_PER_TX)
      invariant attempt > 0 ==> !fates(0).TimesOut?
      invariant failed ==> exists k: nat :: fates(k) == FailsOtherwise
      invariant chain.pending == old(chain.pending) + claimed
      invariant old(chain.credits) == chain.credits + Price(claimed, cost)
      invariant batchSize == 0 && !failed ==> chain.credits < cost
      decreases chain.credits, batchSize
    {
      PriceGrows(batchSize, cost);
      PriceAdds(claimed, batchSize, cost);
      var fate := fates(attempt);
      attempt := attempt + 1;
      var landed := chain.Claim(batchSize, cost, fate == FailsOtherwise || fate == TimesOut(false));
      if fate.TimesOut? {
        // Landed or not, the caller cannot tell.
        timedOut, inDoubt := true, batchSize;
        return;
      }
      if landed {
        claimed := claimed + batchSize;
      } else {
        failed := failed || fate == FailsOtherwise;
        batchSize := batchSize / 2;
      }
    }
    if !failed {
      AffordableIsQuotient(old(chain.credits), claimed, cost, chain.credits);
    }
  }
}
