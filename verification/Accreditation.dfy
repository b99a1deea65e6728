/** Accreditation, sanctions and the web of trust, as the ranked CTEs of
    `activeAccreditationsCteBody` compute them from the operation rows, and as a
    one-pass replay in chain order computes them. */
module Accreditation {
  import opened Prelude
  import opened ChainLog

  type Account = string

  const WOT := Some("wot")
  const SANCTION := Some("sanction")
  const DEFAULT_WOT_THRESHOLD: nat := 3

  datatype Json = Number(value: real) | NotANumber

  datatype Action =
    | Accredit(account: Account, method_: Option<string>)
    | Revoke(account: Account, kind: Option<string>)
    | Vouch(voucher: Account, vouchee: Account)
    | RetractVouch(voucher: Account, vouchee: Account)
    | UpdateParams(minAccreditationsForWot: Json)

  type TrustOp = Op<Action>
  type TrustLog = Log<Action>

  predicate SignedByAny(op: TrustOp, authorities: set<Account>)
  {
    exists s :: s in op.signers && s in authorities
  }

  // Only a JSON number with an integer value of at least 1 is a threshold.
  function ThresholdOf(node: Json): nat
  {
    if node.Number? && node.value == node.value.Floor as real && node.value >= 1.0
    then node.value.Floor
    else DEFAULT_WOT_THRESHOLD
  }

  // ---------------------------------------------------------------------
  // The query: sets of rows, ranked
  // ---------------------------------------------------------------------

  function Accredits(rows: set<TrustOp>, authorities: set<Account>, a: Account): set<TrustOp>
  {
    set o | o in rows && o.action.Accredit? && o.action.account == a && SignedByAny(o, authorities)
  }

  // Any accredit but a vouch-derived one.
  function AuthorityAccredits(rows: set<TrustOp>, authorities: set<Account>, a: Account): set<TrustOp>
  {
    set o | o in Accredits(rows, authorities, a) && o.action.method_ != WOT
  }

  function Sanctions(rows: set<TrustOp>, authorities: set<Account>, a: Account): set<TrustOp>
  {
    set o | o in rows && o.action.Revoke? && o.action.account == a && o.action.kind == SANCTION
            && SignedByAny(o, authorities)
  }

  function VouchOps(rows: set<TrustOp>, v: Account, w: Account): set<TrustOp>
  {
    set o | o in rows && (o.action.Vouch? || o.action.RetractVouch?)
            && o.action.voucher == v && o.action.vouchee == w && v in o.signers
  }

  function ParamOps(rows: set<TrustOp>, authorities: set<Account>): set<TrustOp>
  {
    set o | o in rows && o.action.UpdateParams? && SignedByAny(o, authorities)
  }

  ghost predicate Suppressed(rows: set<TrustOp>, authorities: set<Account>, a: Account)
    requires Ranked(rows)
  {
    var sanctions, lifts := Sanctions(rows, authorities, a), AuthorityAccredits(rows, authorities, a);
    sanctions != {} && !(lifts != {} && Before(Latest(sanctions).pos, Latest(lifts).pos))
  }

  // `accred_pinned`
  ghost predicate Pinned(rows: set<TrustOp>, authorities: set<Account>, a: Account)
    requires Ranked(rows)
  {
    Accredits(rows, authorities, a) != {} && !Suppressed(rows, authorities, a)
  }

  ghost function MethodOf(rows: set<TrustOp>, authorities: set<Account>, a: Account): Option<string>
    requires Ranked(rows) && Accredits(rows, authorities, a) != {}
  {
    Latest(Accredits(rows, authorities, a)).action.method_
  }

  // `aa_active_vouches`
  ghost predicate VouchLive(rows: set<TrustOp>, v: Account, w: Account)
    requires Ranked(rows)
  {
    VouchOps(rows, v, w) != {} && Latest(VouchOps(rows, v, w)).action.Vouch?
  }

  ghost function Threshold(rows: set<TrustOp>, authorities: set<Account>): nat
    requires Ranked(rows)
  {
    if ParamOps(rows, authorities) == {} then DEFAULT_WOT_THRESHOLD
    else ThresholdOf(Latest(ParamOps(rows, authorities)).action.minAccreditationsForWot)
  }

  // `COUNT(DISTINCT av.voucher)` over the pinned vouchers of `a`.
  ghost function Vouchers(rows: set<TrustOp>, authorities: set<Account>, a: Account): set<Account>
    requires Ranked(rows)
  {
    set o | o in rows && o.action.Vouch? && o.action.vouchee == a
            && VouchLive(rows, o.action.voucher, a) && Pinned(rows, authorities, o.action.voucher)
         :: o.action.voucher
  }

  // `active_accreditations`
  ghost predicate Active(rows: set<TrustOp>, authorities: set<Account>, a: Account)
    requires Ranked(rows)
  {
    && Pinned(rows, authorities, a)
    && (MethodOf(rows, authorities, a) != WOT
        || |Vouchers(rows, authorities, a)| >= Threshold(rows, authorities))
  }

  // ---------------------------------------------------------------------
  // The replay: one pass in chain order
  // ---------------------------------------------------------------------

  datatype Trust = Trust(
    methods: map<Account, Option<string>>,
    sanctioned: set<Account>,
    vouches: set<(Account, Account)>,
    threshold: nat)

  function Step(t: Trust, op: TrustOp, authorities: set<Account>): Trust
  {
    var byAuthority := SignedByAny(op, authorities);
    match op.action
    case Accredit(a, m) =>
      if !byAuthority then t
      else t.(methods := t.methods[a := m], sanctioned := if m != WOT then t.sanctioned - {a} else t.sanctioned)
    case Revoke(a, kind) =>
      if byAuthority && kind == SANCTION then t.(sanctioned := t.sanctioned + {a}) else t
    case Vouch(v, w) =>
      if v in op.signers then t.(vouches := t.vouches + {(v, w)}) else t
    case RetractVouch(v, w) =>
      if v in op.signers then t.(vouches := t.vouches - {(v, w)}) else t
    case UpdateParams(node) =>
      if byAuthority then t.(threshold := ThresholdOf(node)) else t
  }

  const NOBODY := Trust(map[], {}, {}, DEFAULT_WOT_THRESHOLD)

  function Replay(t: Trust, log: TrustLog, authorities: set<Account>): Trust
  {
    if log == [] then t
    else Step(Replay(t, log[..|log| - 1], authorities), Last(log), authorities)
  }

  predicate Holds(t: Trust, a: Account)
  {
    a in t.methods && a !in t.sanctioned
  }

  function HeldVouchers(t: Trust, a: Account): set<Account>
  {
    set v | v in t.methods && Holds(t, v) && (v, a) in t.vouches
  }

  predicate Member(t: Trust, a: Account)
  {
    Holds(t, a) && (t.methods[a] != WOT || |HeldVouchers(t, a)| >= t.threshold)
  }

  // ---------------------------------------------------------------------
  // The query equals the replay
  // ---------------------------------------------------------------------

  // One operation later than every row seen so far.
  ghost predicate Follows(rows: set<TrustOp>, op: TrustOp)
  {
    Ranked(rows) && Ranked(rows + {op}) && forall p :: p in rows ==> Before(p.pos, op.pos)
  }

  ghost predicate SameMethod(rows: set<TrustOp>, auths: set<Account>, t: Trust, a: Account)
    requires Ranked(rows)
  {
    && (a in t.methods <==> Accredits(rows, auths, a) != {})
    && (a in t.methods ==> t.methods[a] == MethodOf(rows, auths, a))
  }

  ghost predicate SameSanction(rows: set<TrustOp>, auths: set<Account>, t: Trust, a: Account)
    requires Ranked(rows)
  {
    a in t.sanctioned <==> Suppressed(rows, auths, a)
  }

  ghost predicate SameVouch(rows: set<TrustOp>, t: Trust, v: Account, w: Account)
    requires Ranked(rows)
  {
    (v, w) in t.vouches <==> VouchLive(rows, v, w)
  }

  ghost predicate Corresponds(rows: set<TrustOp>, auths: set<Account>, t: Trust)
    requires Ranked(rows)
  {
    && (forall a :: SameMethod(rows, auths, t, a))
    && (forall a :: SameSanction(rows, auths, t, a))
    && (forall v, w :: SameVouch(rows, t, v, w))
    && t.threshold == Threshold(rows, auths)
  }

  lemma StepKeepsMethod(rows: set<TrustOp>, auths: set<Account>, t: Trust, op: TrustOp, a: Account)
    requires Follows(rows, op) && SameMethod(rows, auths, t, a)
    ensures SameMethod(rows + {op}, auths, Step(t, op, auths), a)
  {
    var before, after := Accredits(rows, auths, a), Accredits(rows + {op}, auths, a);
    if op.action.Accredit? && op.action.account == a && SignedByAny(op, auths) {
      assert after == before + {op};
      AppendedIsLatest(before, op);
    } else {
      assert after == before;
    }
  }

  lemma StepKeepsSanction(rows: set<TrustOp>, auths: set<Account>, t: Trust, op: TrustOp, a: Account)
    requires Follows(rows, op) && SameSanction(rows, auths, t, a)
    ensures SameSanction(rows + {op}, auths, Step(t, op, auths), a)
  {
    var grown := rows + {op};
    var s, s' := Sanctions(rows, auths, a), Sanctions(grown, auths, a);
    var l, l' := AuthorityAccredits(rows, auths, a), AuthorityAccredits(grown, auths, a);
    var signed := SignedByAny(op, auths);
    if op.action.Accredit? && op.action.account == a && op.action.method_ != WOT && signed {
      assert s' == s && l' == l + {op};
      AppendedIsLatest(l, op);
    } else if op.action.Revoke? && op.action.account == a && op.action.kind == SANCTION && signed {
      assert s' == s + {op} && l' == l;
      AppendedIsLatest(s, op);
      assert l != {} ==> Before(Latest(l).pos, op.pos);
    } else {
      assert s' == s && l' == l;
    }
  }

  lemma StepKeepsVouch(rows: set<TrustOp>, auths: set<Account>, t: Trust, op: TrustOp, v: Account, w: Account)
    requires Follows(rows, op) && SameVouch(rows, t, v, w)
    ensures SameVouch(rows + {op}, Step(t, op, auths), v, w)
  {
    var before, after := VouchOps(rows, v, w), VouchOps(rows + {op}, v, w);
    if (op.action.Vouch? || op.action.RetractVouch?)
       && op.action.voucher == v && op.action.vouchee == w && v in op.signers {
      assert after == before + {op};
      AppendedIsLatest(before, op);
    } else {
      assert after == before;
    }
  }

  lemma StepKeepsThreshold(rows: set<TrustOp>, auths: set<Account>, t: Trust, op: TrustOp)
    requires Follows(rows, op) && t.threshold == Threshold(rows, auths)
    ensures Step(t, op, auths).threshold == Threshold(rows + {op}, auths)
  {
    var before, after := ParamOps(rows, auths), ParamOps(rows + {op}, auths);
    if op.action.UpdateParams? && SignedByAny(op, auths) {
      assert after == before + {op};
      AppendedIsLatest(before, op);
    } else {
      assert after == before;
    }
  }

  lemma {:induction false} ReplayCorresponds(log: TrustLog, auths: set<Account>)
    requires ChainOrdered(log)
    ensures Ranked(Rows(log)) && Corresponds(Rows(log), auths, Replay(NOBODY, log, auths))
  {
    OrderedRowsAreRanked(log, Rows(log));
    if log != [] {
      var front, op := log[..|log| - 1], Last(log);
      OrderedFront(log);
      ReplayCorresponds(front, auths);
      var rows, t := Rows(front), Replay(NOBODY, front, auths);
      assert Follows(rows, op);
      forall a ensures SameMethod(Rows(log), auths, Step(t, op, auths), a) {
        StepKeepsMethod(rows, auths, t, op, a);
      }
      forall a ensures SameSanction(Rows(log), auths, Step(t, op, auths), a) {
        StepKeepsSanction(rows, auths, t, op, a);
      }
      forall v, w ensures SameVouch(Rows(log), Step(t, op, auths), v, w) {
        StepKeepsVouch(rows, auths, t, op, v, w);
      }
      StepKeepsThreshold(rows, auths, t, op);
    }
  }

  lemma CorrespondingVouchers(rows: set<TrustOp>, auths: set<Account>, t: Trust, a: Account)
    requires Ranked(rows) && Corresponds(rows, auths, t)
    ensures forall b :: Pinned(rows, auths, b) <==> Holds(t, b)
    ensures Vouchers(rows, auths, a) == HeldVouchers(t, a)
  {
    forall b ensures Pinned(rows, auths, b) <==> Holds(t, b) {
      assert SameMethod(rows, auths, t, b) && SameSanction(rows, auths, t, b);
    }
    forall v | v in Vouchers(rows, auths, a) ensures v in HeldVouchers(t, a) {
      assert SameVouch(rows, t, v, a);
    }
    forall v | v in HeldVouchers(t, a) ensures v in Vouchers(rows, auths, a) {
      assert SameVouch(rows, t, v, a);
      var o := Latest(VouchOps(rows, v, a));
      assert o in rows && o.action.Vouch? && o.action.voucher == v && o.action.vouchee == a;
    }
  }

  /** Latest-wins membership over an unordered set of rows is what one pass over
      the chain in order computes, for every log and every account. */
  lemma MembershipEqualsReplay(log: TrustLog, auths: set<Account>, a: Account)
    requires ChainOrdered(log)
    ensures Ranked(Rows(log))
    ensures Active(Rows(log), auths, a) <==> Member(Replay(NOBODY, log, auths), a)
    ensures Suppressed(Rows(log), auths, a) <==> a in Replay(NOBODY, log, auths).sanctioned
  {
    ReplayCorresponds(log, auths);
    var t := Replay(NOBODY, log, auths);
    CorrespondingVouchers(Rows(log), auths, t, a);
    assert SameMethod(Rows(log), auths, t, a) && SameSanction(Rows(log), auths, t, a);
  }

  // ---------------------------------------------------------------------
  // What whole runs keep
  // ---------------------------------------------------------------------

  lemma {:induction false} ReplaySplits(t: Trust, log: TrustLog, more: TrustLog, auths: set<Account>)
    ensures Replay(t, log + more, auths) == Replay(Replay(t, log, auths), more, auths)
  {
    if more == [] {
      assert log + more == log;
    } else {
      assert (log + more)[..|log + more| - 1] == log + more[..|more| - 1];
      ReplaySplits(t, log, more[..|more| - 1], auths);
    }
  }

  predicate Lifts(op: TrustOp, auths: set<Account>, a: Account)
  {
    op.action.Accredit? && op.action.account == a && op.action.method_ != WOT && SignedByAny(op, auths)
  }

  predicate IsSanctionOf(op: TrustOp, auths: set<Account>, a: Account)
  {
    op.action.Revoke? && op.action.account == a && op.action.kind == SANCTION && SignedByAny(op, auths)
  }

  lemma {:induction false} SanctionedWithoutLift(t: Trust, more: TrustLog, auths: set<Account>, a: Account)
    requires forall i :: 0 <= i < |more| ==> !IsSanctionOf(more[i], auths, a)
    ensures a in Replay(t, more, auths).sanctioned
       <==> a in t.sanctioned && forall i :: 0 <= i < |more| ==> !Lifts(more[i], auths, a)
  {
    if more != [] {
      SanctionedWithoutLift(t, more[..|more| - 1], auths, a);
    }
  }

  /** After a sanction the account stays out of the accredited set, whatever else
      happens, until and only until an authority accredits it other than through
      the web of trust. */
  lemma OnlyAuthorityAccreditLifts(log: TrustLog, sanction: TrustOp, more: TrustLog, auths: set<Account>, a: Account)
    requires ChainOrdered(log + [sanction] + more) && IsSanctionOf(sanction, auths, a)
    requires forall i :: 0 <= i < |more| ==> !IsSanctionOf(more[i], auths, a)
    ensures Ranked(Rows(log + [sanction] + more))
    ensures Suppressed(Rows(log + [sanction] + more), auths, a)
       <==> forall i :: 0 <= i < |more| ==> !Lifts(more[i], auths, a)
    ensures (forall i :: 0 <= i < |more| ==> !Lifts(more[i], auths, a))
       ==> !Active(Rows(log + [sanction] + more), auths, a)
  {
    var head := log + [sanction];
    ReplaySplits(NOBODY, head, more, auths);
    assert head[..|head| - 1] == log && Last(head) == sanction;
    SanctionedWithoutLift(Replay(NOBODY, head, auths), more, auths, a);
    MembershipEqualsReplay(head + more, auths, a);
  }

  /** A revoke that is not a sanction changes nobody's membership, at any later
      time: the run continues as if it had not been broadcast. */
  lemma LegacyRevokeIsInert(log: TrustLog, revoke: TrustOp, more: TrustLog, auths: set<Account>, a: Account)
    requires ChainOrdered(log + [revoke] + more) && ChainOrdered(log + more)
    requires revoke.action.Revoke? && revoke.action.kind != SANCTION
    ensures Ranked(Rows(log + [revoke] + more)) && Ranked(Rows(log + more))
    ensures Active(Rows(log + [revoke] + more), auths, a) <==> Active(Rows(log + more), auths, a)
  {
    IdleStepIsInert(log, revoke, more, auths, a);
  }

  // An operation the replay ignores might as well not be there.
  lemma IdleStepIsInert(log: TrustLog, op: TrustOp, more: TrustLog, auths: set<Account>, a: Account)
    requires ChainOrdered(log + [op] + more) && ChainOrdered(log + more)
    requires Step(Replay(NOBODY, log, auths), op, auths) == Replay(NOBODY, log, auths)
    ensures Ranked(Rows(log + [op] + more)) && Ranked(Rows(log + more))
    ensures Active(Rows(log + [op] + more), auths, a) <==> Active(Rows(log + more), auths, a)
    ensures Suppressed(Rows(log + [op] + more), auths, a) <==> Suppressed(Rows(log + more), auths, a)
  {
    var head := log + [op];
    ReplaySplits(NOBODY, head, more, auths);
    ReplaySplits(NOBODY, log, more, auths);
    assert head[..|head| - 1] == log && Last(head) == op;
    MembershipEqualsReplay(head + more, auths, a);
    MembershipEqualsReplay(log + more, auths, a);
  }

  /** Nobody accredits, revokes or sets parameters but an authority, and nobody
      vouches or retracts but in its own name: an operation signed by none of them
      changes nobody's standing, now or later. */
  lemma UnauthorizedOpsAreInert(log: TrustLog, op: TrustOp, more: TrustLog, auths: set<Account>, a: Account)
    requires ChainOrdered(log + [op] + more) && ChainOrdered(log + more)
    requires match op.action
             case Vouch(voucher, _) => voucher !in op.signers
             case RetractVouch(voucher, _) => voucher !in op.signers
             case _ => forall s :: s in op.signers ==> s !in auths
    ensures Ranked(Rows(log + [op] + more)) && Ranked(Rows(log + more))
    ensures Active(Rows(log + [op] + more), auths, a) <==> Active(Rows(log + more), auths, a)
    ensures Suppressed(Rows(log + [op] + more), auths, a) <==> Suppressed(Rows(log + more), auths, a)
  {
    IdleStepIsInert(log, op, more, auths, a);
  }

  /** With an authority's signature an operation that comes last has its effect: an
      accredit other than by vouches makes a member, a sanction ends membership, and
      a whole number from 1 up becomes the threshold, anything else making it 3. */
  lemma AuthorizedOpsCount(log: TrustLog, op: TrustOp, auths: set<Account>, signer: Account, a: Account, k: nat)
    requires ChainOrdered(log + [op]) && signer in op.signers && signer in auths
    ensures Ranked(Rows(log + [op]))
    ensures op.action.Accredit? && op.action.account == a && op.action.method_ != Some("wot") ==>
              Active(Rows(log + [op]), auths, a)
    ensures op.action == Revoke(a, Some("sanction")) ==> !Active(Rows(log + [op]), auths, a)
    ensures op.action.UpdateParams? ==>
              var node, threshold := op.action.minAccreditationsForWot, Threshold(Rows(log + [op]), auths);
              && (node == Number(k as real) && k >= 1 ==> threshold == k)
              && (node.NotANumber? || node.value < 1.0 || k as real < node.value < (k + 1) as real ==> threshold == 3)
  {
    MembershipEqualsReplay(log + [op], auths, a);
    LastOpInReplay(log, op, auths, signer, a);
    if op.action.UpdateParams? {
      ThresholdIs(log, op, auths);
      ThresholdCases(op.action.minAccreditationsForWot, k);
    }
    hide Active, Threshold, Replay, ThresholdOf, Ranked, ChainOrdered;
  }

  lemma LastOpInReplay(log: TrustLog, op: TrustOp, auths: set<Account>, signer: Account, a: Account)
    requires signer in op.signers && signer in auths
    ensures op.action.Accredit? && op.action.account == a && op.action.method_ != Some("wot") ==>
              Member(Replay(NOBODY, log + [op], auths), a)
    ensures op.action == Revoke(a, Some("sanction")) ==> !Member(Replay(NOBODY, log + [op], auths), a)
  {
    ReplayOneMore(NOBODY, log, op, auths);
    hide Replay, HeldVouchers;
  }

  lemma ThresholdIs(log: TrustLog, op: TrustOp, auths: set<Account>)
    requires ChainOrdered(log + [op]) && op.action.UpdateParams? && exists s :: s in op.signers && s in auths
    ensures Ranked(Rows(log + [op]))
    ensures Threshold(Rows(log + [op]), auths) == ThresholdOf(op.action.minAccreditationsForWot)
  {
    ReplayOneMore(NOBODY, log, op, auths);
    ReplayCorresponds(log + [op], auths);
    hide Replay, Threshold, ThresholdOf, SameMethod, SameSanction, SameVouch, Ranked;
  }

  lemma ThresholdCases(node: Json, k: nat)
    ensures node == Number(k as real) && k >= 1 ==> ThresholdOf(node) == k
    ensures node.NotANumber? || node.value < 1.0 || k as real < node.value < (k + 1) as real ==> ThresholdOf(node) == 3
  {
  }

  /** Until an authority sets one, the threshold is 3. */
  lemma ThresholdBeforeParams(log: TrustLog, auths: set<Account>)
    requires ChainOrdered(log)
    requires forall o, s :: o in log && o.action.UpdateParams? && s in o.signers ==> s !in auths
    ensures Ranked(Rows(log)) && Threshold(Rows(log), auths) == 3
  {
    OrderedRowsAreRanked(log, Rows(log));
    assert ParamOps(Rows(log), auths) == {};
  }

  // Two states that differ at most in whether v vouches for w.
  predicate SameButVouch(s: Trust, t: Trust, v: Account, w: Account)
  {
    s.(vouches := s.vouches + {(v, w)}) == t.(vouches := t.vouches + {(v, w)})
  }

  lemma {:induction false} SameButVouchKept(s: Trust, t: Trust, log: TrustLog, auths: set<Account>,
                                             v: Account, w: Account)
    requires SameButVouch(s, t, v, w)
    ensures SameButVouch(Replay(s, log, auths), Replay(t, log, auths), v, w)
  {
    if log != [] {
      SameButVouchKept(s, t, log[..|log| - 1], auths, v, w);
      var s', t', op := Replay(s, log[..|log| - 1], auths), Replay(t, log[..|log| - 1], auths), Last(log);
      StepKeepsSameButVouch(s', t', op, auths, v, w);
    }
  }

  lemma StepKeepsSameButVouch(s: Trust, t: Trust, op: TrustOp, auths: set<Account>, v: Account, w: Account)
    requires SameButVouch(s, t, v, w)
    ensures SameButVouch(Step(s, op, auths), Step(t, op, auths), v, w)
  {
    var s', t' := Step(s, op, auths), Step(t, op, auths);
    forall e ensures e in s'.vouches + {(v, w)} <==> e in t'.vouches + {(v, w)} {
      assert e in s.vouches + {(v, w)} <==> e in t.vouches + {(v, w)};
    }
    assert s'.vouches + {(v, w)} == t'.vouches + {(v, w)};
  }

  lemma RevouchMerges(t: Trust, retract: TrustOp, mid: TrustLog, revouch: TrustOp, auths: set<Account>)
    requires retract.action.RetractVouch? && revouch.action.Vouch?
    requires revouch.action.voucher == retract.action.voucher && revouch.action.vouchee == retract.action.vouchee
    requires revouch.action.voucher in revouch.signers
    ensures Step(Replay(Step(t, retract, auths), mid, auths), revouch, auths)
         == Step(Replay(t, mid, auths), revouch, auths)
  {
    var v, w := retract.action.voucher, retract.action.vouchee;
    var u := Step(t, retract, auths);
    assert u.vouches + {(v, w)} == t.vouches + {(v, w)};
    SameButVouchKept(u, t, mid, auths, v, w);
  }

  lemma ReplayOneMore(t: Trust, log: TrustLog, op: TrustOp, auths: set<Account>)
    ensures Replay(t, log + [op], auths) == Step(Replay(t, log, auths), op, auths)
  {
    assert (log + [op])[..|log + [op]| - 1] == log;
  }

  /** Retracting a vouch and vouching again restores every standing, with no new
      accredit operation: the retraction leaves no trace once it is undone. */
  lemma RetractThenRevouchRestores(log: TrustLog, retract: TrustOp, mid: TrustLog, revouch: TrustOp,
                                   auths: set<Account>, a: Account)
    requires ChainOrdered(log + [retract] + mid + [revouch]) && ChainOrdered(log + mid + [revouch])
    requires retract.action.RetractVouch? && revouch.action.Vouch?
    requires revouch.action.voucher == retract.action.voucher && revouch.action.vouchee == retract.action.vouchee
    requires revouch.action.voucher in revouch.signers
    ensures Ranked(Rows(log + [retract] + mid + [revouch])) && Ranked(Rows(log + mid + [revouch]))
    ensures Active(Rows(log + [retract] + mid + [revouch]), auths, a)
       <==> Active(Rows(log + mid + [revouch]), auths, a)
  {
    ReplayOneMore(NOBODY, log, retract, auths);
    ReplaySplits(NOBODY, log + [retract], mid, auths);
    ReplayOneMore(NOBODY, log + [retract] + mid, revouch, auths);
    ReplaySplits(NOBODY, log, mid, auths);
    ReplayOneMore(NOBODY, log + mid, revouch, auths);
    RevouchMerges(Replay(NOBODY, log, auths), retract, mid, revouch, auths);
    MembershipEqualsReplay(log + [retract] + mid + [revouch], auths, a);
    MembershipEqualsReplay(log + mid + [revouch], auths, a);
  }

  // ---------------------------------------------------------------------
  // The single-account sanction read
  // ---------------------------------------------------------------------

  ghost predicate IsMaxBlock(rows: set<TrustOp>, block: nat)
  {
    (exists o :: o in rows && o.pos.block == block) && forall o :: o in rows ==> o.pos.block <= block
  }

  // `MAX(block_num)`, which is NULL over no rows.
  ghost function MaxBlock(rows: set<TrustOp>): (block: Option<nat>)
    requires Ranked(rows)
    ensures block.None? <==> rows == {}
    ensures block.Some? ==> IsMaxBlock(rows, block.value)
  {
    if rows == {} then None else Some(Latest(rows).pos.block)
  }

  datatype SanctionState = Sanctioned | NotSanctioned | HafUnavailable

  // `readSanctionState`, which compares blocks only.
  ghost function ReadSanctionState(haf: Option<set<TrustOp>>, auths: set<Account>, a: Account): SanctionState
    requires haf.Some? ==> Ranked(haf.value)
  {
    if haf.None? then HafUnavailable
    else
      var sanction := MaxBlock(Sanctions(haf.value, auths, a));
      var lift := MaxBlock(AuthorityAccredits(haf.value, auths, a));
      if sanction.None? then NotSanctioned
      else if lift.None? || sanction.value >= lift.value then Sanctioned
      else NotSanctioned
  }

  // The latest sanction and the latest authority accredit share a block, the
  // accredit second.
  ghost predicate LiftedInSameBlock(rows: set<TrustOp>, auths: set<Account>, a: Account)
    requires Ranked(rows)
  {
    var sanctions, lifts := Sanctions(rows, auths, a), AuthorityAccredits(rows, auths, a);
    && sanctions != {} && lifts != {}
    && Latest(sanctions).pos.block == Latest(lifts).pos.block
    && Latest(sanctions).pos.id < Latest(lifts).pos.id
  }

  /** The read never misses a suppressed account, and it departs from the query
      exactly when the account was sanctioned and then lifted in one block. */
  lemma SanctionReadAgreesIff(rows: set<TrustOp>, auths: set<Account>, a: Account)
    requires Ranked(rows)
    ensures Suppressed(rows, auths, a) ==> ReadSanctionState(Some(rows), auths, a) == Sanctioned
    ensures (ReadSanctionState(Some(rows), auths, a) == Sanctioned <==> Suppressed(rows, auths, a))
       <==> !LiftedInSameBlock(rows, auths, a)
  {
    var sanctions, lifts := Sanctions(rows, auths, a), AuthorityAccredits(rows, auths, a);
    if sanctions != {} && lifts != {} {
      var s, l := Latest(sanctions), Latest(lifts);
      assert IsMaxBlock(sanctions, s.pos.block) && IsMaxBlock(lifts, l.pos.block);
      assert s in rows && l in rows && s != l;
    }
  }

  // Sanctioned and lifted in block 5.
  function OneBlock(): TrustLog
  {
    [Op(Pos(5, 1), ["auth"], Revoke("ann", SANCTION)), Op(Pos(5, 2), ["auth"], Accredit("ann", None))]
  }

  /** Such a log, on which a member still reads as sanctioned. */
  lemma SanctionReadCanDiffer()
    ensures ChainOrdered(OneBlock()) && Ranked(Rows(OneBlock())) && LiftedInSameBlock(Rows(OneBlock()), {"auth"}, "ann")
    ensures Pinned(Rows(OneBlock()), {"auth"}, "ann")
            && ReadSanctionState(Some(Rows(OneBlock())), {"auth"}, "ann") == Sanctioned
  {
    var log, rows := OneBlock(), Rows(OneBlock());
    assert log[0] in rows && log[1] in rows && rows == {log[0], log[1]};
    assert log[0].signers[0] == "auth" && log[1].signers[0] == "auth";
    OrderedRowsAreRanked(log, rows);
    assert Sanctions(rows, {"auth"}, "ann") == {log[0]};
    assert AuthorityAccredits(rows, {"auth"}, "ann") == {log[1]};
    SanctionReadAgreesIff(rows, {"auth"}, "ann");
  }

  // ---------------------------------------------------------------------
  // Web-of-trust auto-accreditation
  // ---------------------------------------------------------------------

  // The rows `vouchStatusSelect` aggregates: one per live edge into `a` whose
  // voucher is pinned.
  ghost function VouchRows(rows: set<TrustOp>, auths: set<Account>, a: Account): set<(Account, Account)>
    requires Ranked(rows)
  {
    set o | o in rows && o.action.Vouch? && o.action.vouchee == a
            && VouchLive(rows, o.action.voucher, o.action.vouchee) && Pinned(rows, auths, o.action.voucher)
         :: (o.action.voucher, o.action.vouchee)
  }

  datatype VouchSnapshot = VouchSnapshot(vouchCount: nat, threshold: nat, eligible: bool, selfPinned: bool)

  ghost function GetVouchSnapshot(rows: set<TrustOp>, auths: set<Account>, a: Account): VouchSnapshot
    requires Ranked(rows)
  {
    var count := |VouchRows(rows, auths, a)|;
    VouchSnapshot(count, Threshold(rows, auths), count >= Threshold(rows, auths), Pinned(rows, auths, a))
  }

  /** The broadcast trigger counts what the membership query counts: a fresh
      snapshot is eligible exactly when the query's web-of-trust arm would hold. */
  lemma EligibilityIsTheWotArm(rows: set<TrustOp>, auths: set<Account>, a: Account)
    requires Ranked(rows)
    ensures GetVouchSnapshot(rows, auths, a).eligible
       <==> |Vouchers(rows, auths, a)| >= Threshold(rows, auths)
  {
    var edges, vouchers := VouchRows(rows, auths, a), Vouchers(rows, auths, a);
    forall v | v in vouchers ensures (v, a) in edges {
      var o :| o in rows && o.action.Vouch? && o.action.vouchee == a
               && VouchLive(rows, o.action.voucher, a) && Pinned(rows, auths, o.action.voucher)
               && o.action.voucher == v;
      assert (o.action.voucher, o.action.vouchee) == (v, a);
    }
    forall e | e in edges ensures e.1 == a && e.0 in vouchers {
    }
    InjectionFits(edges, vouchers, (e: (Account, Account)) => e.0);
    InjectionFits(vouchers, edges, v => (v, a));
  }

  function WotAccredit(admin: Account, vouchee: Account, pos: Pos): TrustOp
  {
    Op(pos, [admin], Accredit(vouchee, WOT))
  }

  // A first vouch-derived accredit with enough vouchers adds its account and
  // only ever raises other voucher counts.
  lemma EnrolledState(t: Trust, op: TrustOp, auths: set<Account>, vouchee: Account)
    requires op.action == Accredit(vouchee, WOT) && SignedByAny(op, auths)
    requires vouchee !in t.methods && vouchee !in t.sanctioned
    requires |HeldVouchers(t, vouchee)| >= t.threshold
    ensures var u := Step(t, op, auths); Member(u, vouchee) && forall b :: Member(t, b) ==> Member(u, b)
  {
    var u := Step(t, op, auths);
    forall b ensures |HeldVouchers(t, b)| <= |HeldVouchers(u, b)| {
      SubsetSize(HeldVouchers(t, b), HeldVouchers(u, b));
    }
  }

  /** The guards admit only an account that never held an accredit operation, and
      enrolling it makes it a member and costs nobody else membership. */
  lemma EnrolmentAddsAMember(log: TrustLog, auths: set<Account>, admin: Account, vouchee: Account, pos: Pos)
    requires ChainOrdered(log) && admin in auths && Ranked(Rows(log))
    requires forall i :: 0 <= i < |log| ==> Before(log[i].pos, pos)
    requires GetVouchSnapshot(Rows(log), auths, vouchee).eligible
    requires !Pinned(Rows(log), auths, vouchee) && !Suppressed(Rows(log), auths, vouchee)
    ensures Accredits(Rows(log), auths, vouchee) == {}
    ensures var after := log + [WotAccredit(admin, vouchee, pos)];
            && ChainOrdered(after) && Ranked(Rows(after)) && Active(Rows(after), auths, vouchee)
            && forall b :: Active(Rows(log), auths, b) ==> Active(Rows(after), auths, b)
  {
    var op := WotAccredit(admin, vouchee, pos);
    var after := log + [op];
    var t := Replay(NOBODY, log, auths);
    OrderedRowsAreRanked(after, Rows(after));
    assert admin in op.signers;
    ReplayOneMore(NOBODY, log, op, auths);
    ReplayCorresponds(log, auths);
    assert SameMethod(Rows(log), auths, t, vouchee) && SameSanction(Rows(log), auths, t, vouchee);
    EligibilityIsTheWotArm(Rows(log), auths, vouchee);
    CorrespondingVouchers(Rows(log), auths, t, vouchee);
    EnrolledState(t, op, auths, vouchee);
    MembershipEqualsReplay(after, auths, vouchee);
    forall b | Active(Rows(log), auths, b) ensures Active(Rows(after), auths, b) {
      MembershipEqualsReplay(log, auths, b);
      MembershipEqualsReplay(after, auths, b);
    }
  }

  datatype WotResult = Accredited | Skipped | RefusedSanctioned | ChainError | TimedOut
  datatype Broadcast = Landed | Rejected | Ambiguous(landed: bool)

  /** `broadcastWotAccreditation`, given what its two reads answered. Fresh reads
      are required; the broadcast appends to the chain when it lands. */
  method BroadcastWotAccreditation(log: TrustLog, auths: set<Account>, admin: Account, vouchee: Account,
                                   keyConfigured: bool, snapshot: Option<VouchSnapshot>, sanction: SanctionState,
                                   broadcast: Broadcast, seedThrows: bool, pos: Pos)
    returns (result: WotResult, after: TrustLog)
    requires ChainOrdered(log) && Ranked(Rows(log)) && admin in auths
    requires forall i :: 0 <= i < |log| ==> Before(log[i].pos, pos)
    requires snapshot.Some? ==> snapshot.value == GetVouchSnapshot(Rows(log), auths, vouchee)
    requires sanction.HafUnavailable? || sanction == ReadSanctionState(Some(Rows(log)), auths, vouchee)
    ensures ChainOrdered(after) && Ranked(Rows(after))
    ensures after != log ==>
              && Accredits(Rows(log), auths, vouchee) == {} && !Suppressed(Rows(log), auths, vouchee)
              && Active(Rows(after), auths, vouchee)
              && forall b :: Active(Rows(log), auths, b) ==> Active(Rows(after), auths, b)
    ensures result == Accredited ==> after == log + [Op(pos, [admin], Accredit(vouchee, Some("wot")))]
    ensures result == Skipped || result == RefusedSanctioned ==> after == log
    ensures result == ChainError ==>
      after == if broadcast.Landed? then log + [Op(pos, [admin], Accredit(vouchee, Some("wot")))] else log
    ensures result in {Accredited, ChainError, TimedOut}
       <==> && keyConfigured && snapshot.Some? && sanction == NotSanctioned
            && |Vouchers(Rows(log), auths, vouchee)| >= Threshold(Rows(log), auths)
            && !Pinned(Rows(log), auths, vouchee)
  {
    EligibilityIsTheWotArm(Rows(log), auths, vouchee);
    result, after := Skipped, log;
    if !keyConfigured || snapshot.None? || !snapshot.value.eligible {
      return;
    }
    if snapshot.value.selfPinned || sanction == HafUnavailable {
      return;
    }
    if sanction == Sanctioned {
      result := RefusedSanctioned;
      return;
    }
    SanctionReadAgreesIff(Rows(log), auths, vouchee);
    EnrolmentAddsAMember(log, auths, admin, vouchee, pos);
    match broadcast {
      case Landed =>
        // A score seed that throws is reported as a chain error, the operation landed.
        result := if seedThrows then ChainError else Accredited;
        after := log + [WotAccredit(admin, vouchee, pos)];
      case Rejected =>
        result := ChainError;
      case Ambiguous(landed) =>
        result := TimedOut;
        after := if landed then log + [WotAccredit(admin, vouchee, pos)] else log;
    }
  }
}
