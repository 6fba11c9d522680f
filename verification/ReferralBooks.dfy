/** Referral rewards: who is paid for whom, how often, and up to which cap. */
module ReferralBooks {
  import opened Tables
  import opened Sums
  import opened Calls
  import opened Runs

  function PaidTo(kind: PayKind, r: UserId): Payout -> int {
    (p: Payout) => if p.kind == kind && p.to == r then 1 else 0
  }

  function PaidFor(kind: PayKind, u: UserId): Payout -> int {
    (p: Payout) => if p.kind == kind && p.source == u then 1 else 0
  }

  /** A commission cap of zero or less means no cap; an invitation cap of zero means no cap. */
  function CommissionsDue(cap: int, claims: int): int { if cap > 0 then Min(claims, cap) else claims }

  function BonusesDue(cap: int, claims: int): int { if cap == 0 then claims else Max(Min(claims, cap), 0) }

  function PaidOnce(users: map<UserId, User>, u: UserId): int {
    if u in users && users[u].purchaseRewarded then 1 else 0
  }

  function GivenOnce(users: map<UserId, User>, u: UserId): int {
    if u in users && users[u].inviteGiven then 1 else 0
  }

  /** A referrer has been paid for the first purchases of those it brought, up to the cap, and for no
      others; and for nobody has anyone been paid twice, commission or bonus. */
  ghost predicate CommissionsCapped(cfg: Config, b: Books) {
    && (forall r :: Sum(b.paid, PaidTo(Commission, r)) == CommissionsDue(cfg.commissionCap, |Buyers(b.s.users, r)|))
    && (forall u :: Sum(b.paid, PaidFor(Commission, u)) <= PaidOnce(b.s.users, u))
    && (forall u :: Sum(b.paid, PaidFor(Bonus, u)) <= GivenOnce(b.s.users, u))
    && (forall u | u in b.s.users && b.s.users[u].referredBy.None? :: !b.s.users[u].purchaseRewarded)
  }

  /** A referrer has got a bonus for the first of those it brought, up to the cap, and for no others. */
  ghost predicate BonusesCapped(cfg: Config, b: Books) {
    && (forall r :: Sum(b.paid, PaidTo(Bonus, r)) == BonusesDue(cfg.inviteCap, |Invited(b.s.users, r)|))
    && (forall u | u in b.s.users && b.s.users[u].referredBy.None? :: !b.s.users[u].inviteGiven)
  }

  // ------------------------------------------------------------------ counting

  lemma SameSets(users: map<UserId, User>, users': map<UserId, User>, r: UserId)
    requires SameReferrals(users, users')
    ensures Buyers(users', r) == Buyers(users, r) && Invited(users', r) == Invited(users, r)
  {
    assert forall u :: u in Buyers(users', r) <==> u in Buyers(users, r);
    assert forall u :: u in Invited(users', r) <==> u in Invited(users, r);
  }

  /** u's first purchase is counted: one more buyer for its referrer, nothing else. */
  lemma MarkBuyerCounts(users: map<UserId, User>, users': map<UserId, User>, u: UserId, r: UserId)
    requires u in users && !users[u].purchaseRewarded
    requires SameReferrals(MarkBuyer(users, u), users')
    ensures |Buyers(users', r)| == |Buyers(users, r)| + (if users[u].referredBy == Some(r) then 1 else 0)
    ensures Invited(users', r) == Invited(users, r)
  {
    SameSets(MarkBuyer(users, u), users', r);
    if users[u].referredBy == Some(r) {
      assert Buyers(MarkBuyer(users, u), r) == Buyers(users, r) + {u};
    } else {
      assert Buyers(MarkBuyer(users, u), r) == Buyers(users, r);
    }
    assert Invited(MarkBuyer(users, u), r) == Invited(users, r);
  }

  /** u's invitation is counted: one more for the referrer on record, whoever is named. */
  lemma MarkInvitedCounts(users: map<UserId, User>, users': map<UserId, User>, u: UserId, r: UserId)
    requires u in users && !users[u].inviteGiven
    requires SameReferrals(MarkInvited(users, u), users')
    ensures |Invited(users', r)| == |Invited(users, r)| + (if users[u].referredBy == Some(r) then 1 else 0)
    ensures Buyers(users', r) == Buyers(users, r)
  {
    SameSets(MarkInvited(users, u), users', r);
    if users[u].referredBy == Some(r) {
      assert Invited(MarkInvited(users, u), r) == Invited(users, r) + {u};
    } else {
      assert Invited(MarkInvited(users, u), r) == Invited(users, r);
    }
    assert Buyers(MarkInvited(users, u), r) == Buyers(users, r);
  }

  lemma PaidAppend(paid: seq<Payout>, p: Payout, x: UserId)
    ensures forall k :: Sum(paid + [p], PaidTo(k, x))
                     == Sum(paid, PaidTo(k, x)) + (if p.kind == k && p.to == x then 1 else 0)
    ensures forall k :: Sum(paid + [p], PaidFor(k, x))
                     == Sum(paid, PaidFor(k, x)) + (if p.kind == k && p.source == x then 1 else 0)
  {
    forall k
      ensures Sum(paid + [p], PaidTo(k, x)) == Sum(paid, PaidTo(k, x)) + (if p.kind == k && p.to == x then 1 else 0)
      ensures Sum(paid + [p], PaidFor(k, x))
           == Sum(paid, PaidFor(k, x)) + (if p.kind == k && p.source == x then 1 else 0)
    {
      SumAppend(paid, p, PaidTo(k, x));
      SumAppend(paid, p, PaidFor(k, x));
    }
  }

  // ------------------------------------------------------------------ calls that pay nobody

  /** Nothing referrals depend on has moved: manual corrections are not referral payments. */
  ghost predicate ReferralsKept(b: Books, b': Books) {
    && SameReferrals(b.s.users, b'.s.users)
    && (b'.paid == b.paid || exists u, delta :: b'.paid == b.paid + [Payout(Manual, u, u, delta)])
  }

  lemma PaidKept(b: Books, b': Books, x: UserId)
    requires ReferralsKept(b, b')
    ensures forall k: PayKind | k != Manual ::
              && Sum(b'.paid, PaidTo(k, x)) == Sum(b.paid, PaidTo(k, x))
              && Sum(b'.paid, PaidFor(k, x)) == Sum(b.paid, PaidFor(k, x))
  {
    if b'.paid != b.paid {
      var u, delta :| b'.paid == b.paid + [Payout(Manual, u, u, delta)];
      PaidAppend(b.paid, Payout(Manual, u, u, delta), x);
    }
  }

  lemma KeptCapped(cfg: Config, b: Books, b': Books)
    requires ReferralsKept(b, b')
    ensures CommissionsCapped(cfg, b) ==> CommissionsCapped(cfg, b')
    ensures BonusesCapped(cfg, b) ==> BonusesCapped(cfg, b')
  {
    forall x
      ensures Buyers(b'.s.users, x) == Buyers(b.s.users, x) && Invited(b'.s.users, x) == Invited(b.s.users, x)
      ensures forall k: PayKind | k != Manual ::
                && Sum(b'.paid, PaidTo(k, x)) == Sum(b.paid, PaidTo(k, x))
                && Sum(b'.paid, PaidFor(k, x)) == Sum(b.paid, PaidFor(k, x))
      ensures PaidOnce(b'.s.users, x) == PaidOnce(b.s.users, x) && GivenOnce(b'.s.users, x) == GivenOnce(b.s.users, x)
    {
      SameSets(b.s.users, b'.s.users, x);
      PaidKept(b, b', x);
    }
  }

  /** A user without flags joins, or gets a referrer: nobody's counts move. */
  lemma JoinedCapped(cfg: Config, b: Books, b': Books, u: UserId, row: User)
    requires CommissionsCapped(cfg, b)
    requires b'.paid == b.paid && b'.s.users == b.s.users[u := row]
    requires u in b.s.users ==> b.s.users[u].referredBy.None? && row.inviteGiven == b.s.users[u].inviteGiven
    requires !row.purchaseRewarded && (u !in b.s.users ==> !row.inviteGiven)
    ensures CommissionsCapped(cfg, b')
    ensures BonusesCapped(cfg, b) ==> BonusesCapped(cfg, b')
  {
    forall r ensures Buyers(b'.s.users, r) == Buyers(b.s.users, r) {}
    forall r ensures BonusesCapped(cfg, b) ==> Invited(b'.s.users, r) == Invited(b.s.users, r) {}
    assert forall v :: PaidOnce(b'.s.users, v) == PaidOnce(b.s.users, v);
    assert forall v :: GivenOnce(b'.s.users, v) == GivenOnce(b.s.users, v);
  }

  // ------------------------------------------------------------------ commissions

  /** b' is b after u's first purchase was counted and, if granted, its referrer paid. */
  predicate Rewarded(cfg: Config, b: Books, b': Books, u: UserId, amount: int) {
    && u in b.s.users && !b.s.users[u].purchaseRewarded && b.s.users[u].referredBy.Some?
    && SameReferrals(MarkBuyer(b.s.users, u), b'.s.users)
    && var r := b.s.users[u].referredBy.value;
       b'.paid == if cfg.commissionCap <= 0 || |Buyers(b.s.users, r)| < cfg.commissionCap
                  then b.paid + [Payout(Commission, r, u, amount)] else b.paid
  }

  lemma RewardedTo(cfg: Config, b: Books, b': Books, u: UserId, amount: int, x: UserId)
    requires Rewarded(cfg, b, b', u, amount)
    requires Sum(b.paid, PaidTo(Commission, x)) == CommissionsDue(cfg.commissionCap, |Buyers(b.s.users, x)|)
    ensures Sum(b'.paid, PaidTo(Commission, x)) == CommissionsDue(cfg.commissionCap, |Buyers(b'.s.users, x)|)
    ensures Sum(b'.paid, PaidTo(Bonus, x)) == Sum(b.paid, PaidTo(Bonus, x))
    ensures Invited(b'.s.users, x) == Invited(b.s.users, x)
  {
    MarkBuyerCounts(b.s.users, b'.s.users, u, x);
    PaidAppend(b.paid, Payout(Commission, b.s.users[u].referredBy.value, u, amount), x);
  }

  lemma RewardedFor(cfg: Config, b: Books, b': Books, u: UserId, amount: int, x: UserId)
    requires Rewarded(cfg, b, b', u, amount)
    requires Sum(b.paid, PaidFor(Commission, x)) <= PaidOnce(b.s.users, x)
    requires Sum(b.paid, PaidFor(Bonus, x)) <= GivenOnce(b.s.users, x)
    ensures Sum(b'.paid, PaidFor(Commission, x)) <= PaidOnce(b'.s.users, x)
    ensures Sum(b'.paid, PaidFor(Bonus, x)) <= GivenOnce(b'.s.users, x)
  {
    PaidAppend(b.paid, Payout(Commission, b.s.users[u].referredBy.value, u, amount), x);
    assert x in b.s.users <==> x in b'.s.users;
  }

  lemma RewardedCapped(cfg: Config, b: Books, b': Books, u: UserId, amount: int)
    requires Rewarded(cfg, b, b', u, amount) && CommissionsCapped(cfg, b)
    ensures CommissionsCapped(cfg, b')
    ensures BonusesCapped(cfg, b) ==> BonusesCapped(cfg, b')
  {
    forall x
      ensures Sum(b'.paid, PaidTo(Commission, x)) == CommissionsDue(cfg.commissionCap, |Buyers(b'.s.users, x)|)
      ensures Sum(b'.paid, PaidTo(Bonus, x)) == Sum(b.paid, PaidTo(Bonus, x))
      ensures Invited(b'.s.users, x) == Invited(b.s.users, x)
      ensures Sum(b'.paid, PaidFor(Commission, x)) <= PaidOnce(b'.s.users, x)
      ensures Sum(b'.paid, PaidFor(Bonus, x)) <= GivenOnce(b'.s.users, x)
    {
      RewardedTo(cfg, b, b', u, amount, x);
      RewardedFor(cfg, b, b', u, amount, x);
    }
  }

  // ------------------------------------------------------------------ invitation bonuses

  /** A bonus call that counts: it marks u and may pay r, whoever u's referrer on record is. */
  predicate Counts(cfg: Config, s: Store, u: UserId, r: UserId) {
    && cfg.buttonOn && cfg.inviteOn && cfg.inviteAmount > 0
    && r in s.users && u in s.users && !s.users[u].inviteGiven
  }

  /** When a bonus call keeps the caps: it does not count, or names the referrer on record, or both the
      one on record and the one named have used up their caps. */
  predicate MeetsCaps(cfg: Config, s: Store, u: UserId, r: UserId) {
    Counts(cfg, s, u, r) ==>
      && s.users[u].referredBy.Some?
      && var q := s.users[u].referredBy.value;
         || q == r
         || (cfg.inviteCap != 0 && |Invited(s.users, q)| >= cfg.inviteCap && |Invited(s.users, r)| > cfg.inviteCap)
  }

  /** b' is b after u's invitation was counted and, if within the cap, r paid. */
  predicate Bonused(cfg: Config, b: Books, b': Books, u: UserId, r: UserId) {
    && u in b.s.users && !b.s.users[u].inviteGiven
    && SameReferrals(MarkInvited(b.s.users, u), b'.s.users)
    && b'.paid == if cfg.inviteCap == 0 || |Invited(MarkInvited(b.s.users, u), r)| <= cfg.inviteCap
                  then b.paid + [Payout(Bonus, r, u, cfg.inviteAmount)] else b.paid
  }

  lemma BonusedFor(cfg: Config, b: Books, b': Books, u: UserId, r: UserId, x: UserId)
    requires Bonused(cfg, b, b', u, r)
    requires Sum(b.paid, PaidFor(Commission, x)) <= PaidOnce(b.s.users, x)
    requires Sum(b.paid, PaidFor(Bonus, x)) <= GivenOnce(b.s.users, x)
    ensures Sum(b'.paid, PaidFor(Commission, x)) <= PaidOnce(b'.s.users, x)
    ensures Sum(b'.paid, PaidFor(Bonus, x)) <= GivenOnce(b'.s.users, x)
    ensures Sum(b'.paid, PaidTo(Commission, x)) == Sum(b.paid, PaidTo(Commission, x))
    ensures Buyers(b'.s.users, x) == Buyers(b.s.users, x)
  {
    PaidAppend(b.paid, Payout(Bonus, r, u, cfg.inviteAmount), x);
    MarkInvitedCounts(b.s.users, b'.s.users, u, x);
    assert x in b.s.users <==> x in b'.s.users;
  }

  /** Commissions, and that nobody is paid for twice, do not depend on who is named. */
  lemma BonusedCommissions(cfg: Config, b: Books, b': Books, u: UserId, r: UserId)
    requires Bonused(cfg, b, b', u, r) && CommissionsCapped(cfg, b)
    ensures CommissionsCapped(cfg, b')
  {
    forall x
      ensures Sum(b'.paid, PaidFor(Commission, x)) <= PaidOnce(b'.s.users, x)
      ensures Sum(b'.paid, PaidFor(Bonus, x)) <= GivenOnce(b'.s.users, x)
      ensures Sum(b'.paid, PaidTo(Commission, x)) == Sum(b.paid, PaidTo(Commission, x))
      ensures Buyers(b'.s.users, x) == Buyers(b.s.users, x)
    {
      BonusedFor(cfg, b, b', u, r, x);
    }
  }

  /** What a counted bonus call does to one user's account. */
  lemma BonusedTo(cfg: Config, b: Books, b': Books, u: UserId, r: UserId, x: UserId)
    requires Bonused(cfg, b, b', u, r)
    requires Sum(b.paid, PaidTo(Bonus, x)) == BonusesDue(cfg.inviteCap, |Invited(b.s.users, x)|)
    ensures var q, n := b.s.users[u].referredBy, |Invited(b.s.users, x)|;
            (Sum(b'.paid, PaidTo(Bonus, x)) == BonusesDue(cfg.inviteCap, |Invited(b'.s.users, x)|)) <==>
            ((x == r && q == Some(x)) || (x != r && q != Some(x))
             || (x == r && q != Some(x) && cfg.inviteCap != 0 && n > cfg.inviteCap)
             || (x != r && q == Some(x) && cfg.inviteCap != 0 && n >= cfg.inviteCap))
  {
    MarkInvitedCounts(b.s.users, b'.s.users, u, x);
    MarkInvitedCounts(b.s.users, MarkInvited(b.s.users, u), u, r);
    PaidAppend(b.paid, Payout(Bonus, r, u, cfg.inviteAmount), x);
  }

  lemma BonusedExact(cfg: Config, b: Books, b': Books, u: UserId, r: UserId)
    requires Counts(cfg, b.s, u, r) && Bonused(cfg, b, b', u, r) && BonusesCapped(cfg, b)
    ensures BonusesCapped(cfg, b') <==> MeetsCaps(cfg, b.s, u, r)
  {
    var q := b.s.users[u].referredBy;
    forall x
      ensures var n := |Invited(b.s.users, x)|;
              (Sum(b'.paid, PaidTo(Bonus, x)) == BonusesDue(cfg.inviteCap, |Invited(b'.s.users, x)|)) <==>
              ((x == r && q == Some(x)) || (x != r && q != Some(x))
               || (x == r && q != Some(x) && cfg.inviteCap != 0 && n > cfg.inviteCap)
               || (x != r && q == Some(x) && cfg.inviteCap != 0 && n >= cfg.inviteCap))
    {
      BonusedTo(cfg, b, b', u, r, x);
    }
    assert b'.s.users[u].inviteGiven && b'.s.users[u].referredBy == q;
  }

  // ------------------------------------------------------------------ one call

  lemma OtherCallKept(cfg: Config, b: Books, call: Call)
    requires !WritesReferrals(call)
    ensures ReferralsKept(b, Record(cfg, b, call))
  {
    hide DoOrders, DoPoints, DoTopUps, DoShop;
    if WritesOrders(call) { OrdersFrame(cfg, b.s, call); } else { Frames(cfg, b.s, call); }
  }

  lemma CreditKeeps(users: map<UserId, User>, r: UserId, delta: int)
    ensures SameReferrals(users, Credit(users, r, delta))
  {
  }

  lemma RewardCall(cfg: Config, b: Books, b': Books, u: UserId, paid: int)
    requires var (s', reply) := DoRewardReferrer(cfg, b.s, u, paid);
             b'.s == s' && b'.paid == Noted(b.paid, b.s, RewardReferrer(u, paid), reply)
    ensures ReferralsKept(b, b') || exists amount :: Rewarded(cfg, b, b', u, amount)
  {
    hide Credit;
    if || !cfg.buttonOn || !cfg.commissionOn
       || u !in b.s.users || b.s.users[u].referredBy.None? || b.s.users[u].purchaseRewarded {
      assert ReferralsKept(b, b');
    } else {
      var marked, reward := MarkBuyer(b.s.users, u), paid * cfg.percent / 100;
      CreditKeeps(marked, b.s.users[u].referredBy.value, reward);
      assert SameReferrals(marked, marked);
      assert Rewarded(cfg, b, b', u, reward);
    }
  }

  lemma InviteCall(cfg: Config, b: Books, b': Books, u: UserId, r: UserId)
    requires var (s', reply) := DoInviteReward(cfg, b.s, u, r);
             b'.s == s' && b'.paid == Noted(b.paid, b.s, InviteReward(u, r), reply)
    ensures if Counts(cfg, b.s, u, r) then Bonused(cfg, b, b', u, r) else b'.s.users == b.s.users && b'.paid == b.paid
  {
  }

  /** Naming a referrer for the bonus keeps the caps if and only if MeetsCaps says so. */
  lemma InviteKeepsCapsExact(cfg: Config, b: Books, u: UserId, r: UserId)
    requires BonusesCapped(cfg, b)
    ensures BonusesCapped(cfg, Record(cfg, b, InviteReward(u, r))) <==> MeetsCaps(cfg, b.s, u, r)
  {
    var b' := Record(cfg, b, InviteReward(u, r));
    InviteCall(cfg, b, b', u, r);
    if Counts(cfg, b.s, u, r) { BonusedExact(cfg, b, b', u, r); } else { KeptCapped(cfg, b, b'); }
  }

  /** Every call keeps the commissions capped, and every call but a bonus with the wrong name keeps the
      bonuses capped. */
  lemma StepCapped(cfg: Config, b: Books, call: Call)
    requires CommissionsCapped(cfg, b)
    ensures CommissionsCapped(cfg, Record(cfg, b, call))
    ensures BonusesCapped(cfg, b) && (call.InviteReward? ==> MeetsCaps(cfg, b.s, call.user, call.referrer))
            ==> BonusesCapped(cfg, Record(cfg, b, call))
  {
    if WritesReferrals(call) {
      ReferralCallCapped(cfg, b, call);
    } else {
      OtherCallKept(cfg, b, call);
      KeptCapped(cfg, b, Record(cfg, b, call));
    }
  }

  lemma ReferralCallCapped(cfg: Config, b: Books, call: Call)
    requires CommissionsCapped(cfg, b) && WritesReferrals(call)
    ensures CommissionsCapped(cfg, Record(cfg, b, call))
    ensures BonusesCapped(cfg, b) && (call.InviteReward? ==> MeetsCaps(cfg, b.s, call.user, call.referrer))
            ==> BonusesCapped(cfg, Record(cfg, b, call))
  {
    var b' := Record(cfg, b, call);
    match call
    case RewardReferrer(u, paid) =>
      RewardCall(cfg, b, b', u, paid);
      if ReferralsKept(b, b') {
        KeptCapped(cfg, b, b');
      } else {
        var amount :| Rewarded(cfg, b, b', u, amount);
        RewardedCapped(cfg, b, b', u, amount);
      }
    case InviteReward(u, r) =>
      InviteCall(cfg, b, b', u, r);
      if Counts(cfg, b.s, u, r) { BonusedCommissions(cfg, b, b', u, r); } else { KeptCapped(cfg, b, b'); }
      if BonusesCapped(cfg, b) { InviteKeepsCapsExact(cfg, b, u, r); }
    case AddUser(u) => if u !in b.s.users { JoinedCapped(cfg, b, b', u, User(0, None, false, false)); }
    case SetReferrer(u, r) => if b'.s.users != b.s.users { JoinedCapped(cfg, b, b', u, b'.s.users[u]); }
  }

  // ------------------------------------------------------------------ over runs

  lemma OpeningCapped(cfg: Config, b: Books)
    requires Opening(b)
    ensures CommissionsCapped(cfg, b) && BonusesCapped(cfg, b)
  {
    assert forall u | u in b.s.users :: b.s.users[u].referredBy == None;
    forall r ensures Buyers(b.s.users, r) == {} && Invited(b.s.users, r) == {} {
      assert forall u :: u !in Buyers(b.s.users, r) && u !in Invited(b.s.users, r);
    }
  }

  /** In every run, whoever calls: the commissions a referrer got are the first claims up to the cap, and
      for nobody is a commission or a bonus paid twice. */
  lemma {:induction false} CommissionCaps(cfg: Config, b: Books, calls: seq<Call>)
    requires Opening(b)
    ensures CommissionsCapped(cfg, Run(cfg, b, calls))
  {
    if calls == [] {
      OpeningCapped(cfg, b);
    } else {
      var n := |calls| - 1;
      CommissionCaps(cfg, b, calls[..n]);
      StepCapped(cfg, Run(cfg, b, calls[..n]), calls[n]);
    }
  }

  /** Every bonus call of the run keeps the caps. */
  predicate MeetsCapsRun(cfg: Config, b: Books, calls: seq<Call>) {
    || calls == []
    || (var n := |calls| - 1;
        var call := calls[n];
        && MeetsCapsRun(cfg, b, calls[..n])
        && (call.InviteReward? ==> MeetsCaps(cfg, Run(cfg, b, calls[..n]).s, call.user, call.referrer)))
  }

  /** In every such run the invitation bonuses of a referrer are the first claims up to the cap. */
  lemma {:induction false} ReferralCaps(cfg: Config, b: Books, calls: seq<Call>)
    requires Opening(b) && MeetsCapsRun(cfg, b, calls)
    ensures BonusesCapped(cfg, Run(cfg, b, calls))
  {
    if calls == [] {
      OpeningCapped(cfg, b);
    } else {
      var n := |calls| - 1;
      ReferralCaps(cfg, b, calls[..n]);
      CommissionCaps(cfg, b, calls[..n]);
      StepCapped(cfg, Run(cfg, b, calls[..n]), calls[n]);
    }
  }

  // ------------------------------------------------------------------ who brought whom

  /** Once a user has a referrer, or a flag, nothing takes it away. */
  predicate ReferralStays(users: map<UserId, User>, users': map<UserId, User>, u: UserId) {
    u in users && users[u].referredBy.Some? ==>
      && u in users' && users'[u].referredBy == users[u].referredBy
      && (users[u].purchaseRewarded ==> users'[u].purchaseRewarded)
      && (users[u].inviteGiven ==> users'[u].inviteGiven)
  }

  lemma RewardStays(cfg: Config, s: Store, v: UserId, paid: int, u: UserId)
    ensures ReferralStays(s.users, DoRewardReferrer(cfg, s, v, paid).0.users, u)
  {
  }

  lemma InviteStays(cfg: Config, s: Store, v: UserId, r: UserId, u: UserId)
    ensures ReferralStays(s.users, DoInviteReward(cfg, s, v, r).0.users, u)
  {
  }

  lemma JoinStays(s: Store, v: UserId, r: UserId, u: UserId)
    ensures ReferralStays(s.users, DoSetReferrer(s, v, r).0.users, u)
    ensures ReferralStays(s.users, s.users, u)
    ensures v !in s.users ==> ReferralStays(s.users, s.users[v := User(0, None, false, false)], u)
  {
  }

  lemma ReferralCallStays(cfg: Config, s: Store, call: Call, u: UserId)
    requires WritesReferrals(call)
    ensures ReferralStays(s.users, DoReferrals(cfg, s, call).0.users, u)
  {
    hide DoRewardReferrer, DoInviteReward, DoSetReferrer, ReferralStays;
    match call
    case RewardReferrer(v, paid) => RewardStays(cfg, s, v, paid, u);
    case InviteReward(v, r) => InviteStays(cfg, s, v, r, u);
    case SetReferrer(v, r) => JoinStays(s, v, r, u);
    case AddUser(v) => JoinStays(s, v, v, u);
  }

  lemma CallReferralStays(cfg: Config, s: Store, call: Call, u: UserId)
    ensures ReferralStays(s.users, Do(cfg, s, call).0.users, u)
  {
    hide DoOrders, DoPoints, DoTopUps, DoShop, DoReferrals;
    if WritesReferrals(call) {
      ReferralCallStays(cfg, s, call, u);
    } else if WritesOrders(call) {
      OrdersFrame(cfg, s, call);
    } else {
      Frames(cfg, s, call);
    }
  }

  lemma {:induction false} ReferrerOverRuns(cfg: Config, b: Books, calls: seq<Call>, u: UserId)
    ensures ReferralStays(b.s.users, Run(cfg, b, calls).s.users, u)
  {
    if calls != [] {
      var n := |calls| - 1;
      ReferrerOverRuns(cfg, b, calls[..n], u);
      CallReferralStays(cfg, Run(cfg, b, calls[..n]).s, calls[n], u);
    }
  }

  /** The first referrer named for a registered user stays for ever: naming one works exactly for two
      different registered users of whom the first has none, and after any run nothing else is named. */
  lemma ReferrerForEver(cfg: Config, b: Books, calls: seq<Call>, u: UserId, r: UserId, other: UserId)
    ensures var (s', reply) := DoSetReferrer(b.s, u, r);
            && (reply == Done <==> u != r && u in b.s.users && r in b.s.users && b.s.users[u].referredBy.None?)
            && (reply != Done ==> s' == b.s)
            && (reply == Done ==>
                  var later := Run(cfg, b.(s := s'), calls).s;
                  && u in later.users && later.users[u].referredBy == Some(r)
                  && DoSetReferrer(later, u, other) == (later, Refused))
  {
    ReferrerOverRuns(cfg, b.(s := DoSetReferrer(b.s, u, r).0), calls, u);
  }
}
