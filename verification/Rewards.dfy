/** What is paid for bringing users: to whom, when and how much. */
module Rewards {
  import opened Tables
  import opened Calls
  import opened Runs
  import opened ReferralBooks

  // ------------------------------------------------------------------ one call

  /** A first purchase of u is worth a commission: the settings are on, and u was brought and not counted. */
  predicate FirstPurchase(cfg: Config, s: Store, u: UserId) {
    cfg.buttonOn && cfg.commissionOn && u in s.users && s.users[u].referredBy.Some? && !s.users[u].purchaseRewarded
  }

  /** The cap leaves room for one more of those the same referrer brought. */
  predicate Room(cfg: Config, users: map<UserId, User>, referrer: Option<UserId>) {
    || cfg.commissionCap <= 0
    || |set x | x in users && users[x].referredBy == referrer && users[x].purchaseRewarded| < cfg.commissionCap
  }

  /** c is percent of paid, rounded down. */
  predicate PercentOf(c: int, paid: int, percent: int) { 100 * c <= paid * percent < 100 * (c + 1) }

  lemma PercentBetween(c: int, paid: int, percent: int)
    requires PercentOf(c, paid, percent) && 0 <= paid && 0 <= percent <= 100
    ensures 0 <= c <= paid
  {
    assert paid * percent >= 0;
    assert paid * (100 - percent) >= 0;
    assert paid * percent + paid * (100 - percent) == paid * 100;
  }

  /** A commission is paid to the one who brought u, for the first purchase, as long as the cap leaves room,
      and is the set percentage of what was paid. */
  lemma CommissionTold(cfg: Config, s: Store, u: UserId, paid: int)
    ensures var reply := DoRewardReferrer(cfg, s, u, paid).1;
            && (reply.Paid? <==> FirstPurchase(cfg, s, u) && Room(cfg, s.users, s.users[u].referredBy))
            && (reply.Paid? ==> s.users[u].referredBy == Some(reply.to) && PercentOf(reply.amount, paid, cfg.percent))
            && (reply.Paid? && 0 <= paid && 0 <= cfg.percent <= 100 ==> 0 <= reply.amount <= paid)
  {
    if FirstPurchase(cfg, s, u) {
      assert Buyers(s.users, s.users[u].referredBy.value)
          == set x | x in s.users && s.users[x].referredBy == s.users[u].referredBy && s.users[x].purchaseRewarded;
      var reply := DoRewardReferrer(cfg, s, u, paid).1;
      if reply.Paid? && 0 <= paid && 0 <= cfg.percent <= 100 { PercentBetween(reply.amount, paid, cfg.percent); }
    }
  }

  /** It is credited in full, and the purchase is counted whether or not the cap left room. */
  lemma CommissionCredited(cfg: Config, s: Store, u: UserId, paid: int, v: UserId)
    requires v in s.users && s.users[v].credit >= 0
    ensures var (s', reply) := DoRewardReferrer(cfg, s, u, paid);
            && s' == s.(users := s'.users) && s'.users.Keys == s.users.Keys
            && s'.users[v].credit
               == s.users[v].credit + (if reply.Paid? && reply.to == v then Max(reply.amount, 0) else 0)
            && s'.users[v].purchaseRewarded == (s.users[v].purchaseRewarded || (v == u && FirstPurchase(cfg, s, u)))
            && s'.users[v].referredBy == s.users[v].referredBy && s'.users[v].inviteGiven == s.users[v].inviteGiven
  {
    hide Credit;
    if FirstPurchase(cfg, s, u) {
      CreditTold(MarkBuyer(s.users, u), s.users[u].referredBy.value, paid * cfg.percent / 100, v);
    }
  }

  lemma CreditTold(users: map<UserId, User>, r: UserId, delta: int, v: UserId)
    requires v in users && users[v].credit >= 0
    ensures var users' := Credit(users, r, delta);
            && users'.Keys == users.Keys
            && users'[v] == users[v].(credit := if v == r then Max(users[v].credit + delta, 0) else users[v].credit)
  {
  }

  /** The invitation bonus is the set amount, for a user not counted yet, to the referrer that is named, as
      long as those brought by it and counted, this one included, are within the cap. */
  lemma BonusTold(cfg: Config, s: Store, u: UserId, r: UserId)
    ensures var reply := DoInviteReward(cfg, s, u, r).1;
            && (reply.Paid? <==>
                  && cfg.buttonOn && cfg.inviteOn && cfg.inviteAmount > 0
                  && r in s.users && u in s.users && !s.users[u].inviteGiven
                  && (cfg.inviteCap == 0
                      || |set x | x in s.users && s.users[x].referredBy == Some(r)
                                  && (x == u || s.users[x].inviteGiven)| <= cfg.inviteCap))
            && (reply.Paid? ==> reply.to == r && reply.amount == cfg.inviteAmount)
  {
    if u in s.users {
      assert Invited(MarkInvited(s.users, u), r)
          == set x | x in s.users && s.users[x].referredBy == Some(r) && (x == u || s.users[x].inviteGiven);
    }
  }

  // ------------------------------------------------------------------ over runs

  /** The call that a payout answers. */
  ghost predicate Answers(cfg: Config, s: Store, calls: seq<Call>, p: Payout) {
    match p.kind
    case Commission =>
      && p.source in s.users && s.users[p.source].referredBy == Some(p.to)
      && exists k | 0 <= k < |calls| ::
           calls[k].RewardReferrer? && calls[k].user == p.source && PercentOf(p.amount, calls[k].paid, cfg.percent)
    case Bonus => p.amount == cfg.inviteAmount && InviteReward(p.source, p.to) in calls
    case Manual => AdjustCredit(p.to, p.amount) in calls
  }

  lemma AnswersLater(cfg: Config, s: Store, s': Store, calls: seq<Call>, call: Call, p: Payout)
    requires Answers(cfg, s, calls, p) && ReferralStays(s.users, s'.users, p.source)
    ensures Answers(cfg, s', calls + [call], p)
  {
    var more := calls + [call];
    if p.kind == Commission {
      var k :| 0 <= k < |calls| && calls[k].RewardReferrer? && calls[k].user == p.source
               && PercentOf(p.amount, calls[k].paid, cfg.percent);
      assert more[k] == calls[k];
    }
  }

  lemma NewPayoutAnswers(cfg: Config, b: Books, call: Call, calls: seq<Call>, p: Payout)
    requires p in Noted(b.paid, b.s, call, Do(cfg, b.s, call).1) && p !in b.paid
    requires calls != [] && calls[|calls| - 1] == call
    ensures Answers(cfg, Do(cfg, b.s, call).0, calls, p)
  {
    hide DoRewardReferrer, DoInviteReward, PercentOf;
    assert call in calls;
    if call.RewardReferrer? {
      CommissionTold(cfg, b.s, call.user, call.paid);
      CallReferralStays(cfg, b.s, call, call.user);
      assert calls[|calls| - 1].user == p.source;
    } else if call.InviteReward? {
      BonusTold(cfg, b.s, call.user, call.referrer);
    }
  }

  lemma RunPays(cfg: Config, b: Books, calls: seq<Call>)
    requires calls != []
    ensures var n := |calls| - 1;
            var before, e := Run(cfg, b, calls[..n]), Run(cfg, b, calls);
            && e.paid == Noted(before.paid, before.s, calls[n], Do(cfg, before.s, calls[n]).1)
            && e.s == Do(cfg, before.s, calls[n]).0
  {
    hide Do, Noted;
  }

  /** In every run, every commission is the set percentage, rounded down, of the amount that the purchase
      call named, and went to the one on record as having brought the buyer; every bonus is the set
      amount, and every correction what was asked. */
  lemma {:induction false} PayoutsTold(cfg: Config, b: Books, calls: seq<Call>)
    requires Opening(b)
    ensures var e := Run(cfg, b, calls); forall p | p in e.paid :: Answers(cfg, e.s, calls, p)
  {
    hide Do, Answers, ReferralStays, Noted;
    if calls != [] {
      var n := |calls| - 1;
      var before, e := Run(cfg, b, calls[..n]), Run(cfg, b, calls);
      PayoutsTold(cfg, b, calls[..n]);
      assert calls == calls[..n] + [calls[n]];
      RunPays(cfg, b, calls);
      forall p | p in e.paid ensures Answers(cfg, e.s, calls, p) {
        if p in before.paid {
          CallReferralStays(cfg, before.s, calls[n], p.source);
          AnswersLater(cfg, before.s, e.s, calls[..n], calls[n], p);
        } else {
          NewPayoutAnswers(cfg, before, calls[n], calls, p);
        }
      }
    }
  }
}
