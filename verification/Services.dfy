/** The service layer as it runs: loyalty.py, services/orders.py and the handlers that decide orders,
    written over the database methods.  With nobody else about, each is one of the programs of module
    Programs run to its end, so what is proved of the interleaved programs is about this code. */
module Services {
  import opened Tables
  import opened Calls
  import opened Loyalty
  import opened Programs
  import opened Databases
  import CheckoutBooks

  // ------------------------------------------------------------------ a program on its own

  /** How many steps a program has left at most. */
  function Rank(p: Program): nat {
    match p
    case ApproveRead(_, _) => 6
    case ApproveDecide(_) => 5
    case AwardRead(_) => 4
    case AwardEnsure(_, _, _, _) => 3
    case AwardWrite(_, _, _, _, _) => 2
    case PayCommission(_, _) => 1
    case RejectRead(_, _) => 4
    case RejectDecide(_, _) => 3
    case RefundFind(_) => 2
    case RefundWrite(_, _, _) => 1
    case RedeemRead(_, _, _) => 2
    case RedeemWrite(_, _, _, _) => 1
    case AdjustRead(_, _) => 2
    case AdjustWrite(_, _, _) => 1
    case CouponCheck(_) => 4
    case CouponClaim(_) => 3
    case InviteRead(_, _) => 4
    case InviteSet(_, _) => 3
    case InvitePoints(_, _) => 2
    case InviteBonus(_, _) => 1
    case ShipRead(_, _) => 2
    case ShipWrite(_, _) => 1
    case CouponRead(_, _, _, _) => 2
    case CouponPlace(_, _, _, _, _) => 1
    case Finished => 0
  }

  lemma RankFalls(cfg: Config, s: Store, p: Program, reply: Reply)
    ensures p != Finished ==> Rank(After(cfg, s, p, reply)) < Rank(p)
  {
  }

  /** The store after a program has run to its end without interference. */
  function Alone(cfg: Config, s: Store, p: Program): Store
    decreases Rank(p)
  {
    if p == Finished then s
    else
      var (s', reply) := Effect(cfg, s, CallBy(cfg, p));
      RankFalls(cfg, s', p, reply);
      Alone(cfg, s', After(cfg, s', p, reply))
  }

  /** One step of a program on its own, and no further. */
  lemma AloneStep(cfg: Config, s: Store, p: Program, s': Store, reply: Reply)
    requires p != Finished && Effect(cfg, s, CallBy(cfg, p)) == (s', reply)
    ensures Alone(cfg, s, p) == Alone(cfg, s', After(cfg, s', p, reply))
  {
  }

  lemma EnsureEffect(cfg: Config, s: Store, u: UserId)
    ensures Effect(cfg, s, Some(EnsurePoints(u))) == DoEnsurePoints(s, u)
    ensures DoEnsurePoints(s, u).1 == if u in s.users then Done else Violation
    ensures u !in s.users ==> DoEnsurePoints(s, u).0 == s
  {
  }

  lemma NoEffect(cfg: Config, s: Store)
    ensures Effect(cfg, s, None) == (s, Refused)
  {
  }

  lemma AloneFinished(cfg: Config, s: Store)
    ensures Alone(cfg, s, Finished) == s
  {
  }

  function Advances(a: nat, n: nat): seq<Event> { seq(n, _ => Advance(a)) }

  lemma AdvanceOnce(cfg: Config, m: System, a: nat)
    requires a in m.actors
    ensures var (s', reply) := Effect(cfg, m.s, CallBy(cfg, m.actors[a]));
            Step(cfg, m, Advance(a)) == System(s', m.actors[a := After(cfg, s', m.actors[a], reply)])
  {
  }

  lemma {:induction false} StepsFirst(cfg: Config, m: System, e: Event, rest: seq<Event>)
    ensures Steps(cfg, m, [e] + rest) == Steps(cfg, Step(cfg, m, e), rest)
  {
    if rest == [] {
      assert [e] + rest == [e] && [e][..0] == [];
    } else {
      var n := |rest| - 1;
      assert ([e] + rest)[..n + 1] == [e] + rest[..n];
      StepsFirst(cfg, m, e, rest[..n]);
    }
  }

  /** An actor that is the only one to move reaches the store its program reaches alone. */
  lemma {:induction false} AloneIsSteps(cfg: Config, m: System, a: nat, n: nat)
    requires a in m.actors && Rank(m.actors[a]) <= n
    ensures Steps(cfg, m, Advances(a, n)).s == Alone(cfg, m.s, m.actors[a])
    decreases n
  {
    hide Effect, CallBy, After, Step, Alone, Rank;
    RankZero(m.actors[a]);
    if n == 0 {
      assert Advances(a, 0) == [];
      AloneFinished(cfg, m.s);
    } else {
      assert Advances(a, n) == [Advance(a)] + Advances(a, n - 1);
      StepsFirst(cfg, m, Advance(a), Advances(a, n - 1));
      AdvanceOnce(cfg, m, a);
      var (s', reply) := Effect(cfg, m.s, CallBy(cfg, m.actors[a]));
      RankFalls(cfg, s', m.actors[a], reply);
      if m.actors[a] == Finished {
        FinishedStays(cfg, m.s);
      } else {
        AloneStep(cfg, m.s, m.actors[a], s', reply);
      }
      AloneIsSteps(cfg, Step(cfg, m, Advance(a)), a, n - 1);
    }
  }

  lemma RankZero(p: Program)
    ensures Rank(p) <= 0 <==> p == Finished
  {
  }

  lemma FinishedStays(cfg: Config, s: Store)
    ensures Effect(cfg, s, CallBy(cfg, Finished)) == (s, Refused) && After(cfg, s, Finished, Refused) == Finished
  {
  }

  // ------------------------------------------------------------------ purchases

  /** award_purchase (loyalty.py:158-205): the store it leaves, the points it reports, and whether an
      error other than a shortage left it. */
  function Award(cfg: Config, s: Store, o: OrderId): (Store, int, bool) {
    if !(0 <= o < |s.orders| && s.orders[o].status == Approved) || !cfg.loyaltyOn then (s, 0, false)
    else
      var u := s.orders[o].user;
      var (s1, ensured) := DoEnsurePoints(s, u);
      var earned := PointsOf(s1.points, u).earned;
      var points := PurchasePoints(AwardBase(s.orders[o]), earned, cfg.perToman, cfg.maxPerOrder, cfg.tiers);
      if !ensured.Done? then (s1, 0, true)
      else if points <= 0 then (s1, 0, false)
      else
        var tier := TierId(earned + points, cfg.tiers);
        var (s2, entered) := DoMutate(s1, u, Purchase, points, Some(tier), Some(PurchaseKey(o)));
        (s2, if entered.Entered? then points else 0, entered.Violation?)
  }

  method AwardPurchase(db: Database, cfg: Config, o: OrderId) returns (points: int, raised: bool)
    modifies db
    ensures (db.View(), points, raised) == Award(cfg, old(db.View()), o)
  {
    if !(0 <= o < |db.orders| && db.orders[o].status == Approved) { return 0, false; }
    if !cfg.loyaltyOn { return 0, false; }
    var order := db.orders[o];
    var paid := Max(if order.finalPrice != 0 then order.finalPrice - order.shipping else order.basePrice, 0);
    var ok := db.EnsurePoints(order.user);
    if !ok { return 0, true; }
    var earned := db.points[order.user].earned;
    points := PurchasePoints(paid, earned, cfg.perToman, cfg.maxPerOrder, cfg.tiers);
    if points <= 0 { return 0, false; }
    var tierAfter := TierId(earned + points, cfg.tiers);
    var reply := db.ApplyLoyaltyMutation(order.user, Purchase, points, Some(tierAfter), Some(PurchaseKey(o)));
    if reply.Violation? { return 0, true; }
    if !reply.Entered? { return 0, false; }
    return points, false;
  }

  /** The points reported are the ones entered: none without a row, and at most once for an order. */
  lemma AwardReportsRow(cfg: Config, s: Store, o: OrderId)
    ensures var (s', points, raised) := Award(cfg, s, o);
            && points >= 0
            && (points == 0 ==> s'.ledger == s.ledger)
            && (points > 0 ==>
                  && 0 <= o < |s.orders| && s.orders[o].status == Approved && !HasKey(s.ledger, PurchaseKey(o))
                  && s'.ledger == s.ledger + [s'.ledger[|s.ledger|]]
                  && s'.ledger[|s.ledger|].user == s.orders[o].user && s'.ledger[|s.ledger|].amount == points
                  && s'.ledger[|s.ledger|].key == Some(PurchaseKey(o)))
  {
  }

  /** What an approved order earns: on the goods left to pay for, or on the goods if nothing is left to pay;
      at the rate of the step its buyer stands on, rounded down; and not more than the cap. */
  lemma AwardTold(cfg: Config, s: Store, o: OrderId, i: int)
    requires 0 <= o < |s.orders| && s.orders[o].status == Approved && s.orders[o].user in s.users
    requires cfg.loyaltyOn && cfg.perToman > 0 && !HasKey(s.ledger, PurchaseKey(o))
    requires Ladder(cfg.tiers) && OnStep(PointsOf(s.points, s.orders[o].user).earned, cfg.tiers, i)
    requires cfg.tiers[i].mult >= 0 && PointsOf(s.points, s.orders[o].user).current >= 0
    ensures var order, (s', points, raised) := s.orders[o], Award(cfg, s, o);
            var left := if order.finalPrice != 0 then order.finalPrice - order.shipping else order.basePrice;
            && !raised
            && (left <= 0 ==> points == 0)
            && (left > 0 && (cfg.maxPerOrder <= 0 || points < cfg.maxPerOrder) ==>
                  Floors(points, left * cfg.tiers[i].mult, cfg.perToman * 100))
            && (cfg.maxPerOrder > 0 ==> points <= cfg.maxPerOrder)
            && (left > 0 && points == cfg.maxPerOrder > 0 ==>
                  points * (cfg.perToman * 100) <= left * cfg.tiers[i].mult)
  {
    hide PurchasePoints, TierId, HasKey, Ladder, Floors;
    var order := s.orders[o];
    var base, earned := AwardBase(order), PointsOf(s.points, order.user).earned;
    AwardPoints(cfg, s, o);
    PointsCapped(base, earned, cfg.perToman, cfg.maxPerOrder, cfg.tiers);
    if base > 0 {
      PointsAtStep(base, earned, cfg.perToman, cfg.tiers, i);
      CappedBelow(PurchasePoints(base, earned, cfg.perToman, 0, cfg.tiers), cfg.maxPerOrder, base * cfg.tiers[i].mult,
                  cfg.perToman * 100);
    }
  }

  lemma AwardPoints(cfg: Config, s: Store, o: OrderId)
    requires 0 <= o < |s.orders| && s.orders[o].status == Approved && s.orders[o].user in s.users
    requires cfg.loyaltyOn && !HasKey(s.ledger, PurchaseKey(o)) && PointsOf(s.points, s.orders[o].user).current >= 0
    ensures var earned := PointsOf(s.points, s.orders[o].user).earned;
            var points := PurchasePoints(AwardBase(s.orders[o]), earned, cfg.perToman, cfg.maxPerOrder, cfg.tiers);
            points >= 0 && Award(cfg, s, o).1 == points && !Award(cfg, s, o).2
  {
  }

  lemma AwardAlone(cfg: Config, s: Store, o: OrderId)
    requires 0 <= o < |s.orders| && s.orders[o].status == Approved
    ensures var (s', _, raised) := Award(cfg, s, o);
            Alone(cfg, s, AwardRead(o)) ==
            (if raised then s' else Alone(cfg, s', CommissionOn(s.orders[o].user, PaidAmount(s.orders[o]))))
  {
    hide Alone;
    var order := s.orders[o];
    AwardReadAlone(cfg, s, o);
    if cfg.loyaltyOn {
      AwardEnsureAlone(cfg, s, o, order.user, AwardBase(order), PaidAmount(order));
      var s1 := DoEnsurePoints(s, order.user).0;
      var earned := PointsOf(s1.points, order.user).earned;
      var points := PurchasePoints(AwardBase(order), earned, cfg.perToman, cfg.maxPerOrder, cfg.tiers);
      AwardWriteAlone(cfg, s1, o, order.user, points, TierId(earned + points, cfg.tiers), PaidAmount(order));
    }
  }

  lemma AwardReadAlone(cfg: Config, s: Store, o: OrderId)
    ensures Alone(cfg, s, AwardRead(o)) == Alone(cfg, s, After(cfg, s, AwardRead(o), Refused))
  {
  }

  lemma AwardEnsureAlone(cfg: Config, s: Store, o: OrderId, u: UserId, base: int, paid: int)
    ensures var s' := DoEnsurePoints(s, u).0;
            var earned := PointsOf(s'.points, u).earned;
            var points := PurchasePoints(base, earned, cfg.perToman, cfg.maxPerOrder, cfg.tiers);
            Alone(cfg, s, AwardEnsure(o, u, base, paid)) ==
              if u !in s.users then s'
              else if points <= 0 then Alone(cfg, s', CommissionOn(u, paid))
              else Alone(cfg, s', AwardWrite(o, u, points, TierId(earned + points, cfg.tiers), paid))
  {
    hide Alone, Effect, DoEnsurePoints, PurchasePoints, TierId;
    var (s', reply) := DoEnsurePoints(s, u);
    EnsureEffect(cfg, s, u);
    AloneStep(cfg, s, AwardEnsure(o, u, base, paid), s', reply);
    AloneFinished(cfg, s');
  }

  lemma AwardWriteAlone(cfg: Config, s: Store, o: OrderId, u: UserId, points: int, tier: string, paid: int)
    ensures var (s', reply) := DoMutate(s, u, Purchase, points, Some(tier), Some(PurchaseKey(o)));
            Alone(cfg, s, AwardWrite(o, u, points, tier, paid)) ==
              if reply.Violation? then s' else Alone(cfg, s', CommissionOn(u, paid))
  {
    hide Alone;
    var (s', reply) := DoMutate(s, u, Purchase, points, Some(tier), Some(PurchaseKey(o)));
    AloneStep(cfg, s, AwardWrite(o, u, points, tier, paid), s', reply);
    AloneFinished(cfg, s');
  }

  lemma CommissionAlone(cfg: Config, s: Store, u: UserId, paid: int)
    ensures Alone(cfg, s, CommissionOn(u, paid)) == if paid > 0 then DoRewardReferrer(cfg, s, u, paid).0 else s
  {
  }

  /** What award_after_approve reports of the commission: nothing when the award raised or nothing was
      paid. */
  function Commission(cfg: Config, s: Store, o: OrderId): Reply {
    if !(0 <= o < |s.orders| && s.orders[o].status == Approved) then Refused
    else
      var (s', _, raised) := Award(cfg, s, o);
      if raised || PaidAmount(s.orders[o]) <= 0 then Refused
      else DoRewardReferrer(cfg, s', s.orders[o].user, PaidAmount(s.orders[o])).1
  }

  /** award_after_approve (services/orders.py:61-74). */
  method AwardAfterApprove(db: Database, cfg: Config, o: OrderId) returns (points: int, referral: Reply)
    modifies db
    ensures db.View() == Alone(cfg, old(db.View()), AwardRead(o))
    ensures points == Award(cfg, old(db.View()), o).1
    ensures referral == Commission(cfg, old(db.View()), o)
  {
    hide Alone;
    AwardReadAlone(cfg, db.View(), o);
    AloneFinished(cfg, db.View());
    referral := Refused;
    if !(0 <= o < |db.orders| && db.orders[o].status == Approved) { return 0, Refused; }
    var order := db.orders[o];
    var raised;
    AwardAlone(cfg, db.View(), o);
    points, raised := AwardPurchase(db, cfg, o);
    if raised { return; }
    var paid := Max(order.finalPrice - order.shipping, 0);
    CommissionAlone(cfg, db.View(), order.user, paid);
    if paid > 0 {
      referral := db.RewardReferrerIfFirstPurchase(cfg, order.user, paid);
    }
  }

  /** The bot's approval (handlers_admin.py:930-957), and with checksStatus == false the panel's
      (admin_panel/server.py:765-791). */
  method ApproveOrderFlow(db: Database, cfg: Config, o: OrderId, checksStatus: bool) returns (ok: bool)
    modifies db
    ensures db.View() == Alone(cfg, old(db.View()), ApproveRead(o, checksStatus))
    ensures ok == IsPending(old(db.View()), o)
  {
    hide Alone;
    ApproveAlone(cfg, db.View(), o, checksStatus);
    if !(0 <= o < |db.orders|) { return false; }
    if checksStatus && db.orders[o].status != Pending { return false; }
    ok := db.ApproveOrder(o);
    if !ok { return; }
    var _, _ := AwardAfterApprove(db, cfg, o);
  }

  lemma ApproveAlone(cfg: Config, s: Store, o: OrderId, checks: bool)
    ensures Alone(cfg, s, ApproveRead(o, checks)) ==
            if IsPending(s, o) then Alone(cfg, DoApproveOrder(s, o).0, AwardRead(o)) else s
  {
    hide Alone;
    AloneStep(cfg, s, ApproveRead(o, checks), s, Refused);
    AloneFinished(cfg, s);
    ApproveDecideAlone(cfg, s, o);
  }

  lemma ApproveDecideAlone(cfg: Config, s: Store, o: OrderId)
    ensures Alone(cfg, s, ApproveDecide(o)) ==
            if IsPending(s, o) then Alone(cfg, DoApproveOrder(s, o).0, AwardRead(o)) else s
  {
  }

  // ------------------------------------------------------------------ rejections

  /** reverse_purchase (loyalty.py:208-228). */
  method ReversePurchase(db: Database, cfg: Config, o: OrderId) returns (points: int)
    modifies db
    ensures db.View() == Alone(cfg, old(db.View()), RefundFind(o))
    ensures var award := FindKey(old(db.ledger), PurchaseKey(o));
            points == if award.Some? && db.ledger != old(db.ledger) then award.value.amount else 0
  {
    hide Alone;
    RefundAlone(cfg, db.View(), o);
    var award := FindKey(db.ledger, PurchaseKey(o));
    if award.None? { return 0; }
    var reply := db.ApplyLoyaltyMutation(award.value.user, PurchaseRefund, -award.value.amount, None,
                                         Some(RefundKey(o)));
    return if reply.Entered? then award.value.amount else 0;
  }

  lemma RefundAlone(cfg: Config, s: Store, o: OrderId)
    ensures var award := FindKey(s.ledger, PurchaseKey(o));
            Alone(cfg, s, RefundFind(o)) ==
            if award.None? then s
            else DoMutate(s, award.value.user, PurchaseRefund, -award.value.amount, None, Some(RefundKey(o))).0
  {
    hide Alone;
    var award := FindKey(s.ledger, PurchaseKey(o));
    AloneStep(cfg, s, RefundFind(o), s, Refused);
    AloneFinished(cfg, s);
    if award.Some? { RefundWriteAlone(cfg, s, o, award.value.user, award.value.amount); }
  }

  lemma RefundWriteAlone(cfg: Config, s: Store, o: OrderId, u: UserId, amount: int)
    ensures Alone(cfg, s, RefundWrite(o, u, amount))
        == DoMutate(s, u, PurchaseRefund, -amount, None, Some(RefundKey(o))).0
  {
  }

  /** The guarded rejection of bot and panel (handlers_admin.py:1018-1037, admin_panel/server.py:825-833),
      and with guarded == false the buyer's cancel flow (handlers_user.py:780-786). */
  method RejectOrderFlow(db: Database, cfg: Config, o: OrderId, guarded: bool) returns (ok: bool)
    modifies db
    ensures db.View() == Alone(cfg, old(db.View()), RejectRead(o, guarded))
    ensures ok == IsPending(old(db.View()), o)
  {
    hide Alone;
    RejectAlone(cfg, db.View(), o, guarded);
    if !(0 <= o < |db.orders| && db.orders[o].status == Pending) { return false; }
    ok := db.RejectOrder(o);
    if guarded && !ok { return; }
    var _ := ReversePurchase(db, cfg, o);
  }

  lemma RejectAlone(cfg: Config, s: Store, o: OrderId, guarded: bool)
    ensures Alone(cfg, s, RejectRead(o, guarded)) ==
            if IsPending(s, o) then Alone(cfg, DoRejectOrder(s, o).0, RefundFind(o)) else s
  {
    hide Alone;
    AloneStep(cfg, s, RejectRead(o, guarded), s, Refused);
    AloneFinished(cfg, s);
    if IsPending(s, o) { RejectDecideAlone(cfg, s, o, guarded); }
  }

  lemma RejectDecideAlone(cfg: Config, s: Store, o: OrderId, guarded: bool)
    requires IsPending(s, o)
    ensures Alone(cfg, s, RejectDecide(o, guarded)) == Alone(cfg, DoRejectOrder(s, o).0, RefundFind(o))
  {
    hide Alone;
    var (s', reply) := DoRejectOrder(s, o);
    AloneStep(cfg, s, RejectDecide(o, guarded), s', reply);
  }

  // ------------------------------------------------------------------ redemptions and adjustments

  datatype RedeemResult = Redeemed(toman: int, balanceAfter: int) | NotRedeemed

  /** redeem (loyalty.py:274-305); nonce is the random part of the idempotency key. */
  method RedeemForWallet(db: Database, cfg: Config, u: UserId, points: int, nonce: int) returns (result: RedeemResult)
    modifies db
    ensures db.View() == Alone(cfg, old(db.View()), RedeemRead(u, points, nonce))
    ensures result.Redeemed? <==>
              && cfg.loyaltyOn && 0 < points <= PointsOf(old(db.points), u).current && points >= cfg.minRedeem
              && cfg.redeemPoints > 0 && cfg.redeemToman > 0 && points % cfg.redeemPoints == 0
              && u in old(db.users) && !HasKey(old(db.ledger), RedeemKey(u, nonce))
    ensures result.Redeemed? ==>
              && cfg.redeemPoints * result.toman == cfg.redeemToman * points
              && result.balanceAfter == PointsOf(old(db.points), u).current - points
              && result.balanceAfter >= 0
  {
    hide Alone;
    RedeemAlone(cfg, db.View(), u, points, nonce);
    if !cfg.loyaltyOn { return NotRedeemed; }
    if points <= 0 { return NotRedeemed; }
    var ok := db.EnsurePoints(u);
    if !ok { return NotRedeemed; }
    if !(cfg.redeemPoints > 0 && cfg.redeemToman > 0) { return NotRedeemed; }
    if cfg.minRedeem > 0 && points < cfg.minRedeem { return NotRedeemed; }
    if points % cfg.redeemPoints != 0 { return NotRedeemed; }
    var q := points / cfg.redeemPoints;
    var toman := q * cfg.redeemToman;
    assert cfg.redeemPoints * toman == cfg.redeemToman * points by {
      assert points == q * cfg.redeemPoints;
      Exchange(cfg.redeemPoints, q, cfg.redeemToman);
    }
    var reply := db.RedeemPointsForWallet(u, points, toman, RedeemKey(u, nonce));
    if !reply.Entered? { return NotRedeemed; }
    return Redeemed(toman, reply.row.balanceAfter);
  }

  lemma Exchange(a: int, q: int, b: int)
    ensures a * (q * b) == b * (q * a)
  {
  }

  lemma RedeemAlone(cfg: Config, s: Store, u: UserId, points: int, nonce: int)
    ensures Alone(cfg, s, RedeemRead(u, points, nonce)) ==
            if !(cfg.loyaltyOn && points > 0 && u in s.users) then s
            else
              var s' := DoEnsurePoints(s, u).0;
              if MayRedeem(cfg, points)
              then DoRedeem(s', u, points, points / cfg.redeemPoints * cfg.redeemToman, RedeemKey(u, nonce)).0
              else s'
  {
    hide Alone;
    if cfg.loyaltyOn && points > 0 {
      var (s', reply) := DoEnsurePoints(s, u);
      AloneStep(cfg, s, RedeemRead(u, points, nonce), s', reply);
      AloneFinished(cfg, s');
      if u in s.users && MayRedeem(cfg, points) {
        RedeemWriteAlone(cfg, s', u, points, points / cfg.redeemPoints * cfg.redeemToman, nonce);
      }
    } else {
      AloneStep(cfg, s, RedeemRead(u, points, nonce), s, Refused);
      AloneFinished(cfg, s);
    }
  }

  lemma RedeemWriteAlone(cfg: Config, s: Store, u: UserId, points: int, toman: int, nonce: int)
    ensures Alone(cfg, s, RedeemWrite(u, points, toman, nonce)) == DoRedeem(s, u, points, toman, RedeemKey(u, nonce)).0
  {
  }

  /** admin_adjust (loyalty.py:308-335), its reason given. */
  method AdminAdjust(db: Database, cfg: Config, u: UserId, amount: int) returns (balance: Option<int>)
    modifies db
    ensures db.View() == Alone(cfg, old(db.View()), AdjustRead(u, amount))
    ensures balance.Some? <==> amount != 0 && u in old(db.users) && PointsOf(old(db.points), u).current + amount >= 0
    ensures balance.Some? ==> balance.value == PointsOf(old(db.points), u).current + amount >= 0
  {
    hide Alone;
    AdjustAlone(cfg, db.View(), u, amount);
    if amount == 0 { return None; }
    var ok := db.EnsurePoints(u);
    if !ok { return None; }
    var tierAfter := TierId(db.points[u].earned + (if amount > 0 then amount else 0), cfg.tiers);
    var reply := db.ApplyLoyaltyMutation(u, AdminAdjustment, amount, Some(tierAfter), None);
    if !reply.Entered? { return None; }
    return Some(reply.row.balanceAfter);
  }

  lemma AdjustAlone(cfg: Config, s: Store, u: UserId, amount: int)
    ensures Alone(cfg, s, AdjustRead(u, amount)) ==
            if !(amount != 0 && u in s.users) then s
            else
              var s' := DoEnsurePoints(s, u).0;
              var tier := TierId(PointsOf(s'.points, u).earned + Max(amount, 0), cfg.tiers);
              DoMutate(s', u, AdminAdjustment, amount, Some(tier), None).0
  {
    hide Alone;
    AdjustReadAlone(cfg, s, u, amount);
    AloneFinished(cfg, s);
    if amount != 0 && u in s.users {
      var s' := DoEnsurePoints(s, u).0;
      AdjustWriteAlone(cfg, s', u, amount, TierId(PointsOf(s'.points, u).earned + Max(amount, 0), cfg.tiers));
    }
  }

  lemma AdjustReadAlone(cfg: Config, s: Store, u: UserId, amount: int)
    ensures Alone(cfg, s, AdjustRead(u, amount)) ==
            if !(amount != 0 && u in s.users) then Alone(cfg, s, Finished)
            else
              var s' := DoEnsurePoints(s, u).0;
              Alone(cfg, s', AdjustWrite(u, amount, TierId(PointsOf(s'.points, u).earned + Max(amount, 0), cfg.tiers)))
  {
    hide Alone, Effect, DoEnsurePoints, TierId;
    if amount != 0 {
      var (s', reply) := DoEnsurePoints(s, u);
      EnsureEffect(cfg, s, u);
      AloneStep(cfg, s, AdjustRead(u, amount), s', reply);
    } else {
      NoEffect(cfg, s);
      AloneStep(cfg, s, AdjustRead(u, amount), s, Refused);
    }
  }

  lemma AdjustWriteAlone(cfg: Config, s: Store, u: UserId, amount: int, tier: string)
    ensures Alone(cfg, s, AdjustWrite(u, amount, tier)) == DoMutate(s, u, AdminAdjustment, amount, Some(tier), None).0
  {
  }

  // ------------------------------------------------------------------ checkout with a coupon

  /** checkout_cart with a coupon, nobody else about: the look and the two transactions in a row. */
  method CouponCheckout(db: Database, cfg: Config, r: Request) returns (reply: Reply)
    requires r.coupon.Some?
    modifies db
    ensures db.View() == Alone(cfg, old(db.View()), CouponCheck(r))
    ensures reply == DoCheckout(cfg, old(db.View()), r).1
  {
    hide Alone;
    CouponAlone(cfg, db.View(), r);
    reply := db.CheckoutCart(cfg, r);
  }

  lemma CouponAlone(cfg: Config, s: Store, r: Request)
    requires r.coupon.Some?
    ensures Alone(cfg, s, CouponCheck(r)) == DoCheckout(cfg, s, r).0
  {
    hide Alone;
    AloneStep(cfg, s, CouponCheck(r), s, Refused);
    AloneFinished(cfg, s);
    if MayClaim(cfg, s, r) {
      CheckoutBooks.ClaimThenPlace(cfg, s, r);
      ClaimAlone(cfg, s, r);
    }
  }

  lemma ClaimAlone(cfg: Config, s: Store, r: Request)
    ensures var (claimed, reply) := DoClaim(s, r);
            Alone(cfg, s, CouponClaim(r)) ==
            (if reply.Claimed?
             then DoPlaceClaimed(cfg, claimed, r, reply.lines, reply.total, reply.discount,
                                 CreditOf(claimed.users, r.user)).0
             else claimed)
  {
    hide Alone;
    var (claimed, reply) := DoClaim(s, r);
    AloneStep(cfg, s, CouponClaim(r), claimed, reply);
    AloneFinished(cfg, claimed);
    if reply.Claimed? { CouponReadAlone(cfg, claimed, r, reply.lines, reply.total, reply.discount); }
  }

  lemma CouponReadAlone(cfg: Config, s: Store, r: Request, lines: seq<CartLine>, total: int, discount: int)
    ensures Alone(cfg, s, CouponRead(r, lines, total, discount))
         == DoPlaceClaimed(cfg, s, r, lines, total, discount, CreditOf(s.users, r.user)).0
  {
    hide Alone;
    var seen := CreditOf(s.users, r.user);
    AloneStep(cfg, s, CouponRead(r, lines, total, discount), s, Refused);
    CouponPlaceAlone(cfg, s, r, lines, total, discount, seen);
  }

  lemma CouponPlaceAlone(cfg: Config, s: Store, r: Request, lines: seq<CartLine>, total: int, discount: int, seen: int)
    ensures Alone(cfg, s, CouponPlace(r, lines, total, discount, seen))
         == DoPlaceClaimed(cfg, s, r, lines, total, discount, seen).0
  {
    hide Alone;
    var (s', reply) := DoPlaceClaimed(cfg, s, r, lines, total, discount, seen);
    AloneStep(cfg, s, CouponPlace(r, lines, total, discount, seen), s', reply);
    AloneFinished(cfg, s');
  }
}
