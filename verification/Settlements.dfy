/** What interleaved programs settle: every order is charged for its goods, every award is what its order
    earns, and every commission is of what its order paid, however old what the programs have read. */
module Settlements {
  import opened Tables
  import opened Calls
  import opened Runs
  import opened Loyalty
  import opened Programs
  import opened Interleavings
  import opened AwardBooks
  import opened StoredTiers
  import opened Rewards
  import opened Services
  import T = CheckoutTerms

  /** The points are what the order earns on some total its buyer had by then. */
  ghost predicate EarnsFor(cfg: Config, s: Store, o: OrderId, points: int, u: UserId) {
    && ApprovedFor(s, o, u)
    && exists e | 0 <= e <= EarnedBy(s, u) ::
         points == PurchasePoints(AwardBase(s.orders[o]), e, cfg.perToman, cfg.maxPerOrder, cfg.tiers)
  }

  /** Some order of the user that has been approved comes to this. */
  ghost predicate PaidFor(s: Store, u: UserId, paid: int) {
    exists o :: ApprovedFor(s, o, u) && PaidAmount(s.orders[o]) == paid
  }

  /** What an actor carries on is still what its order says. */
  ghost predicate Settles(cfg: Config, s: Store, p: Program) {
    match p
    case AwardEnsure(o, u, base, paid) =>
      ApprovedFor(s, o, u) && base == AwardBase(s.orders[o]) && paid == PaidAmount(s.orders[o])
    case AwardWrite(o, u, points, _, paid) => EarnsFor(cfg, s, o, points, u) && paid == PaidAmount(s.orders[o])
    case PayCommission(u, paid) => PaidFor(s, u, paid)
    case CouponRead(_, lines, total, _) => lines != [] && total == CartTotal(lines)
    case CouponPlace(_, lines, total, _, _) => lines != [] && total == CartTotal(lines)
    case _ => true
  }

  ghost predicate AwardsSettled(cfg: Config, s: Store) {
    forall i | 0 <= i < |s.ledger| && s.ledger[i].key.Some? && s.ledger[i].key.value.PurchaseKey? ::
      EarnsFor(cfg, s, s.ledger[i].key.value.order, s.ledger[i].amount, s.ledger[i].user)
  }

  ghost predicate CommissionOf(cfg: Config, s: Store, p: Payout) {
    exists paid :: PaidFor(s, p.source, paid) && PercentOf(p.amount, paid, cfg.percent)
  }

  ghost predicate CommissionsSettled(cfg: Config, s: Store, paid: seq<Payout>) {
    forall p | p in paid && p.kind == Commission :: CommissionOf(cfg, s, p)
  }

  ghost predicate AllSettled(cfg: Config, x: Shop) {
    && x.b.s == x.m.s
    && (forall u :: EarnedBy(x.m.s, u) >= 0)
    && (forall a | a in x.m.actors :: Settles(cfg, x.m.s, x.m.actors[a]))
    && AwardsSettled(cfg, x.m.s) && CommissionsSettled(cfg, x.m.s, x.b.paid)
  }

  /** Purchases are rewarded by the award program only. */
  predicate ByAward(e: Event) { Allowed(e) && (e.Other? ==> !e.call.RewardReferrer?) }

  // ------------------------------------------------------------------ what stays true

  /** s' is later, and nobody has earned less. */
  ghost predicate LaterEarned(s: Store, s': Store) {
    Later(s, s') && forall u :: EarnedBy(s, u) <= EarnedBy(s', u)
  }

  lemma StepLaterEarned(cfg: Config, m: System, e: Event)
    ensures LaterEarned(m.s, Step(cfg, m, e).s)
  {
    hide Step, Later;
    StepsLater(cfg, m, e);
    forall u ensures EarnedBy(m.s, u) <= EarnedBy(Step(cfg, m, e).s, u) { EarnedGrows(cfg, m, e, u); }
  }

  lemma OrderStays(s: Store, s': Store, o: OrderId, u: UserId)
    requires LaterEarned(s, s') && ApprovedFor(s, o, u)
    ensures ApprovedFor(s', o, u)
    ensures AwardBase(s'.orders[o]) == AwardBase(s.orders[o]) && PaidAmount(s'.orders[o]) == PaidAmount(s.orders[o])
  {
    assert SameOrder(s.orders[o], s'.orders[o]);
  }

  lemma EarnsForStays(cfg: Config, s: Store, s': Store, o: OrderId, points: int, u: UserId)
    requires LaterEarned(s, s') && EarnsFor(cfg, s, o, points, u)
    ensures EarnsFor(cfg, s', o, points, u)
  {
    hide PurchasePoints;
    OrderStays(s, s', o, u);
    var e :| 0 <= e <= EarnedBy(s, u)
             && points == PurchasePoints(AwardBase(s.orders[o]), e, cfg.perToman, cfg.maxPerOrder, cfg.tiers);
    assert 0 <= e <= EarnedBy(s', u);
  }

  lemma PaidForStays(s: Store, s': Store, u: UserId, paid: int)
    requires LaterEarned(s, s') && PaidFor(s, u, paid)
    ensures PaidFor(s', u, paid)
  {
    var o :| ApprovedFor(s, o, u) && PaidAmount(s.orders[o]) == paid;
    OrderStays(s, s', o, u);
  }

  lemma SettlesStays(cfg: Config, s: Store, s': Store, p: Program)
    requires LaterEarned(s, s') && Settles(cfg, s, p)
    ensures Settles(cfg, s', p)
  {
    hide LaterEarned, EarnsFor, PaidFor, PaidAmount, AwardBase;
    match p
    case AwardEnsure(o, u, _, _) => OrderStays(s, s', o, u);
    case AwardWrite(o, u, points, _, _) =>
      EarnsForStays(cfg, s, s', o, points, u);
      EarnsForApproved(cfg, s, o, points, u);
      OrderStays(s, s', o, u);
    case PayCommission(u, paid) => PaidForStays(s, s', u, paid);
    case _ =>
  }

  lemma EarnsForApproved(cfg: Config, s: Store, o: OrderId, points: int, u: UserId)
    requires EarnsFor(cfg, s, o, points, u)
    ensures ApprovedFor(s, o, u)
  {
  }

  // ------------------------------------------------------------------ the actor that moves

  lemma PaysOn(s: Store, o: OrderId, u: UserId, paid: int)
    requires ApprovedFor(s, o, u) && paid == PaidAmount(s.orders[o])
    ensures PaidFor(s, u, paid)
  {
  }

  lemma AwardAfter(cfg: Config, s: Store, p: Program, reply: Reply)
    requires Settles(cfg, s, p) && (p.AwardRead? || p.AwardEnsure? || p.AwardWrite?)
    requires forall u :: EarnedBy(s, u) >= 0
    ensures Settles(cfg, s, After(cfg, s, p, reply))
  {
    hide PurchasePoints, TierId, PaidAmount, AwardBase, PaidFor;
    match p
    case AwardRead(o) =>
      if 0 <= o < |s.orders| && s.orders[o].status == Approved {
        PaysOn(s, o, s.orders[o].user, PaidAmount(s.orders[o]));
      }
    case AwardEnsure(o, u, base, paid) =>
      PaysOn(s, o, u, paid);
      assert EarnedBy(s, u) >= 0;
    case AwardWrite(o, u, points, _, paid) =>
      EarnsForApproved(cfg, s, o, points, u);
      PaysOn(s, o, u, paid);
  }

  lemma ClaimAfter(cfg: Config, s: Store, r: Request)
    ensures var (s', reply) := Effect(cfg, s, Some(ClaimWithCoupon(r)));
            Settles(cfg, s', After(cfg, s', CouponClaim(r), reply))
  {
    hide CartTotal;
  }

  lemma OtherAfter(cfg: Config, s: Store, p: Program, reply: Reply)
    requires Settles(cfg, s, p) && !p.AwardRead? && !p.AwardEnsure? && !p.AwardWrite? && !p.CouponClaim?
    ensures Settles(cfg, s, After(cfg, s, p, reply))
  {
    hide FindKey, EarnsFor, PaidFor;
  }

  lemma ActorSettles(cfg: Config, m: System, e: Event, a: nat)
    requires forall c | c in m.actors :: Settles(cfg, m.s, m.actors[c])
    requires (forall u :: EarnedBy(m.s, u) >= 0) && a in Step(cfg, m, e).actors
    ensures Settles(cfg, Step(cfg, m, e).s, Step(cfg, m, e).actors[a])
  {
    hide Settles, Effect, After, CallBy, LaterEarned, EarnedBy;
    var m' := Step(cfg, m, e);
    StepLaterEarned(cfg, m, e);
    if e == Advance(a) && a in m.actors {
      var p := m.actors[a];
      SettlesStays(cfg, m.s, m'.s, p);
      EarnedStays(m.s, m'.s);
      var reply := Effect(cfg, m.s, CallBy(cfg, p)).1;
      if p.CouponClaim? {
        ClaimCalls(cfg, p);
        ClaimAfter(cfg, m.s, p.request);
      } else if p.AwardRead? || p.AwardEnsure? || p.AwardWrite? {
        AwardAfter(cfg, m'.s, p, reply);
      } else {
        OtherAfter(cfg, m'.s, p, reply);
      }
    } else if a in m.actors {
      SettlesStays(cfg, m.s, m'.s, m.actors[a]);
    } else {
      StartSettles(cfg, m'.s, m'.actors[a]);
    }
  }

  lemma EarnedStays(s: Store, s': Store)
    requires LaterEarned(s, s') && forall u :: EarnedBy(s, u) >= 0
    ensures forall u :: EarnedBy(s', u) >= 0
  {
    hide EarnedBy;
  }

  lemma ClaimCalls(cfg: Config, p: Program)
    requires p.CouponClaim?
    ensures CallBy(cfg, p) == Some(ClaimWithCoupon(p.request))
  {
  }

  lemma StartSettles(cfg: Config, s: Store, p: Program)
    requires Starts(p)
    ensures Settles(cfg, s, p)
  {
  }

  // ------------------------------------------------------------------ rows and payouts

  /** At most one row is added; an award row is that of an actor about to write it. */
  lemma NewAward(cfg: Config, m: System, e: Event)
    requires Allowed(e)
    ensures var ledger' := Step(cfg, m, e).s.ledger;
            || ledger' == m.s.ledger
            || (&& |ledger'| == |m.s.ledger| + 1 && ledger'[..|m.s.ledger|] == m.s.ledger
                && var row := ledger'[|m.s.ledger|];
                   row.key.Some? && row.key.value.PurchaseKey? ==>
                     && e.Advance? && e.actor in m.actors && m.actors[e.actor].AwardWrite?
                     && m.actors[e.actor].order == row.key.value.order && m.actors[e.actor].user == row.user
                     && m.actors[e.actor].points == row.amount)
  {
    hide Step, DoMutate, DoRedeem;
    StepIsCall(cfg, m, e);
    var call := CallOf(cfg, m, e);
    if call.Some? {
      if call.value.Mutate? {
        var c := call.value;
        MutateRow(m.s, c.user, c.kind, c.amount, c.tier, c.key);
      } else if call.value.RedeemPoints? {
        var c := call.value;
        RedeemRow(m.s, c.user, c.points, c.toman, c.redeemKey);
      } else {
        OthersEnterNothing(cfg, m.s, call.value);
      }
    }
  }

  lemma MutateRow(s: Store, u: UserId, kind: TxKind, amount: int, tier: Option<string>, key: Option<Key>)
    ensures var ledger' := DoMutate(s, u, kind, amount, tier, key).0.ledger;
            || ledger' == s.ledger
            || exists row: Row :: row.user == u && row.amount == amount && row.key == key && ledger' == s.ledger + [row]
  {
  }

  lemma RedeemRow(s: Store, u: UserId, points: int, toman: int, key: Key)
    ensures var ledger' := DoRedeem(s, u, points, toman, key).0.ledger;
            ledger' == s.ledger || exists row: Row :: row.key == Some(key) && ledger' == s.ledger + [row]
  {
  }

  lemma StepAwardsSettled(cfg: Config, x: Shop, e: Event)
    requires AllSettled(cfg, x) && Allowed(e)
    ensures AwardsSettled(cfg, Step(cfg, x.m, e).s)
  {
    hide Step, EarnsFor, LaterEarned, Settles;
    var s, s' := x.m.s, Step(cfg, x.m, e).s;
    NewAward(cfg, x.m, e);
    StepLaterEarned(cfg, x.m, e);
    forall i | 0 <= i < |s'.ledger| && s'.ledger[i].key.Some? && s'.ledger[i].key.value.PurchaseKey?
      ensures EarnsFor(cfg, s', s'.ledger[i].key.value.order, s'.ledger[i].amount, s'.ledger[i].user)
    {
      var row := s'.ledger[i];
      if i < |s.ledger| {
        assert row == s.ledger[i];
      } else {
        WriterSettles(cfg, s, x.m.actors[e.actor]);
      }
      EarnsForStays(cfg, s, s', row.key.value.order, row.amount, row.user);
    }
  }

  lemma WriterSettles(cfg: Config, s: Store, p: Program)
    requires Settles(cfg, s, p) && p.AwardWrite?
    ensures EarnsFor(cfg, s, p.order, p.points, p.user)
  {
  }

  lemma PayerSettles(cfg: Config, s: Store, p: Program)
    requires Settles(cfg, s, p) && p.PayCommission?
    ensures PaidFor(s, p.user, p.paid)
  {
  }

  /** A commission that an event adds is of what an actor carries. */
  lemma NewCommission(cfg: Config, x: Shop, e: Event, p: Payout)
    requires ByAward(e) && p in Move(cfg, x, e).b.paid && p !in x.b.paid && p.kind == Commission && x.b.s == x.m.s
    ensures e.Advance? && e.actor in x.m.actors && x.m.actors[e.actor].PayCommission?
    ensures p.source == x.m.actors[e.actor].user && PercentOf(p.amount, x.m.actors[e.actor].paid, cfg.percent)
  {
    hide Step, DoRewardReferrer, DoInviteReward, PercentOf, DoOrders, DoPoints, DoTopUps, DoShop;
    var call := CallOf(cfg, x.m, e);
    if call.Some? && call.value.RewardReferrer? { CommissionTold(cfg, x.b.s, call.value.user, call.value.paid); }
  }

  lemma CommissionStays(cfg: Config, s: Store, s': Store, p: Payout)
    requires LaterEarned(s, s') && CommissionOf(cfg, s, p)
    ensures CommissionOf(cfg, s', p)
  {
    hide PaidFor, LaterEarned;
    var paid :| PaidFor(s, p.source, paid) && PercentOf(p.amount, paid, cfg.percent);
    PaidForStays(s, s', p.source, paid);
  }

  lemma StepCommissionsSettled(cfg: Config, x: Shop, e: Event)
    requires AllSettled(cfg, x) && ByAward(e)
    ensures CommissionsSettled(cfg, Step(cfg, x.m, e).s, Move(cfg, x, e).b.paid)
  {
    hide Step, CommissionOf, LaterEarned, Settles, Move;
    var s, s', paid' := x.m.s, Step(cfg, x.m, e).s, Move(cfg, x, e).b.paid;
    StepLaterEarned(cfg, x.m, e);
    forall p | p in paid' && p.kind == Commission ensures CommissionOf(cfg, s', p) {
      if p !in x.b.paid {
        NewCommission(cfg, x, e, p);
        PayerSettles(cfg, s, x.m.actors[e.actor]);
        OfPaid(cfg, s, p, x.m.actors[e.actor].paid);
      }
      CommissionStays(cfg, s, s', p);
    }
  }

  lemma OfPaid(cfg: Config, s: Store, p: Payout, paid: int)
    requires PaidFor(s, p.source, paid) && PercentOf(p.amount, paid, cfg.percent)
    ensures CommissionOf(cfg, s, p)
  {
  }

  lemma MoveSettled(cfg: Config, x: Shop, e: Event)
    requires AllSettled(cfg, x) && ByAward(e)
    ensures AllSettled(cfg, Move(cfg, x, e))
  {
    hide Step, Do, Settles, AwardsSettled, CommissionsSettled, LaterEarned, EarnedBy;
    var x' := Move(cfg, x, e);
    MoveStore(cfg, x, e);
    StepLaterEarned(cfg, x.m, e);
    EarnedStays(x.m.s, x'.m.s);
    StepAwardsSettled(cfg, x, e);
    StepCommissionsSettled(cfg, x, e);
    forall a | a in x'.m.actors ensures Settles(cfg, x'.m.s, x'.m.actors[a]) {
      ActorSettles(cfg, x.m, e, a);
    }
  }

  predicate AllByAward(events: seq<Event>) { forall e | e in events :: ByAward(e) }

  /** In every interleaving: the points of every purchase row are what its approved order earns at some
      total its buyer had reached; every commission is the set percentage, rounded down, of what some
      approved order of the buyer left to pay; and every claimed cart carries the price of its goods. */
  lemma {:induction false} EverythingSettled(cfg: Config, x: Shop, events: seq<Event>)
    requires Opens(x) && AllByAward(events)
    ensures AllSettled(cfg, Moves(cfg, x, events))
  {
    hide Move, AllSettled;
    if events == [] {
      NothingToSettle(cfg, x);
    } else {
      var n := |events| - 1;
      assert events[n] in events;
      EverythingSettled(cfg, x, events[..n]);
      MoveSettled(cfg, Moves(cfg, x, events[..n]), events[n]);
    }
  }

  lemma NothingToSettle(cfg: Config, x: Shop)
    requires Opens(x)
    ensures AllSettled(cfg, x)
  {
  }

  // ------------------------------------------------------------------ every order

  /** The lines an order is made of: the cart in the table, or one claimed before. */
  predicate LinesAtHand(m: System, r: Request, lines: seq<CartLine>) {
    || lines == CartOf(m.s.carts, r.user)
    || exists a | a in m.actors :: m.actors[a].CouponPlace? && m.actors[a].claimed == r && m.actors[a].lines == lines
  }

  lemma OrderOfCheckout(cfg: Config, m: System, r: Request)
    requires |DoCheckout(cfg, m.s, r).0.orders| > |m.s.orders|
    ensures var s' := DoCheckout(cfg, m.s, r).0;
            |s'.orders| == |m.s.orders| + 1 && T.GoodsOf(r, CartOf(m.s.carts, r.user), s'.orders[|m.s.orders|])
  {
    hide T.GoodsOf;
    if DoCheckout(cfg, m.s, r).1.Placed? {
      T.PlacedGoodsTold(cfg, m.s, r);
    } else {
      FailedCheckoutKeeps(cfg, m.s, r);
    }
  }

  lemma OrderOfClaim(cfg: Config, s: Store, p: Program)
    requires p.CouponPlace? && p.lines != [] && p.total == CartTotal(p.lines)
    requires |DoPlaceClaimed(cfg, s, p.claimed, p.lines, p.total, p.discount, p.seen).0.orders| > |s.orders|
    ensures var s' := DoPlaceClaimed(cfg, s, p.claimed, p.lines, p.total, p.discount, p.seen).0;
            |s'.orders| == |s.orders| + 1 && T.GoodsOf(p.claimed, p.lines, s'.orders[|s.orders|])
  {
    hide T.GoodsOf, Placement;
    var q := QuoteFor(p.total, p.discount, p.seen, ShippingCost(p.claimed, p.lines));
    if PaymentFault(s, p.claimed, p.lines, q).None? { T.GoodsTold(cfg, p.claimed, p.lines, q); }
    PlacementAppends(s, OrderFor(cfg, p.claimed, p.lines, q));
  }

  lemma PlacementAppends(s: Store, order: Order)
    ensures Placement(s, order).orders == s.orders + [order]
  {
  }

  /** Which events add an order. */
  lemma AddsOrder(cfg: Config, m: System, e: Event)
    requires Allowed(e) && |Step(cfg, m, e).s.orders| > |m.s.orders|
    ensures || (e.Other? && e.call.Checkout?) || (e.Advance? && e.actor in m.actors && m.actors[e.actor].CouponPlace?)
  {
    hide Step, DoOrders, DoPoints, DoReferrals, DoTopUps, DoShop;
    StepIsCall(cfg, m, e);
    var call := CallOf(cfg, m, e);
    if call.Some? {
      if WritesOrders(call.value) {
        OnlyCheckoutsAdd(cfg, m.s, call.value);
      } else {
        OthersKeepOrders(cfg, m.s, call.value);
      }
    }
  }

  lemma OnlyCheckoutsAdd(cfg: Config, s: Store, call: Call)
    requires WritesOrders(call) && |DoOrders(cfg, s, call).0.orders| > |s.orders|
    ensures call.Checkout? || call.PlaceClaimed?
  {
    hide DoCheckout, DoPlaceClaimed;
  }

  /** In every interleaving, the next order that is inserted is for the goods of a cart, at its prices. */
  lemma EveryOrderCharged(cfg: Config, x: Shop, events: seq<Event>, e: Event)
    requires Opens(x) && AllByAward(events) && ByAward(e)
    requires |Step(cfg, Moves(cfg, x, events).m, e).s.orders| > |Moves(cfg, x, events).m.s.orders|
    ensures var m := Moves(cfg, x, events).m;
            var s' := Step(cfg, m, e).s;
            && |s'.orders| == |m.s.orders| + 1
            && exists r, lines :: LinesAtHand(m, r, lines) && T.GoodsOf(r, lines, s'.orders[|m.s.orders|])
  {
    hide Step, T.GoodsOf, Move, DoCheckout, DoPlaceClaimed;
    var m := Moves(cfg, x, events).m;
    EverythingSettled(cfg, x, events);
    AddsOrder(cfg, m, e);
    StepIsCall(cfg, m, e);
    if e.Other? {
      OrderOfCheckout(cfg, m, e.call.request);
      assert LinesAtHand(m, e.call.request, CartOf(m.s.carts, e.call.request.user));
    } else {
      var p := m.actors[e.actor];
      assert Settles(cfg, m.s, p);
      OrderOfClaim(cfg, m.s, p);
      assert LinesAtHand(m, p.claimed, p.lines);
    }
  }

  /** Of an order that a checkout has placed, commission is due on what the code and the wallet leave of the
      goods, shipping not counted; points are earned on that, or on all the goods if the order cost nothing. */
  lemma PaidTold(cfg: Config, s: Store, r: Request)
    requires DoCheckout(cfg, s, r).1.Placed? && T.NothingNegative(s, r)
    ensures var (s', reply) := DoCheckout(cfg, s, r);
            && |s'.orders| == |s.orders| + 1 && reply.order == |s.orders|
            && var o := s'.orders[reply.order];
               var left := o.basePrice - T.TakenOff(o) - o.walletUsed;
               && 0 <= left && T.TakesOffFor(s, r, o.basePrice, T.TakenOff(o))
               && PaidAmount(o) == left
               && (left > 0 || o.shipping > 0 ==> AwardBase(o) == left)
               && (left == 0 && o.shipping == 0 ==> AwardBase(o) == Max(o.basePrice, 0))
  {
    hide DoCheckout, T.GoodsOf, T.TakesOffFor;
    T.PlacedOrderTold(cfg, s, r);
    ShippingNotNegative(r, CartOf(s.carts, r.user), DoCheckout(cfg, s, r).0.orders[|s.orders|]);
  }

  lemma ShippingNotNegative(r: Request, lines: seq<CartLine>, o: Order)
    requires T.GoodsOf(r, lines, o)
    ensures o.shipping >= 0
  {
  }

  // ------------------------------------------------------------------ an approval from end to end

  /** What user v gains by u's approved order: the set percentage of what was paid, rounded down, if v brought
      u, this is u's first purchase and the cap leaves room; and nothing otherwise. */
  ghost predicate Gains(cfg: Config, s: Store, u: UserId, paid: int, v: UserId, gain: int) {
    if paid > 0 && FirstPurchase(cfg, s, u) && s.users[u].referredBy == Some(v) && Room(cfg, s.users, Some(v))
    then exists c :: PercentOf(c, paid, cfg.percent) && gain == Max(c, 0)
    else gain == 0
  }

  lemma CommissionGains(cfg: Config, s: Store, s1: Store, u: UserId, paid: int, v: UserId)
    requires s1.users == s.users && v in s.users && s.users[v].credit >= 0
    ensures var users' := if paid > 0 then DoRewardReferrer(cfg, s1, u, paid).0.users else s1.users;
            && v in users' && Gains(cfg, s, u, paid, v, users'[v].credit - s.users[v].credit)
            && users'[v].purchaseRewarded
               == (s.users[v].purchaseRewarded || (v == u && paid > 0 && FirstPurchase(cfg, s, u)))
  {
    hide DoRewardReferrer, PercentOf, Room;
    CommissionTold(cfg, s1, u, paid);
    CommissionCredited(cfg, s1, u, paid, v);
  }

  lemma AwardKeepsRest(cfg: Config, s: Store, o: OrderId)
    ensures var s' := Award(cfg, s, o).0; s'.users == s.users && s'.orders == s.orders
  {
    hide PurchasePoints, TierId, AwardBase;
  }

  /** An undisturbed approval of a pending order: it is approved and starts over to be delivered, what it earns
      is entered, and what is due on it as a first purchase is paid. */
  lemma ApprovalSettles(cfg: Config, s: Store, o: OrderId, checks: bool, v: UserId)
    requires IsPending(s, o) && s.orders[o].user in s.users && !HasKey(s.ledger, PurchaseKey(o))
    requires PointsOf(s.points, s.orders[o].user).current >= 0 && v in s.users && s.users[v].credit >= 0
    ensures var s', u := Alone(cfg, s, ApproveRead(o, checks)), s.orders[o].user;
            var order := s.orders[o].(status := Approved, fulfilment := Processing);
            var points :=
              if !cfg.loyaltyOn then 0
              else PurchasePoints(AwardBase(order), EarnedBy(s, u), cfg.perToman, cfg.maxPerOrder, cfg.tiers);
            && s'.orders == s.orders[o := order]
            && |s'.ledger| == |s.ledger| + (if points > 0 then 1 else 0)
            && (points > 0 ==>
                  && s'.ledger[|s.ledger|].user == u && s'.ledger[|s.ledger|].amount == points
                  && s'.ledger[|s.ledger|].key == Some(PurchaseKey(o)))
            && v in s'.users && Gains(cfg, s, u, PaidAmount(order), v, s'.users[v].credit - s.users[v].credit)
            && s'.users[v].purchaseRewarded
               == (s.users[v].purchaseRewarded || (v == u && PaidAmount(order) > 0 && FirstPurchase(cfg, s, u)))
  {
    hide Alone, Award, PurchasePoints, HasKey, DoRewardReferrer, PaidAmount, AwardBase, FirstPurchase, Gains;
    var s0, u := DoApproveOrder(s, o).0, s.orders[o].user;
    var s1, points := Award(cfg, s0, o).0, Award(cfg, s0, o).1;
    var paid := PaidAmount(s0.orders[o]);
    ApproveAlone(cfg, s, o, checks);
    AwardAlone(cfg, s0, o);
    if cfg.loyaltyOn { AwardPoints(cfg, s0, o); } else { NoAward(cfg, s0, o); }
    AwardReportsRow(cfg, s0, o);
    AwardKeepsRest(cfg, s0, o);
    CommissionAlone(cfg, s1, u, paid);
    CommissionGains(cfg, s, s1, u, paid, v);
    RewardsUsersOnly(cfg, s1, u, paid);
  }

  lemma NoAward(cfg: Config, s: Store, o: OrderId)
    requires !cfg.loyaltyOn
    ensures Award(cfg, s, o) == (s, 0, false)
  {
  }

  lemma RewardsUsersOnly(cfg: Config, s: Store, u: UserId, paid: int)
    ensures var s' := DoRewardReferrer(cfg, s, u, paid).0; s'.orders == s.orders && s'.ledger == s.ledger
  {
  }
}
