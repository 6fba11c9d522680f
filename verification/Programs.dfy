/** The multi-step programs of the bot, the panel and the mini app, run concurrently: any number of
    actors, each at its own place in its program, one database call or read at a time.  What an actor
    has read may be out of date by the time it writes. */
module Programs {
  import opened Tables
  import opened Calls
  import opened Runs
  import opened Loyalty

  /** Where an actor stands and what it remembers.  Named after what it will do next. */
  datatype Program =
    // approving: handlers_admin.py:930-957, admin_panel/server.py:765-791
    | ApproveRead(order: OrderId, checksStatus: bool)
    | ApproveDecide(order: OrderId)
    // award_after_approve and award_purchase: services/orders.py:61-74, loyalty.py:158-205
    | AwardRead(order: OrderId)
    | AwardEnsure(order: OrderId, user: UserId, base: int, paid: int)
    | AwardWrite(order: OrderId, user: UserId, points: int, tier: string, paid: int)
    | PayCommission(user: UserId, paid: int)
    // rejecting: handlers_admin.py:1018-1037, admin_panel/server.py:825-833; with guarded == false the
    // bot's cancel flow, which does not look at the outcome: handlers_user.py:780-786
    | RejectRead(order: OrderId, guarded: bool)
    | RejectDecide(order: OrderId, guarded: bool)
    | RefundFind(order: OrderId)
    | RefundWrite(order: OrderId, user: UserId, amount: int)
    // redeem: loyalty.py:274-305
    | RedeemRead(user: UserId, points: int, nonce: int)
    | RedeemWrite(user: UserId, points: int, toman: int, nonce: int)
    // admin_adjust: loyalty.py:308-335
    | AdjustRead(user: UserId, amount: int)
    | AdjustWrite(user: UserId, amount: int, tier: string)
    // checkout_cart with a coupon: services/checkout.py:274-289, 291-384, and 386-482 after the early commit
    | CouponCheck(request: Request)
    | CouponClaim(request: Request)
    | CouponRead(claimed: Request, lines: seq<CartLine>, total: int, discount: int)
    | CouponPlace(claimed: Request, lines: seq<CartLine>, total: int, discount: int, seen: int)
    // the invitation link: handlers_user.py:160-188, handlers_bale.py:177-190
    | InviteRead(invited: UserId, link: UserId)
    | InviteSet(invited: UserId, link: UserId)
    | InvitePoints(invited: UserId, link: UserId)
    | InviteBonus(invited: UserId, link: UserId)
    // set_fulfillment_status: services/orders.py:86-122
    | ShipRead(order: OrderId, to: Fulfilment)
    | ShipWrite(order: OrderId, to: Fulfilment)
    | Finished

  predicate Starts(p: Program) {
    p.ApproveRead? || p.AwardRead? || p.RejectRead? || p.RedeemRead? || p.AdjustRead?
    || p.CouponCheck? || p.InviteRead? || p.ShipRead?
  }

  /** The place of a status in the chain; None for cancelled, which is not in it. */
  function Place(f: Fulfilment): Option<nat> {
    match f
    case Processing => Some(0)
    case Packed => Some(1)
    case Shipped => Some(2)
    case Delivered => Some(3)
    case Cancelled => None
  }

  /** The rule set_fulfillment_status documents: one step along the chain, or from anywhere to cancelled. */
  predicate Documented(from: Fulfilment, to: Fulfilment) {
    if to == Cancelled then from != Cancelled
    else Place(from).Some? && Place(to).value == Place(from).value + 1
  }

  /** The moves it makes: a status outside the chain counts as the first of it. */
  predicate Ships(from: Fulfilment, to: Fulfilment) {
    if to == Cancelled then from != Cancelled
    else Place(to).value == (if Place(from).Some? then Place(from).value else 0) + 1
  }

  function TierId(lifetime: int, tiers: seq<Tier>): string {
    var t := TierFor(lifetime, tiers);
    if t.Some? then t.value.id else ""
  }

  predicate MayRedeem(cfg: Config, points: int) {
    cfg.loyaltyOn && points > 0 && cfg.redeemPoints > 0 && cfg.redeemToman > 0
    && !(cfg.minRedeem > 0 && points < cfg.minRedeem) && points % cfg.redeemPoints == 0
  }

  /** The call an actor makes next; None when it only reads. */
  function CallBy(cfg: Config, p: Program): Option<Call> {
    match p
    case ApproveDecide(o) => Some(ApproveOrder(o))
    case AwardEnsure(_, u, _, _) => Some(EnsurePoints(u))
    case AwardWrite(o, u, points, tier, _) => Some(Mutate(u, Purchase, points, Some(tier), Some(PurchaseKey(o))))
    case PayCommission(u, paid) => Some(RewardReferrer(u, paid))
    case RejectDecide(o, _) => Some(RejectOrder(o))
    case RefundWrite(o, u, amount) => Some(Mutate(u, PurchaseRefund, -amount, None, Some(RefundKey(o))))
    case RedeemRead(u, points, _) => if cfg.loyaltyOn && points > 0 then Some(EnsurePoints(u)) else None
    case RedeemWrite(u, points, toman, nonce) => Some(RedeemPoints(u, points, toman, RedeemKey(u, nonce)))
    case AdjustRead(u, amount) => if amount != 0 then Some(EnsurePoints(u)) else None
    case AdjustWrite(u, amount, tier) => Some(Mutate(u, AdminAdjustment, amount, Some(tier), None))
    case CouponClaim(r) => Some(ClaimWithCoupon(r))
    case InviteSet(u, r) => Some(SetReferrer(u, r))
    case InvitePoints(u, r) =>
      if cfg.loyaltyOn && cfg.referralPoints > 0
      then Some(Mutate(r, Referral, cfg.referralPoints, None, Some(ReferralKey(r, u)))) else None
    case InviteBonus(u, r) => Some(InviteReward(u, r))
    case ShipWrite(o, to) => Some(if to == Cancelled then CancelFulfilment(o) else SetFulfilment(o, to))
    case CouponPlace(r, lines, total, discount, seen) => Some(PlaceClaimed(r, lines, total, discount, seen))
    case _ => None
  }

  function CommissionOn(u: UserId, paid: int): Program { if paid > 0 then PayCommission(u, paid) else Finished }

  /** Where the actor stands afterwards; s is the store after its call, or the one it read. */
  function After(cfg: Config, s: Store, p: Program, reply: Reply): Program {
    match p
    case ApproveRead(o, checks) =>
      if 0 <= o < |s.orders| && (checks ==> s.orders[o].status == Pending) then ApproveDecide(o) else Finished
    case ApproveDecide(o) => if reply.Done? then AwardRead(o) else Finished
    case AwardRead(o) =>
      if 0 <= o < |s.orders| && s.orders[o].status == Approved then
        var order := s.orders[o];
        if cfg.loyaltyOn then AwardEnsure(o, order.user, AwardBase(order), PaidAmount(order))
        else CommissionOn(order.user, PaidAmount(order))
      else Finished
    case CouponCheck(r) => if MayClaim(cfg, s, r) then CouponClaim(r) else Finished
    case InviteRead(u, r) =>
      if u != r && !(u in s.users && s.users[u].referredBy.Some?) then InviteSet(u, r) else Finished
    case InviteSet(u, r) => InvitePoints(u, r)
    case InvitePoints(u, r) => InviteBonus(u, r)
    case ShipRead(o, to) =>
      if 0 <= o < |s.orders| && s.orders[o].kind != Digital && Ships(s.orders[o].fulfilment, to)
      then ShipWrite(o, to) else Finished
    case CouponClaim(r) =>
      if reply.Claimed? then CouponRead(r, reply.lines, reply.total, reply.discount) else Finished
    case CouponRead(r, lines, total, discount) => CouponPlace(r, lines, total, discount, CreditOf(s.users, r.user))
    case AwardEnsure(o, u, base, paid) =>
      if !reply.Done? then Finished
      else
        var earned := PointsOf(s.points, u).earned;
        var points := PurchasePoints(base, earned, cfg.perToman, cfg.maxPerOrder, cfg.tiers);
        if points <= 0 then CommissionOn(u, paid)
        else AwardWrite(o, u, points, TierId(earned + points, cfg.tiers), paid)
    case AwardWrite(_, u, _, _, paid) => if reply.Violation? then Finished else CommissionOn(u, paid)
    case RejectRead(o, guarded) => if IsPending(s, o) then RejectDecide(o, guarded) else Finished
    case RejectDecide(o, guarded) => if guarded && !reply.Done? then Finished else RefundFind(o)
    case RefundFind(o) =>
      var row := FindKey(s.ledger, PurchaseKey(o));
      if row.Some? then RefundWrite(o, row.value.user, row.value.amount) else Finished
    case RedeemRead(u, points, nonce) =>
      if reply.Done? && MayRedeem(cfg, points)
      then RedeemWrite(u, points, points / cfg.redeemPoints * cfg.redeemToman, nonce) else Finished
    case AdjustRead(u, amount) =>
      if reply.Done? && amount != 0
      then AdjustWrite(u, amount, TierId(PointsOf(s.points, u).earned + Max(amount, 0), cfg.tiers)) else Finished
    case _ => Finished
  }

  datatype System = System(s: Store, actors: map<nat, Program>)

  datatype Event =
    | Begin(actor: nat, program: Program)
    | Advance(actor: nat)
    | Crash(actor: nat)
    | Other(call: Call)

  function CallOf(cfg: Config, m: System, e: Event): Option<Call> {
    match e
    case Advance(a) => if a in m.actors then CallBy(cfg, m.actors[a]) else None
    case Other(call) => Some(call)
    case _ => None
  }

  function Effect(cfg: Config, s: Store, call: Option<Call>): (Store, Reply) {
    if call.Some? then Do(cfg, s, call.value) else (s, Refused)
  }

  function Step(cfg: Config, m: System, e: Event): System {
    var (s', reply) := Effect(cfg, m.s, CallOf(cfg, m, e));
    match e
    case Begin(a, p) => if a in m.actors || !Starts(p) then m else m.(actors := m.actors[a := p])
    case Advance(a) =>
      if a in m.actors then System(s', m.actors[a := After(cfg, s', m.actors[a], reply)]) else m
    case Crash(a) => m.(actors := m.actors - {a})
    case Other(_) => m.(s := s')
  }

  function Steps(cfg: Config, m: System, events: seq<Event>): System {
    if events == [] then m
    else Step(cfg, Steps(cfg, m, events[..|events| - 1]), events[|events| - 1])
  }

  lemma StepsNone(cfg: Config, m: System, events: seq<Event>)
    ensures Steps(cfg, m, events[..0]) == m
  {
  }

  lemma StepsLast(cfg: Config, m: System, events: seq<Event>, k: nat)
    requires k < |events|
    ensures Steps(cfg, m, events[..k + 1]) == Step(cfg, Steps(cfg, m, events[..k]), events[k])
  {
    assert events[..k + 1][..k] == events[..k];
  }

  lemma {:induction false} StepsConcat(cfg: Config, m: System, a: seq<Event>, b: seq<Event>)
    ensures Steps(cfg, m, a + b) == Steps(cfg, Steps(cfg, m, a), b)
  {
    hide Step;
    if b == [] {
      assert a + b == a;
    } else {
      var n := |b| - 1;
      assert (a + b)[..|a| + n] == a + b[..n];
      StepsConcat(cfg, m, a, b[..n]);
    }
  }

  lemma BeginStep(cfg: Config, m: System, a: nat, p: Program)
    requires a !in m.actors && Starts(p)
    ensures Step(cfg, m, Begin(a, p)) == System(m.s, m.actors[a := p])
  {
  }

  /** No event moves actor a or takes it away. */
  predicate Spares(events: seq<Event>, a: nat) { Advance(a) !in events && Crash(a) !in events }

  lemma {:induction false} SparedStands(cfg: Config, m: System, events: seq<Event>, a: nat)
    requires a in m.actors && Spares(events, a)
    ensures var m' := Steps(cfg, m, events); a in m'.actors && m'.actors[a] == m.actors[a]
  {
    hide Step;
    if events != [] {
      var n := |events| - 1;
      assert events[n] in events;
      SparedStands(cfg, m, events[..n], a);
      SparedOnce(cfg, Steps(cfg, m, events[..n]), events[n], a);
    }
  }

  lemma SparedOnce(cfg: Config, m: System, e: Event, a: nat)
    requires a in m.actors && e != Advance(a) && e != Crash(a)
    ensures var m' := Step(cfg, m, e); a in m'.actors && m'.actors[a] == m.actors[a]
  {
    hide Effect;
  }

  /** Calls of callers that are not actors: everything but the purchase, refund, adjustment and
      redemption entries and the placing of claimed carts, which only the programs do, and expiries,
      which nothing writes. */
  predicate Outside(call: Call) {
    && !call.RedeemPoints? && !call.PlaceClaimed?
    && (call.Mutate? ==> call.tier.None? && (call.kind == Registration || call.kind == Referral)
                         && !(call.key.Some? && (call.key.value.PurchaseKey? || call.key.value.RefundKey?)))
  }

  predicate Allowed(e: Event) { e.Other? ==> Outside(e.call) }

  // ------------------------------------------------------------------ actors are callers

  function CallsOf(cfg: Config, m: System, events: seq<Event>): seq<Call> {
    if events == [] then []
    else
      var n := |events| - 1;
      var call := CallOf(cfg, Steps(cfg, m, events[..n]), events[n]);
      CallsOf(cfg, m, events[..n]) + (if call.Some? then [call.value] else [])
  }

  /** Every interleaving of the programs is a run of calls, so whatever holds of all runs holds here. */
  lemma {:induction false} InterleavingIsRun(cfg: Config, m: System, b: Books, events: seq<Event>)
    requires b.s == m.s
    ensures Steps(cfg, m, events).s == Run(cfg, b, CallsOf(cfg, m, events)).s
  {
    if events != [] {
      var n := |events| - 1;
      InterleavingIsRun(cfg, m, b, events[..n]);
      StepIsCall(cfg, Steps(cfg, m, events[..n]), events[n]);
      var calls := CallsOf(cfg, m, events[..n]);
      var call := CallOf(cfg, Steps(cfg, m, events[..n]), events[n]);
      if call.Some? {
        assert (calls + [call.value])[..|calls|] == calls;
      } else {
        assert calls + [] == calls;
      }
    }
  }

  /** A step changes the store by its call, if it makes one, and not otherwise. */
  lemma StepIsCall(cfg: Config, m: System, e: Event)
    ensures Step(cfg, m, e).s == Effect(cfg, m.s, CallOf(cfg, m, e)).0
  {
  }

  // ------------------------------------------------------------------ what time does not undo

  /** s' is a later store than s. */
  predicate Later(s: Store, s': Store) {
    && |s.orders| <= |s'.orders|
    && (forall o | 0 <= o < |s.orders| :: SameOrder(s.orders[o], s'.orders[o]))
    && s.ledger <= s'.ledger
    && (forall u | u in s.points :: u in s'.points && s.points[u].earned <= s'.points[u].earned)
  }

  /** Points calls leave the orders alone, add to the ledger and lower nobody's total. */
  lemma MutateLater(s: Store, u: UserId, kind: TxKind, amount: int, tier: Option<string>, key: Option<Key>)
    ensures Later(s, DoMutate(s, u, kind, amount, tier, key).0)
  {
  }

  lemma RedeemLater(s: Store, u: UserId, points: int, toman: int, key: Key)
    ensures Later(s, DoRedeem(s, u, points, toman, key).0)
  {
  }

  lemma CallsLater(cfg: Config, s: Store, call: Call)
    ensures Later(s, Do(cfg, s, call).0)
  {
    hide DoOrders, DoReferrals, DoTopUps, DoShop, DoMutate, DoRedeem;
    match call
    case Mutate(u, kind, amount, tier, key) => MutateLater(s, u, kind, amount, tier, key);
    case RedeemPoints(u, points, toman, key) => RedeemLater(s, u, points, toman, key);
    case EnsurePoints(_) =>
    case _ =>
      OthersKeepPoints(cfg, s, call);
      OrdersStay(cfg, s, call);
  }

  lemma StepsLater(cfg: Config, m: System, e: Event)
    ensures Later(m.s, Step(cfg, m, e).s)
  {
    hide Do;
    StepIsCall(cfg, m, e);
    var call := CallOf(cfg, m, e);
    if call.Some? { CallsLater(cfg, m.s, call.value); }
  }

  lemma {:induction false} LedgerGrows(cfg: Config, m: System, events: seq<Event>)
    ensures m.s.ledger <= Steps(cfg, m, events).s.ledger
  {
    hide Step;
    if events != [] {
      var n := |events| - 1;
      LedgerGrows(cfg, m, events[..n]);
      StepsLater(cfg, Steps(cfg, m, events[..n]), events[n]);
    }
  }

  /** A key once in the ledger is found as the same row for ever. */
  lemma {:induction false} FoundStaysFound(ledger: seq<Row>, ledger': seq<Row>, k: Key)
    requires ledger <= ledger' && HasKey(ledger, k)
    ensures HasKey(ledger', k) && FindKey(ledger', k) == FindKey(ledger, k)
  {
    if |ledger| < |ledger'| {
      var n := |ledger'| - 1;
      assert ledger <= ledger'[..n];
      FoundStaysFound(ledger, ledger'[..n], k);
    } else {
      assert ledger' == ledger;
    }
  }
}
