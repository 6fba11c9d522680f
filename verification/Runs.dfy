/** Runs: any number of calls by any number of callers, in any order, with what is remembered about
    them.  The history fields are not tables; they record what callers were told. */
module Runs {
  import opened Tables
  import opened Calls

  datatype PayKind = Commission | Bonus | Manual

  datatype Payout = Payout(kind: PayKind, to: UserId, source: UserId, amount: int)

  /** opening and usedAtStart are the wallet balances and code uses the run starts from;
      paid lists the credits that leave no row of their own; wins holds (order, approved?) for every
      caller that was told its decision counted; born the orders that were inserted pending;
      released the orders whose reservation has been given back, as often as it was. */
  datatype Books = Books(
    s: Store, opening: map<UserId, int>, usedAtStart: map<CodeId, int>,
    paid: seq<Payout>, wins: multiset<(OrderId, bool)>, born: set<OrderId>, released: multiset<OrderId>)

  function Noted(paid: seq<Payout>, s: Store, call: Call, reply: Reply): seq<Payout> {
    match call
    case RewardReferrer(u, _) => if reply.Paid? then paid + [Payout(Commission, reply.to, u, reply.amount)] else paid
    case InviteReward(u, _) => if reply.Paid? then paid + [Payout(Bonus, reply.to, u, reply.amount)] else paid
    case AdjustCredit(u, delta) => if u in s.users then paid + [Payout(Manual, u, u, delta)] else paid
    case _ => paid
  }

  function Won(wins: multiset<(OrderId, bool)>, call: Call, reply: Reply): multiset<(OrderId, bool)> {
    match call
    case ApproveOrder(o) => if reply.Done? then wins[(o, true) := wins[(o, true)] + 1] else wins
    case RejectOrder(o) => if reply.Done? then wins[(o, false) := wins[(o, false)] + 1] else wins
    case _ => wins
  }

  function Born(born: set<OrderId>, s': Store, reply: Reply): set<OrderId> {
    if reply.Placed? && IsPending(s', reply.order) then born + {reply.order} else born
  }

  function Released(released: multiset<OrderId>, call: Call, reply: Reply): multiset<OrderId> {
    match call
    case RejectOrder(o) => if reply.Done? then released[o := released[o] + 1] else released
    case CancelFulfilment(o) => if reply.Done? then released[o := released[o] + 1] else released
    case _ => released
  }

  /** The books after a call with this result. */
  function Recorded(b: Books, call: Call, result: (Store, Reply)): Books {
    b.(s := result.0,
       paid := Noted(b.paid, b.s, call, result.1),
       wins := Won(b.wins, call, result.1),
       born := Born(b.born, result.0, result.1),
       released := Released(b.released, call, result.1))
  }

  function Record(cfg: Config, b: Books, call: Call): Books { Recorded(b, call, Do(cfg, b.s, call)) }

  function Run(cfg: Config, b: Books, calls: seq<Call>): Books {
    if calls == [] then b
    else Record(cfg, Run(cfg, b, calls[..|calls| - 1]), calls[|calls| - 1])
  }

  /** The state a run starts from: users, codes and stock as they are, nothing sold yet. */
  predicate Opening(b: Books) {
    && b.s.orders == [] && b.s.topups == [] && b.s.ledger == [] && b.s.placed == map[]
    && b.s.points == map[]
    && b.paid == [] && b.wins == multiset{} && b.born == {} && b.released == multiset{}
    && b.opening == (map u | u in b.s.users :: b.s.users[u].credit)
    && b.usedAtStart == (map c | c in b.s.codes :: b.s.codes[c].used)
    && (forall u | u in b.s.users ::
          b.s.users[u] == User(b.s.users[u].credit, None, false, false) && b.s.users[u].credit >= 0)
    && (forall c | c in b.s.codes :: b.s.codes[c].used >= 0)
    && (forall v | v in b.s.stock :: b.s.stock[v].reserved == 0 <= b.s.stock[v].onHand)
    && (forall u | u in b.s.carts :: u in b.s.users && forall l | l in b.s.carts[u] :: WellFormedLine(l))
  }

  /** What add_to_cart and the table's CHECK guarantee of a cart row (services/cart.py:15-45,
      database.py:757-767): a positive quantity, a variant for physical goods and only for them. */
  predicate WellFormedLine(l: CartLine) {
    l.quantity > 0 && (l.physical <==> l.variant.Some?)
  }

  // ------------------------------------------------------------------ which calls write which table

  /** Balances may differ, referral columns do not. */
  predicate SameReferrals(users: map<UserId, User>, users': map<UserId, User>) {
    && users'.Keys == users.Keys
    && forall u | u in users :: users'[u] == users[u].(credit := users'[u].credit)
  }

  /** What a call about orders leaves alone. */
  predicate OrdersOnly(s: Store, s': Store) {
    s'.topups == s.topups && s'.points == s.points && s'.ledger == s.ledger && SameReferrals(s.users, s'.users)
  }

  /** Order rows keep everything but their status and their fulfilment, a decided order keeps its status,
      and a key keeps its order. */
  predicate OrdersStand(s: Store, s': Store) {
    && |s.orders| <= |s'.orders|
    && (forall o | 0 <= o < |s.orders| :: SameOrder(s.orders[o], s'.orders[o]))
    && (forall k | k in s.placed :: k in s'.placed && s'.placed[k] == s.placed[k])
  }

  predicate SameOrder(a: Order, b: Order) {
    && b == a.(status := b.status, fulfilment := b.fulfilment)
    && (a.status != Pending ==> b.status == a.status)
  }

  lemma PlacementFrame(s: Store, order: Order)
    ensures OrdersOnly(s, Placement(s, order)) && OrdersStand(s, Placement(s, order))
  {
  }

  lemma PayAndPlaceFrame(cfg: Config, s: Store, r: Request, committed: Store, lines: seq<CartLine>, q: Quote)
    requires committed == s || committed == s.(carts := committed.carts)
    ensures OrdersOnly(s, PayAndPlace(cfg, s, r, committed, lines, q).0)
    ensures OrdersStand(s, PayAndPlace(cfg, s, r, committed, lines, q).0)
  {
    hide Placement;
    PlacementFrame(s, OrderFor(cfg, r, lines, q));
  }

  lemma CheckoutFrame(cfg: Config, s: Store, r: Request)
    ensures OrdersOnly(s, DoCheckout(cfg, s, r).0) && OrdersStand(s, DoCheckout(cfg, s, r).0)
  {
    hide PayAndPlace;
    var claimed := ClaimCart(s, r.user);
    PayAndPlaceFrame(cfg, claimed, r, if r.coupon.Some? then claimed else s, CartOf(s.carts, r.user),
                     RequestQuote(s, r));
  }

  lemma RejectFrame(s: Store, o: OrderId)
    ensures OrdersOnly(s, DoRejectOrder(s, o).0) && OrdersStand(s, DoRejectOrder(s, o).0)
  {
  }

  lemma ApproveFrame(s: Store, o: OrderId)
    ensures OrdersOnly(s, DoApproveOrder(s, o).0) && OrdersStand(s, DoApproveOrder(s, o).0)
  {
  }

  lemma CancelFrame(s: Store, o: OrderId)
    ensures OrdersOnly(s, DoCancelFulfilment(s, o).0) && OrdersStand(s, DoCancelFulfilment(s, o).0)
  {
  }

  lemma SetFrame(s: Store, o: OrderId, to: Fulfilment)
    ensures OrdersOnly(s, DoSetFulfilment(s, o, to).0) && OrdersStand(s, DoSetFulfilment(s, o, to).0)
  {
  }

  lemma ClaimFrame(s: Store, r: Request)
    ensures DoClaim(s, r).0 == s || DoClaim(s, r).0 == ClaimCart(s, r.user)
  {
  }

  lemma OrdersFrame(cfg: Config, s: Store, call: Call)
    requires WritesOrders(call)
    ensures OrdersOnly(s, DoOrders(cfg, s, call).0) && OrdersStand(s, DoOrders(cfg, s, call).0)
  {
    hide DoCheckout, DoClaim, DoRejectOrder, DoApproveOrder, DoCancelFulfilment, DoSetFulfilment, PayAndPlace;
    match call
    case Checkout(r) => CheckoutFrame(cfg, s, r);
    case ClaimWithCoupon(r) => ClaimFrame(s, r);
    case PlaceClaimed(r, lines, total, discount, seen) =>
      PayAndPlaceFrame(cfg, s, r, s, lines, QuoteFor(total, discount, seen, ShippingCost(r, lines)));
    case RejectOrder(o) => RejectFrame(s, o);
    case ApproveOrder(o) => ApproveFrame(s, o);
    case CancelFulfilment(o) => CancelFrame(s, o);
    case SetFulfilment(o, to) => SetFrame(s, o, to);
  }

  lemma PointsFrame(s: Store, call: Call)
    requires WritesPoints(call)
    ensures var (s', reply) := DoPoints(s, call);
            && s' == s.(users := s'.users, points := s'.points, ledger := s'.ledger) && !reply.Placed?
            && SameReferrals(s.users, s'.users)
  {
  }

  lemma ReferralsFrame(cfg: Config, s: Store, call: Call)
    requires WritesReferrals(call)
    ensures var (s', reply) := DoReferrals(cfg, s, call);
            s' == s.(users := s'.users) && !reply.Placed? && s.users.Keys <= s'.users.Keys
  {
  }

  lemma TopUpsFrame(s: Store, call: Call)
    requires WritesTopUps(call)
    ensures var (s', reply) := DoTopUps(s, call);
            && s' == s.(users := s'.users, topups := s'.topups) && !reply.Placed?
            && SameReferrals(s.users, s'.users)
  {
  }

  lemma ShopFrame(s: Store, call: Call)
    requires WritesShop(call)
    ensures var (s', reply) := DoShop(s, call);
            s' == s.(carts := s'.carts, codes := s'.codes, stock := s'.stock) && !reply.Placed?
  {
  }

  lemma OthersKeepOrders(cfg: Config, s: Store, call: Call)
    requires !WritesOrders(call)
    ensures var (s', reply) := Do(cfg, s, call);
            s'.orders == s.orders && s'.placed == s.placed && !reply.Placed?
  {
    Frames(cfg, s, call);
  }

  /** The frame of a call that is not about orders. */
  lemma Frames(cfg: Config, s: Store, call: Call)
    requires !WritesOrders(call)
    ensures var (s', reply) := Do(cfg, s, call);
            && s'.orders == s.orders && s'.placed == s.placed && !reply.Placed?
            && (!WritesPoints(call) ==> s'.points == s.points && s'.ledger == s.ledger)
            && (!WritesTopUps(call) ==> s'.topups == s.topups)
            && (!WritesReferrals(call) ==> SameReferrals(s.users, s'.users))
            && (!WritesShop(call) ==> s'.carts == s.carts && s'.codes == s.codes && s'.stock == s.stock)
            && s.users.Keys <= s'.users.Keys
  {
    hide DoPoints, DoReferrals, DoTopUps, DoShop;
    if WritesPoints(call) {
      PointsFrame(s, call);
    } else if WritesReferrals(call) {
      ReferralsFrame(cfg, s, call);
    } else if WritesTopUps(call) {
      TopUpsFrame(s, call);
    } else {
      ShopFrame(s, call);
    }
  }

  lemma OthersKeepPoints(cfg: Config, s: Store, call: Call)
    requires !WritesPoints(call)
    ensures Do(cfg, s, call).0.points == s.points && Do(cfg, s, call).0.ledger == s.ledger
  {
    hide DoOrders, DoPoints, DoReferrals, DoTopUps, DoShop;
    if WritesOrders(call) { OrdersFrame(cfg, s, call); } else { Frames(cfg, s, call); }
  }

  /** A checkout that places nothing changes at most the cart. */
  lemma FailedCheckoutKeeps(cfg: Config, s: Store, r: Request)
    requires !DoCheckout(cfg, s, r).1.Placed?
    ensures var s' := DoCheckout(cfg, s, r).0;
            s' == s.(carts := s'.carts) && (forall u | u in s'.carts :: u in s.carts && s'.carts[u] == s.carts[u])
  {
  }

  lemma OrdersStay(cfg: Config, s: Store, call: Call)
    ensures OrdersStand(s, Do(cfg, s, call).0)
  {
    hide DoOrders, DoPoints, DoReferrals, DoTopUps, DoShop;
    if WritesOrders(call) { OrdersFrame(cfg, s, call); } else { Frames(cfg, s, call); }
  }
}
