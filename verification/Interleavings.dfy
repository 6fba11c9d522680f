/** The books under every interleaving of the programs: what the run theorems ask of callers is what the
    programs do by themselves, so it is asked of outside callers only. */
module Interleavings {
  import opened Tables
  import opened Calls
  import opened Runs
  import opened Programs
  import W = WalletBooks
  import K = StockBooks
  import L = LedgerBooks
  import O = OrderBooks
  import R = ReferralBooks

  /** A system and its books, moving together. */
  datatype Shop = Shop(m: System, b: Books)

  function Move(cfg: Config, x: Shop, e: Event): Shop {
    var call := CallOf(cfg, x.m, e);
    Shop(Step(cfg, x.m, e), if call.Some? then Record(cfg, x.b, call.value) else x.b)
  }

  function Moves(cfg: Config, x: Shop, events: seq<Event>): Shop {
    if events == [] then x else Move(cfg, Moves(cfg, x, events[..|events| - 1]), events[|events| - 1])
  }

  /** The books of a system, with nobody under way yet. */
  predicate Opens(x: Shop) { Opening(x.b) && x.m == System(x.b.s, map[]) }

  lemma MoveStore(cfg: Config, x: Shop, e: Event)
    requires x.b.s == x.m.s
    ensures Move(cfg, x, e).b.s == Move(cfg, x, e).m.s
  {
    hide Do;
    StepIsCall(cfg, x.m, e);
  }

  lemma UsersStay(cfg: Config, s: Store, call: Call)
    ensures s.users.Keys <= Do(cfg, s, call).0.users.Keys
  {
    hide DoOrders, DoPoints, DoReferrals, DoTopUps, DoShop;
    if WritesOrders(call) { OrdersFrame(cfg, s, call); } else { Frames(cfg, s, call); }
  }

  lemma ClaimEffect(cfg: Config, s: Store, r: Request)
    ensures Effect(cfg, s, Some(ClaimWithCoupon(r))) == DoClaim(s, r)
  {
  }

  lemma ReadEffect(cfg: Config, s: Store)
    ensures Effect(cfg, s, None) == (s, Refused)
  {
  }

  // ------------------------------------------------------------------ money, points and decisions

  /** What is asked of an outside caller: corrections within the balance, and top-ups by registered users
      of amounts that are not negative. */
  predicate FairEvent(cfg: Config, x: Shop, e: Event) {
    e.Other? ==> Outside(e.call) && W.FairToWallet(cfg, x.b.s, e.call)
  }

  predicate FairEvents(cfg: Config, x: Shop, events: seq<Event>) {
    || events == []
    || (var n := |events| - 1;
        FairEvents(cfg, x, events[..n]) && FairEvent(cfg, Moves(cfg, x, events[..n]), events[n]))
  }

  /** What an actor carries is fit for its next call, whatever has happened since it read. */
  predicate Fit(s: Store, p: Program) {
    match p
    case PayCommission(_, paid) => paid >= 0
    case RedeemWrite(_, points, toman, _) => points >= 0 && toman >= 0
    case CouponRead(r, _, _, _) => r.user in s.users
    case CouponPlace(r, _, _, _, seen) => r.user in s.users && seen >= 0
    case _ => true
  }

  ghost predicate BooksInOrder(cfg: Config, b: Books) {
    && W.Balanced(b) && W.Solvent(b.s) && L.LedgerSound(b.s)
    && O.Decided(b) && O.CodesCounted(b) && R.CommissionsCapped(cfg, b)
  }

  ghost predicate InOrder(cfg: Config, x: Shop) {
    x.b.s == x.m.s && BooksInOrder(cfg, x.b) && forall a | a in x.m.actors :: Fit(x.m.s, x.m.actors[a])
  }

  lemma FitStays(s: Store, s': Store, p: Program)
    requires Fit(s, p) && s.users.Keys <= s'.users.Keys
    ensures Fit(s', p)
  {
  }

  /** A claim is one of a registered user. */
  lemma ClaimFits(s: Store, r: Request)
    requires W.Solvent(s) && DoClaim(s, r).1.Claimed?
    ensures r.user in s.users
  {
    assert CartOf(s.carts, r.user) != [];
  }

  lemma RedeemFits(cfg: Config, points: int)
    ensures MayRedeem(cfg, points) ==> points / cfg.redeemPoints * cfg.redeemToman >= 0
  {
    if MayRedeem(cfg, points) { assert points / cfg.redeemPoints >= 0; }
  }

  /** The places that carry something on, one by one. */
  lemma ClaimAfterFits(cfg: Config, s: Store, s': Store, r: Request)
    requires W.Solvent(s) && s.users.Keys <= s'.users.Keys
    ensures Fit(s', After(cfg, s', CouponClaim(r), DoClaim(s, r).1))
  {
    hide DoClaim, W.Solvent;
    if DoClaim(s, r).1.Claimed? { ClaimFits(s, r); }
  }

  lemma ReadAfterFits(cfg: Config, s: Store, p: Program, reply: Reply)
    requires p.CouponRead? && Fit(s, p) && W.Solvent(s)
    ensures Fit(s, After(cfg, s, p, reply))
  {
  }

  lemma RedeemAfterFits(cfg: Config, s: Store, p: Program, reply: Reply)
    requires p.RedeemRead?
    ensures Fit(s, After(cfg, s, p, reply))
  {
    RedeemFits(cfg, p.points);
  }

  lemma OtherAfterFits(cfg: Config, s: Store, p: Program, reply: Reply)
    requires !p.CouponClaim? && !p.CouponRead? && !p.RedeemRead?
    ensures Fit(s, After(cfg, s, p, reply))
  {
    hide FindKey;
  }

  lemma AdvanceFits(cfg: Config, s: Store, p: Program)
    requires Fit(s, p) && W.Solvent(s)
    requires s.users.Keys <= Effect(cfg, s, CallBy(cfg, p)).0.users.Keys
    ensures var (s', reply) := Effect(cfg, s, CallBy(cfg, p)); Fit(s', After(cfg, s', p, reply))
  {
    hide Effect, After, Fit, W.Solvent;
    var (s', reply) := Effect(cfg, s, CallBy(cfg, p));
    if p.CouponClaim? {
      ClaimEffect(cfg, s, p.request);
      ClaimAfterFits(cfg, s, s', p.request);
    } else if p.CouponRead? {
      ReadEffect(cfg, s);
      ReadAfterFits(cfg, s, p, reply);
    } else if p.RedeemRead? {
      RedeemAfterFits(cfg, s', p, reply);
    } else {
      OtherAfterFits(cfg, s', p, reply);
    }
  }

  lemma ActorFits(cfg: Config, x: Shop, e: Event, a: nat)
    requires InOrder(cfg, x) && x.m.s.users.Keys <= Step(cfg, x.m, e).s.users.Keys
    requires a in Step(cfg, x.m, e).actors
    ensures Fit(Step(cfg, x.m, e).s, Step(cfg, x.m, e).actors[a])
  {
    hide Effect, After, W.Balanced, W.Solvent, L.LedgerSound, O.Decided, O.CodesCounted, R.CommissionsCapped;
    StepIsCall(cfg, x.m, e);
    if e.Advance? && a == e.actor {
      AdvanceFits(cfg, x.m.s, x.m.actors[a]);
    } else if a in x.m.actors {
      FitStays(x.m.s, Step(cfg, x.m, e).s, x.m.actors[a]);
    }
  }

  /** The programs ask nothing unfair of the books by themselves. */
  lemma CallIsFair(cfg: Config, x: Shop, e: Event)
    requires InOrder(cfg, x) && FairEvent(cfg, x, e) && cfg.percent >= 0
    ensures var call := CallOf(cfg, x.m, e);
            call.Some? ==>
              && W.FairToWallet(cfg, x.b.s, call.value)
              && (call.value.RedeemPoints? ==> call.value.points >= 0)
  {
    hide BooksInOrder;
    if e.Advance? && e.actor in x.m.actors { assert Fit(x.m.s, x.m.actors[e.actor]); }
  }

  lemma BooksKept(cfg: Config, b: Books, call: Call)
    requires BooksInOrder(cfg, b) && W.FairToWallet(cfg, b.s, call)
    requires call.RedeemPoints? ==> call.points >= 0
    ensures BooksInOrder(cfg, Record(cfg, b, call))
  {
    hide Do, W.Balanced, W.Solvent, L.LedgerSound, O.Decided, O.CodesCounted, R.CommissionsCapped;
    W.StepBalances(cfg, b, call);
    L.StepLedger(cfg, b.s, call);
    O.StepDecided(cfg, b, call);
    O.StepCodes(cfg, b, call);
    R.StepCapped(cfg, b, call);
  }

  lemma MoveInOrder(cfg: Config, x: Shop, e: Event)
    requires InOrder(cfg, x) && FairEvent(cfg, x, e) && cfg.percent >= 0
    ensures InOrder(cfg, Move(cfg, x, e))
  {
    hide Do, Step, BooksInOrder;
    var x' := Move(cfg, x, e);
    var call := CallOf(cfg, x.m, e);
    MoveStore(cfg, x, e);
    CallIsFair(cfg, x, e);
    if call.Some? {
      BooksKept(cfg, x.b, call.value);
      UsersStay(cfg, x.b.s, call.value);
    }
    StepIsCall(cfg, x.m, e);
    forall a | a in x'.m.actors ensures Fit(x'.m.s, x'.m.actors[a]) {
      ActorFits(cfg, x, e, a);
    }
  }

  /** In every interleaving of approvals, rejections, awards, refunds, redemptions, adjustments, shipping
      requests, invitations and two-step coupon checkouts: the wallets balance and are never negative,
      the ledger replays, every order has one winner, codes are used as often as they are held,
      commissions stop at their cap, and nobody is paid twice for the same user. */
  lemma {:induction false} EveryInterleavingInOrder(cfg: Config, x: Shop, events: seq<Event>)
    requires Opens(x) && cfg.percent >= 0
    requires FairEvents(cfg, x, events)
    ensures InOrder(cfg, Moves(cfg, x, events))
  {
    hide Move;
    if events == [] {
      W.WalletConserved(cfg, x.b, []);
      L.LedgerReplays(cfg, x.b, []);
      O.OneWinner(cfg, x.b, []);
      O.CodeUsesConserved(cfg, x.b, []);
      R.CommissionCaps(cfg, x.b, []);
    } else {
      var n := |events| - 1;
      EveryInterleavingInOrder(cfg, x, events[..n]);
      MoveInOrder(cfg, Moves(cfg, x, events[..n]), events[n]);
    }
  }

  // ------------------------------------------------------------------ stock

  /** What is asked for the stock: of an outside caller, carts filled through add_to_cart, and corrections
      and deletions that leave what is reserved; of everyone, that a delivery is cancelled only once and
      only after its order has been decided. */
  predicate FairStockEvent(cfg: Config, x: Shop, e: Event) {
    && (e.Other? ==> Outside(e.call) && K.FairToStock(x.b, e.call))
    && (var call := CallOf(cfg, x.m, e);
        call.Some? && call.value.CancelFulfilment? ==>
          !IsPending(x.b.s, call.value.order) && call.value.order !in x.b.released)
  }

  predicate FairStockEvents(cfg: Config, x: Shop, events: seq<Event>) {
    || events == []
    || (var n := |events| - 1;
        FairStockEvents(cfg, x, events[..n]) && FairStockEvent(cfg, Moves(cfg, x, events[..n]), events[n]))
  }

  /** Claimed carts hold well-formed lines. */
  predicate LinesFit(p: Program) {
    p.CouponRead? || p.CouponPlace? ==> forall l | l in p.lines :: WellFormedLine(l)
  }

  ghost predicate StockInOrder(x: Shop) {
    && x.b.s == x.m.s && K.Stocked(x.b) && K.Sound(x.b.s)
    && (forall o | o in x.b.released :: !IsPending(x.b.s, o))
    && (forall a | a in x.m.actors :: LinesFit(x.m.actors[a]))
  }

  lemma CallIsFairToStock(cfg: Config, x: Shop, e: Event)
    requires StockInOrder(x) && FairStockEvent(cfg, x, e)
    ensures var call := CallOf(cfg, x.m, e);
            call.Some? ==>
              && K.FairToStock(x.b, call.value)
              && (call.value.CancelFulfilment? ==> !IsPending(x.b.s, call.value.order))
  {
    hide K.Stocked, K.Sound;
    if e.Advance? && e.actor in x.m.actors { assert LinesFit(x.m.actors[e.actor]); }
  }

  lemma ReleasedDecided(cfg: Config, b: Books, call: Call)
    requires K.Stocked(b) && forall o | o in b.released :: !IsPending(b.s, o)
    requires call.CancelFulfilment? ==> !IsPending(b.s, call.order)
    ensures var b' := Record(cfg, b, call); forall o | o in b'.released :: !IsPending(b'.s, o)
  {
    hide DoCheckout, DoClaim, DoPlaceClaimed, DoSetFulfilment, DoPoints, DoReferrals, DoTopUps, DoShop;
    OrdersStay(cfg, b.s, call);
    var b' := Record(cfg, b, call);
    forall o | o in b'.released ensures !IsPending(b'.s, o) {
      if o in b.released { assert SameOrder(b.s.orders[o], b'.s.orders[o]); }
    }
  }

  lemma AdvanceLines(cfg: Config, s: Store, p: Program)
    requires LinesFit(p) && K.Sound(s)
    ensures var (s', reply) := Effect(cfg, s, CallBy(cfg, p)); LinesFit(After(cfg, s', p, reply))
  {
    hide Effect, FindKey;
    if p.CouponClaim? { ClaimEffect(cfg, s, p.request); }
  }

  lemma ActorLines(cfg: Config, x: Shop, e: Event, a: nat)
    requires StockInOrder(x) && a in Step(cfg, x.m, e).actors
    ensures LinesFit(Step(cfg, x.m, e).actors[a])
  {
    hide Effect, After, K.Stocked, K.Sound;
    if e.Advance? && a == e.actor { AdvanceLines(cfg, x.m.s, x.m.actors[a]); }
  }

  lemma MoveStockInOrder(cfg: Config, x: Shop, e: Event)
    requires StockInOrder(x) && FairStockEvent(cfg, x, e)
    ensures StockInOrder(Move(cfg, x, e))
  {
    hide Do, Step, K.Sound;
    var x' := Move(cfg, x, e);
    var call := CallOf(cfg, x.m, e);
    MoveStore(cfg, x, e);
    CallIsFairToStock(cfg, x, e);
    if call.Some? {
      K.StepStocked(cfg, x.b, call.value);
      ReleasedDecided(cfg, x.b, call.value);
    }
    forall a | a in x'.m.actors ensures LinesFit(x'.m.actors[a]) {
      ActorLines(cfg, x, e, a);
    }
  }

  /** In every such interleaving, reserved stock is what the orders that still hold it add up to, and is
      on hand. */
  lemma {:induction false} EveryInterleavingStocked(cfg: Config, x: Shop, events: seq<Event>)
    requires Opens(x) && FairStockEvents(cfg, x, events)
    ensures StockInOrder(Moves(cfg, x, events))
  {
    hide Move;
    if events == [] {
      K.StockConserved(cfg, x.b, []);
    } else {
      var n := |events| - 1;
      EveryInterleavingStocked(cfg, x, events[..n]);
      MoveStockInOrder(cfg, Moves(cfg, x, events[..n]), events[n]);
    }
  }
}
