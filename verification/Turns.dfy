/** Checkouts that take turns: what keeps keys unique and goods bought once when checkouts with a coupon,
    which are a look and two transactions, interleave with everything else. */
module Turns {
  import opened Tables
  import opened Calls
  import opened Runs
  import opened Programs
  import C = CheckoutBooks

  /** An actor in the middle of a checkout with a coupon, and one that holds a claimed cart. */
  predicate Checking(p: Program) { p.CouponCheck? || p.CouponClaim? || p.CouponRead? || p.CouponPlace? }

  predicate Holds(p: Program) { p.CouponRead? || p.CouponPlace? }

  function RequestOf(p: Program): Request
    requires Checking(p)
  {
    if p.CouponCheck? || p.CouponClaim? then p.request else p.claimed
  }

  lemma NextPlace(cfg: Config, s: Store, p: Program, reply: Reply)
    ensures var p' := After(cfg, s, p, reply);
            && (Checking(p') ==> Checking(p) && RequestOf(p') == RequestOf(p))
            && (Holds(p') ==>
                  || (p.CouponClaim? && reply.Claimed? && p'.lines == reply.lines)
                  || (p.CouponRead? && p'.lines == p.lines))
  {
    hide FindKey;
  }

  /** Where the actors of the next state come from. */
  lemma ActorBefore(cfg: Config, m: System, e: Event, a: nat)
    requires a in Step(cfg, m, e).actors
    ensures var p', call := Step(cfg, m, e).actors[a], CallOf(cfg, m, e);
            if a !in m.actors then e == Begin(a, p') && Starts(p')
            else if e == Advance(a) then
              && call == CallBy(cfg, m.actors[a])
              && p' == After(cfg, Effect(cfg, m.s, call).0, m.actors[a], Effect(cfg, m.s, call).1)
            else p' == m.actors[a]
  {
    hide Effect, After, CallBy;
  }

  lemma CheckingBefore(cfg: Config, m: System, e: Event, a: nat)
    requires a in Step(cfg, m, e).actors && Checking(Step(cfg, m, e).actors[a])
    ensures var p' := Step(cfg, m, e).actors[a];
            if a !in m.actors then e == Begin(a, p')
            else Checking(m.actors[a]) && RequestOf(m.actors[a]) == RequestOf(p')
  {
    hide Effect, After, CallBy, Step;
    ActorBefore(cfg, m, e, a);
    if a in m.actors && e == Advance(a) {
      var result := Effect(cfg, m.s, CallOf(cfg, m, e));
      NextPlace(cfg, result.0, m.actors[a], result.1);
    }
  }

  lemma ClaimChecks(cfg: Config, s: Store, r: Request)
    requires Effect(cfg, s, Some(ClaimWithCoupon(r))).1.Claimed?
    ensures var (s', reply) := Effect(cfg, s, Some(ClaimWithCoupon(r)));
            && r.key !in s.placed && s'.placed == s.placed && s'.orders == s.orders
            && !OwnsAny(s.orders, r.user, reply.lines)
  {
  }

  lemma ReadKeeps(cfg: Config, s: Store)
    ensures Effect(cfg, s, None) == (s, Refused)
  {
  }

  /** A holder has held before, or has just claimed. */
  lemma HoldsBefore(cfg: Config, m: System, e: Event, a: nat)
    requires a in Step(cfg, m, e).actors && Holds(Step(cfg, m, e).actors[a])
    ensures var p', s' := Step(cfg, m, e).actors[a], Step(cfg, m, e).s;
            && a in m.actors && Checking(m.actors[a]) && RequestOf(m.actors[a]) == RequestOf(p')
            && if e == Advance(a)
               then && s'.placed == m.s.placed && s'.orders == m.s.orders
                    && (if m.actors[a].CouponClaim?
                        then RequestOf(p').key !in s'.placed && !OwnsAny(s'.orders, RequestOf(p').user, p'.lines)
                        else Holds(m.actors[a]) && p'.lines == m.actors[a].lines)
               else p' == m.actors[a]
  {
    hide Effect, After, Step, OwnsAny;
    ActorBefore(cfg, m, e, a);
    CheckingBefore(cfg, m, e, a);
    StepIsCall(cfg, m, e);
    if e == Advance(a) && a in m.actors {
      var p := m.actors[a];
      var result := Effect(cfg, m.s, CallBy(cfg, p));
      NextPlace(cfg, result.0, p, result.1);
      if p.CouponClaim? { ClaimChecks(cfg, m.s, p.request); } else { ReadKeeps(cfg, m.s); }
    }
  }

  // ------------------------------------------------------------------ keys

  predicate KeysApart(m: System) {
    forall a, c | a in m.actors && c in m.actors && a != c && Checking(m.actors[a]) && Checking(m.actors[c]) ::
      RequestOf(m.actors[a]).key != RequestOf(m.actors[c]).key
  }

  /** A claimed cart's key is still free. */
  predicate KeysFree(m: System) {
    forall a | a in m.actors && Holds(m.actors[a]) :: RequestOf(m.actors[a]).key !in m.s.placed
  }

  /** No checkout starts while another with its key is under way, and none without a coupon is made while
      a claimed cart with its key waits. */
  predicate KeyTurn(m: System, e: Event) {
    match e
    case Begin(_, p) =>
      Checking(p) ==>
        forall c | c in m.actors && Checking(m.actors[c]) :: RequestOf(m.actors[c]).key != RequestOf(p).key
    case Other(call) =>
      && !call.PlaceClaimed?
      && (call.Checkout? ==>
            forall c | c in m.actors && Holds(m.actors[c]) :: RequestOf(m.actors[c]).key != call.request.key)
    case _ => true
  }

  predicate KeyTurns(cfg: Config, m: System, events: seq<Event>) {
    || events == []
    || (var n := |events| - 1;
        KeyTurns(cfg, m, events[..n]) && KeyTurn(Steps(cfg, m, events[..n]), events[n]))
  }

  predicate Places(call: Call, key: string) { (call.Checkout? || call.PlaceClaimed?) && call.request.key == key }

  lemma PayAndPlaceKey(cfg: Config, s: Store, r: Request, committed: Store, lines: seq<CartLine>, q: Quote, k: string)
    requires committed.placed == s.placed && k in PayAndPlace(cfg, s, r, committed, lines, q).0.placed
    ensures k in s.placed || k == r.key
  {
  }

  lemma CheckoutKey(cfg: Config, s: Store, r: Request, k: string)
    requires k in DoCheckout(cfg, s, r).0.placed
    ensures k in s.placed || k == r.key
  {
    hide PayAndPlace;
    if r.key !in s.placed && EarlyFault(cfg, s, r).None? {
      var claimed := ClaimCart(s, r.user);
      PayAndPlaceKey(cfg, claimed, r, if r.coupon.Some? then claimed else s, CartOf(s.carts, r.user),
                     RequestQuote(s, r), k);
    }
  }

  lemma KeyPlaced(cfg: Config, s: Store, call: Call, k: string)
    requires k in Do(cfg, s, call).0.placed
    ensures k in s.placed || Places(call, k)
  {
    hide DoPoints, DoReferrals, DoTopUps, DoShop, DoCheckout, PayAndPlace;
    if call.Checkout? {
      CheckoutKey(cfg, s, call.request, k);
    } else if call.PlaceClaimed? {
      var q := QuoteFor(call.total, call.discount, call.seen, ShippingCost(call.request, call.lines));
      PayAndPlaceKey(cfg, s, call.request, s, call.lines, q, k);
    } else if WritesOrders(call) {
      C.DecisionKeeps(cfg, s, call);
    } else {
      OthersKeepOrders(cfg, s, call);
    }
  }

  predicate KeysSound(m: System) { C.Keyed(m.s) && KeysApart(m) && KeysFree(m) }

  /** Who places a key: an outside checkout, or an actor with that key. */
  lemma PlacedBy(cfg: Config, m: System, e: Event, k: string)
    requires KeyTurn(m, e) && k !in m.s.placed && k in Step(cfg, m, e).s.placed
    ensures || (e.Other? && e.call.Checkout? && e.call.request.key == k)
            || (e.Advance? && e.actor in m.actors && m.actors[e.actor].CouponPlace?
                && RequestOf(m.actors[e.actor]).key == k)
  {
    hide Step, Do;
    StepIsCall(cfg, m, e);
    var call := CallOf(cfg, m, e);
    if call.Some? { KeyPlaced(cfg, m.s, call.value, k); }
  }

  lemma StepKeysFree(cfg: Config, m: System, e: Event, a: nat)
    requires KeysSound(m) && KeyTurn(m, e) && a in Step(cfg, m, e).actors && Holds(Step(cfg, m, e).actors[a])
    ensures RequestOf(Step(cfg, m, e).actors[a]).key !in Step(cfg, m, e).s.placed
  {
    hide Step, C.Keyed;
    HoldsBefore(cfg, m, e, a);
    var k := RequestOf(m.actors[a]).key;
    if k in Step(cfg, m, e).s.placed && k !in m.s.placed { PlacedBy(cfg, m, e, k); }
  }

  lemma StepKeysApart(cfg: Config, m: System, e: Event)
    requires KeysApart(m) && KeyTurn(m, e)
    ensures KeysApart(Step(cfg, m, e))
  {
    hide Step;
    var m' := Step(cfg, m, e);
    forall a, c | a in m'.actors && c in m'.actors && a != c && Checking(m'.actors[a]) && Checking(m'.actors[c])
      ensures RequestOf(m'.actors[a]).key != RequestOf(m'.actors[c]).key
    {
      CheckingBefore(cfg, m, e, a);
      CheckingBefore(cfg, m, e, c);
    }
  }

  lemma PlacesFree(cfg: Config, m: System, e: Event)
    requires KeysFree(m) && KeyTurn(m, e)
    ensures var call := CallOf(cfg, m, e); call.Some? ==> C.FairToKeys(m.s, call.value)
  {
  }

  lemma StepKeysSound(cfg: Config, m: System, e: Event)
    requires KeysSound(m) && KeyTurn(m, e)
    ensures KeysSound(Step(cfg, m, e))
  {
    hide Step, Do, C.Keyed, KeysApart, KeyTurn;
    StepIsCall(cfg, m, e);
    PlacesFree(cfg, m, e);
    var call := CallOf(cfg, m, e);
    if call.Some? { C.StepKeyed(cfg, m.s, call.value); }
    StepKeysApart(cfg, m, e);
    var m' := Step(cfg, m, e);
    forall a | a in m'.actors && Holds(m'.actors[a]) ensures RequestOf(m'.actors[a]).key !in m'.s.placed {
      StepKeysFree(cfg, m, e, a);
    }
  }

  predicate Unsold(m: System) { m.s.orders == [] && m.s.placed == map[] && m.actors == map[] }

  /** In every interleaving in which checkouts with one key take turns, no two orders share a key. */
  lemma {:induction false} OneOrderPerKeyInTurns(cfg: Config, m: System, events: seq<Event>)
    requires Unsold(m) && KeyTurns(cfg, m, events)
    ensures KeysSound(Steps(cfg, m, events))
    ensures var orders := Steps(cfg, m, events).s.orders;
            forall o, p | 0 <= o < |orders| && 0 <= p < |orders| && o != p :: orders[o].key != orders[p].key
  {
    hide Step, KeyTurn, KeysApart, KeysFree;
    if events == [] {
      NobodyChecking(m);
    } else {
      var n := |events| - 1;
      OneOrderPerKeyInTurns(cfg, m, events[..n]);
      StepKeysSound(cfg, Steps(cfg, m, events[..n]), events[n]);
    }
  }

  lemma NobodyChecking(m: System)
    requires m.actors == map[]
    ensures KeysApart(m) && KeysFree(m) && BuyersApart(m) && GoodsNew(m)
  {
  }

  // ------------------------------------------------------------------ goods

  predicate BuyersApart(m: System) {
    forall a, c | a in m.actors && c in m.actors && a != c && Checking(m.actors[a]) && Checking(m.actors[c]) ::
      RequestOf(m.actors[a]).user != RequestOf(m.actors[c]).user
  }

  /** The digital goods of a claimed cart are still not owned by its buyer. */
  predicate GoodsNew(m: System) {
    forall a | a in m.actors && Holds(m.actors[a]) ::
      !OwnsAny(m.s.orders, RequestOf(m.actors[a]).user, m.actors[a].lines)
  }

  predicate SharesGoods(order: Order, lines: seq<CartLine>) {
    exists i, j | 0 <= i < |lines| && 0 <= j < |order.items| ::
      !lines[i].physical && !order.items[j].physical && order.items[j].product == lines[i].product
  }

  /** No checkout starts while another of its buyer is under way, and none without a coupon is made while
      a claimed cart of its buyer waits; an order is approved only for goods that its buyer neither owns
      nor has in a claimed cart. */
  predicate BuyerTurn(cfg: Config, m: System, e: Event) {
    && (e.Begin? && Checking(e.program) ==>
          forall c | c in m.actors && Checking(m.actors[c]) :: RequestOf(m.actors[c]).user != RequestOf(e.program).user)
    && (e.Other? ==>
          && !e.call.PlaceClaimed?
          && (e.call.Checkout? ==>
                forall c | c in m.actors && Holds(m.actors[c]) :: RequestOf(m.actors[c]).user != e.call.request.user))
    && (var call := CallOf(cfg, m, e);
        call.Some? && call.value.ApproveOrder? && IsPending(m.s, call.value.order) ==>
          var order := m.s.orders[call.value.order];
          && !C.OwnsItem(m.s.orders, order)
          && forall c | c in m.actors && Holds(m.actors[c]) && RequestOf(m.actors[c]).user == order.user ::
               !SharesGoods(order, m.actors[c].lines))
  }

  predicate BuyerTurns(cfg: Config, m: System, events: seq<Event>) {
    || events == []
    || (var n := |events| - 1;
        BuyerTurns(cfg, m, events[..n]) && BuyerTurn(cfg, Steps(cfg, m, events[..n]), events[n]))
  }

  /** How a user comes to own a product. */
  predicate Buys(s: Store, call: Call, u: UserId, product: ProductId) {
    || ((call.Checkout? || call.PlaceClaimed?) && call.request.user == u)
    || (call.ApproveOrder? && IsPending(s, call.order) && s.orders[call.order].user == u
        && exists j | 0 <= j < |s.orders[call.order].items| ::
             !s.orders[call.order].items[j].physical && s.orders[call.order].items[j].product == product)
  }

  /** Orders may have been added for user u and otherwise nothing newly paid for. */
  lemma AddedOwns(orders: seq<Order>, orders': seq<Order>, u: UserId, v: UserId, product: ProductId)
    requires |orders'| <= |orders| + 1 && orders <= orders' && (|orders'| > |orders| ==> orders'[|orders|].user == u)
    requires Owns(orders', v, product)
    ensures Owns(orders, v, product) || v == u
  {
    var o, i :| 0 <= o < |orders'| && 0 <= i < |orders'[o].items|
                && orders'[o].user == v && orders'[o].status == Approved
                && orders'[o].items[i].product == product && !orders'[o].items[i].physical;
    if o < |orders| { assert orders[o] == orders'[o]; }
  }

  lemma KeptOwns(s: Store, s': Store, u: UserId, product: ProductId)
    requires C.NothingPaid(s, s') && OrdersStand(s, s') && Owns(s'.orders, u, product)
    ensures Owns(s.orders, u, product)
  {
    var o, i :| 0 <= o < |s'.orders| && 0 <= i < |s'.orders[o].items|
                && s'.orders[o].user == u && s'.orders[o].status == Approved
                && s'.orders[o].items[i].product == product && !s'.orders[o].items[i].physical;
    assert SameOrder(s.orders[o], s'.orders[o]);
  }

  lemma PlacedOrders(cfg: Config, s: Store, r: Request, committed: Store, lines: seq<CartLine>, q: Quote)
    requires committed.orders == s.orders
    ensures var orders' := PayAndPlace(cfg, s, r, committed, lines, q).0.orders;
            && s.orders <= orders' && |orders'| <= |s.orders| + 1
            && (|orders'| > |s.orders| ==> orders'[|s.orders|].user == r.user)
  {
  }

  lemma CheckoutOrders(cfg: Config, s: Store, r: Request)
    ensures var orders' := DoCheckout(cfg, s, r).0.orders;
            && s.orders <= orders' && |orders'| <= |s.orders| + 1
            && (|orders'| > |s.orders| ==> orders'[|s.orders|].user == r.user)
  {
    hide PayAndPlace;
    var claimed := ClaimCart(s, r.user);
    PlacedOrders(cfg, claimed, r, if r.coupon.Some? then claimed else s, CartOf(s.carts, r.user), RequestQuote(s, r));
  }

  lemma ApprovedOwns(s: Store, o: OrderId, u: UserId, product: ProductId)
    requires Owns(DoApproveOrder(s, o).0.orders, u, product)
    ensures Owns(s.orders, u, product) || Buys(s, ApproveOrder(o), u, product)
  {
    var orders' := DoApproveOrder(s, o).0.orders;
    var p, i :| 0 <= p < |orders'| && 0 <= i < |orders'[p].items|
                && orders'[p].user == u && orders'[p].status == Approved
                && orders'[p].items[i].product == product && !orders'[p].items[i].physical;
    if p != o || !IsPending(s, o) { assert orders'[p] == s.orders[p]; }
  }

  lemma OwnsMoves(cfg: Config, s: Store, call: Call, u: UserId, product: ProductId)
    requires Owns(Do(cfg, s, call).0.orders, u, product)
    ensures Owns(s.orders, u, product) || Buys(s, call, u, product)
  {
    hide Owns, DoPoints, DoReferrals, DoTopUps, DoShop, DoCheckout, PayAndPlace, DoApproveOrder, C.NothingPaid,
      OrdersStand;
    if call.Checkout? {
      CheckoutOrders(cfg, s, call.request);
      AddedOwns(s.orders, Do(cfg, s, call).0.orders, call.request.user, u, product);
    } else if call.PlaceClaimed? {
      var q := QuoteFor(call.total, call.discount, call.seen, ShippingCost(call.request, call.lines));
      PlacedOrders(cfg, s, call.request, s, call.lines, q);
      AddedOwns(s.orders, Do(cfg, s, call).0.orders, call.request.user, u, product);
    } else if call.ApproveOrder? {
      ApprovedOwns(s, call.order, u, product);
    } else if WritesOrders(call) {
      C.DecisionKeeps(cfg, s, call);
      OrdersFrame(cfg, s, call);
      KeptOwns(s, DoOrders(cfg, s, call).0, u, product);
    } else {
      OthersKeepOrders(cfg, s, call);
    }
  }

  predicate GoodsSound(m: System) { C.BoughtOnce(m.s.orders) && BuyersApart(m) && GoodsNew(m) }

  /** What is placed from a claimed cart is not owned yet. */
  lemma ClaimNotOwned(cfg: Config, orders: seq<Order>, r: Request, lines: seq<CartLine>, q: Quote)
    requires !OwnsAny(orders, r.user, lines)
    ensures !C.OwnsItem(orders, OrderFor(cfg, r, lines, q))
  {
    hide Owns;
    var order := OrderFor(cfg, r, lines, q);
    forall i | 0 <= i < |order.items| && !order.items[i].physical
      ensures !Owns(orders, order.user, order.items[i].product)
    {
      assert order.items[i] == ItemOf(lines[i]);
    }
  }

  lemma CallKeepsBoughtOnce(cfg: Config, m: System, e: Event)
    requires GoodsSound(m) && BuyerTurn(cfg, m, e)
    ensures var call := CallOf(cfg, m, e); call.Some? ==> C.KeepsBoughtOnce(cfg, m.s, call.value)
  {
    hide C.BoughtOnce, BuyersApart, OwnsAny, C.OwnsItem, SharesGoods, PaymentFault;
    var call := CallOf(cfg, m, e);
    if call.Some? && call.value.PlaceClaimed? {
      var c := call.value;
      assert e.Advance? && Holds(m.actors[e.actor]);
      ClaimNotOwned(cfg, m.s.orders, c.request, c.lines,
                    QuoteFor(c.total, c.discount, c.seen, ShippingCost(c.request, c.lines)));
    }
  }

  /** The cart an actor holds is not bought by a call of anyone else. */
  lemma NotBoughtByOthers(cfg: Config, m: System, e: Event, a: nat, i: nat)
    requires GoodsSound(m) && BuyerTurn(cfg, m, e) && e != Advance(a)
    requires a in m.actors && Holds(m.actors[a]) && i < |m.actors[a].lines| && !m.actors[a].lines[i].physical
    ensures var call := CallOf(cfg, m, e);
            call.Some? ==> !Buys(m.s, call.value, RequestOf(m.actors[a]).user, m.actors[a].lines[i].product)
  {
    hide C.BoughtOnce, GoodsNew, C.OwnsItem;
  }

  lemma StepGoodsNew(cfg: Config, m: System, e: Event, a: nat)
    requires GoodsSound(m) && BuyerTurn(cfg, m, e)
    requires a in Step(cfg, m, e).actors && Holds(Step(cfg, m, e).actors[a])
    ensures var m' := Step(cfg, m, e); !OwnsAny(m'.s.orders, RequestOf(m'.actors[a]).user, m'.actors[a].lines)
  {
    hide Step, Do, Owns, C.BoughtOnce, BuyerTurn, BuyersApart, CallOf, Buys;
    HoldsBefore(cfg, m, e, a);
    if e != Advance(a) {
      var s', lines, u := Step(cfg, m, e).s, m.actors[a].lines, RequestOf(m.actors[a]).user;
      StepIsCall(cfg, m, e);
      var call := CallOf(cfg, m, e);
      if i :| 0 <= i < |lines| && !lines[i].physical && Owns(s'.orders, u, lines[i].product) {
        NotBoughtByOthers(cfg, m, e, a, i);
        if call.Some? { OwnsMoves(cfg, m.s, call.value, u, lines[i].product); }
      }
    }
  }

  lemma StepBuyersApart(cfg: Config, m: System, e: Event)
    requires BuyersApart(m) && BuyerTurn(cfg, m, e)
    ensures BuyersApart(Step(cfg, m, e))
  {
    hide Step, CallOf;
    var m' := Step(cfg, m, e);
    forall a, c | a in m'.actors && c in m'.actors && a != c && Checking(m'.actors[a]) && Checking(m'.actors[c])
      ensures RequestOf(m'.actors[a]).user != RequestOf(m'.actors[c]).user
    {
      CheckingBefore(cfg, m, e, a);
      CheckingBefore(cfg, m, e, c);
    }
  }

  lemma StepGoodsSound(cfg: Config, m: System, e: Event)
    requires GoodsSound(m) && BuyerTurn(cfg, m, e)
    ensures GoodsSound(Step(cfg, m, e))
  {
    hide Step, Do, C.BoughtOnce, BuyersApart, BuyerTurn, C.KeepsBoughtOnce, OwnsAny, CallOf;
    StepIsCall(cfg, m, e);
    CallKeepsBoughtOnce(cfg, m, e);
    var call := CallOf(cfg, m, e);
    if call.Some? { C.StepBoughtOnce(cfg, m.s, call.value); }
    StepBuyersApart(cfg, m, e);
    var m' := Step(cfg, m, e);
    forall a | a in m'.actors && Holds(m'.actors[a])
      ensures !OwnsAny(m'.s.orders, RequestOf(m'.actors[a]).user, m'.actors[a].lines)
    {
      StepGoodsNew(cfg, m, e, a);
    }
  }

  /** In every interleaving in which the checkouts of one buyer take turns and approvals are of goods that
      the buyer neither owns nor is about to, no user has paid twice for a digital product. */
  lemma {:induction false} DigitalBoughtOnceInTurns(cfg: Config, m: System, events: seq<Event>)
    requires Unsold(m) && BuyerTurns(cfg, m, events)
    ensures GoodsSound(Steps(cfg, m, events))
  {
    hide Step, BuyerTurn, BuyersApart, GoodsNew;
    if events == [] {
      NobodyChecking(m);
    } else {
      var n := |events| - 1;
      DigitalBoughtOnceInTurns(cfg, m, events[..n]);
      StepGoodsSound(cfg, Steps(cfg, m, events[..n]), events[n]);
    }
  }
}
