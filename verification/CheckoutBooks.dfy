/** Checkout: one order per idempotency key, what a failed attempt leaves behind, and how far the rule
    "a digital product is bought once" reaches. */
module CheckoutBooks {
  import opened Tables
  import opened Calls
  import opened Runs

  /** Keys and orders correspond one to one. */
  predicate Keyed(s: Store) {
    && (forall k | k in s.placed :: 0 <= s.placed[k] < |s.orders| && s.orders[s.placed[k]].key == k)
    && (forall o | 0 <= o < |s.orders| :: s.orders[o].key in s.placed && s.placed[s.orders[o].key] == o)
  }

  lemma CheckoutKeyed(cfg: Config, s: Store, r: Request)
    requires Keyed(s)
    ensures Keyed(DoCheckout(cfg, s, r).0)
  {
    if !DoCheckout(cfg, s, r).1.Placed? { FailedCheckoutKeeps(cfg, s, r); }
  }

  /** The second half of a coupon checkout does not look at the key again: it keeps keys and orders in
      step exactly when no other checkout has taken the key since the cart was claimed. */
  lemma PlaceClaimedKeyedExact(cfg: Config, s: Store, r: Request, lines: seq<CartLine>, q: Quote)
    requires Keyed(s) && PaymentFault(s, r, lines, q).None?
    ensures Keyed(PayAndPlace(cfg, s, r, s, lines, q).0) <==> r.key !in s.placed
  {
    var s' := PayAndPlace(cfg, s, r, s, lines, q).0;
    assert s'.orders[|s.orders|].key == r.key;
    if r.key in s.placed { assert s'.placed[r.key] != |s.orders|; }
  }

  /** A claimed cart is placed under a key that is still free. */
  predicate FairToKeys(s: Store, call: Call) { call.PlaceClaimed? ==> call.request.key !in s.placed }

  lemma PlaceClaimedKeyed(cfg: Config, s: Store, r: Request, lines: seq<CartLine>, total: int, discount: int, seen: int)
    requires Keyed(s) && r.key !in s.placed
    ensures Keyed(DoPlaceClaimed(cfg, s, r, lines, total, discount, seen).0)
  {
    var q := QuoteFor(total, discount, seen, ShippingCost(r, lines));
    if PaymentFault(s, r, lines, q).None? { PlaceClaimedKeyedExact(cfg, s, r, lines, q); }
  }

  /** Status and fulfilment of orders may have moved, nothing else. */
  lemma RowsKeyed(s: Store, s': Store)
    requires Keyed(s) && OrdersStand(s, s') && |s'.orders| == |s.orders| && s'.placed == s.placed
    ensures Keyed(s')
  {
    forall o | 0 <= o < |s'.orders| ensures s'.orders[o].key in s'.placed && s'.placed[s'.orders[o].key] == o {
      assert SameOrder(s.orders[o], s'.orders[o]);
    }
  }

  lemma DecisionKeyed(cfg: Config, s: Store, call: Call)
    requires Keyed(s) && WritesOrders(call) && !call.Checkout? && !call.PlaceClaimed?
    ensures Keyed(DoOrders(cfg, s, call).0)
  {
    hide Keyed, OrdersStand;
    OrdersFrame(cfg, s, call);
    DecisionKeeps(cfg, s, call);
    RowsKeyed(s, DoOrders(cfg, s, call).0);
  }

  /** s' has the orders of s, with no order newly paid for. */
  predicate NothingPaid(s: Store, s': Store) {
    && |s'.orders| == |s.orders| && s'.placed == s.placed
    && forall o | 0 <= o < |s.orders| :: s'.orders[o].status == Approved ==> s.orders[o].status == Approved
  }

  lemma RejectKeeps(s: Store, o: OrderId)
    ensures NothingPaid(s, DoRejectOrder(s, o).0)
  {
  }

  lemma CancelKeeps(s: Store, o: OrderId)
    ensures NothingPaid(s, DoCancelFulfilment(s, o).0)
  {
    hide ReleaseAll;
  }

  lemma ShipKeeps(s: Store, o: OrderId, to: Fulfilment)
    ensures NothingPaid(s, DoSetFulfilment(s, o, to).0)
  {
  }

  lemma DecisionKeeps(cfg: Config, s: Store, call: Call)
    requires WritesOrders(call) && !call.Checkout? && !call.PlaceClaimed?
    ensures var s' := DoOrders(cfg, s, call).0;
            && |s'.orders| == |s.orders| && s'.placed == s.placed
            && (!call.ApproveOrder? ==> NothingPaid(s, s'))
  {
    hide DoClaim, DoRejectOrder, DoCancelFulfilment, DoSetFulfilment;
    match call
    case RejectOrder(o) => RejectKeeps(s, o);
    case CancelFulfilment(o) => CancelKeeps(s, o);
    case SetFulfilment(o, to) => ShipKeeps(s, o, to);
    case ClaimWithCoupon(r) => ClaimFrame(s, r);
    case ApproveOrder(_) =>
  }

  lemma StepKeyed(cfg: Config, s: Store, call: Call)
    requires Keyed(s) && FairToKeys(s, call)
    ensures Keyed(Do(cfg, s, call).0)
  {
    hide Keyed, DoPoints, DoReferrals, DoTopUps, DoShop, DoCheckout, DoPlaceClaimed;
    if call.Checkout? {
      CheckoutKeyed(cfg, s, call.request);
    } else if call.PlaceClaimed? {
      PlaceClaimedKeyed(cfg, s, call.request, call.lines, call.total, call.discount, call.seen);
    } else if WritesOrders(call) {
      DecisionKeyed(cfg, s, call);
    } else {
      OthersKeepOrders(cfg, s, call);
      SameKeyed(s, Do(cfg, s, call).0);
    }
  }

  lemma SameKeyed(s: Store, s': Store)
    requires Keyed(s) && s'.orders == s.orders && s'.placed == s.placed
    ensures Keyed(s')
  {
  }

  predicate FairKeyRun(cfg: Config, b: Books, calls: seq<Call>) {
    || calls == []
    || (var n := |calls| - 1;
        FairKeyRun(cfg, b, calls[..n]) && FairToKeys(Run(cfg, b, calls[..n]).s, calls[n]))
  }

  /** In every run in which no claimed cart is placed under a key taken meanwhile, no two orders share a
      key, so one cart version is charged once however often and by whomever its checkout is sent. */
  lemma {:induction false} OneOrderPerKey(cfg: Config, b: Books, calls: seq<Call>)
    requires Opening(b) && FairKeyRun(cfg, b, calls)
    ensures Keyed(Run(cfg, b, calls).s)
    ensures var s := Run(cfg, b, calls).s;
            forall o, p | 0 <= o < |s.orders| && 0 <= p < |s.orders| && o != p :: s.orders[o].key != s.orders[p].key
  {
    if calls != [] {
      var n := |calls| - 1;
      OneOrderPerKey(cfg, b, calls[..n]);
      StepKeyed(cfg, Run(cfg, b, calls[..n]).s, calls[n]);
    }
  }

  lemma {:induction false} KeysStayOverRuns(cfg: Config, b: Books, calls: seq<Call>, k: string)
    requires k in b.s.placed
    ensures var s := Run(cfg, b, calls).s; k in s.placed && s.placed[k] == b.s.placed[k]
  {
    if calls != [] {
      var n := |calls| - 1;
      KeysStayOverRuns(cfg, b, calls[..n], k);
      OrdersStay(cfg, Run(cfg, b, calls[..n]).s, calls[n]);
    }
  }

  /** Once a checkout has gone through, sending it again at any later time gives the same order and
      changes nothing. */
  lemma ReplayForever(cfg: Config, b: Books, calls: seq<Call>, r: Request)
    requires DoCheckout(cfg, b.s, r).1.Placed?
    ensures var later := Run(cfg, Record(cfg, b, Checkout(r)), calls).s;
            DoCheckout(cfg, later, r) == (later, Replayed(DoCheckout(cfg, b.s, r).1.order))
  {
    KeysStayOverRuns(cfg, Record(cfg, b, Checkout(r)), calls, r.key);
  }

  // ------------------------------------------------------------------ failed attempts

  /** A checkout that fails is documented to leave no trace.  It does exactly when no coupon was given
      or the attempt was turned away before the cart was claimed; otherwise reading the coupon inside
      the transaction has already committed the claim, and the cart, and only the cart, is gone. */
  lemma CouponCommitsEarly(cfg: Config, s: Store, r: Request)
    requires DoCheckout(cfg, s, r).1.Failed?
    ensures DoCheckout(cfg, s, r).0 == s <==> r.coupon.None? || EarlyFault(cfg, s, r).Some?
    ensures DoCheckout(cfg, s, r).0 == s || DoCheckout(cfg, s, r).0 == ClaimCart(s, r.user)
  {
  }

  /** With nobody in between, the look and the two transactions of a coupon checkout are the whole
      attempt. */
  lemma ClaimThenPlace(cfg: Config, s: Store, r: Request)
    requires MayClaim(cfg, s, r)
    ensures var (claimed, reply) := DoClaim(s, r);
            DoCheckout(cfg, s, r) ==
              if reply.Claimed?
              then DoPlaceClaimed(cfg, claimed, r, reply.lines, reply.total, reply.discount,
                                  CreditOf(claimed.users, r.user))
              else (claimed, reply)
  {
  }

  /** The claim is refused without a trace, except when the coupon has become invalid since the look:
      then the cart, and only the cart, is gone. */
  lemma ClaimLosesCartExact(s: Store, r: Request)
    requires DoClaim(s, r).1.Failed?
    ensures DoClaim(s, r).0 == s <==> DoClaim(s, r).1.error != DiscountInvalid
    ensures DoClaim(s, r).1.error == DiscountInvalid <==>
              ClaimFault(s, r).None? && r.coupon.Some? && !CodeValid(s.codes, r.coupon.value, r.now)
    ensures DoClaim(s, r).1.error == DiscountInvalid ==> DoClaim(s, r).0 == ClaimCart(s, r.user)
  {
    if ClaimFault(s, r).None? {
      assert r.user in s.carts && r.user !in ClaimCart(s, r.user).carts;
    }
    NoClaimFaultIsDiscount(s, r);
  }

  lemma {:induction false} NoLineFaultIsDiscount(lines: seq<CartLine>)
    ensures CartFault(lines) != Some(DiscountInvalid)
  {
    if lines != [] { NoLineFaultIsDiscount(lines[..|lines| - 1]); }
  }

  lemma NoClaimFaultIsDiscount(s: Store, r: Request)
    ensures ClaimFault(s, r) != Some(DiscountInvalid)
  {
    NoLineFaultIsDiscount(CartOf(s.carts, r.user));
  }

  const SOLD_OUT := CartLine(1, true, Some(7), 1, 500, None, true, true, false)

  /** User 1 has one line in the cart whose variant 7 has sold out, and code 9 is valid. */
  function SoldOutStore(): Store {
    Store(map[1 := User(0, None, false, false)], map[1 := [SOLD_OUT]], [], map[],
          map[9 := Code(0, 100, 0, 0, true, None)], [], map[7 := Stock(0, 0)], map[], [])
  }

  function SoldOutRequest(coupon: Option<CodeId>): Request {
    Request(1, "c", coupon, 0, Method(0), OnFile)
  }

  lemma SoldOutEarly(cfg: Config, coupon: Option<CodeId>)
    requires cfg.cartOn && (coupon == None || coupon == Some(9))
    ensures EarlyFault(cfg, SoldOutStore(), SoldOutRequest(coupon)).None?
  {
    assert [SOLD_OUT][..0] == [];
    assert CartFault([SOLD_OUT]).None?;
  }

  lemma NothingToReserve()
    ensures ReserveAll(SoldOutStore().stock, ItemsOf([SOLD_OUT])).None?
  {
  }

  lemma SoldOutLate(coupon: Option<CodeId>)
    requires coupon == None || coupon == Some(9)
    ensures LateFault(SoldOutStore(), SoldOutRequest(coupon)) == Some(StockUnavailable)
  {
    hide RequestQuote, ReserveAll, ItemsOf;
    var store, r := SoldOutStore(), SoldOutRequest(coupon);
    assert CartOf(store.carts, 1) == [SOLD_OUT];
    NoCreditNoWallet(store, r);
    NothingToReserve();
  }

  lemma NoCreditNoWallet(s: Store, r: Request)
    requires CreditOf(s.users, r.user) == 0
    ensures RequestQuote(s, r).walletUsed == 0
  {
  }

  /** The same attempt on the same sold-out cart: without a coupon nothing happens, with one the cart
      is lost. */
  lemma LostCartExample(cfg: Config)
    requires cfg.cartOn
    ensures DoCheckout(cfg, SoldOutStore(), SoldOutRequest(None)) == (SoldOutStore(), Failed(StockUnavailable))
    ensures DoCheckout(cfg, SoldOutStore(), SoldOutRequest(Some(9)))
         == (ClaimCart(SoldOutStore(), 1), Failed(StockUnavailable))
    ensures CartOf(SoldOutStore().carts, 1) != [] && CartOf(ClaimCart(SoldOutStore(), 1).carts, 1) == []
  {
    SoldOutEarly(cfg, None);
    SoldOutLate(None);
    SoldOutEarly(cfg, Some(9));
    SoldOutLate(Some(9));
  }

  /** What an order costs splits into what the wallet paid, what the code took off, and what is left. */
  lemma QuoteAddsUp(total: int, discount: int, credit: int, shipping: int)
    requires 0 <= discount <= total && 0 <= credit && 0 <= shipping
    ensures var q := QuoteFor(total, discount, credit, shipping);
            && q.walletUsed + q.discount + (q.finalPrice - shipping) == total
            && 0 <= q.walletUsed <= credit && q.finalPrice >= shipping
            && (q.finalPrice > shipping ==> q.walletUsed == credit)
  {
  }

  /** An order is approved without anyone's decision only if nothing was left to pay: no shipping, and
      the wallet paid all that the code did not take off. */
  lemma InstantApprovalIsPaid(cfg: Config, s: Store, r: Request)
    requires DoCheckout(cfg, s, r).1.Placed?
    ensures var s', o := DoCheckout(cfg, s, r).0, DoCheckout(cfg, s, r).1.order;
            var q := RequestQuote(s, r);
            && o == |s.orders| && |s'.orders| == o + 1
            && (s'.orders[o].status == Approved <==> cfg.autoApprove && s'.orders[o].finalPrice == 0)
            && (s'.orders[o].status == Approved ==>
                  s'.orders[o].shipping == 0 && s'.orders[o].walletUsed == s'.orders[o].basePrice - q.discount)
            && (s'.orders[o].status != Approved ==> s'.orders[o].status == Pending)
  {
  }

  // ------------------------------------------------------------------ digital goods

  /** No user has two paid orders with the same digital product. */
  predicate BoughtOnce(orders: seq<Order>) {
    forall o, p | 0 <= o < p < |orders| :: !SharePaid(orders[o], orders[p])
  }

  predicate SharePaid(a: Order, b: Order) {
    && a.user == b.user && a.status == Approved && b.status == Approved
    && exists i, j | 0 <= i < |a.items| && 0 <= j < |b.items| ::
         !a.items[i].physical && !b.items[j].physical && a.items[i].product == b.items[j].product
  }

  predicate OwnsItem(orders: seq<Order>, order: Order) {
    exists i | 0 <= i < |order.items| :: !order.items[i].physical && Owns(orders, order.user, order.items[i].product)
  }

  lemma OwnsItemIffShares(orders: seq<Order>, order: Order)
    requires order.status == Approved
    ensures OwnsItem(orders, order) <==> exists o | 0 <= o < |orders| :: SharePaid(orders[o], order)
  {
  }

  /** Checkout keeps the rule: it turns the cart away when a product is already owned. */
  lemma CheckoutBoughtOnce(cfg: Config, s: Store, r: Request)
    requires BoughtOnce(s.orders)
    ensures BoughtOnce(DoCheckout(cfg, s, r).0.orders)
  {
  }

  /** Approval does not look: of two pending orders for one product both can be approved.  It keeps the
      rule exactly when the buyer owns none of the order's digital products yet. */
  lemma ApprovalBoughtOnceExact(s: Store, o: OrderId)
    requires BoughtOnce(s.orders) && IsPending(s, o)
    ensures BoughtOnce(DoApproveOrder(s, o).0.orders) <==> !OwnsItem(s.orders, s.orders[o])
  {
    var s' := DoApproveOrder(s, o).0;
    var order := s'.orders[o];
    OwnsItemIffShares(s.orders, order);
    assert OwnsItem(s.orders, order) <==> OwnsItem(s.orders, s.orders[o]);
    assert forall p | 0 <= p < |s.orders| && p != o :: s'.orders[p] == s.orders[p];
    assert !SharePaid(s.orders[o], order);
    if p :| 0 <= p < |s.orders| && SharePaid(s.orders[p], order) {
      assert p != o;
      SharePaidSymmetric(s.orders[p], order);
      assert SharePaid(s'.orders[p], s'.orders[o]) && SharePaid(s'.orders[o], s'.orders[p]);
    } else {
      forall a, c | 0 <= a < c < |s'.orders| ensures !SharePaid(s'.orders[a], s'.orders[c]) {
        if a == o && SharePaid(order, s'.orders[c]) { SharePaidSymmetric(order, s'.orders[c]); }
      }
    }
  }

  /** Nor does the second half of a coupon checkout: a product bought since the cart was claimed is
      bought again if nothing is left to pay. */
  lemma PlaceClaimedBoughtOnceExact(cfg: Config, s: Store, r: Request, lines: seq<CartLine>, q: Quote)
    requires BoughtOnce(s.orders) && PaymentFault(s, r, lines, q).None?
    ensures var order := OrderFor(cfg, r, lines, q);
            BoughtOnce(PayAndPlace(cfg, s, r, s, lines, q).0.orders)
            <==> order.status != Approved || !OwnsItem(s.orders, order)
  {
    var order := OrderFor(cfg, r, lines, q);
    var orders' := PayAndPlace(cfg, s, r, s, lines, q).0.orders;
    assert orders' == s.orders + [order];
    if order.status == Approved { OwnsItemIffShares(s.orders, order); }
    if order.status == Approved && OwnsItem(s.orders, order) {
      var o :| 0 <= o < |s.orders| && SharePaid(s.orders[o], order);
      assert SharePaid(orders'[o], orders'[|s.orders|]);
    }
  }

  lemma SharePaidSymmetric(a: Order, b: Order)
    requires SharePaid(a, b)
    ensures SharePaid(b, a)
  {
  }

  // ------------------------------------------------------------------ over runs

  /** When a call keeps the rule: approvals and claimed placements are of goods not owned yet. */
  predicate KeepsBoughtOnce(cfg: Config, s: Store, call: Call) {
    match call
    case ApproveOrder(o) => IsPending(s, o) ==> !OwnsItem(s.orders, s.orders[o])
    case PlaceClaimed(r, lines, total, discount, seen) =>
      var q := QuoteFor(total, discount, seen, ShippingCost(r, lines));
      PaymentFault(s, r, lines, q).None? ==>
        OrderFor(cfg, r, lines, q).status != Approved || !OwnsItem(s.orders, OrderFor(cfg, r, lines, q))
    case _ => true
  }

  lemma NothingNewlyPaid(s: Store, s': Store)
    requires BoughtOnce(s.orders) && NothingPaid(s, s') && OrdersStand(s, s')
    ensures BoughtOnce(s'.orders)
  {
    forall o, p | 0 <= o < p < |s'.orders| ensures !SharePaid(s'.orders[o], s'.orders[p]) {
      assert SameOrder(s.orders[o], s'.orders[o]) && SameOrder(s.orders[p], s'.orders[p]);
      assert !SharePaid(s.orders[o], s.orders[p]);
    }
  }

  lemma ApproveKeepsBoughtOnce(s: Store, o: OrderId)
    requires BoughtOnce(s.orders) && (IsPending(s, o) ==> !OwnsItem(s.orders, s.orders[o]))
    ensures BoughtOnce(DoApproveOrder(s, o).0.orders)
  {
    if IsPending(s, o) { ApprovalBoughtOnceExact(s, o); }
  }

  lemma PlaceKeepsBoughtOnce(cfg: Config, s: Store, call: Call)
    requires call.PlaceClaimed? && BoughtOnce(s.orders) && KeepsBoughtOnce(cfg, s, call)
    ensures BoughtOnce(DoPlaceClaimed(cfg, s, call.request, call.lines, call.total, call.discount, call.seen).0.orders)
  {
    var q := QuoteFor(call.total, call.discount, call.seen, ShippingCost(call.request, call.lines));
    if PaymentFault(s, call.request, call.lines, q).None? {
      PlaceClaimedBoughtOnceExact(cfg, s, call.request, call.lines, q);
    }
  }

  lemma StepBoughtOnce(cfg: Config, s: Store, call: Call)
    requires BoughtOnce(s.orders) && KeepsBoughtOnce(cfg, s, call)
    ensures BoughtOnce(Do(cfg, s, call).0.orders)
  {
    hide BoughtOnce, NothingPaid, OrdersStand, DoPoints, DoReferrals, DoTopUps, DoShop,
      DoCheckout, DoPlaceClaimed, DoApproveOrder;
    if call.Checkout? {
      CheckoutBoughtOnce(cfg, s, call.request);
    } else if call.PlaceClaimed? {
      PlaceKeepsBoughtOnce(cfg, s, call);
    } else if call.ApproveOrder? {
      ApproveKeepsBoughtOnce(s, call.order);
    } else if WritesOrders(call) {
      DecisionKeeps(cfg, s, call);
      OrdersFrame(cfg, s, call);
      NothingNewlyPaid(s, DoOrders(cfg, s, call).0);
    } else {
      OthersKeepOrders(cfg, s, call);
    }
  }

  predicate BoughtOnceRun(cfg: Config, b: Books, calls: seq<Call>) {
    || calls == []
    || (var n := |calls| - 1;
        BoughtOnceRun(cfg, b, calls[..n]) && KeepsBoughtOnce(cfg, Run(cfg, b, calls[..n]).s, calls[n]))
  }

  /** In every run whose approvals and claimed placements are of goods not owned yet, no user has paid
      twice for a digital product. */
  lemma {:induction false} DigitalBoughtOnce(cfg: Config, b: Books, calls: seq<Call>)
    requires Opening(b) && BoughtOnceRun(cfg, b, calls)
    ensures BoughtOnce(Run(cfg, b, calls).s.orders)
  {
    if calls != [] {
      var n := |calls| - 1;
      DigitalBoughtOnce(cfg, b, calls[..n]);
      StepBoughtOnce(cfg, Run(cfg, b, calls[..n]).s, calls[n]);
    }
  }
}
