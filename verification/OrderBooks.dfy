/** Decisions on orders: every order is decided at most once, whoever tries and how often. */
module OrderBooks {
  import opened Tables
  import opened Sums
  import opened Calls
  import opened Runs

  predicate HasStatus(s: Store, o: OrderId, status: Status) {
    0 <= o < |s.orders| && s.orders[o].status == status
  }

  /** Callers told that their decision counted: one for each order that has left pending, and it was
      told what the order's status now says.  Orders a checkout approves on the spot were never
      pending and have none. */
  ghost predicate Decided(b: Books) {
    && (forall o :: o in b.born ==> 0 <= o < |b.s.orders|)
    && (forall o :: HasStatus(b.s, o, Pending) || HasStatus(b.s, o, Rejected) ==> o in b.born)
    && (forall o :: b.wins[(o, true)] == if o in b.born && HasStatus(b.s, o, Approved) then 1 else 0)
    && (forall o :: b.wins[(o, false)] == if HasStatus(b.s, o, Rejected) then 1 else 0)
  }

  predicate OnlyDecides(b: Books, b': Books, o: OrderId) {
    && |b'.s.orders| == |b.s.orders|
    && forall p | 0 <= p < |b.s.orders| && p != o :: b'.s.orders[p].status == b.s.orders[p].status
  }

  /** Statuses, wins and births unchanged. */
  lemma UndecidedKept(b: Books, b': Books)
    requires Decided(b) && b'.born == b.born && b'.wins == b.wins
    requires |b'.s.orders| == |b.s.orders|
    requires forall p | 0 <= p < |b.s.orders| :: b'.s.orders[p].status == b.s.orders[p].status
    ensures Decided(b')
  {
  }

  lemma PlacedDecided(b: Books, b': Books, order: Order)
    requires Decided(b) && order.status != Rejected
    requires b'.s.orders == b.s.orders + [order] && b'.wins == b.wins
    requires b'.born == if order.status == Pending then b.born + {|b.s.orders|} else b.born
    ensures Decided(b')
  {
  }

  lemma DecisionDecided(b: Books, b': Books, o: OrderId, approve: bool)
    requires Decided(b) && IsPending(b.s, o)
    requires OnlyDecides(b, b', o) && b'.s.orders[o].status == (if approve then Approved else Rejected)
    requires b'.born == b.born && b'.wins == b.wins[(o, approve) := b.wins[(o, approve)] + 1]
    ensures Decided(b')
  {
  }

  lemma PlaceClaimedDecided(cfg: Config, b: Books, call: Call)
    requires Decided(b) && call.PlaceClaimed?
    ensures Decided(Recorded(b, call,
              DoPlaceClaimed(cfg, b.s, call.request, call.lines, call.total, call.discount, call.seen)))
  {
    var b' := Recorded(b, call,
      DoPlaceClaimed(cfg, b.s, call.request, call.lines, call.total, call.discount, call.seen));
    var q := QuoteFor(call.total, call.discount, call.seen, ShippingCost(call.request, call.lines));
    if PaymentFault(b.s, call.request, call.lines, q).None? {
      PlacedDecided(b, b', OrderFor(cfg, call.request, call.lines, q));
    } else {
      UndecidedKept(b, b');
    }
  }

  lemma CheckoutDecided(cfg: Config, b: Books, r: Request)
    requires Decided(b)
    ensures Decided(Recorded(b, Checkout(r), DoCheckout(cfg, b.s, r)))
  {
    var b' := Recorded(b, Checkout(r), DoCheckout(cfg, b.s, r));
    if DoCheckout(cfg, b.s, r).1.Placed? { PlacedDecided(b, b', NewOrder(cfg, b.s, r)); } else { UndecidedKept(b, b'); }
  }

  lemma ApproveDecided(b: Books, o: OrderId)
    requires Decided(b)
    ensures Decided(Recorded(b, ApproveOrder(o), DoApproveOrder(b.s, o)))
  {
    if IsPending(b.s, o) { DecisionDecided(b, Recorded(b, ApproveOrder(o), DoApproveOrder(b.s, o)), o, true); }
  }

  lemma RejectDecided(b: Books, o: OrderId)
    requires Decided(b)
    ensures Decided(Recorded(b, RejectOrder(o), DoRejectOrder(b.s, o)))
  {
    if IsPending(b.s, o) { DecisionDecided(b, Recorded(b, RejectOrder(o), DoRejectOrder(b.s, o)), o, false); }
  }

  lemma ShippingDecided(b: Books, call: Call, o: OrderId, to: Fulfilment)
    requires Decided(b) && !call.ApproveOrder? && !call.RejectOrder?
    ensures Decided(Recorded(b, call, DoCancelFulfilment(b.s, o)))
    ensures Decided(Recorded(b, call, DoSetFulfilment(b.s, o, to)))
  {
    UndecidedKept(b, Recorded(b, call, DoCancelFulfilment(b.s, o)));
    UndecidedKept(b, Recorded(b, call, DoSetFulfilment(b.s, o, to)));
  }

  lemma OrderCallDecided(cfg: Config, b: Books, call: Call)
    requires Decided(b) && WritesOrders(call)
    ensures Decided(Recorded(b, call, DoOrders(cfg, b.s, call)))
  {
    hide Decided, DoCheckout, DoClaim, DoPlaceClaimed, DoApproveOrder, DoRejectOrder,
      DoCancelFulfilment, DoSetFulfilment;
    hide Recorded;
    match call
    case Checkout(r) => CheckoutDecided(cfg, b, r);
    case PlaceClaimed(_, _, _, _, _) => PlaceClaimedDecided(cfg, b, call);
    case ApproveOrder(o) => ApproveDecided(b, o);
    case RejectOrder(o) => RejectDecided(b, o);
    case CancelFulfilment(o) => ShippingDecided(b, call, o, Processing);
    case SetFulfilment(o, to) => ShippingDecided(b, call, o, to);
    case ClaimWithCoupon(r) => ClaimDecided(b, r);
  }

  lemma ClaimDecided(b: Books, r: Request)
    requires Decided(b)
    ensures Decided(Recorded(b, ClaimWithCoupon(r), DoClaim(b.s, r)))
  {
    ClaimFrame(b.s, r);
    UndecidedKept(b, Recorded(b, ClaimWithCoupon(r), DoClaim(b.s, r)));
  }

  lemma StepDecided(cfg: Config, b: Books, call: Call)
    requires Decided(b)
    ensures Decided(Record(cfg, b, call))
  {
    hide DoOrders, DoPoints, DoReferrals, DoTopUps, DoShop;
    if WritesOrders(call) {
      OrderCallDecided(cfg, b, call);
    } else {
      OthersKeepOrders(cfg, b.s, call);
      UndecidedKept(b, Record(cfg, b, call));
    }
  }

  /** In every run, over any number of approvers and rejecters: an order that was placed pending has
      told exactly one caller that it won if it has been decided, and none if it has not. */
  lemma {:induction false} OneWinner(cfg: Config, b: Books, calls: seq<Call>)
    requires Opening(b)
    ensures Decided(Run(cfg, b, calls))
    ensures var e := Run(cfg, b, calls);
            forall o | o in e.born :: e.wins[(o, true)] + e.wins[(o, false)] == if IsPending(e.s, o) then 0 else 1
  {
    if calls != [] {
      var n := |calls| - 1;
      OneWinner(cfg, b, calls[..n]);
      StepDecided(cfg, Run(cfg, b, calls[..n]), calls[n]);
    }
    var e := Run(cfg, b, calls);
    forall o | o in e.born ensures e.wins[(o, true)] + e.wins[(o, false)] == if IsPending(e.s, o) then 0 else 1 {
      assert HasStatus(e.s, o, e.s.orders[o].status);
      if e.s.orders[o].status == Approved { assert !HasStatus(e.s, o, Rejected); }
      if e.s.orders[o].status == Rejected { assert !HasStatus(e.s, o, Approved); }
    }
  }

  // ------------------------------------------------------------------ discount codes

  function HoldsCode(c: CodeId): Order -> int {
    (o: Order) => if o.code == Some(c) && o.status != Rejected then 1 else 0
  }

  function UsedBefore(b: Books, c: CodeId): int { if c in b.usedAtStart then b.usedAtStart[c] else 0 }

  /** A code's use count is what it was plus one for every order that holds it and was not rejected. */
  ghost predicate CodesCounted(b: Books) {
    && (forall c :: UsedOf(b.s.codes, c) == UsedBefore(b, c) + Sum(b.s.orders, HoldsCode(c)))
    && (forall c :: UsedBefore(b, c) >= 0)
    && (forall o | 0 <= o < |b.s.orders| && b.s.orders[o].code.Some? :: b.s.orders[o].code.value in b.s.codes)
    && (forall c | c in b.s.codes && b.s.codes[c].maxUses != 0 ::
          b.s.codes[c].used <= Max(b.s.codes[c].maxUses, UsedBefore(b, c)))
  }

  lemma PlacedCodes(b: Books, b': Books, order: Order)
    requires CodesCounted(b) && b'.usedAtStart == b.usedAtStart && order.status != Rejected
    requires b'.s.orders == b.s.orders + [order]
    requires order.code.Some? ==> order.code.value in b.s.codes && CodeTakes(b.s.codes[order.code.value])
    requires b'.s.codes == if order.code.Some?
                           then var c := order.code.value;
                                b.s.codes[c := b.s.codes[c].(used := b.s.codes[c].used + 1)]
                           else b.s.codes
    ensures CodesCounted(b')
  {
    forall c ensures UsedOf(b'.s.codes, c) == UsedBefore(b', c) + Sum(b'.s.orders, HoldsCode(c)) {
      SumAppend(b.s.orders, order, HoldsCode(c));
      assert UsedOf(b.s.codes, c) == UsedBefore(b, c) + Sum(b.s.orders, HoldsCode(c));
    }
  }

  /** A pending order's code has been counted, so giving it back is never clamped at zero. */
  lemma CodeInUse(b: Books, o: OrderId)
    requires CodesCounted(b) && IsPending(b.s, o) && b.s.orders[o].code.Some?
    ensures UsedOf(b.s.codes, b.s.orders[o].code.value) >= 1
  {
    var c := b.s.orders[o].code.value;
    assert b.s.orders[o] in b.s.orders && HoldsCode(c)(b.s.orders[o]) == 1;
    SumOfNaturals(b.s.orders, HoldsCode(c));
  }

  lemma DecisionCodes(b: Books, b': Books, o: OrderId)
    requires CodesCounted(b) && 0 <= o < |b.s.orders| && |b'.s.orders| == |b.s.orders|
    requires b'.usedAtStart == b.usedAtStart
    requires b'.s.orders == b.s.orders[o := b'.s.orders[o]] && SameOrder(b.s.orders[o], b'.s.orders[o])
    requires b'.s.codes == if b'.s.orders[o].status == Rejected && b.s.orders[o].status == Pending
                           then GiveBackCode(b.s.codes, b.s.orders[o].code) else b.s.codes
    ensures CodesCounted(b')
  {
    if IsPending(b.s, o) && b.s.orders[o].code.Some? { CodeInUse(b, o); }
    forall c ensures UsedOf(b'.s.codes, c) == UsedBefore(b', c) + Sum(b'.s.orders, HoldsCode(c)) {
      SumUpdate(b.s.orders, o, b'.s.orders[o], HoldsCode(c));
      assert UsedOf(b.s.codes, c) == UsedBefore(b, c) + Sum(b.s.orders, HoldsCode(c));
    }
  }

  lemma NewCodeCounted(b: Books, b': Books, c: CodeId, terms: Code)
    requires CodesCounted(b) && b'.usedAtStart == b.usedAtStart && b'.s.orders == b.s.orders
    requires c !in b.s.codes && b'.s.codes == b.s.codes[c := terms] && terms.used == 0
    ensures CodesCounted(b')
  {
    forall d ensures UsedOf(b'.s.codes, d) == UsedBefore(b', d) + Sum(b'.s.orders, HoldsCode(d)) {
      assert UsedOf(b.s.codes, d) == UsedBefore(b, d) + Sum(b.s.orders, HoldsCode(d));
    }
  }

  lemma ToggledCodeCounted(b: Books, b': Books, c: CodeId)
    requires CodesCounted(b) && b'.usedAtStart == b.usedAtStart && b'.s.orders == b.s.orders
    requires c in b.s.codes && b'.s.codes == b.s.codes[c := b.s.codes[c].(active := !b.s.codes[c].active)]
    ensures CodesCounted(b')
  {
  }

  lemma CodesKept(b: Books, b': Books)
    requires CodesCounted(b) && b'.usedAtStart == b.usedAtStart
    requires b'.s.orders == b.s.orders && b'.s.codes == b.s.codes
    ensures CodesCounted(b')
  {
  }

  /** b' is b with its tables moved on to s'. */
  predicate MovedTo(b: Books, b': Books, s': Store) { b'.usedAtStart == b.usedAtStart && b'.s == s' }

  lemma CheckoutCodes(cfg: Config, b: Books, b': Books, r: Request)
    requires CodesCounted(b) && MovedTo(b, b', DoCheckout(cfg, b.s, r).0)
    ensures CodesCounted(b')
  {
    if DoCheckout(cfg, b.s, r).1.Placed? { PlacedCodes(b, b', NewOrder(cfg, b.s, r)); } else { CodesKept(b, b'); }
  }

  lemma PlaceClaimedCodes(cfg: Config, b: Books, b': Books, r: Request, lines: seq<CartLine>,
                          total: int, discount: int, seen: int)
    requires CodesCounted(b) && MovedTo(b, b', DoPlaceClaimed(cfg, b.s, r, lines, total, discount, seen).0)
    ensures CodesCounted(b')
  {
    var q := QuoteFor(total, discount, seen, ShippingCost(r, lines));
    if PaymentFault(b.s, r, lines, q).None? {
      PlacedCodes(b, b', OrderFor(cfg, r, lines, q));
    } else {
      CodesKept(b, b');
    }
  }

  lemma ClaimCodes(b: Books, b': Books, r: Request)
    requires CodesCounted(b) && MovedTo(b, b', DoClaim(b.s, r).0)
    ensures CodesCounted(b')
  {
    ClaimFrame(b.s, r);
    CodesKept(b, b');
  }

  lemma ApproveCodes(b: Books, b': Books, o: OrderId)
    requires CodesCounted(b) && MovedTo(b, b', DoApproveOrder(b.s, o).0)
    ensures CodesCounted(b')
  {
    if IsPending(b.s, o) { DecisionCodes(b, b', o); } else { CodesKept(b, b'); }
  }

  lemma RejectCodes(b: Books, b': Books, o: OrderId)
    requires CodesCounted(b) && MovedTo(b, b', DoRejectOrder(b.s, o).0)
    ensures CodesCounted(b')
  {
    if IsPending(b.s, o) { DecisionCodes(b, b', o); } else { CodesKept(b, b'); }
  }

  lemma CancelCodes(b: Books, b': Books, o: OrderId)
    requires CodesCounted(b) && MovedTo(b, b', DoCancelFulfilment(b.s, o).0)
    ensures CodesCounted(b')
  {
    if Cancellable(b.s, o) { DecisionCodes(b, b', o); } else { CodesKept(b, b'); }
  }

  lemma ShipCodes(b: Books, b': Books, o: OrderId, to: Fulfilment)
    requires CodesCounted(b) && MovedTo(b, b', DoSetFulfilment(b.s, o, to).0)
    ensures CodesCounted(b')
  {
    if 0 <= o < |b.s.orders| { DecisionCodes(b, b', o); } else { CodesKept(b, b'); }
  }

  lemma OrderCallCodes(cfg: Config, b: Books, b': Books, call: Call)
    requires CodesCounted(b) && WritesOrders(call) && MovedTo(b, b', DoOrders(cfg, b.s, call).0)
    ensures CodesCounted(b')
  {
    hide CodesCounted, DoCheckout, DoClaim, DoPlaceClaimed, DoApproveOrder, DoRejectOrder,
      DoCancelFulfilment, DoSetFulfilment;
    match call
    case Checkout(r) => CheckoutCodes(cfg, b, b', r);
    case ClaimWithCoupon(r) => ClaimCodes(b, b', r);
    case PlaceClaimed(r, lines, total, discount, seen) =>
      PlaceClaimedCodes(cfg, b, b', r, lines, total, discount, seen);
    case ApproveOrder(o) => ApproveCodes(b, b', o);
    case RejectOrder(o) => RejectCodes(b, b', o);
    case CancelFulfilment(o) => CancelCodes(b, b', o);
    case SetFulfilment(o, to) => ShipCodes(b, b', o, to);
  }

  lemma ShopCallCodes(b: Books, b': Books, call: Call)
    requires CodesCounted(b) && WritesShop(call) && MovedTo(b, b', DoShop(b.s, call).0)
    ensures CodesCounted(b')
  {
    hide CodesCounted;
    if call.AddCode? && call.code !in b.s.codes {
      NewCodeCounted(b, b', call.code, call.terms.(used := 0));
    } else if call.ToggleCode? && call.code in b.s.codes {
      ToggledCodeCounted(b, b', call.code);
    } else {
      CodesKept(b, b');
    }
  }

  lemma StepCodes(cfg: Config, b: Books, call: Call)
    requires CodesCounted(b)
    ensures CodesCounted(Record(cfg, b, call))
  {
    hide DoOrders, DoPoints, DoReferrals, DoTopUps, DoShop, CodesCounted;
    var b' := Record(cfg, b, call);
    if WritesOrders(call) {
      OrderCallCodes(cfg, b, b', call);
    } else if WritesShop(call) {
      ShopFrame(b.s, call);
      ShopCallCodes(b, b', call);
    } else {
      Frames(cfg, b.s, call);
      CodesKept(b, b');
    }
  }

  /** In every run each code has been used as often as it is held, and no more often than it allows. */
  lemma {:induction false} CodeUsesConserved(cfg: Config, b: Books, calls: seq<Call>)
    requires Opening(b)
    ensures CodesCounted(Run(cfg, b, calls))
  {
    if calls != [] {
      var n := |calls| - 1;
      CodeUsesConserved(cfg, b, calls[..n]);
      StepCodes(cfg, Run(cfg, b, calls[..n]), calls[n]);
    }
  }
}
