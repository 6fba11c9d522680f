/** services/orders.py, set_fulfillment_status: where a parcel can go, how that differs from the rule the
    function documents, and how often an order's reservation is given back. */
module Shipping {
  import opened Tables
  import opened Calls
  import opened Runs
  import opened Programs
  import opened Databases
  import opened Services

  // ------------------------------------------------------------------ one request, undisturbed

  datatype Answer = Moved | Unchanged | Missing | NotPhysical | InvalidTransition | InvalidStatus | OrderState

  function ShipAnswer(s: Store, o: OrderId, to: Fulfilment): Answer {
    if !(0 <= o < |s.orders|) then Missing
    else
      var current := s.orders[o].fulfilment;
      if s.orders[o].kind == Digital && to != Processing && to != Cancelled then NotPhysical
      else if current == to then Unchanged
      else if s.orders[o].kind == Digital && to == Cancelled then OrderState
      else if Ships(current, to) then Moved
      else if to == Processing then InvalidStatus else InvalidTransition
  }

  /** set_fulfillment_status (services/orders.py:86-122), to one of the five known statuses. */
  method SetFulfilmentStatus(db: Database, ghost cfg: Config, o: OrderId, to: Fulfilment) returns (answer: Answer)
    modifies db
    ensures db.View() == Alone(cfg, old(db.View()), ShipRead(o, to))
    ensures answer == ShipAnswer(old(db.View()), o, to)
  {
    hide Alone;
    ShipAlone(cfg, db.View(), o, to);
    if !(0 <= o < |db.orders|) { return Missing; }
    var order := db.orders[o];
    if order.kind == Digital && (to == Packed || to == Shipped || to == Delivered) { return NotPhysical; }
    var current := order.fulfilment;
    if current == to { return Unchanged; }
    if to == Packed || to == Shipped || to == Delivered {
      var orderIndex := if Place(current).Some? then Place(current).value else 0;
      if Place(to).value != orderIndex + 1 { return InvalidTransition; }
      var ok := db.SetPhysicalFulfilment(o, to);
      if !ok { return OrderState; }
    } else if to == Cancelled {
      var ok := db.CancelPhysicalFulfilment(o);
      if !ok { return OrderState; }
    } else {
      return InvalidStatus;
    }
    return Moved;
  }

  lemma ShipAlone(cfg: Config, s: Store, o: OrderId, to: Fulfilment)
    ensures Alone(cfg, s, ShipRead(o, to)) ==
            if ShipAnswer(s, o, to) != Moved then s
            else if to == Cancelled then DoCancelFulfilment(s, o).0 else DoSetFulfilment(s, o, to).0
  {
    hide Alone;
    AloneStep(cfg, s, ShipRead(o, to), s, Refused);
    AloneFinished(cfg, s);
    if ShipAnswer(s, o, to) == Moved { ShipWriteAlone(cfg, s, o, to); }
  }

  lemma ShipWriteAlone(cfg: Config, s: Store, o: OrderId, to: Fulfilment)
    ensures Alone(cfg, s, ShipWrite(o, to)) ==
            if to == Cancelled then DoCancelFulfilment(s, o).0 else DoSetFulfilment(s, o, to).0
  {
    hide Alone;
    var (s', reply) := if to == Cancelled then DoCancelFulfilment(s, o) else DoSetFulfilment(s, o, to);
    AloneStep(cfg, s, ShipWrite(o, to), s', reply);
    AloneFinished(cfg, s');
  }

  /** Undisturbed, a parcel moves exactly when the documented rule allows it for a physical order, or
      when a cancelled parcel is packed again, which the rule does not allow; the move is the one asked
      for, and stock is given back exactly when it is a cancellation. */
  lemma MovesExact(cfg: Config, s: Store, o: OrderId, to: Fulfilment)
    requires 0 <= o < |s.orders|
    ensures var from, s' := s.orders[o].fulfilment, Alone(cfg, s, ShipRead(o, to));
            var moves := s.orders[o].kind != Digital && (Documented(from, to) || (from == Cancelled && to == Packed));
            && s'.orders == (if moves then s.orders[o := s.orders[o].(fulfilment := to)] else s.orders)
            && s'.stock == (if moves && to == Cancelled then ReleaseAll(s.stock, s.orders[o].items) else s.stock)
            && (ShipAnswer(s, o, to) == Moved <==> moves)
  {
    hide Alone;
    ShipAlone(cfg, s, o, to);
  }

  /** The reason for staying put is true, and told in this order: no such order; a digital one asked to be
      packed, shipped or delivered; where it is already; a digital one asked to be cancelled; not the next
      step; a step that is never taken. */
  lemma RefusalTold(s: Store, o: OrderId, to: Fulfilment)
    ensures var answer := ShipAnswer(s, o, to);
            && (answer == Missing <==> !(0 <= o < |s.orders|))
            && (0 <= o < |s.orders| ==>
                  var digital, from := s.orders[o].kind == Digital, s.orders[o].fulfilment;
                  && (answer == NotPhysical <==> digital && to in {Packed, Shipped, Delivered})
                  && (answer == Unchanged <==> from == to && !(digital && to in {Packed, Shipped, Delivered}))
                  && (answer == OrderState <==> digital && from != to && to == Cancelled)
                  && (answer == InvalidStatus <==> from != Processing && to == Processing)
                  && (answer == InvalidTransition <==>
                        !digital && from != to && to in {Packed, Shipped, Delivered}
                        && !Documented(from, to) && !(from == Cancelled && to == Packed)))
  {
  }

  // ------------------------------------------------------------------ how often stock is given back

  predicate IsRejected(s: Store, o: OrderId) { 0 <= o < |s.orders| && s.orders[o].status == Rejected }

  predicate IsCancelled(s: Store, o: OrderId) { 0 <= o < |s.orders| && s.orders[o].fulfilment == Cancelled }

  function One(p: bool): int { if p then 1 else 0 }

  /** How often the order left the cancelled state: packed again, or approved. */
  function Reopened(cfg: Config, b: Books, calls: seq<Call>, o: OrderId): int {
    if calls == [] then 0
    else
      var n := |calls| - 1;
      var before := Run(cfg, b, calls[..n]).s;
      Reopened(cfg, b, calls[..n], o) + One(Reopens(before, Do(cfg, before, calls[n]).0, o))
  }

  predicate Reopens(s: Store, s': Store, o: OrderId) { IsCancelled(s, o) && !IsCancelled(s', o) }

  /** How often it was cancelled while it was cancelled. */
  function Recancelled(cfg: Config, b: Books, calls: seq<Call>, o: OrderId): int {
    if calls == [] then 0
    else
      var n := |calls| - 1;
      Recancelled(cfg, b, calls[..n], o) + One(Recancels(Run(cfg, b, calls[..n]).s, calls[n], o))
  }

  predicate Recancels(s: Store, call: Call, o: OrderId) {
    call == CancelFulfilment(o) && Cancellable(s, o) && IsCancelled(s, o)
  }

  /** What one call does to the count of releases of o and to its two marks. */
  predicate Accounted(b: Books, b': Books, call: Call, o: OrderId) {
    b'.released[o] + One(IsRejected(b.s, o)) + One(IsCancelled(b.s, o))
      == b.released[o] + One(IsRejected(b'.s, o)) + One(IsCancelled(b'.s, o))
         + One(Reopens(b.s, b'.s, o)) + One(Recancels(b.s, call, o))
  }

  lemma CheckoutAccounted(cfg: Config, b: Books, r: Request, o: OrderId)
    ensures Accounted(b, Recorded(b, Checkout(r), DoCheckout(cfg, b.s, r)), Checkout(r), o)
  {
    if !DoCheckout(cfg, b.s, r).1.Placed? { FailedCheckoutKeeps(cfg, b.s, r); }
  }

  lemma PlaceAccounted(cfg: Config, b: Books, call: Call, o: OrderId)
    requires call.PlaceClaimed?
    ensures var result := DoPlaceClaimed(cfg, b.s, call.request, call.lines, call.total, call.discount, call.seen);
            Accounted(b, Recorded(b, call, result), call, o)
  {
  }

  lemma ClaimAccounted(b: Books, r: Request, o: OrderId)
    ensures Accounted(b, Recorded(b, ClaimWithCoupon(r), DoClaim(b.s, r)), ClaimWithCoupon(r), o)
  {
    ClaimFrame(b.s, r);
  }

  lemma ApproveAccounted(b: Books, p: OrderId, o: OrderId)
    ensures Accounted(b, Recorded(b, ApproveOrder(p), DoApproveOrder(b.s, p)), ApproveOrder(p), o)
  {
  }

  lemma RejectAccounted(b: Books, p: OrderId, o: OrderId)
    ensures Accounted(b, Recorded(b, RejectOrder(p), DoRejectOrder(b.s, p)), RejectOrder(p), o)
  {
  }

  lemma CancelAccounted(b: Books, p: OrderId, o: OrderId)
    ensures Accounted(b, Recorded(b, CancelFulfilment(p), DoCancelFulfilment(b.s, p)), CancelFulfilment(p), o)
  {
  }

  lemma ShipAccounted(b: Books, p: OrderId, to: Fulfilment, o: OrderId)
    requires to != Cancelled
    ensures Accounted(b, Recorded(b, SetFulfilment(p, to), DoSetFulfilment(b.s, p, to)), SetFulfilment(p, to), o)
  {
  }

  /** set_physical_fulfillment_status is only ever called to move along the chain. */
  predicate AlongChain(call: Call) { call.SetFulfilment? ==> call.to != Cancelled }

  lemma OrderCallAccounted(cfg: Config, b: Books, call: Call, o: OrderId)
    requires WritesOrders(call) && AlongChain(call)
    ensures Accounted(b, Recorded(b, call, DoOrders(cfg, b.s, call)), call, o)
  {
    hide Accounted, Recorded;
    hide DoCheckout, DoClaim, DoPlaceClaimed, DoApproveOrder, DoRejectOrder, DoCancelFulfilment, DoSetFulfilment;
    match call
    case Checkout(r) => CheckoutAccounted(cfg, b, r, o);
    case ClaimWithCoupon(r) => ClaimAccounted(b, r, o);
    case PlaceClaimed(_, _, _, _, _) => PlaceAccounted(cfg, b, call, o);
    case ApproveOrder(p) => ApproveAccounted(b, p, o);
    case RejectOrder(p) => RejectAccounted(b, p, o);
    case CancelFulfilment(p) => CancelAccounted(b, p, o);
    case SetFulfilment(p, to) => ShipAccounted(b, p, to, o);
  }

  lemma CallAccounted(cfg: Config, b: Books, call: Call, o: OrderId)
    requires AlongChain(call)
    ensures Accounted(b, Record(cfg, b, call), call, o)
  {
    hide DoOrders, DoPoints, DoReferrals, DoTopUps, DoShop;
    if WritesOrders(call) {
      OrderCallAccounted(cfg, b, call, o);
    } else {
      OthersKeepOrders(cfg, b.s, call);
    }
  }

  /** In every run of any calls: an order's reservation has been given back once for being rejected, once
      for being cancelled now, once for every time it left the cancelled state, and once for every time
      it was cancelled while it was cancelled. */
  lemma {:induction false} ReleasesCounted(cfg: Config, b: Books, calls: seq<Call>, o: OrderId)
    requires Opening(b) && forall c | c in calls :: AlongChain(c)
    ensures var e := Run(cfg, b, calls);
            e.released[o] == One(IsRejected(e.s, o)) + One(IsCancelled(e.s, o))
                             + Reopened(cfg, b, calls, o) + Recancelled(cfg, b, calls, o)
  {
    hide Do, Record;
    if calls != [] {
      var n := |calls| - 1;
      assert calls[n] in calls;
      ReleasesCounted(cfg, b, calls[..n], o);
      RecordStore(cfg, Run(cfg, b, calls[..n]), calls[n]);
      CallAccounted(cfg, Run(cfg, b, calls[..n]), calls[n], o);
    }
  }

  lemma RecordStore(cfg: Config, b: Books, call: Call)
    ensures Record(cfg, b, call).s == Do(cfg, b.s, call).0
  {
    hide Do;
  }

  /** So it is given back at most once, as the stock books need, exactly when at most one of these has
      happened; and for an order that never left the cancelled state and was never cancelled twice, the
      two marks on the order say whether it has been given back. */
  lemma ReleasedOnceExact(cfg: Config, b: Books, calls: seq<Call>, o: OrderId)
    requires Opening(b) && forall c | c in calls :: AlongChain(c)
    ensures var e := Run(cfg, b, calls);
            && (e.released[o] <= 1 <==>
                  One(IsRejected(e.s, o)) + One(IsCancelled(e.s, o))
                  + Reopened(cfg, b, calls, o) + Recancelled(cfg, b, calls, o) <= 1)
            && (Reopened(cfg, b, calls, o) == 0 && Recancelled(cfg, b, calls, o) == 0 ==>
                  (o in e.released <==> IsRejected(e.s, o) || IsCancelled(e.s, o)))
  {
    ReleasesCounted(cfg, b, calls, o);
  }

  /** The next call gives the stock of such an order back a second time exactly when it cancels one that
      is rejected or cancelled, or rejects one that is cancelled: a look at the order tells. */
  lemma NextReleaseExact(cfg: Config, b: Books, calls: seq<Call>, call: Call, o: OrderId)
    requires Opening(b) && (forall c | c in calls :: AlongChain(c)) && AlongChain(call)
    requires Reopened(cfg, b, calls, o) == 0 && Recancelled(cfg, b, calls, o) == 0
    requires var s := Run(cfg, b, calls).s; !(IsRejected(s, o) && IsCancelled(s, o))
    ensures var e := Run(cfg, b, calls);
            Record(cfg, e, call).released[o] > 1 <==>
              || (call == CancelFulfilment(o) && Cancellable(e.s, o) && (IsRejected(e.s, o) || IsCancelled(e.s, o)))
              || (call == RejectOrder(o) && IsPending(e.s, o) && IsCancelled(e.s, o))
  {
    var e := Run(cfg, b, calls);
    ReleasesCounted(cfg, b, calls, o);
    CallReleases(cfg, e, call, o);
  }

  /** Which calls give the stock of o back. */
  lemma CallReleases(cfg: Config, b: Books, call: Call, o: OrderId)
    ensures Record(cfg, b, call).released[o] == b.released[o] + One(
              (call == CancelFulfilment(o) && Cancellable(b.s, o)) || (call == RejectOrder(o) && IsPending(b.s, o)))
  {
    hide DoCheckout, DoClaim, DoPlaceClaimed, DoApproveOrder, DoSetFulfilment, DoPoints, DoReferrals, DoTopUps, DoShop;
  }

  // ------------------------------------------------------------------ no step is skipped

  predicate HasFulfilment(s: Store, o: OrderId, f: Fulfilment) { 0 <= o < |s.orders| && s.orders[o].fulfilment == f }

  /** The order has been in this state at some moment of the events. */
  predicate Visited(cfg: Config, m: System, events: seq<Event>, o: OrderId, f: Fulfilment) {
    exists k | 0 <= k <= |events| :: HasFulfilment(Steps(cfg, m, events[..k]).s, o, f)
  }

  lemma VisitedLater(cfg: Config, m: System, events: seq<Event>, o: OrderId, f: Fulfilment)
    requires events != [] && Visited(cfg, m, events[..|events| - 1], o, f)
    ensures Visited(cfg, m, events, o, f)
  {
    hide Steps;
    var n := |events| - 1;
    var k :| 0 <= k <= n && HasFulfilment(Steps(cfg, m, events[..n][..k]).s, o, f);
    assert events[..n][..k] == events[..k];
  }

  lemma VisitedNow(cfg: Config, m: System, events: seq<Event>, o: OrderId, f: Fulfilment)
    requires HasFulfilment(Steps(cfg, m, events).s, o, f)
    ensures Visited(cfg, m, events, o, f)
  {
    hide Steps;
    assert events[..|events|] == events;
  }

  /** A parcel that is or is about to be shipped has been packed, one that is or is about to be delivered
      has been packed and shipped. */
  predicate Due(cfg: Config, m: System, events: seq<Event>, o: OrderId, f: Fulfilment) {
    && (f == Shipped || f == Delivered ==> Visited(cfg, m, events, o, Packed))
    && (f == Delivered ==> Visited(cfg, m, events, o, Shipped))
  }

  ghost predicate NothingSkipped(cfg: Config, m: System, events: seq<Event>) {
    var e := Steps(cfg, m, events);
    && (forall o | 0 <= o < |e.s.orders| :: Due(cfg, m, events, o, e.s.orders[o].fulfilment))
    && (forall a | a in e.actors && e.actors[a].ShipWrite? :: Due(cfg, m, events, e.actors[a].order, e.actors[a].to))
  }

  lemma DueLater(cfg: Config, m: System, events: seq<Event>, o: OrderId, f: Fulfilment)
    requires events != [] && Due(cfg, m, events[..|events| - 1], o, f)
    ensures Due(cfg, m, events, o, f)
  {
    hide Visited;
    if f == Shipped || f == Delivered { VisitedLater(cfg, m, events, o, Packed); }
    if f == Delivered { VisitedLater(cfg, m, events, o, Shipped); }
  }

  /** Whoever sees an order in a state it was due in, and ships it on, ships it to where it is due. */
  lemma ShipsDue(cfg: Config, m: System, events: seq<Event>, o: OrderId, to: Fulfilment)
    requires var s := Steps(cfg, m, events).s;
             0 <= o < |s.orders| && Due(cfg, m, events, o, s.orders[o].fulfilment) && Ships(s.orders[o].fulfilment, to)
    ensures Due(cfg, m, events, o, to)
  {
    hide Visited, Steps;
    VisitedNow(cfg, m, events, o, Steps(cfg, m, events).s.orders[o].fulfilment);
  }

  /** How a call can change where an order's parcel is. */
  lemma FulfilmentMoves(cfg: Config, s: Store, call: Call, o: OrderId)
    requires 0 <= o < |Do(cfg, s, call).0.orders|
    ensures var f := Do(cfg, s, call).0.orders[o].fulfilment;
            HasFulfilment(s, o, f) || call == SetFulfilment(o, f) || f == Processing || f == Cancelled
  {
    hide DoPoints, DoReferrals, DoTopUps, DoShop, DoOrders;
    if WritesOrders(call) { OrderCallMoves(cfg, s, call, o); } else { OthersKeepOrders(cfg, s, call); }
  }

  lemma OrderCallMoves(cfg: Config, s: Store, call: Call, o: OrderId)
    requires WritesOrders(call) && 0 <= o < |DoOrders(cfg, s, call).0.orders|
    ensures var f := DoOrders(cfg, s, call).0.orders[o].fulfilment;
            HasFulfilment(s, o, f) || call == SetFulfilment(o, f) || f == Processing || f == Cancelled
  {
    hide DoClaim, DoCheckout, PayAndPlace;
    if call.Checkout? {
      PlacedProcessing(cfg, s, call.request, o);
    } else if call.PlaceClaimed? {
      var q := QuoteFor(call.total, call.discount, call.seen, ShippingCost(call.request, call.lines));
      PaidProcessing(cfg, s, call.request, s, call.lines, q, o);
    } else if call.ClaimWithCoupon? {
      ClaimFrame(s, call.request);
    }
  }

  lemma PlacedProcessing(cfg: Config, s: Store, r: Request, o: OrderId)
    requires 0 <= o < |DoCheckout(cfg, s, r).0.orders|
    ensures var f := DoCheckout(cfg, s, r).0.orders[o].fulfilment; HasFulfilment(s, o, f) || f == Processing
  {
    if !DoCheckout(cfg, s, r).1.Placed? { FailedCheckoutKeeps(cfg, s, r); }
  }

  lemma PaidProcessing(cfg: Config, s: Store, r: Request, committed: Store, lines: seq<CartLine>, q: Quote, o: OrderId)
    requires committed.orders == s.orders && 0 <= o < |PayAndPlace(cfg, s, r, committed, lines, q).0.orders|
    ensures var f := PayAndPlace(cfg, s, r, committed, lines, q).0.orders[o].fulfilment;
            HasFulfilment(s, o, f) || f == Processing
  {
  }

  /** Parcels are moved along the chain by this program only. */
  predicate ByProgram(e: Event) { e.Other? ==> !e.call.SetFulfilment? }

  /** A system in which nothing has been shipped yet. */
  predicate Unshipped(m: System) {
    m.actors == map[] && forall o | 0 <= o < |m.s.orders| :: m.s.orders[o].fulfilment == Processing
  }

  lemma StepsSplit(cfg: Config, m: System, events: seq<Event>)
    requires events != []
    ensures Steps(cfg, m, events) == Step(cfg, Steps(cfg, m, events[..|events| - 1]), events[|events| - 1])
  {
    hide Step;
  }

  /** Where a parcel is after a step: where it was, where an actor about to move it moves it, or at an end
      from which it has to be packed again. */
  lemma StepMoves(cfg: Config, m: System, e: Event, o: OrderId)
    requires ByProgram(e) && 0 <= o < |Step(cfg, m, e).s.orders|
    ensures var f := Step(cfg, m, e).s.orders[o].fulfilment;
            || HasFulfilment(m.s, o, f) || f == Processing || f == Cancelled
            || (e.Advance? && e.actor in m.actors && m.actors[e.actor] == ShipWrite(o, f))
  {
    hide Do, Step;
    StepIsCall(cfg, m, e);
    var call := CallOf(cfg, m, e);
    if call.Some? { FulfilmentMoves(cfg, m.s, call.value, o); }
  }

  lemma OrderDue(cfg: Config, m: System, events: seq<Event>, o: OrderId)
    requires events != [] && NothingSkipped(cfg, m, events[..|events| - 1]) && ByProgram(events[|events| - 1])
    requires 0 <= o < |Steps(cfg, m, events).s.orders|
    ensures Due(cfg, m, events, o, Steps(cfg, m, events).s.orders[o].fulfilment)
  {
    hide Due, Step, Steps;
    var n := |events| - 1;
    var f := Steps(cfg, m, events).s.orders[o].fulfilment;
    StepsSplit(cfg, m, events);
    StepMoves(cfg, Steps(cfg, m, events[..n]), events[n], o);
    if f == Processing || f == Cancelled { EarlyDue(cfg, m, events, o, f); } else { DueLater(cfg, m, events, o, f); }
  }

  lemma EarlyDue(cfg: Config, m: System, events: seq<Event>, o: OrderId, f: Fulfilment)
    requires f == Processing || f == Cancelled
    ensures Due(cfg, m, events, o, f)
  {
  }

  /** An actor about to move a parcel was so before, or has just seen it where it may be moved from. */
  lemma StepShips(cfg: Config, m: System, e: Event, a: nat)
    requires a in Step(cfg, m, e).actors && Step(cfg, m, e).actors[a].ShipWrite?
    ensures var p := Step(cfg, m, e).actors[a];
            && a in m.actors
            && (m.actors[a] == p
                || (0 <= p.order < |m.s.orders| && Ships(m.s.orders[p.order].fulfilment, p.to)))
  {
    hide Do;
  }

  lemma ActorDue(cfg: Config, m: System, events: seq<Event>, a: nat)
    requires events != [] && NothingSkipped(cfg, m, events[..|events| - 1]) && ByProgram(events[|events| - 1])
    requires var e := Steps(cfg, m, events); a in e.actors && e.actors[a].ShipWrite?
    ensures var p := Steps(cfg, m, events).actors[a]; Due(cfg, m, events, p.order, p.to)
  {
    hide Due, Step, Steps;
    var n := |events| - 1;
    var before, p := Steps(cfg, m, events[..n]), Steps(cfg, m, events).actors[a];
    StepsSplit(cfg, m, events);
    StepShips(cfg, before, events[n], a);
    if before.actors[a] != p { ShipsDue(cfg, m, events[..n], p.order, p.to); }
    DueLater(cfg, m, events, p.order, p.to);
  }

  /** In every interleaving of any number of requests, approvals, rejections and whatever else, stale
      reads included: a shipped parcel has been packed, a delivered one has been packed and shipped. */
  lemma {:induction false} NoStepSkipped(cfg: Config, m: System, events: seq<Event>)
    requires Unshipped(m) && forall e | e in events :: ByProgram(e)
    ensures NothingSkipped(cfg, m, events)
  {
    hide Do, Due, Step;
    if events != [] {
      var n := |events| - 1;
      assert events[n] in events;
      NoStepSkipped(cfg, m, events[..n]);
      var e := Steps(cfg, m, events);
      forall o | 0 <= o < |e.s.orders| ensures Due(cfg, m, events, o, e.s.orders[o].fulfilment) {
        OrderDue(cfg, m, events, o);
      }
      forall a | a in e.actors && e.actors[a].ShipWrite?
        ensures Due(cfg, m, events, e.actors[a].order, e.actors[a].to)
      {
        ActorDue(cfg, m, events, a);
      }
    } else {
      forall o | 0 <= o < |m.s.orders| ensures Due(cfg, m, events, o, m.s.orders[o].fulfilment) {
        EarlyDue(cfg, m, events, o, Processing);
      }
    }
  }
}
