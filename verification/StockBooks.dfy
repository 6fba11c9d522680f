/** Stock: what is reserved is what the live orders hold, as long as each order gives its reservation
    back once. */
module StockBooks {
  import opened Tables
  import opened Calls
  import opened Runs

  function QtyOf(items: seq<Item>, v: VariantId): int {
    if items == [] then 0
    else
      var last := items[|items| - 1];
      QtyOf(items[..|items| - 1], v) + (if last.variant == Some(v) then last.quantity else 0)
  }

  /** What the orders that have not given their reservation back hold of a variant. */
  function HeldStock(orders: seq<Order>, released: multiset<OrderId>, v: VariantId): int {
    if orders == [] then 0
    else
      var n := |orders| - 1;
      HeldStock(orders[..n], released, v) + (if n in released then 0 else QtyOf(orders[n].items, v))
  }

  predicate WellFormedItem(i: Item) { i.quantity > 0 && (i.physical <==> i.variant.Some?) }

  predicate WellFormedItems(items: seq<Item>) { forall i | 0 <= i < |items| :: WellFormedItem(items[i]) }

  /** Orders hold whole quantities of variants, digital orders hold none, and carts are well-formed. */
  predicate Sound(s: Store) {
    && (forall o | 0 <= o < |s.orders| :: WellFormedItems(s.orders[o].items)
                                       && (s.orders[o].kind == Digital ==> NoVariants(s.orders[o].items)))
    && (forall u | u in s.carts :: forall l | l in s.carts[u] :: WellFormedLine(l))
  }

  predicate NoVariants(items: seq<Item>) { forall i | 0 <= i < |items| :: items[i].variant.None? }

  ghost predicate Stocked(b: Books) {
    && (forall v :: StockOf(b.s.stock, v).reserved == HeldStock(b.s.orders, b.released, v))
    && (forall v :: 0 <= StockOf(b.s.stock, v).reserved <= StockOf(b.s.stock, v).onHand)
    && (forall o | o in b.released :: 0 <= o < |b.s.orders|)
  }

  // ------------------------------------------------------------------ item by item

  lemma {:induction false} QtyNonNegative(items: seq<Item>, v: VariantId)
    requires WellFormedItems(items)
    ensures QtyOf(items, v) >= 0
  {
    if items != [] { QtyNonNegative(items[..|items| - 1], v); }
  }

  lemma {:induction false} NoVariantsNoQty(items: seq<Item>, v: VariantId)
    requires NoVariants(items)
    ensures QtyOf(items, v) == 0
  {
    if items != [] { NoVariantsNoQty(items[..|items| - 1], v); }
  }

  /** The loop of conditional updates takes the whole quantity of every variant, or fails. */
  lemma {:induction false} ReserveAllTakes(stock: map<VariantId, Stock>, items: seq<Item>, v: VariantId)
    requires WellFormedItems(items) && ReserveAll(stock, items).Some?
    ensures var after := StockOf(ReserveAll(stock, items).value, v);
            && after.onHand == StockOf(stock, v).onHand
            && after.reserved == StockOf(stock, v).reserved + QtyOf(items, v)
            && (StockOf(stock, v).reserved <= StockOf(stock, v).onHand ==> after.reserved <= after.onHand)
  {
    if items != [] {
      var n := |items| - 1;
      ReserveAllTakes(stock, items[..n], v);
      assert WellFormedItem(items[n]);
    }
  }

  /** Release is clamped at zero variant by variant, however the items are ordered. */
  lemma {:induction false} ReleaseAllClamps(stock: map<VariantId, Stock>, items: seq<Item>, v: VariantId)
    requires WellFormedItems(items) && StockOf(stock, v).reserved >= 0
    ensures var after := StockOf(ReleaseAll(stock, items), v);
            && after.onHand == StockOf(stock, v).onHand
            && after.reserved == Max(StockOf(stock, v).reserved - QtyOf(items, v), 0)
  {
    if items != [] {
      var n := |items| - 1;
      ReleaseAllClamps(stock, items[..n], v);
      QtyNonNegative(items[..n], v);
      assert WellFormedItem(items[n]);
    }
  }

  // ------------------------------------------------------------------ held stock

  lemma HeldAppend(orders: seq<Order>, released: multiset<OrderId>, order: Order, v: VariantId)
    requires |orders| !in released
    ensures HeldStock(orders + [order], released, v) == HeldStock(orders, released, v) + QtyOf(order.items, v)
  {
  }

  lemma {:induction false} HeldSame(orders: seq<Order>, orders': seq<Order>, released: multiset<OrderId>, v: VariantId)
    requires |orders| == |orders'| && forall o | 0 <= o < |orders| :: orders'[o].items == orders[o].items
    ensures HeldStock(orders', released, v) == HeldStock(orders, released, v)
  {
    if orders != [] {
      var n := |orders| - 1;
      HeldSame(orders[..n], orders'[..n], released, v);
    }
  }

  /** Giving an order's reservation back takes its quantity off, the first time only. */
  lemma {:induction false} HeldRelease(orders: seq<Order>, released: multiset<OrderId>, o: OrderId, v: VariantId)
    ensures HeldStock(orders, released[o := released[o] + 1], v)
         == HeldStock(orders, released, v) - (if 0 <= o < |orders| && o !in released
                                                  then QtyOf(orders[o].items, v) else 0)
  {
    if orders != [] {
      HeldRelease(orders[..|orders| - 1], released, o, v);
    }
  }

  lemma {:induction false} HeldCovers(orders: seq<Order>, released: multiset<OrderId>, o: OrderId, v: VariantId)
    requires forall p | 0 <= p < |orders| :: WellFormedItems(orders[p].items)
    ensures HeldStock(orders, released, v) >= 0
    ensures 0 <= o < |orders| && o !in released ==> HeldStock(orders, released, v) >= QtyOf(orders[o].items, v)
  {
    if orders != [] {
      var n := |orders| - 1;
      QtyNonNegative(orders[n].items, v);
      HeldCovers(orders[..n], released, o, v);
      if n != o { HeldCovers(orders[..n], released, o, v); }
    }
  }

  // ------------------------------------------------------------------ steps

  /** b' is b with its stock and orders moved on. */
  lemma PlacedStocked(b: Books, b': Books, order: Order)
    requires Stocked(b) && WellFormedItems(order.items)
    requires b'.s.orders == b.s.orders + [order] && b'.released == b.released
    requires ReserveAll(b.s.stock, order.items) == Some(b'.s.stock)
    ensures Stocked(b')
  {
    forall v
      ensures StockOf(b'.s.stock, v).reserved == HeldStock(b'.s.orders, b'.released, v)
      ensures 0 <= StockOf(b'.s.stock, v).reserved <= StockOf(b'.s.stock, v).onHand
    {
      ReserveAllTakes(b.s.stock, order.items, v);
      QtyNonNegative(order.items, v);
      HeldAppend(b.s.orders, b.released, order, v);
      assert StockOf(b.s.stock, v).reserved == HeldStock(b.s.orders, b.released, v);
    }
  }

  lemma ItemsKeptStocked(b: Books, b': Books)
    requires Stocked(b) && b'.s.stock == b.s.stock && b'.released == b.released
    requires |b'.s.orders| == |b.s.orders|
    requires forall o | 0 <= o < |b.s.orders| :: b'.s.orders[o].items == b.s.orders[o].items
    ensures Stocked(b')
  {
    forall v ensures StockOf(b'.s.stock, v).reserved == HeldStock(b'.s.orders, b'.released, v) {
      HeldSame(b.s.orders, b'.s.orders, b.released, v);
      assert StockOf(b.s.stock, v).reserved == HeldStock(b.s.orders, b.released, v);
    }
  }

  /** b' is b after order o gave its reservation back. */
  predicate GaveBack(b: Books, b': Books, o: OrderId) {
    && 0 <= o < |b.s.orders| && |b'.s.orders| == |b.s.orders|
    && (forall p | 0 <= p < |b.s.orders| :: b'.s.orders[p].items == b.s.orders[p].items)
    && b'.released == b.released[o := b.released[o] + 1]
    && (b'.s.stock == ReleaseAll(b.s.stock, b.s.orders[o].items)
        || (b'.s.stock == b.s.stock && NoVariants(b.s.orders[o].items)))
  }

  /** What a release does to every variant: stock follows the clamp, the books the first release only. */
  lemma ReleaseMoves(b: Books, b': Books, o: OrderId, v: VariantId)
    requires Stocked(b) && Sound(b.s) && GaveBack(b, b', o)
    ensures var q := QtyOf(b.s.orders[o].items, v);
            && q >= 0
            && StockOf(b'.s.stock, v).onHand == StockOf(b.s.stock, v).onHand
            && StockOf(b'.s.stock, v).reserved == Max(StockOf(b.s.stock, v).reserved - q, 0)
            && HeldStock(b'.s.orders, b'.released, v)
               == HeldStock(b.s.orders, b.released, v) - (if o in b.released then 0 else q)
            && (o !in b.released ==> q <= StockOf(b.s.stock, v).reserved)
  {
    var items := b.s.orders[o].items;
    QtyNonNegative(items, v);
    ReleaseAllClamps(b.s.stock, items, v);
    if NoVariants(items) { NoVariantsNoQty(items, v); }
    HeldSame(b.s.orders, b'.s.orders, b'.released, v);
    HeldRelease(b.s.orders, b.released, o, v);
    HeldCovers(b.s.orders, b.released, o, v);
    assert StockOf(b.s.stock, v).reserved == HeldStock(b.s.orders, b.released, v);
  }

  /** The first time an order gives its reservation back the books stay right and nothing is clamped. */
  lemma FirstReleaseStocked(b: Books, b': Books, o: OrderId)
    requires Stocked(b) && Sound(b.s) && GaveBack(b, b', o) && o !in b.released
    ensures Stocked(b')
  {
    forall v
      ensures StockOf(b'.s.stock, v).reserved == HeldStock(b'.s.orders, b'.released, v)
      ensures 0 <= StockOf(b'.s.stock, v).reserved <= StockOf(b'.s.stock, v).onHand
    {
      ReleaseMoves(b, b', o, v);
      assert StockOf(b.s.stock, v).reserved == HeldStock(b.s.orders, b.released, v);
    }
  }

  /** A second release of the same order keeps the books right exactly when nobody holds any of its
      variants; otherwise it frees stock that other orders hold. */
  lemma SecondReleaseExact(b: Books, b': Books, o: OrderId)
    requires Stocked(b) && Sound(b.s) && GaveBack(b, b', o) && o in b.released
    ensures Stocked(b') <==>
            forall v | QtyOf(b.s.orders[o].items, v) > 0 :: StockOf(b.s.stock, v).reserved == 0
  {
    forall v
      ensures 0 <= StockOf(b'.s.stock, v).reserved <= StockOf(b'.s.stock, v).onHand
      ensures StockOf(b'.s.stock, v).reserved == HeldStock(b'.s.orders, b'.released, v)
         <==> (QtyOf(b.s.orders[o].items, v) > 0 ==> StockOf(b.s.stock, v).reserved == 0)
    {
      ReleaseMoves(b, b', o, v);
      assert StockOf(b.s.stock, v).reserved == HeldStock(b.s.orders, b.released, v);
    }
  }

  lemma ShelfStocked(b: Books, b': Books, v: VariantId, onHand: int)
    requires Stocked(b) && b'.released == b.released && b'.s.orders == b.s.orders
    requires b'.s.stock == b.s.stock[v := StockOf(b.s.stock, v).(onHand := onHand)]
    ensures Stocked(b') <==> StockOf(b.s.stock, v).reserved <= onHand
  {
    forall w | w != v ensures StockOf(b'.s.stock, w) == StockOf(b.s.stock, w) {}
    assert StockOf(b'.s.stock, v).reserved == HeldStock(b'.s.orders, b'.released, v);
  }

  /** What a correction by delta and a count of onHand do to the row of every variant: they move what is on
      hand, unless it would become negative, and never what is reserved. */
  lemma ShelfMoves(s: Store, v: VariantId, amount: int, w: VariantId)
    ensures var row, (adjusted, reply) := StockOf(s.stock, w), DoAdjustStock(s, v, amount);
            var there := StockOf(s.stock, v).onHand + amount;
            && (reply.Done? <==> there >= 0)
            && StockOf(adjusted.stock, w) == (if w == v && there >= 0 then Stock(there, row.reserved) else row)
    ensures var row, (counted, reply) := StockOf(s.stock, w), DoSetStock(s, v, amount);
            && (reply.Done? <==> amount >= 0)
            && StockOf(counted.stock, w) == (if w == v && amount >= 0 then Stock(amount, row.reserved) else row)
  {
  }

  /** Deleting a product or variants takes their lines out of every cart and leaves all the others there. */
  lemma {:induction false} KeptLinesExact(lines: seq<CartLine>, product: Option<ProductId>, variants: set<VariantId>,
                                          l: CartLine)
    ensures multiset(KeptLines(lines, product, variants))[l]
         == if Some(l.product) == product || (l.variant.Some? && l.variant.value in variants) then 0
            else multiset(lines)[l]
  {
    if lines != [] {
      var n := |lines| - 1;
      assert lines == lines[..n] + [lines[n]];
      KeptLinesExact(lines[..n], product, variants, l);
    }
  }

  // ------------------------------------------------------------------ over runs

  /** What callers must respect: carts are filled through add_to_cart, an order gives its reservation
      back once, and a stock correction leaves at least what is reserved. */
  predicate FairToStock(b: Books, call: Call) {
    match call
    case SetCart(_, lines) => forall l | l in lines :: WellFormedLine(l)
    case PlaceClaimed(_, lines, _, _, _) => forall l | l in lines :: WellFormedLine(l)
    case RejectOrder(o) => IsPending(b.s, o) ==> o !in b.released
    case CancelFulfilment(o) => Cancellable(b.s, o) ==> o !in b.released
    case AdjustStock(v, delta) =>
      var row := StockOf(b.s.stock, v);
      row.onHand + delta >= 0 ==> row.onHand + delta >= row.reserved
    case SetStock(v, onHand) => onHand >= 0 ==> onHand >= StockOf(b.s.stock, v).reserved
    case DeleteVariants(_, variants) => forall v | v in variants :: StockOf(b.s.stock, v).reserved == 0
    case _ => true
  }

  /** Well-formed lines make well-formed items. */
  lemma ItemsSound(lines: seq<CartLine>)
    requires forall l | l in lines :: WellFormedLine(l)
    ensures WellFormedItems(ItemsOf(lines))
    ensures KindOf(lines) == Digital ==> NoVariants(ItemsOf(lines))
  {
    forall i | 0 <= i < |lines|
      ensures WellFormedItem(ItemsOf(lines)[i]) && (KindOf(lines) == Digital ==> ItemsOf(lines)[i].variant.None?)
    {
      assert lines[i] in lines && WellFormedLine(lines[i]);
    }
  }

  /** Stock rows that are deleted are missed by the orders that hold them, and by no others: deleting
      variants keeps the books right exactly when nobody holds any of them. */
  lemma DeleteVariantsExact(b: Books, b': Books, variants: set<VariantId>)
    requires Stocked(b) && b'.released == b.released && b'.s.orders == b.s.orders
    requires b'.s.stock == b.s.stock - variants
    ensures Stocked(b') <==> forall v | v in variants :: StockOf(b.s.stock, v).reserved == 0
  {
    forall v
      ensures StockOf(b'.s.stock, v) == if v in variants then Stock(0, 0) else StockOf(b.s.stock, v)
      ensures StockOf(b.s.stock, v).reserved == HeldStock(b'.s.orders, b'.released, v)
    {
    }
  }

  /** b' is b after a call with this result. */
  predicate Follows(b: Books, b': Books, call: Call, result: (Store, Reply)) {
    b'.s == result.0 && b'.released == Released(b.released, call, result.1)
  }

  lemma PlaceClaimedStocked(cfg: Config, b: Books, b': Books, call: Call)
    requires Stocked(b) && Sound(b.s) && call.PlaceClaimed? && FairToStock(b, call)
    requires Follows(b, b', call,
               DoPlaceClaimed(cfg, b.s, call.request, call.lines, call.total, call.discount, call.seen))
    ensures Stocked(b') && Sound(b'.s)
  {
    var q := QuoteFor(call.total, call.discount, call.seen, ShippingCost(call.request, call.lines));
    if PaymentFault(b.s, call.request, call.lines, q).None? {
      ItemsSound(call.lines);
      PlacedStocked(b, b', OrderFor(cfg, call.request, call.lines, q));
    } else {
      ItemsKeptStocked(b, b');
    }
  }

  lemma CheckoutStocked(cfg: Config, b: Books, b': Books, r: Request)
    requires Stocked(b) && Sound(b.s) && Follows(b, b', Checkout(r), DoCheckout(cfg, b.s, r))
    ensures Stocked(b') && Sound(b'.s)
  {
    if DoCheckout(cfg, b.s, r).1.Placed? {
      assert CartOf(b.s.carts, r.user) != [];
      ItemsSound(CartOf(b.s.carts, r.user));
      PlacedStocked(b, b', NewOrder(cfg, b.s, r));
    } else {
      FailedCheckoutKeeps(cfg, b.s, r);
      ItemsKeptStocked(b, b');
    }
  }

  lemma ClaimStocked(b: Books, b': Books, r: Request)
    requires Stocked(b) && Sound(b.s) && Follows(b, b', ClaimWithCoupon(r), DoClaim(b.s, r))
    ensures Stocked(b') && Sound(b'.s)
  {
    ClaimFrame(b.s, r);
    ItemsKeptStocked(b, b');
  }

  lemma RejectStocked(b: Books, b': Books, o: OrderId)
    requires Stocked(b) && Sound(b.s) && FairToStock(b, RejectOrder(o))
    requires Follows(b, b', RejectOrder(o), DoRejectOrder(b.s, o))
    ensures Stocked(b') && Sound(b'.s)
  {
    if IsPending(b.s, o) { FirstReleaseStocked(b, b', o); } else { ItemsKeptStocked(b, b'); }
  }

  lemma CancelStocked(b: Books, b': Books, o: OrderId)
    requires Stocked(b) && Sound(b.s) && FairToStock(b, CancelFulfilment(o))
    requires Follows(b, b', CancelFulfilment(o), DoCancelFulfilment(b.s, o))
    ensures Stocked(b') && Sound(b'.s)
  {
    if Cancellable(b.s, o) { FirstReleaseStocked(b, b', o); } else { ItemsKeptStocked(b, b'); }
  }

  lemma ApproveStocked(b: Books, b': Books, o: OrderId)
    requires Stocked(b) && Sound(b.s) && Follows(b, b', ApproveOrder(o), DoApproveOrder(b.s, o))
    ensures Stocked(b') && Sound(b'.s)
  {
    ItemsKeptStocked(b, b');
  }

  lemma ShipStocked(b: Books, b': Books, o: OrderId, to: Fulfilment)
    requires Stocked(b) && Sound(b.s) && Follows(b, b', SetFulfilment(o, to), DoSetFulfilment(b.s, o, to))
    ensures Stocked(b') && Sound(b'.s)
  {
    ItemsKeptStocked(b, b');
  }

  lemma OrderCallStocked(cfg: Config, b: Books, b': Books, call: Call)
    requires Stocked(b) && Sound(b.s) && FairToStock(b, call) && WritesOrders(call)
    requires Follows(b, b', call, DoOrders(cfg, b.s, call))
    ensures Stocked(b') && Sound(b'.s)
  {
    hide Stocked, Sound, Follows;
    hide DoCheckout, DoClaim, DoPlaceClaimed, DoApproveOrder, DoRejectOrder, DoCancelFulfilment, DoSetFulfilment;
    match call
    case Checkout(r) => CheckoutStocked(cfg, b, b', r);
    case ClaimWithCoupon(r) => ClaimStocked(b, b', r);
    case PlaceClaimed(_, _, _, _, _) => PlaceClaimedStocked(cfg, b, b', call);
    case ApproveOrder(o) => ApproveStocked(b, b', o);
    case SetFulfilment(o, to) => ShipStocked(b, b', o, to);
    case RejectOrder(o) => RejectStocked(b, b', o);
    case CancelFulfilment(o) => CancelStocked(b, b', o);
  }

  lemma AdjustStocked(b: Books, b': Books, v: VariantId, delta: int)
    requires Stocked(b) && FairToStock(b, AdjustStock(v, delta))
    requires b'.s == DoAdjustStock(b.s, v, delta).0 && b'.released == b.released
    ensures Stocked(b')
  {
    var row := StockOf(b.s.stock, v);
    ShelfStocked(b, b', v, if row.onHand + delta >= 0 then row.onHand + delta else row.onHand);
  }

  lemma ShopCallStocked(b: Books, b': Books, call: Call)
    requires Stocked(b) && Sound(b.s) && FairToStock(b, call) && WritesShop(call)
    requires Follows(b, b', call, DoShop(b.s, call))
    ensures Stocked(b')
  {
    hide Stocked, Sound;
    match call
    case AdjustStock(v, delta) => AdjustStocked(b, b', v, delta);
    case SetStock(v, onHand) => if onHand >= 0 { ShelfStocked(b, b', v, onHand); } else { ItemsKeptStocked(b, b'); }
    case DeleteVariants(_, variants) => DeleteVariantsExact(b, b', variants);
    case _ => ItemsKeptStocked(b, b');
  }

  lemma ShopCallSound(s: Store, b: Books, call: Call)
    requires Sound(s) && WritesShop(call) && FairToStock(b, call)
    ensures Sound(DoShop(s, call).0)
  {
  }

  lemma StepStocked(cfg: Config, b: Books, call: Call)
    requires Stocked(b) && Sound(b.s) && FairToStock(b, call)
    ensures Stocked(Record(cfg, b, call)) && Sound(Record(cfg, b, call).s)
  {
    hide Stocked, DoOrders, DoPoints, DoReferrals, DoTopUps, DoShop;
    var b' := Record(cfg, b, call);
    if WritesOrders(call) {
      OrderCallStocked(cfg, b, b', call);
    } else if WritesShop(call) {
      ShopCallStocked(b, b', call);
      ShopCallSound(b.s, b, call);
    } else {
      Frames(cfg, b.s, call);
      ItemsKeptStocked(b, b');
    }
  }

  /** Cancelling a pending order's delivery and then rejecting the order are both accepted, and the
      second frees the reservation again: right only if no other order held any of its variants. */
  lemma CancelThenRejectExact(cfg: Config, b: Books, o: OrderId)
    requires Stocked(b) && Sound(b.s) && IsPending(b.s, o) && Cancellable(b.s, o) && o !in b.released
    ensures var c := Record(cfg, b, CancelFulfilment(o));
            && IsPending(c.s, o)
            && (Stocked(Record(cfg, c, RejectOrder(o))) <==>
                forall v | QtyOf(b.s.orders[o].items, v) > 0 ::
                  StockOf(b.s.stock, v).reserved == QtyOf(b.s.orders[o].items, v))
  {
    var c := Record(cfg, b, CancelFulfilment(o));
    CancelStocked(b, c, o);
    SecondReleaseExact(c, Record(cfg, c, RejectOrder(o)), o);
    forall v ensures StockOf(c.s.stock, v).reserved == StockOf(b.s.stock, v).reserved - QtyOf(b.s.orders[o].items, v) {
      ReleaseMoves(b, c, o, v);
    }
  }

  predicate FairStockRun(cfg: Config, b: Books, calls: seq<Call>) {
    || calls == []
    || (var n := |calls| - 1;
        FairStockRun(cfg, b, calls[..n]) && FairToStock(Run(cfg, b, calls[..n]), calls[n]))
  }

  /** In every such run the reserved stock of each variant is the sum over the orders that still hold
      it, and never more than is on hand: nothing is oversold. */
  lemma {:induction false} StockConserved(cfg: Config, b: Books, calls: seq<Call>)
    requires Opening(b) && FairStockRun(cfg, b, calls)
    ensures Stocked(Run(cfg, b, calls)) && Sound(Run(cfg, b, calls).s)
  {
    if calls != [] {
      var n := |calls| - 1;
      StockConserved(cfg, b, calls[..n]);
      StepStocked(cfg, Run(cfg, b, calls[..n]), calls[n]);
    }
  }
}
