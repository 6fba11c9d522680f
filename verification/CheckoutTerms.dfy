/** What a checkout charges, takes and refuses, told from the cart, the code, the wallet and the shelf. */
module CheckoutTerms {
  import opened Tables
  import opened Calls
  import opened Runs
  import K = StockBooks

  // ------------------------------------------------------------------ the price

  /** The item a cart line becomes: its quantity of a physical product, one of a digital one. */
  predicate Sells(line: CartLine, item: Item) {
    && item.product == line.product && item.physical == line.physical && item.variant == line.variant
    && item.quantity == (if line.physical && line.quantity != 0 then line.quantity else 1)
  }

  predicate SellsAll(lines: seq<CartLine>, items: seq<Item>) {
    |items| == |lines| && forall i | 0 <= i < |lines| :: Sells(lines[i], items[i])
  }

  /** The price of each line, that of its variant before that of its product, times the quantity that its
      item holds, added up. */
  function Charge(lines: seq<CartLine>, items: seq<Item>): int
    requires |items| == |lines|
  {
    if lines == [] then 0
    else
      var n := |lines| - 1;
      var price := match lines[n].variantPrice
        case Some(own) => if lines[n].physical then own else lines[n].productPrice
        case None => lines[n].productPrice;
      Charge(lines[..n], items[..n]) + items[n].quantity * price
  }

  /** The total is the charge for what is sold. */
  lemma {:induction false} TotalIsCharge(lines: seq<CartLine>)
    ensures SellsAll(lines, ItemsOf(lines)) && CartTotal(lines) == Charge(lines, ItemsOf(lines))
  {
    if lines != [] {
      var n := |lines| - 1;
      TotalIsCharge(lines[..n]);
      assert ItemsOf(lines)[..n] == ItemsOf(lines[..n]);
    }
  }

  /** One unit more of a physical line raises the total by exactly its price. */
  lemma {:induction false} OneMoreUnit(lines: seq<CartLine>, i: nat)
    requires i < |lines| && lines[i].physical && lines[i].quantity > 0
    ensures var more := lines[i := lines[i].(quantity := lines[i].quantity + 1)];
            CartTotal(more) - CartTotal(lines)
            == (if lines[i].variantPrice.Some? then lines[i].variantPrice.value else lines[i].productPrice)
  {
    var n := |lines| - 1;
    var more := lines[i := lines[i].(quantity := lines[i].quantity + 1)];
    if i < n {
      OneMoreUnit(lines[..n], i);
      assert more[..n] == lines[..n][i := more[i]];
    } else {
      assert more[..n] == lines[..n];
      OneMore(UnitPrice(lines[n]), lines[n].quantity);
    }
  }

  lemma OneMore(price: int, quantity: int)
    ensures price * (quantity + 1) == price * quantity + price
  {
  }

  /** What a code takes off: its percentage rounded down, or else its fixed amount, and at most the total. */
  predicate TakesOff(code: Code, total: int, d: int) {
    && d <= total
    && if code.percent != 0 then 100 * d <= total * code.percent && (d < total ==> total * code.percent < 100 * (d + 1))
       else d <= code.fixedAmount && (d < total ==> d == code.fixedAmount)
  }

  predicate TakesOffFor(s: Store, r: Request, total: int, d: int) {
    if r.coupon.None? then d == 0 else r.coupon.value in s.codes && TakesOff(s.codes[r.coupon.value], total, d)
  }

  lemma DiscountTold(code: Code, total: int)
    requires total >= 0
    ensures TakesOff(code, total, Discount(code, total))
    ensures code.percent >= 0 && code.fixedAmount >= 0 ==> Discount(code, total) >= 0
  {
    if code.percent > 0 { NotNegative(total, code.percent); }
  }

  lemma NotNegative(a: int, b: int)
    requires a >= 0 && b >= 0
    ensures a * b >= 0 && a * b / 100 >= 0
  {
  }

  // ------------------------------------------------------------------ the order

  predicate NothingNegative(s: Store, r: Request) {
    && (forall l | l in CartOf(s.carts, r.user) ::
          l.quantity >= 0 && l.productPrice >= 0 && (l.variantPrice.Some? ==> l.variantPrice.value >= 0))
    && (r.coupon.Some? && r.coupon.value in s.codes ==>
          s.codes[r.coupon.value].percent >= 0 && s.codes[r.coupon.value].fixedAmount >= 0)
    && CreditOf(s.users, r.user) >= 0
  }

  lemma {:induction false} TotalNotNegative(lines: seq<CartLine>)
    requires forall l | l in lines ::
               l.quantity >= 0 && l.productPrice >= 0 && (l.variantPrice.Some? ==> l.variantPrice.value >= 0)
    ensures CartTotal(lines) >= 0
  {
    if lines != [] {
      var n := |lines| - 1;
      TotalNotNegative(lines[..n]);
      assert lines[n] in lines;
      NotNegative(UnitPrice(lines[n]), Quantity(lines[n]));
    }
  }

  /** What is taken off an order, from what is on it. */
  function TakenOff(o: Order): int { o.basePrice - o.walletUsed - (o.finalPrice - o.shipping) }

  /** The goods of an order: the items sold for the lines, their kind, their price, and shipping for the
      physical ones only. */
  predicate GoodsOf(r: Request, lines: seq<CartLine>, o: Order) {
    && SellsAll(lines, o.items) && o.basePrice == Charge(lines, o.items)
    && (o.kind == Physical <==> forall i | 0 <= i < |lines| :: lines[i].physical)
    && (o.kind == Digital <==> forall i | 0 <= i < |lines| :: !lines[i].physical)
    && (if exists i | 0 <= i < |lines| :: lines[i].physical
        then r.shipping.Method? && o.shipping == r.shipping.cost && r.address.OnFile? else o.shipping == 0)
  }

  /** Who pays how: the wallet as much as it can of what the code leaves of the goods. */
  predicate PaidBy(o: Order, credit: int) {
    && 0 <= o.walletUsed <= credit && 0 <= o.finalPrice - o.shipping && 0 <= TakenOff(o)
    && (o.walletUsed < credit ==> o.finalPrice == o.shipping)
  }

  lemma GoodsTold(cfg: Config, r: Request, lines: seq<CartLine>, q: Quote)
    requires lines != [] && q.total == CartTotal(lines) && ShippingFault(r, lines).None?
    ensures GoodsOf(r, lines, OrderFor(cfg, r, lines, q))
  {
    TotalIsCharge(lines);
    assert lines[0].physical || !lines[0].physical;
  }

  /** A checkout that goes through inserts one order: the goods of the cart at the prices in it. */
  lemma PlacedGoodsTold(cfg: Config, s: Store, r: Request)
    requires DoCheckout(cfg, s, r).1.Placed?
    ensures var (s', reply) := DoCheckout(cfg, s, r);
            && reply.order == |s.orders| && s'.orders[..|s.orders|] == s.orders && |s'.orders| == |s.orders| + 1
            && var o := s'.orders[reply.order];
               && o.user == r.user && o.key == r.key && o.code == r.coupon && o.fulfilment == Processing
               && GoodsOf(r, CartOf(s.carts, r.user), o)
  {
    hide ReserveAll, CartTotal, KindOf, ItemsOf, GoodsOf, DiscountFor;
    GoodsTold(cfg, r, CartOf(s.carts, r.user), RequestQuote(s, r));
  }

  /** Less what the code takes off, less what the wallet has. */
  lemma PlacedOrderTold(cfg: Config, s: Store, r: Request)
    requires DoCheckout(cfg, s, r).1.Placed? && NothingNegative(s, r)
    ensures var (s', reply) := DoCheckout(cfg, s, r);
            && reply.order == |s.orders| && |s'.orders| == |s.orders| + 1
            && var o := s'.orders[reply.order];
               && o.user == r.user && o.key == r.key && o.code == r.coupon && o.fulfilment == Processing
               && GoodsOf(r, CartOf(s.carts, r.user), o)
               && TakesOffFor(s, r, o.basePrice, TakenOff(o)) && PaidBy(o, CreditOf(s.users, r.user))
  {
    hide ReserveAll, CartTotal, KindOf, ItemsOf, GoodsOf, Discount;
    var lines := CartOf(s.carts, r.user);
    var total := CartTotal(lines);
    TotalNotNegative(lines);
    if r.coupon.Some? { DiscountTold(s.codes[r.coupon.value], total); }
    PlacedGoodsTold(cfg, s, r);
  }

  /** And it takes from the tables what the order says, and nothing else. */
  lemma PlacedTakesTold(cfg: Config, s: Store, r: Request, v: VariantId, u: UserId, c: CodeId)
    requires DoCheckout(cfg, s, r).1.Placed? && NothingNegative(s, r)
    requires forall l | l in CartOf(s.carts, r.user) :: WellFormedLine(l)
    ensures var (s', reply) := DoCheckout(cfg, s, r);
            var o := s'.orders[reply.order];
            && CreditOf(s'.users, u) == CreditOf(s.users, u) - (if u == r.user then o.walletUsed else 0)
            && UsedOf(s'.codes, c) == UsedOf(s.codes, c) + (if r.coupon == Some(c) then 1 else 0)
            && StockOf(s'.stock, v)
               == StockOf(s.stock, v).(reserved := StockOf(s.stock, v).reserved + K.QtyOf(o.items, v))
            && s'.carts == s.carts - {r.user} && s'.placed == s.placed[r.key := reply.order]
            && s'.topups == s.topups && s'.points == s.points && s'.ledger == s.ledger
  {
    hide ReserveAll, CartTotal, KindOf, ItemsOf;
    var lines := CartOf(s.carts, r.user);
    K.ItemsSound(lines);
    K.ReserveAllTakes(s.stock, ItemsOf(lines), v);
  }

  // ------------------------------------------------------------------ when it goes through

  predicate Usable(code: Code, now: int) {
    && code.active && (code.maxUses == 0 || code.used < code.maxUses)
    && (code.expiresAt.Some? ==> now <= code.expiresAt.value)
  }

  /** A new code starts unused on its own terms, switching it off or on changes nothing else, and twice
      nothing at all. */
  lemma CodeTurned(s: Store, c: CodeId, terms: Code, now: int, total: int, d: int)
    requires c !in s.codes && terms.maxUses >= 0
    ensures var s1 := DoShop(s, AddCode(c, terms)).0;
            var s2 := DoShop(s1, ToggleCode(c)).0;
            && c in s1.codes && c in s2.codes && DoShop(s2, ToggleCode(c)).0 == s1
            && (Usable(s1.codes[c], now) <==>
                  terms.active && (terms.expiresAt.Some? ==> now <= terms.expiresAt.value))
            && (Usable(s2.codes[c], now) <==>
                  !terms.active && (terms.expiresAt.Some? ==> now <= terms.expiresAt.value))
            && (TakesOff(s1.codes[c], total, d) <==> TakesOff(terms, total, d))
            && (TakesOff(s2.codes[c], total, d) <==> TakesOff(terms, total, d))
            && forall k | k in s.codes :: k in s2.codes && s2.codes[k] == s.codes[k]
  {
    var s1 := DoShop(s, AddCode(c, terms)).0;
    assert DoShop(DoShop(s1, ToggleCode(c)).0, ToggleCode(c)).0.codes == s1.codes;
  }

  predicate Sellable(line: CartLine) {
    line.productActive && (line.physical ==> line.variantActive) && (!line.physical ==> line.hasFiles)
  }

  /** Everything that is ordered of a variant is there. */
  predicate InStock(stock: map<VariantId, Stock>, items: seq<Item>, v: VariantId) {
    K.QtyOf(items, v) > 0 ==> StockOf(stock, v).reserved + K.QtyOf(items, v) <= StockOf(stock, v).onHand
  }

  lemma QtyLast(items: seq<Item>, v: VariantId)
    requires items != []
    ensures var n := |items| - 1;
            K.QtyOf(items, v) == K.QtyOf(items[..n], v) + (if items[n].variant == Some(v) then items[n].quantity else 0)
  {
  }

  /** The last item decides, once the others have been reserved. */
  lemma ReservesLast(stock: map<VariantId, Stock>, items: seq<Item>)
    requires items != [] && K.WellFormedItems(items) && ReserveAll(stock, items[..|items| - 1]).Some?
    ensures var last := items[|items| - 1];
            ReserveAll(stock, items).Some?
            <==> last.variant.None? || InStock(stock, items, last.variant.value)
  {
    var n := |items| - 1;
    assert K.WellFormedItem(items[n]) && K.WellFormedItems(items[..n]);
    if items[n].variant.Some? {
      K.ReserveAllTakes(stock, items[..n], items[n].variant.value);
      K.QtyNonNegative(items[..n], items[n].variant.value);
    }
  }

  /** All items can be reserved one after another exactly when of each variant there is enough for all. */
  lemma {:induction false} ReservableExact(stock: map<VariantId, Stock>, items: seq<Item>)
    requires K.WellFormedItems(items)
    ensures ReserveAll(stock, items).Some? <==> forall v :: InStock(stock, items, v)
  {
    hide ReserveAll;
    if items == [] {
      NothingReserved(stock);
      assert forall v :: InStock(stock, items, v);
    } else {
      var n := |items| - 1;
      ReservableExact(stock, items[..n]);
      assert K.WellFormedItem(items[n]);
      forall v ensures items[n].variant != Some(v) ==> (InStock(stock, items[..n], v) <==> InStock(stock, items, v))
               ensures InStock(stock, items, v) ==> InStock(stock, items[..n], v) {
        QtyLast(items, v);
        K.QtyNonNegative(items[..n], v);
      }
      if ReserveAll(stock, items[..n]).Some? {
        ReservesLast(stock, items);
      } else {
        ReservesNoMore(stock, items);
        var v :| !InStock(stock, items[..n], v);
        assert !InStock(stock, items, v);
      }
    }
  }

  lemma NothingReserved(stock: map<VariantId, Stock>)
    ensures ReserveAll(stock, []) == Some(stock)
  {
  }

  lemma ReservesNoMore(stock: map<VariantId, Stock>, items: seq<Item>)
    requires items != [] && ReserveAll(stock, items[..|items| - 1]).None?
    ensures ReserveAll(stock, items).None?
  {
  }

  lemma {:induction false} SellableExact(lines: seq<CartLine>)
    ensures CartFault(lines).None? <==> forall i | 0 <= i < |lines| :: Sellable(lines[i])
  {
    if lines != [] { SellableExact(lines[..|lines| - 1]); }
  }

  predicate Delivers(r: Request, lines: seq<CartLine>) {
    && !r.address.NotFound?
    && ((exists i | 0 <= i < |lines| :: lines[i].physical) ==> r.shipping.Method? && r.address.OnFile?)
  }

  predicate CouponUsable(s: Store, r: Request) {
    r.coupon.Some? ==> r.coupon.value in s.codes && Usable(s.codes[r.coupon.value], r.now)
  }

  predicate NoneOwned(s: Store, r: Request) {
    forall i | 0 <= i < |CartOf(s.carts, r.user)| ::
      var l := CartOf(s.carts, r.user)[i]; !l.physical ==> !Owns(s.orders, r.user, l.product)
  }

  /** The wallet and the code never fail when nobody comes in between. */
  lemma PlacementAlone(s: Store, r: Request)
    requires CouponUsable(s, r)
    ensures PaymentFault(ClaimCart(s, r.user), r, CartOf(s.carts, r.user), RequestQuote(s, r)).None?
            <==> Delivers(r, CartOf(s.carts, r.user)) && ReserveAll(s.stock, ItemsOf(CartOf(s.carts, r.user))).Some?
  {
    hide ReserveAll, CartTotal, ItemsOf, DiscountFor;
  }

  /** A checkout under a new key goes through exactly when carts are on, the code can be used, there is
      something in the cart, none of its digital products is owned, all of it can be sold, delivered and
      is in stock. */
  lemma PlacedExact(cfg: Config, s: Store, r: Request)
    requires r.key !in s.placed && forall l | l in CartOf(s.carts, r.user) :: WellFormedLine(l)
    ensures var lines := CartOf(s.carts, r.user);
            DoCheckout(cfg, s, r).1.Placed? <==>
              && cfg.cartOn && CouponUsable(s, r) && lines != [] && NoneOwned(s, r)
              && (forall i | 0 <= i < |lines| :: Sellable(lines[i])) && Delivers(r, lines)
              && forall v :: InStock(s.stock, ItemsOf(lines), v)
  {
    hide ReserveAll, CartTotal, ItemsOf, CartFault, PaymentFault, RequestQuote, Owns, InStock, Delivers, Sellable;
    var lines := CartOf(s.carts, r.user);
    K.ItemsSound(lines);
    ReservableExact(s.stock, ItemsOf(lines));
    SellableExact(lines);
    if CouponUsable(s, r) { PlacementAlone(s, r); }
  }

  /** The line that stopped the validation, with the reason given. */
  predicate Stopped(lines: seq<CartLine>, i: int, e: CheckoutError) {
    && 0 <= i < |lines| && (forall j | 0 <= j < i :: Sellable(lines[j]))
    && (e == ProductUnavailable <==> !lines[i].productActive)
    && (e == VariantUnavailable <==> lines[i].productActive && lines[i].physical && !lines[i].variantActive)
    && (e == NoFiles <==> lines[i].productActive && !lines[i].physical && !lines[i].hasFiles)
    && (e == ProductUnavailable || e == VariantUnavailable || e == NoFiles)
  }

  lemma {:induction false} StoppedAt(lines: seq<CartLine>) returns (i: int)
    requires CartFault(lines).Some?
    ensures Stopped(lines, i, CartFault(lines).value)
  {
    var n := |lines| - 1;
    if CartFault(lines[..n]).Some? {
      i := StoppedAt(lines[..n]);
    } else {
      i := n;
      SellableExact(lines[..n]);
      assert forall j | 0 <= j < n :: lines[..n][j] == lines[j];
    }
  }

  /** The reason given for a refusal is true. */
  ghost predicate Reason(cfg: Config, s: Store, r: Request, e: CheckoutError) {
    var lines := CartOf(s.carts, r.user);
    var physical := exists i | 0 <= i < |lines| :: lines[i].physical;
    match e
    case CheckoutDisabled => !cfg.cartOn
    case DiscountInvalid => !CouponUsable(s, r)
    case CartEmpty => lines == []
    case AlreadyPurchased => !NoneOwned(s, r)
    case ProductUnavailable => exists i :: Stopped(lines, i, e)
    case VariantUnavailable => exists i :: Stopped(lines, i, e)
    case NoFiles => exists i :: Stopped(lines, i, e)
    case ShippingRequired => physical && r.shipping.NotChosen?
    case ShippingInvalid => physical && r.shipping.Unknown?
    case AddressRequired => physical && r.address.NotGiven?
    case AddressInvalid => r.address.NotFound?
    case StockUnavailable => exists v :: !InStock(s.stock, ItemsOf(lines), v)
    case WalletInsufficient => false
    case DiscountExhausted => false
  }

  lemma LateReason(s: Store, r: Request)
    requires CouponUsable(s, r)
    requires PaymentFault(ClaimCart(s, r.user), r, CartOf(s.carts, r.user), RequestQuote(s, r)).Some?
    ensures var lines := CartOf(s.carts, r.user);
            var e := PaymentFault(ClaimCart(s, r.user), r, lines, RequestQuote(s, r)).value;
            var physical := exists i | 0 <= i < |lines| :: lines[i].physical;
            || (e == ShippingRequired && physical && r.shipping.NotChosen?)
            || (e == ShippingInvalid && physical && r.shipping.Unknown?)
            || (e == AddressRequired && physical && r.address.NotGiven?)
            || (e == AddressInvalid && r.address.NotFound?)
            || (e == StockUnavailable && ReserveAll(s.stock, ItemsOf(lines)).None?)
  {
    hide ReserveAll, CartTotal, ItemsOf, DiscountFor;
  }

  lemma RefusalTold(cfg: Config, s: Store, r: Request)
    requires DoCheckout(cfg, s, r).1.Failed? && forall l | l in CartOf(s.carts, r.user) :: WellFormedLine(l)
    ensures Reason(cfg, s, r, DoCheckout(cfg, s, r).1.error)
  {
    hide ReserveAll, CartTotal, ItemsOf, CartFault, PaymentFault, RequestQuote, Owns, InStock, Stopped;
    var lines := CartOf(s.carts, r.user);
    if EarlyFault(cfg, s, r).Some? {
      if CartFault(lines).Some? { var i := StoppedAt(lines); StopReason(lines, i, CartFault(lines).value); }
    } else {
      K.ItemsSound(lines);
      ReservableExact(s.stock, ItemsOf(lines));
      LateReason(s, r);
    }
  }

  lemma StopReason(lines: seq<CartLine>, i: int, e: CheckoutError)
    requires Stopped(lines, i, e)
    ensures e == ProductUnavailable || e == VariantUnavailable || e == NoFiles
  {
  }

  // ------------------------------------------------------------------ in two transactions

  /** What the first transaction of a checkout with a coupon hands on. */
  lemma ClaimTold(s: Store, r: Request)
    requires DoClaim(s, r).1.Claimed? && NothingNegative(s, r)
    ensures var reply, lines := DoClaim(s, r).1, CartOf(s.carts, r.user);
            && reply.lines == lines && lines != [] && CouponUsable(s, r) && NoneOwned(s, r)
            && (forall i | 0 <= i < |lines| :: Sellable(lines[i]))
            && reply.total == Charge(lines, ItemsOf(lines)) && SellsAll(lines, ItemsOf(lines))
            && TakesOffFor(s, r, reply.total, reply.discount) && 0 <= reply.discount <= reply.total
  {
    hide CartTotal, ItemsOf, CartFault, Owns, Discount;
    var lines := CartOf(s.carts, r.user);
    TotalIsCharge(lines);
    TotalNotNegative(lines);
    SellableExact(lines);
    DiscountTold(s.codes[r.coupon.value], CartTotal(lines));
  }

  /** What the second makes of it: the goods of the lines handed on, at the total handed on. */
  lemma ClaimedOrderTold(cfg: Config, s: Store, r: Request, lines: seq<CartLine>, total: int, discount: int, seen: int)
    requires DoPlaceClaimed(cfg, s, r, lines, total, discount, seen).1.Placed?
    requires lines != [] && 0 <= discount <= total && 0 <= seen
    ensures var (s', reply) := DoPlaceClaimed(cfg, s, r, lines, total, discount, seen);
            && reply.order == |s.orders| && |s'.orders| == |s.orders| + 1
            && var o := s'.orders[reply.order];
               && o.user == r.user && o.key == r.key && o.code == r.coupon && SellsAll(lines, o.items)
               && o.basePrice == total && TakenOff(o) == discount && PaidBy(o, seen)
               && (total == CartTotal(lines) ==> GoodsOf(r, lines, o))
  {
    hide ReserveAll, CartTotal, KindOf, ItemsOf, GoodsOf;
    TotalIsCharge(lines);
    var q := QuoteFor(total, discount, seen, ShippingCost(r, lines));
    if total == CartTotal(lines) { GoodsTold(cfg, r, lines, q); }
  }

  /** When it does: the goods can still be delivered, the wallet still has what was to be taken, the code is
      still on with uses left, and all of it is in stock. */
  lemma ClaimedPlacedExact(cfg: Config, s: Store, r: Request, lines: seq<CartLine>,
                           total: int, discount: int, seen: int)
    requires forall l | l in lines :: WellFormedLine(l)
    ensures var walletUsed := Min(seen, Max(total - discount, 0));
            DoPlaceClaimed(cfg, s, r, lines, total, discount, seen).1.Placed? <==>
              && Delivers(r, lines) && (walletUsed == 0 || (r.user in s.users && walletUsed <= s.users[r.user].credit))
              && (r.coupon.Some? ==>
                    && r.coupon.value in s.codes && s.codes[r.coupon.value].active
                    && (s.codes[r.coupon.value].maxUses == 0
                        || s.codes[r.coupon.value].used < s.codes[r.coupon.value].maxUses))
              && forall v :: InStock(s.stock, ItemsOf(lines), v)
    ensures DoPlaceClaimed(cfg, s, r, lines, total, discount, seen).1.Placed?
            || DoPlaceClaimed(cfg, s, r, lines, total, discount, seen).0 == s
  {
    hide ReserveAll, ItemsOf, InStock, Delivers, ShippingFault, PlacementFault, Placement, OrderFor;
    K.ItemsSound(lines);
    ReservableExact(s.stock, ItemsOf(lines));
    DeliversExact(r, lines);
    TakesExact(s, r.user, Min(seen, Max(total - discount, 0)), r.coupon, ItemsOf(lines));
    var q := QuoteFor(total, discount, seen, ShippingCost(r, lines));
    assert PaymentFault(s, r, lines, q).None?
      <==> Delivers(r, lines) && PlacementFault(s, r.user, q.walletUsed, r.coupon, ItemsOf(lines)).None?;
    assert ReserveAll(s.stock, ItemsOf(lines)).Some? <==> forall v :: InStock(s.stock, ItemsOf(lines), v);
  }

  lemma DeliversExact(r: Request, lines: seq<CartLine>)
    ensures ShippingFault(r, lines).None? <==> Delivers(r, lines)
  {
  }

  lemma TakesExact(s: Store, u: UserId, walletUsed: int, code: Option<CodeId>, items: seq<Item>)
    ensures PlacementFault(s, u, walletUsed, code, items).None? <==>
              && (walletUsed == 0 || (u in s.users && walletUsed <= s.users[u].credit))
              && (code.Some? ==>
                    && code.value in s.codes && s.codes[code.value].active
                    && (s.codes[code.value].maxUses == 0 || s.codes[code.value].used < s.codes[code.value].maxUses))
              && ReserveAll(s.stock, items).Some?
  {
  }
}
