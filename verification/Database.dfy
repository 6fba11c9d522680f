/** database.py and services/checkout.py statement by statement: a class whose fields are the tables.
    Each method is proved to do what the call of the same name in module Calls says, so that whatever
    is proved of runs of calls holds of these methods.  A raised exception ends the transaction and
    puts the tables back to the last commit. */
module Databases {
  import opened Tables
  import opened Calls
  import CheckoutBooks

  class Database {
    var users: map<UserId, User>
    var carts: map<UserId, seq<CartLine>>
    var orders: seq<Order>
    var placed: map<string, OrderId>
    var codes: map<CodeId, Code>
    var topups: seq<TopUp>
    var stock: map<VariantId, Stock>
    var points: map<UserId, Points>
    var ledger: seq<Row>

    function View(): Store
      reads this
    {
      Store(users, carts, orders, placed, codes, topups, stock, points, ledger)
    }

    constructor (s: Store)
      ensures View() == s
    {
      users, carts, orders, placed, codes := s.users, s.carts, s.orders, s.placed, s.codes;
      topups, stock, points, ledger := s.topups, s.stock, s.points, s.ledger;
    }

    method Rollback(committed: Store)
      modifies this
      ensures View() == committed
    {
      users, carts, orders := committed.users, committed.carts, committed.orders;
      placed, codes, topups := committed.placed, committed.codes, committed.topups;
      stock, points, ledger := committed.stock, committed.points, committed.ledger;
    }

    // ---------------------------------------------------------------- order decisions

    method ApproveOrder(o: OrderId) returns (ok: bool)
      modifies this
      ensures (View(), if ok then Done else Refused) == DoApproveOrder(old(View()), o)
    {
      if !(0 <= o < |orders| && orders[o].status == Pending) { return false; }
      orders := orders[o := orders[o].(status := Approved, fulfilment := Processing)];
      return true;
    }

    /** One UPDATE for each row of order_items that has a variant. */
    method ReleaseItems(items: seq<Item>)
      modifies this`stock
      ensures stock == ReleaseAll(old(stock), items)
    {
      for i := 0 to |items|
        invariant stock == ReleaseAll(old(stock), items[..i])
      {
        assert items[..i + 1][..i] == items[..i];
        if items[i].variant.Some? {
          var v := items[i].variant.value;
          if v in stock {
            stock := stock[v := stock[v].(reserved := Max(stock[v].reserved - items[i].quantity, 0))];
          }
        }
      }
      assert items[..|items|] == items;
    }

    method RejectOrder(o: OrderId) returns (ok: bool)
      modifies this
      ensures (View(), if ok then Done else Refused) == DoRejectOrder(old(View()), o)
    {
      if !(0 <= o < |orders| && orders[o].status == Pending) { return false; }
      orders := orders[o := orders[o].(status := Rejected)];
      var order := orders[o];
      if order.walletUsed != 0 && order.user in users {
        var row := users[order.user];
        users := users[order.user := row.(credit := Max(row.credit + order.walletUsed, 0))];
      }
      if order.code.Some? && order.code.value in codes {
        var row := codes[order.code.value];
        codes := codes[order.code.value := row.(used := Max(row.used - 1, 0))];
      }
      if order.kind != Digital { ReleaseItems(order.items); }
      return true;
    }

    method CancelPhysicalFulfilment(o: OrderId) returns (ok: bool)
      modifies this
      ensures (View(), if ok then Done else Refused) == DoCancelFulfilment(old(View()), o)
    {
      if !(0 <= o < |orders| && orders[o].kind != Digital) { return false; }
      orders := orders[o := orders[o].(fulfilment := Cancelled)];
      ReleaseItems(orders[o].items);
      return true;
    }

    method SetPhysicalFulfilment(o: OrderId, to: Fulfilment) returns (ok: bool)
      modifies this
      ensures (View(), if ok then Done else Refused) == DoSetFulfilment(old(View()), o, to)
    {
      if !(0 <= o < |orders|) { return false; }
      orders := orders[o := orders[o].(fulfilment := to)];
      return true;
    }

    // ---------------------------------------------------------------- wallet and top-ups

    method AddWalletCredit(u: UserId, delta: int)
      modifies this
      ensures View() == old(View()).(users := Credit(old(users), u, delta))
    {
      if u in users {
        users := users[u := users[u].(credit := Max(users[u].credit + delta, 0))];
      }
    }

    method CreateTopUp(u: UserId, amount: int) returns (t: int)
      modifies this
      ensures View() == old(View()).(topups := old(topups) + [TopUp(u, amount, Pending)])
      ensures t == |old(topups)| && TopUpPending(View(), t)
    {
      t := |topups|;
      topups := topups + [TopUp(u, amount, Pending)];
    }

    method ApproveTopUp(t: int) returns (ok: bool)
      modifies this
      ensures (View(), if ok then Done else Refused) == DoApproveTopUp(old(View()), t)
    {
      if !(0 <= t < |topups| && topups[t].status == Pending) { return false; }
      topups := topups[t := topups[t].(status := Approved)];
      var row := topups[t];
      if row.user in users {
        users := users[row.user := users[row.user].(credit := users[row.user].credit + row.amount)];
      }
      return true;
    }

    method RejectTopUp(t: int) returns (ok: bool)
      modifies this
      ensures (View(), if ok then Done else Refused) == DoRejectTopUp(old(View()), t)
    {
      if !(0 <= t < |topups| && topups[t].status == Pending) { return false; }
      topups := topups[t := topups[t].(status := Rejected)];
      return true;
    }

    // ---------------------------------------------------------------- loyalty

    /** INSERT OR IGNORE; false when the foreign key to users is violated. */
    method EnsurePoints(u: UserId) returns (ok: bool)
      modifies this`points
      ensures (View(), if ok then Done else Violation) == DoEnsurePoints(old(View()), u)
    {
      if u !in users { return false; }
      if u !in points { points := points[u := NO_POINTS]; }
      return true;
    }

    /** The two UPDATE statements of loyalty_state: the tier is written only when one is given. */
    method UpdateState(u: UserId, newBalance: int, kind: TxKind, amount: int, tier: Option<string>)
      requires u in points && newBalance == points[u].current + amount
      modifies this`points
      ensures points == old(points)[u := Moved(old(points)[u], kind, amount, tier)]
    {
      var state := points[u];
      var newEarned := state.earned + (if amount > 0 then amount else 0);
      var spentDelta := if amount < 0 && (kind == Redeem || kind == Expire) then -amount else 0;
      var newSpent := state.spent + spentDelta;
      if tier.None? {
        points := points[u := Points(newBalance, newEarned, newSpent, state.tier)];
      } else {
        points := points[u := Points(newBalance, newEarned, newSpent, tier.value)];
      }
    }

    method ApplyLoyaltyMutation(u: UserId, kind: TxKind, amount: int, tier: Option<string>, key: Option<Key>)
      returns (reply: Reply)
      modifies this
      ensures (View(), reply) == DoMutate(old(View()), u, kind, amount, tier, key)
    {
      if key.Some? && HasKey(ledger, key.value) { return Duplicate; }
      var committed := points;
      var ok := EnsurePoints(u);
      if !ok { return Violation; }
      var state := points[u];
      var newBalance := state.current + amount;
      if newBalance < 0 {
        points := committed;
        return Insufficient;
      }
      UpdateState(u, newBalance, kind, amount, tier);
      if amount == 0 {
        points := committed;
        return Violation;
      }
      Overwrites(old(points), u, NO_POINTS, points[u]);
      var row := Row(u, kind, amount, newBalance, key, 0);
      ledger := ledger + [row];
      return Entered(row);
    }

    method RedeemPointsForWallet(u: UserId, amount: int, toman: int, key: Key) returns (reply: Reply)
      modifies this
      ensures (View(), reply) == DoRedeem(old(View()), u, amount, toman, key)
    {
      if HasKey(ledger, key) { return Duplicate; }
      var committed := (points, users);
      var ok := EnsurePoints(u);
      if !ok { return Violation; }
      if points[u].current < amount { return Insufficient; }
      points := points[u := points[u].(current := points[u].current - amount, spent := points[u].spent + amount)];
      var newBalance := points[u].current;
      users := users[u := users[u].(credit := users[u].credit + toman)];
      if amount == 0 {
        points, users := committed.0, committed.1;
        return Violation;
      }
      Overwrites(old(points), u, NO_POINTS, points[u]);
      var row := Row(u, Redeem, -amount, newBalance, Some(key), toman);
      ledger := ledger + [row];
      return Entered(row);
    }

    // ---------------------------------------------------------------- referrals

    method SetReferredBy(u: UserId, referrer: UserId) returns (ok: bool)
      modifies this
      ensures (View(), if ok then Done else Refused) == DoSetReferrer(old(View()), u, referrer)
    {
      if u == referrer { return false; }
      if u in users && users[u].referredBy.None? {
        if referrer in users {
          users := users[u := users[u].(referredBy := Some(referrer))];
          return true;
        }
      }
      return false;
    }

    method RewardReferrerIfFirstPurchase(cfg: Config, u: UserId, paid: int) returns (reply: Reply)
      modifies this
      ensures (View(), reply) == DoRewardReferrer(cfg, old(View()), u, paid)
    {
      if !cfg.buttonOn { return Refused; }
      if !cfg.commissionOn { return Refused; }
      if u !in users || users[u].referredBy.None? || users[u].purchaseRewarded { return Refused; }
      var referrer := users[u].referredBy.value;
      if cfg.commissionCap > 0 {
        var already := |Buyers(users, referrer)|;
        if already >= cfg.commissionCap {
          users := users[u := users[u].(purchaseRewarded := true)];
          return Refused;
        }
      }
      users := users[u := users[u].(purchaseRewarded := true)];
      var reward := paid * cfg.percent / 100;
      if reward > 0 && referrer in users {
        users := users[referrer := users[referrer].(credit := Max(users[referrer].credit + reward, 0))];
      }
      return Paid(referrer, reward);
    }

    /** The bonus of a fixed amount per invitation; the count is taken after the claim. */
    method ApplyReferralInviteRewards(cfg: Config, u: UserId, referrer: UserId) returns (reply: Reply)
      modifies this
      ensures (View(), reply) == DoInviteReward(cfg, old(View()), u, referrer)
    {
      reply := Refused;
      if !cfg.buttonOn { return; }
      if referrer !in users { return; }
      if cfg.inviteOn && cfg.inviteAmount > 0 {
        if u in users && !users[u].inviteGiven {
          users := users[u := users[u].(inviteGiven := true)];
          var already := |Invited(users, referrer)|;
          if cfg.inviteCap == 0 || already <= cfg.inviteCap {
            users := users[referrer := users[referrer].(credit := Max(users[referrer].credit + cfg.inviteAmount, 0))];
            reply := Paid(referrer, cfg.inviteAmount);
          }
        }
      }
    }

    // ---------------------------------------------------------------- inventory

    method AdjustInventory(v: VariantId, delta: int) returns (ok: bool)
      modifies this
      ensures (View(), if ok then Done else Refused) == DoAdjustStock(old(View()), v, delta)
    {
      if v !in stock { stock := stock[v := Stock(0, 0)]; }
      assert stock == old(stock)[v := StockOf(old(stock), v)];
      if stock[v].onHand + delta < 0 { return false; }
      stock := stock[v := stock[v].(onHand := stock[v].onHand + delta)];
      Overwrites(old(stock), v, Stock(0, 0), stock[v]);
      return true;
    }

    method SetInventory(v: VariantId, onHand: int) returns (ok: bool)
      modifies this
      ensures (View(), if ok then Done else Violation) == DoSetStock(old(View()), v, onHand)
    {
      if onHand < 0 { return false; }
      if v !in stock { stock := stock[v := Stock(0, 0)]; }
      stock := stock[v := stock[v].(onHand := onHand)];
      Overwrites(old(stock), v, Stock(0, 0), stock[v]);
      return true;
    }

    // ---------------------------------------------------------------- checkout

    /** _reserve_item (services/checkout.py:159-176): the row is made if missing, then taken from if
        enough is left. */
    method ReserveStock(v: Option<VariantId>, qty: int) returns (ok: bool)
      modifies this`stock
      ensures var reserved := if v.None? then None else Reserve(old(stock), v.value, qty);
              ok == reserved.Some? && (ok ==> stock == reserved.value)
    {
      if v.None? { return false; }
      if v.value !in stock { stock := stock[v.value := Stock(0, 0)]; }
      var row := stock[v.value];
      if row.onHand - row.reserved < qty { return false; }
      stock := stock[v.value := row.(reserved := row.reserved + qty)];
      return true;
    }

    /** The reservation loop; a failure leaves the stock to be rolled back. */
    method ReserveItems(items: seq<Item>) returns (ok: bool)
      modifies this`stock
      ensures ok == ReserveAll(old(stock), items).Some?
      ensures ok ==> stock == ReserveAll(old(stock), items).value
    {
      for i := 0 to |items|
        invariant ReserveAll(old(stock), items[..i]) == Some(stock)
      {
        assert items[..i + 1][..i] == items[..i];
        if items[i].physical {
          ok := ReserveStock(items[i].variant, items[i].quantity);
          if !ok {
            ReserveAllFails(old(stock), items, i);
            return;
          }
        }
      }
      assert items[..|items|] == items;
      return true;
    }

    /** The first digital line the user has already paid for. */
    method FindOwned(user: UserId, lines: seq<CartLine>) returns (owned: bool)
      ensures owned == OwnsAny(orders, user, lines)
    {
      for i := 0 to |lines|
        invariant !OwnsAny(orders, user, lines[..i])
      {
        if !lines[i].physical {
          if Owns(orders, user, lines[i].product) { return true; }
        }
        assert lines[..i + 1] == lines[..i] + [lines[i]];
      }
      assert lines[..|lines|] == lines;
      return false;
    }

    /** The validation loop over the claimed lines: the first fault, or the order's items and total. */
    method ValidateLines(lines: seq<CartLine>)
      returns (fault: Option<CheckoutError>, total: int, items: seq<Item>, hasPhysical: bool, hasDigital: bool)
      ensures fault == CartFault(lines)
      ensures fault.None? ==> total == CartTotal(lines) && items == ItemsOf(lines)
      ensures fault.None? ==> hasPhysical == HasPhysical(lines) && hasDigital == HasDigital(lines)
    {
      total, items, hasPhysical, hasDigital := 0, [], false, false;
      for i := 0 to |lines|
        invariant CartFault(lines[..i]).None?
        invariant total == CartTotal(lines[..i]) && items == ItemsOf(lines[..i])
        invariant hasPhysical == HasPhysical(lines[..i]) && hasDigital == HasDigital(lines[..i])
      {
        var line := lines[i];
        assert lines[..i + 1][..i] == lines[..i] && lines[..i + 1][i] == line;
        fault := None;
        if !line.productActive {
          fault := Some(ProductUnavailable);
        } else if line.physical {
          if !line.variantActive { fault := Some(VariantUnavailable); }
          hasPhysical := true;
        } else {
          if !line.hasFiles { fault := Some(NoFiles); }
          hasDigital := true;
        }
        if fault.Some? {
          FaultFound(lines, i);
          return;
        }
        var qty := if line.quantity == 0 then 1 else line.quantity;
        if !line.physical { qty := 1; }
        var unit := if line.physical && line.variantPrice.Some? then line.variantPrice.value else line.productPrice;
        total := total + unit * qty;
        items := items + [Item(line.product, line.physical, line.variant, qty)];
        assert HasPhysical(lines[..i + 1]) == (HasPhysical(lines[..i]) || line.physical);
        assert HasDigital(lines[..i + 1]) == (HasDigital(lines[..i]) || !line.physical);
      }
      assert lines[..|lines|] == lines;
      fault := None;
    }

    /** Shipping method and address (lines 386-399). */
    method ChooseShipping(r: Request, hasPhysical: bool) returns (fault: Option<CheckoutError>, cost: int)
      ensures forall lines | HasPhysical(lines) == hasPhysical ::
                fault == ShippingFault(r, lines) && (fault.None? ==> cost == ShippingCost(r, lines))
    {
      cost := 0;
      if hasPhysical {
        if r.shipping.NotChosen? { return Some(ShippingRequired), cost; }
        if r.shipping.Unknown? { return Some(ShippingInvalid), cost; }
        cost := r.shipping.cost;
      }
      if r.address.NotGiven? {
        if hasPhysical { return Some(AddressRequired), cost; }
      } else if r.address.NotFound? {
        return Some(AddressInvalid), cost;
      }
      fault := None;
    }

    /** UPDATE users SET referral_credit = referral_credit - ? WHERE referral_credit >= ?. */
    method DebitWallet(u: UserId, amount: int) returns (ok: bool)
      modifies this`users
      ensures ok == (u in old(users) && old(users)[u].credit >= amount)
      ensures users == if ok then CreditExactly(old(users), u, -amount) else old(users)
    {
      if !(u in users && users[u].credit >= amount) { return false; }
      users := users[u := users[u].(credit := users[u].credit - amount)];
      return true;
    }

    /** UPDATE discount_codes SET used_count = used_count + 1 WHERE it is active and not used up. */
    method ConsumeCode(c: CodeId) returns (ok: bool)
      modifies this`codes
      ensures ok == (c in old(codes) && CodeTakes(old(codes)[c]))
      ensures codes == if ok then old(codes)[c := old(codes)[c].(used := old(codes)[c].used + 1)] else old(codes)
    {
      if !(c in codes && codes[c].active && (codes[c].maxUses == 0 || codes[c].used < codes[c].maxUses)) {
        return false;
      }
      codes := codes[c := codes[c].(used := codes[c].used + 1)];
      return true;
    }

    /** The conditional debits, the order row and the reservations (lines 413-477). */
    method PlaceOrder(order: Order, hasPhysical: bool) returns (fault: Option<CheckoutError>)
      requires hasPhysical == exists i | 0 <= i < |order.items| :: order.items[i].physical
      modifies this
      ensures fault == PlacementFault(old(View()), order.user, order.walletUsed, order.code, order.items)
      ensures fault.None? ==> View() == Placement(old(View()), order)
    {
      if order.walletUsed != 0 {
        var ok := DebitWallet(order.user, order.walletUsed);
        if !ok { return Some(WalletInsufficient); }
      }
      if order.code.Some? {
        var ok := ConsumeCode(order.code.value);
        if !ok { return Some(DiscountExhausted); }
      }
      var id := |orders|;
      orders := orders + [order];
      if hasPhysical {
        var ok := ReserveItems(order.items);
        if !ok { return Some(StockUnavailable); }
      } else {
        NothingToReserve(stock, order.items);
      }
      if order.key !in placed { placed := placed[order.key := id]; }
      return None;
    }

    /** From the shipping method to the end of the transaction. */
    method FinishCheckout(cfg: Config, r: Request, committed: Store, ghost cart: seq<CartLine>, total: int,
                          discount: int, items: seq<Item>, hasPhysical: bool, hasDigital: bool)
      returns (reply: Reply)
      requires cart != [] && items == ItemsOf(cart)
      requires hasPhysical == HasPhysical(cart) && hasDigital == HasDigital(cart)
      modifies this
      ensures (View(), reply) ==
              PayAndPlace(cfg, old(View()), r, committed, cart,
                          QuoteFor(total, discount, CreditOf(old(users), r.user), ShippingCost(r, cart)))
    {
      var fault, shippingCost := ChooseShipping(r, hasPhysical);
      if fault.Some? {
        Rollback(committed);
        return Failed(fault.value);
      }
      var credit := if r.user in users then users[r.user].credit else 0;
      var payable := Max(total - discount, 0);
      var walletUsed := Min(credit, payable);
      var finalPrice := Max(total - discount - walletUsed, 0) + shippingCost;
      var kind :=
        if hasPhysical && !hasDigital then Physical
        else if hasDigital && !hasPhysical then Digital else Mixed;
      var status := if finalPrice <= 0 && cfg.autoApprove then Approved else Pending;
      var id := |orders|;
      var order := Order(r.user, status, total, walletUsed, r.coupon, finalPrice, shippingCost,
                         kind, items, r.key, Processing);
      ghost var q := QuoteFor(total, discount, CreditOf(users, r.user), ShippingCost(r, cart));
      assert order == OrderFor(cfg, r, cart, q);
      PhysicalItems(cart);
      fault := PlaceOrder(order, hasPhysical);
      if fault.Some? {
        Rollback(committed);
        return Failed(fault.value);
      }
      return Placed(id);
    }

    /** The transaction up to the coupon (lines 292-378): the cart is read, checked and claimed, or the
        transaction ends in the reply of stop. */
    method TakeCart(r: Request)
      returns (stop: Option<Reply>, cart: seq<CartLine>, total: int, items: seq<Item>,
               hasPhysical: bool, hasDigital: bool)
      modifies this
      ensures r.key in old(placed) ==> stop == Some(Replayed(old(placed)[r.key])) && View() == old(View())
      ensures r.key !in old(placed) && ClaimFault(old(View()), r).Some? ==>
                stop == Some(Failed(ClaimFault(old(View()), r).value)) && View() == old(View())
      ensures stop.None? ==>
                && r.key !in old(placed) && ClaimFault(old(View()), r).None?
                && View() == ClaimCart(old(View()), r.user) && cart == CartOf(old(carts), r.user) && cart != []
                && total == CartTotal(cart) && items == ItemsOf(cart)
                && hasPhysical == HasPhysical(cart) && hasDigital == HasDigital(cart)
      ensures r.key !in old(placed) && ClaimFault(old(View()), r).None? ==> stop.None?
    {
      stop, total, items, hasPhysical, hasDigital := None, 0, [], false, false;
      cart := CartOf(carts, r.user);
      if r.key in placed {
        stop := Some(Replayed(placed[r.key]));
        return;
      }
      if cart == [] {
        stop := Some(Failed(CartEmpty));
        return;
      }
      var owned := FindOwned(r.user, cart);
      if owned {
        stop := Some(Failed(AlreadyPurchased));
        return;
      }
      var committed := View();
      carts := carts - {r.user};
      var fault;
      fault, total, items, hasPhysical, hasDigital := ValidateLines(cart);
      if fault.Some? {
        Rollback(committed);
        stop := Some(Failed(fault.value));
      }
    }

    /** The first transaction of a checkout with a coupon: reading the coupon again commits the claim
        (line 382, database.py:298-308), so refusing it afterwards rolls nothing back. */
    method ClaimWithCoupon(r: Request)
      returns (reply: Reply, items: seq<Item>, hasPhysical: bool, hasDigital: bool)
      requires r.coupon.Some?
      modifies this
      ensures (View(), reply) == DoClaim(old(View()), r)
      ensures reply.Claimed? ==>
                && reply.lines != [] && items == ItemsOf(reply.lines)
                && hasPhysical == HasPhysical(reply.lines) && hasDigital == HasDigital(reply.lines)
    {
      var stop, cart, total;
      stop, cart, total, items, hasPhysical, hasDigital := TakeCart(r);
      if stop.Some? {
        reply := stop.value;
        return;
      }
      if !CodeValid(codes, r.coupon.value, r.now) {
        reply := Failed(DiscountInvalid);
        return;
      }
      reply := Claimed(cart, total, Min(Discount(codes[r.coupon.value], total), total));
    }

    method CheckoutCart(cfg: Config, r: Request) returns (reply: Reply)
      modifies this
      ensures (View(), reply) == DoCheckout(cfg, old(View()), r)
    {
      if r.key in placed { return Replayed(placed[r.key]); }
      if !cfg.cartOn { return Failed(CheckoutDisabled); }
      if r.coupon.Some? {
        if !CodeValid(codes, r.coupon.value, r.now) { return Failed(DiscountInvalid); }
        CheckoutBooks.ClaimThenPlace(cfg, View(), r);
        reply := CheckoutWithCoupon(cfg, r);
      } else {
        var committed := View();
        var stop, cart, total, items, hasPhysical, hasDigital := TakeCart(r);
        if stop.Some? { return stop.value; }
        reply := FinishCheckout(cfg, r, committed, cart, total, Min(0, total), items, hasPhysical, hasDigital);
      }
    }

    /** The two transactions in a row. */
    method CheckoutWithCoupon(cfg: Config, r: Request) returns (reply: Reply)
      requires r.coupon.Some?
      modifies this
      ensures var (claimed, first) := DoClaim(old(View()), r);
              (View(), reply) ==
              if first.Claimed?
              then DoPlaceClaimed(cfg, claimed, r, first.lines, first.total, first.discount,
                                  CreditOf(claimed.users, r.user))
              else (claimed, first)
    {
      var first, items, hasPhysical, hasDigital := ClaimWithCoupon(r);
      if !first.Claimed? { return first; }
      var committed := View();
      reply := FinishCheckout(cfg, r, committed, first.lines, first.total, first.discount, items,
                              hasPhysical, hasDigital);
    }
  }

  lemma Overwrites<K, V>(m: map<K, V>, k: K, before: V, after: V)
    ensures m[k := before][k := after] == m[k := after]
  {
  }

  lemma {:induction false} ReserveAllFails(stock: map<VariantId, Stock>, items: seq<Item>, i: nat)
    requires i < |items| && ReserveAll(stock, items[..i]).Some?
    requires ReserveItem(ReserveAll(stock, items[..i]).value, items[i]).None?
    ensures ReserveAll(stock, items).None?
  {
    var n := |items| - 1;
    if i < n {
      assert items[..n][..i] == items[..i];
      ReserveAllFails(stock, items[..n], i);
    }
  }

  lemma {:induction false} FaultFound(lines: seq<CartLine>, i: nat)
    requires i < |lines| && CartFault(lines[..i]).None? && LineFault(lines[i]).Some?
    ensures CartFault(lines) == LineFault(lines[i])
  {
    var n := |lines| - 1;
    if i < n {
      assert lines[..n][..i] == lines[..i];
      FaultFound(lines[..n], i);
    }
  }

  lemma {:induction false} NothingToReserve(stock: map<VariantId, Stock>, items: seq<Item>)
    requires forall i | 0 <= i < |items| :: !items[i].physical
    ensures ReserveAll(stock, items) == Some(stock)
  {
    if items != [] { NothingToReserve(stock, items[..|items| - 1]); }
  }

  lemma PhysicalItems(lines: seq<CartLine>)
    ensures HasPhysical(lines) <==> exists i | 0 <= i < |ItemsOf(lines)| :: ItemsOf(lines)[i].physical
  {
    if i :| 0 <= i < |lines| && lines[i].physical { assert ItemsOf(lines)[i].physical; }
  }
}
