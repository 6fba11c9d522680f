/** What each database call does to the tables, as one atomic step: a call runs under one lock and
    ends in one commit or one rollback (database.py:298-308).  Any interleaving of any callers is
    a sequence of these calls. */
module Calls {
  import opened Tables

  datatype Shipping = NotChosen | Unknown | Method(cost: nat)
  datatype Address = NotGiven | NotFound | OnFile

  /** One checkout attempt. */
  datatype Request = Request(
    user: UserId, key: string, coupon: Option<CodeId>, now: int, shipping: Shipping, address: Address)

  datatype CheckoutError =
    | CheckoutDisabled | DiscountInvalid | CartEmpty | AlreadyPurchased
    | ProductUnavailable | VariantUnavailable | NoFiles
    | ShippingRequired | ShippingInvalid | AddressRequired | AddressInvalid
    | WalletInsufficient | DiscountExhausted | StockUnavailable

  datatype Reply =
    | Done | Refused
    | Paid(to: UserId, amount: int)
    | Placed(order: OrderId) | Replayed(order: OrderId) | Failed(error: CheckoutError)
    | Claimed(lines: seq<CartLine>, total: int, discount: int)
    | Entered(row: Row) | Duplicate | Insufficient | Violation

  datatype Call =
    | AddUser(user: UserId)
    | AdjustCredit(user: UserId, delta: int)
    | SetCart(user: UserId, lines: seq<CartLine>)
    | AddCode(code: CodeId, terms: Code)
    | ToggleCode(code: CodeId)
    | Checkout(request: Request)
    | ClaimWithCoupon(request: Request)
    | PlaceClaimed(request: Request, lines: seq<CartLine>, total: int, discount: int, seen: int)
    | ApproveOrder(order: OrderId)
    | RejectOrder(order: OrderId)
    | CancelFulfilment(order: OrderId)
    | SetFulfilment(order: OrderId, to: Fulfilment)
    | CreateTopUp(user: UserId, amount: int)
    | ApproveTopUp(topup: int)
    | RejectTopUp(topup: int)
    | EnsurePoints(user: UserId)
    | Mutate(user: UserId, kind: TxKind, amount: int, tier: Option<string>, key: Option<Key>)
    | RedeemPoints(user: UserId, points: int, toman: int, redeemKey: Key)
    | SetReferrer(user: UserId, referrer: UserId)
    | RewardReferrer(user: UserId, paid: int)
    | InviteReward(user: UserId, referrer: UserId)
    | AdjustStock(variant: VariantId, delta: int)
    | SetStock(variant: VariantId, onHand: int)
    | DeleteVariants(product: Option<ProductId>, variants: set<VariantId>)

  // ------------------------------------------------------------------ wallet and codes

  /** UPDATE users SET referral_credit = MAX(referral_credit + delta, 0): no row, no effect. */
  function Credit(users: map<UserId, User>, u: UserId, delta: int): map<UserId, User> {
    if u in users then users[u := users[u].(credit := Max(users[u].credit + delta, 0))] else users
  }

  /** The same without the clamp, as top-ups and redemptions are written. */
  function CreditExactly(users: map<UserId, User>, u: UserId, delta: int): map<UserId, User> {
    if u in users then users[u := users[u].(credit := users[u].credit + delta)] else users
  }

  function GiveBackCode(codes: map<CodeId, Code>, c: Option<CodeId>): map<CodeId, Code> {
    if c.Some? && c.value in codes
    then codes[c.value := codes[c.value].(used := Max(codes[c.value].used - 1, 0))]
    else codes
  }

  /** is_discount_code_valid (database.py:2822-2832). */
  predicate CodeValid(codes: map<CodeId, Code>, c: CodeId, now: int) {
    && c in codes
    && codes[c].active
    && !(codes[c].maxUses != 0 && codes[c].used >= codes[c].maxUses)
    && !(codes[c].expiresAt.Some? && now > codes[c].expiresAt.value)
  }

  /** The guard of the UPDATE that consumes a code (services/checkout.py:424-428). */
  predicate CodeTakes(code: Code) {
    code.active && (code.maxUses == 0 || code.used < code.maxUses)
  }

  function Discount(code: Code, total: int): int {
    if code.percent != 0 then Min(total * code.percent / 100, total) else Min(code.fixedAmount, total)
  }

  // ------------------------------------------------------------------ stock

  /** UPDATE inventory SET reserved = reserved + qty WHERE on_hand - reserved >= qty. */
  function Reserve(stock: map<VariantId, Stock>, v: VariantId, qty: int): Option<map<VariantId, Stock>> {
    var row := StockOf(stock, v);
    if row.onHand - row.reserved >= qty then Some(stock[v := row.(reserved := row.reserved + qty)]) else None
  }

  function ReserveItem(stock: map<VariantId, Stock>, item: Item): Option<map<VariantId, Stock>> {
    if !item.physical then Some(stock)
    else if item.variant.None? then None
    else Reserve(stock, item.variant.value, item.quantity)
  }

  /** Reserves the physical items in order; None as soon as one cannot be had. */
  function ReserveAll(stock: map<VariantId, Stock>, items: seq<Item>): Option<map<VariantId, Stock>> {
    if items == [] then Some(stock)
    else
      var before := ReserveAll(stock, items[..|items| - 1]);
      if before.None? then None else ReserveItem(before.value, items[|items| - 1])
  }

  /** UPDATE inventory SET reserved = MAX(reserved - qty, 0): no row, no effect. */
  function ReleaseItem(stock: map<VariantId, Stock>, item: Item): map<VariantId, Stock> {
    if item.variant.Some? && item.variant.value in stock
    then stock[item.variant.value := stock[item.variant.value].(
                 reserved := Max(stock[item.variant.value].reserved - item.quantity, 0))]
    else stock
  }

  function ReleaseAll(stock: map<VariantId, Stock>, items: seq<Item>): map<VariantId, Stock> {
    if items == [] then stock
    else ReleaseItem(ReleaseAll(stock, items[..|items| - 1]), items[|items| - 1])
  }

  // ------------------------------------------------------------------ checkout

  function Quantity(line: CartLine): int {
    if !line.physical || line.quantity == 0 then 1 else line.quantity
  }

  /** A variant may have a price of its own. */
  function UnitPrice(line: CartLine): int {
    if line.physical && line.variantPrice.Some? then line.variantPrice.value else line.productPrice
  }

  function LineFault(line: CartLine): Option<CheckoutError> {
    if !line.productActive then Some(ProductUnavailable)
    else if line.physical then (if line.variantActive then None else Some(VariantUnavailable))
    else if line.hasFiles then None else Some(NoFiles)
  }

  /** The first line that cannot be sold, in cart order. */
  function CartFault(lines: seq<CartLine>): Option<CheckoutError> {
    if lines == [] then None
    else
      var earlier := CartFault(lines[..|lines| - 1]);
      if earlier.Some? then earlier else LineFault(lines[|lines| - 1])
  }

  function CartTotal(lines: seq<CartLine>): int {
    if lines == [] then 0
    else CartTotal(lines[..|lines| - 1]) + UnitPrice(lines[|lines| - 1]) * Quantity(lines[|lines| - 1])
  }

  function ItemOf(line: CartLine): Item {
    Item(line.product, line.physical, line.variant, Quantity(line))
  }

  function ItemsOf(lines: seq<CartLine>): (items: seq<Item>)
    ensures |items| == |lines|
    ensures forall i | 0 <= i < |lines| :: items[i] == ItemOf(lines[i])
  {
    if lines == [] then [] else ItemsOf(lines[..|lines| - 1]) + [ItemOf(lines[|lines| - 1])]
  }

  predicate HasPhysical(lines: seq<CartLine>) { exists i | 0 <= i < |lines| :: lines[i].physical }

  predicate HasDigital(lines: seq<CartLine>) { exists i | 0 <= i < |lines| :: !lines[i].physical }

  function KindOf(lines: seq<CartLine>): Kind {
    if HasPhysical(lines) && !HasDigital(lines) then Physical
    else if HasDigital(lines) && !HasPhysical(lines) then Digital
    else Mixed
  }

  /** Some paid order of the user already holds this digital product (services/checkout.py:319-330). */
  predicate Owns(orders: seq<Order>, user: UserId, product: ProductId) {
    exists o, i | 0 <= o < |orders| && 0 <= i < |orders[o].items| ::
      && orders[o].user == user && orders[o].status == Approved
      && orders[o].items[i].product == product && !orders[o].items[i].physical
  }

  predicate OwnsAny(orders: seq<Order>, user: UserId, lines: seq<CartLine>) {
    exists i | 0 <= i < |lines| :: !lines[i].physical && Owns(orders, user, lines[i].product)
  }

  function ShippingFault(r: Request, lines: seq<CartLine>): Option<CheckoutError> {
    if HasPhysical(lines) && r.shipping.NotChosen? then Some(ShippingRequired)
    else if HasPhysical(lines) && r.shipping.Unknown? then Some(ShippingInvalid)
    else if r.address.NotGiven? && HasPhysical(lines) then Some(AddressRequired)
    else if r.address.NotFound? then Some(AddressInvalid)
    else None
  }

  function ShippingCost(r: Request, lines: seq<CartLine>): int {
    if HasPhysical(lines) && r.shipping.Method? then r.shipping.cost else 0
  }

  /** The amounts of an order: what is taken off, what the wallet pays, what is left to pay. */
  datatype Quote = Quote(total: int, discount: int, walletUsed: int, finalPrice: int)

  function QuoteFor(total: int, discount: int, credit: int, shipping: int): Quote {
    var payable := Max(total - discount, 0);
    var walletUsed := Min(credit, payable);
    Quote(total, discount, walletUsed, Max(total - discount - walletUsed, 0) + shipping)
  }

  function DiscountFor(s: Store, r: Request, total: int): int {
    if r.coupon.Some? && r.coupon.value in s.codes
    then Min(Discount(s.codes[r.coupon.value], total), total) else Min(0, total)
  }

  function RequestQuote(s: Store, r: Request): Quote {
    var lines := CartOf(s.carts, r.user);
    var total := CartTotal(lines);
    QuoteFor(total, DiscountFor(s, r, total), CreditOf(s.users, r.user), ShippingCost(r, lines))
  }

  /** Why a checkout is turned away before its first write; None when it goes on. */
  function EarlyFault(cfg: Config, s: Store, r: Request): Option<CheckoutError> {
    if !cfg.cartOn then Some(CheckoutDisabled)
    else if r.coupon.Some? && !CodeValid(s.codes, r.coupon.value, r.now) then Some(DiscountInvalid)
    else ClaimFault(s, r)
  }

  /** Why an order cannot be paid and reserved: the conditional updates in their order. */
  function PlacementFault(s: Store, u: UserId, walletUsed: int, code: Option<CodeId>, items: seq<Item>)
    : Option<CheckoutError>
  {
    if walletUsed != 0 && !(u in s.users && s.users[u].credit >= walletUsed) then Some(WalletInsufficient)
    else if code.Some? && !(code.value in s.codes && CodeTakes(s.codes[code.value])) then Some(DiscountExhausted)
    else if ReserveAll(s.stock, items).None? then Some(StockUnavailable)
    else None
  }

  /** The order paid, inserted and reserved, and its key taken unless it already is. */
  function Placement(s: Store, order: Order): Store {
    var reserved := ReserveAll(s.stock, order.items);
    s.(users := if order.walletUsed != 0 then CreditExactly(s.users, order.user, -order.walletUsed) else s.users,
       codes := if order.code.Some? && order.code.value in s.codes
                then s.codes[order.code.value := s.codes[order.code.value].(used := s.codes[order.code.value].used + 1)]
                else s.codes,
       stock := if reserved.Some? then reserved.value else s.stock,
       orders := s.orders + [order],
       placed := if order.key in s.placed then s.placed else s.placed[order.key := |s.orders|])
  }

  /** Why it is turned away after the cart has been claimed, with the amounts worked out. */
  function PaymentFault(s: Store, r: Request, lines: seq<CartLine>, q: Quote): Option<CheckoutError> {
    if ShippingFault(r, lines).Some? then ShippingFault(r, lines)
    else PlacementFault(s, r.user, q.walletUsed, r.coupon, ItemsOf(lines))
  }

  function OrderFor(cfg: Config, r: Request, lines: seq<CartLine>, q: Quote): Order {
    Order(r.user, if q.finalPrice <= 0 && cfg.autoApprove then Approved else Pending,
          q.total, q.walletUsed, r.coupon, q.finalPrice, ShippingCost(r, lines),
          KindOf(lines), ItemsOf(lines), r.key, Processing)
  }

  /** The rest of a checkout once the cart is claimed: the placed order, or back to the last commit. */
  function PayAndPlace(cfg: Config, s: Store, r: Request, committed: Store, lines: seq<CartLine>, q: Quote)
    : (Store, Reply)
  {
    if PaymentFault(s, r, lines, q).Some? then (committed, Failed(PaymentFault(s, r, lines, q).value))
    else (Placement(s, OrderFor(cfg, r, lines, q)), Placed(|s.orders|))
  }

  function LateFault(s: Store, r: Request): Option<CheckoutError> {
    PaymentFault(s, r, CartOf(s.carts, r.user), RequestQuote(s, r))
  }

  function NewOrder(cfg: Config, s: Store, r: Request): Order {
    OrderFor(cfg, r, CartOf(s.carts, r.user), RequestQuote(s, r))
  }

  function ClaimCart(s: Store, u: UserId): Store {
    s.(carts := s.carts - {u})
  }

  /** checkout_cart (services/checkout.py:259-482) with no other process in between.  A late failure rolls
      back, but with a coupon only to the commit that reading the coupon inside the transaction has made:
      the cart stays claimed. */
  function DoCheckout(cfg: Config, s: Store, r: Request): (Store, Reply) {
    if r.key in s.placed then (s, Replayed(s.placed[r.key]))
    else if EarlyFault(cfg, s, r).Some? then (s, Failed(EarlyFault(cfg, s, r).value))
    else
      var claimed := ClaimCart(s, r.user);
      PayAndPlace(cfg, claimed, r, if r.coupon.Some? then claimed else s, CartOf(s.carts, r.user), RequestQuote(s, r))
  }

  /** A checkout with a coupon is a look and two transactions, because reading the coupon inside the
      first commits it.  The look is made before any of them: the key, the setting, the coupon. */
  predicate MayClaim(cfg: Config, s: Store, r: Request) {
    r.key !in s.placed && cfg.cartOn && r.coupon.Some? && CodeValid(s.codes, r.coupon.value, r.now)
  }

  /** Why the first transaction is rolled back. */
  function ClaimFault(s: Store, r: Request): Option<CheckoutError> {
    var lines := CartOf(s.carts, r.user);
    if lines == [] then Some(CartEmpty)
    else if OwnsAny(s.orders, r.user, lines) then Some(AlreadyPurchased)
    else CartFault(lines)
  }

  /** The first claims the cart and then reads the coupon again: a coupon that has become invalid since
      the look is refused after the commit.  What was read is all the second knows of cart and code. */
  function DoClaim(s: Store, r: Request): (Store, Reply) {
    var lines := CartOf(s.carts, r.user);
    if r.coupon.None? then (s, Refused)
    else if r.key in s.placed then (s, Replayed(s.placed[r.key]))
    else if ClaimFault(s, r).Some? then (s, Failed(ClaimFault(s, r).value))
    else if !CodeValid(s.codes, r.coupon.value, r.now) then (ClaimCart(s, r.user), Failed(DiscountInvalid))
    else (ClaimCart(s, r.user), Claimed(lines, CartTotal(lines), DiscountFor(s, r, CartTotal(lines))))
  }

  /** The second pays and places, at any later time; seen is the balance it read before its first write
      opened the transaction. */
  function DoPlaceClaimed(cfg: Config, s: Store, r: Request, lines: seq<CartLine>, total: int, discount: int, seen: int)
    : (Store, Reply)
  {
    PayAndPlace(cfg, s, r, s, lines, QuoteFor(total, discount, seen, ShippingCost(r, lines)))
  }

  // ------------------------------------------------------------------ orders

  predicate IsPending(s: Store, o: OrderId) {
    0 <= o < |s.orders| && s.orders[o].status == Pending
  }

  function DoApproveOrder(s: Store, o: OrderId): (Store, Reply) {
    if !IsPending(s, o) then (s, Refused)
    else (s.(orders := s.orders[o := s.orders[o].(status := Approved, fulfilment := Processing)]), Done)
  }

  function DoRejectOrder(s: Store, o: OrderId): (Store, Reply) {
    if !IsPending(s, o) then (s, Refused)
    else
      var order := s.orders[o];
      (s.(orders := s.orders[o := order.(status := Rejected)],
          users := if order.walletUsed != 0 then Credit(s.users, order.user, order.walletUsed) else s.users,
          codes := GiveBackCode(s.codes, order.code),
          stock := if order.kind != Digital then ReleaseAll(s.stock, order.items) else s.stock),
       Done)
  }

  predicate Cancellable(s: Store, o: OrderId) {
    0 <= o < |s.orders| && s.orders[o].kind != Digital
  }

  function DoCancelFulfilment(s: Store, o: OrderId): (Store, Reply) {
    if !Cancellable(s, o) then (s, Refused)
    else (s.(orders := s.orders[o := s.orders[o].(fulfilment := Cancelled)],
             stock := ReleaseAll(s.stock, s.orders[o].items)), Done)
  }

  function DoSetFulfilment(s: Store, o: OrderId, to: Fulfilment): (Store, Reply) {
    if !(0 <= o < |s.orders|) then (s, Refused)
    else (s.(orders := s.orders[o := s.orders[o].(fulfilment := to)]), Done)
  }

  // ------------------------------------------------------------------ top-ups

  predicate TopUpPending(s: Store, t: int) {
    0 <= t < |s.topups| && s.topups[t].status == Pending
  }

  function DoApproveTopUp(s: Store, t: int): (Store, Reply) {
    if !TopUpPending(s, t) then (s, Refused)
    else (s.(topups := s.topups[t := s.topups[t].(status := Approved)],
             users := CreditExactly(s.users, s.topups[t].user, s.topups[t].amount)), Done)
  }

  function DoRejectTopUp(s: Store, t: int): (Store, Reply) {
    if !TopUpPending(s, t) then (s, Refused)
    else (s.(topups := s.topups[t := s.topups[t].(status := Rejected)]), Done)
  }

  // ------------------------------------------------------------------ loyalty

  function EnsureRow(points: map<UserId, Points>, u: UserId): map<UserId, Points> {
    if u in points then points else points[u := NO_POINTS]
  }

  /** A points row refers to a user: inserting one for a missing user breaks the foreign key. */
  function DoEnsurePoints(s: Store, u: UserId): (Store, Reply) {
    if u !in s.users then (s, Violation) else (s.(points := EnsureRow(s.points, u)), Done)
  }

  predicate KeyTaken(s: Store, key: Option<Key>) { key.Some? && HasKey(s.ledger, key.value) }

  /** The counters after an entry: only redemptions and expiries count as spent. */
  function Moved(p: Points, kind: TxKind, amount: int, tier: Option<string>): Points {
    Points(p.current + amount,
           p.earned + (if amount > 0 then amount else 0),
           p.spent + (if amount < 0 && (kind == Redeem || kind == Expire) then -amount else 0),
           if tier.Some? then tier.value else p.tier)
  }

  /** apply_loyalty_mutation (database.py:2502-2579). */
  function DoMutate(s: Store, u: UserId, kind: TxKind, amount: int, tier: Option<string>, key: Option<Key>)
    : (Store, Reply)
  {
    var p := PointsOf(s.points, u);
    var row := Row(u, kind, amount, p.current + amount, key, 0);
    if KeyTaken(s, key) then (s, Duplicate)
    else if u !in s.users then (s, Violation)
    else if p.current + amount < 0 then (s, Insufficient)
    else if amount == 0 then (s, Violation)
    else
      (s.(points := s.points[u := Moved(p, kind, amount, tier)],
          ledger := s.ledger + [row]),
       Entered(row))
  }

  /** redeem_points_for_wallet (database.py:2581-2631). */
  function DoRedeem(s: Store, u: UserId, points: int, toman: int, key: Key): (Store, Reply) {
    var p := PointsOf(s.points, u);
    var row := Row(u, Redeem, -points, p.current - points, Some(key), toman);
    if HasKey(s.ledger, key) then (s, Duplicate)
    else if u !in s.users then (s, Violation)
    else if p.current < points then (s.(points := EnsureRow(s.points, u)), Insufficient)
    else if points == 0 then (s, Violation)
    else
      (s.(points := s.points[u := p.(current := p.current - points, spent := p.spent + points)],
          users := CreditExactly(s.users, u, toman),
          ledger := s.ledger + [row]),
       Entered(row))
  }

  // ------------------------------------------------------------------ referrals

  function DoSetReferrer(s: Store, u: UserId, r: UserId): (Store, Reply) {
    if u != r && u in s.users && s.users[u].referredBy.None? && r in s.users
    then (s.(users := s.users[u := s.users[u].(referredBy := Some(r))]), Done)
    else (s, Refused)
  }

  /** The users a referrer brought whose first purchase has been counted. */
  function Buyers(users: map<UserId, User>, r: UserId): set<UserId> {
    set u | u in users && users[u].referredBy == Some(r) && users[u].purchaseRewarded
  }

  /** The users a referrer brought whose invitation has been counted. */
  function Invited(users: map<UserId, User>, r: UserId): set<UserId> {
    set u | u in users && users[u].referredBy == Some(r) && users[u].inviteGiven
  }

  function MarkBuyer(users: map<UserId, User>, u: UserId): map<UserId, User>
    requires u in users
  {
    users[u := users[u].(purchaseRewarded := true)]
  }

  function MarkInvited(users: map<UserId, User>, u: UserId): map<UserId, User>
    requires u in users
  {
    users[u := users[u].(inviteGiven := true)]
  }

  /** reward_referrer_if_first_purchase (database.py:2646-2703). */
  function DoRewardReferrer(cfg: Config, s: Store, u: UserId, paid: int): (Store, Reply) {
    if !cfg.buttonOn || !cfg.commissionOn then (s, Refused)
    else if u !in s.users || s.users[u].referredBy.None? || s.users[u].purchaseRewarded then (s, Refused)
    else
      var referrer := s.users[u].referredBy.value;
      var marked := MarkBuyer(s.users, u);
      if cfg.commissionCap > 0 && |Buyers(s.users, referrer)| >= cfg.commissionCap
      then (s.(users := marked), Refused)
      else
        var reward := paid * cfg.percent / 100;
        (s.(users := if reward > 0 then Credit(marked, referrer, reward) else marked), Paid(referrer, reward))
  }

  /** The invitation bonus of apply_referral_invite_rewards (database.py:2723-2749). */
  function DoInviteReward(cfg: Config, s: Store, u: UserId, referrer: UserId): (Store, Reply) {
    if !cfg.buttonOn || referrer !in s.users || !(cfg.inviteOn && cfg.inviteAmount > 0) then (s, Refused)
    else if u !in s.users || s.users[u].inviteGiven then (s, Refused)
    else
      var marked := MarkInvited(s.users, u);
      if cfg.inviteCap == 0 || |Invited(marked, referrer)| <= cfg.inviteCap
      then (s.(users := Credit(marked, referrer, cfg.inviteAmount)), Paid(referrer, cfg.inviteAmount))
      else (s.(users := marked), Refused)
  }

  // ------------------------------------------------------------------ inventory

  function DoAdjustStock(s: Store, v: VariantId, delta: int): (Store, Reply) {
    var row := StockOf(s.stock, v);
    if row.onHand + delta >= 0
    then (s.(stock := s.stock[v := row.(onHand := row.onHand + delta)]), Done)
    else (s.(stock := s.stock[v := row]), Refused)
  }

  function DoSetStock(s: Store, v: VariantId, onHand: int): (Store, Reply) {
    if onHand < 0 then (s, Violation)
    else (s.(stock := s.stock[v := StockOf(s.stock, v).(onHand := onHand)]), Done)
  }

  /** Deleting a product or a variant takes its inventory rows and cart rows with it
      (database.py:757-787, 1885-1887, 3377-3379); order items stay. */
  function DoDeleteVariants(s: Store, product: Option<ProductId>, variants: set<VariantId>): (Store, Reply) {
    (s.(stock := s.stock - variants,
        carts := map u | u in s.carts :: KeptLines(s.carts[u], product, variants)), Done)
  }

  function KeptLines(lines: seq<CartLine>, product: Option<ProductId>, variants: set<VariantId>): (kept: seq<CartLine>)
    ensures forall l | l in kept :: l in lines
  {
    if lines == [] then []
    else
      var n := |lines| - 1;
      var before := KeptLines(lines[..n], product, variants);
      if Some(lines[n].product) == product || (lines[n].variant.Some? && lines[n].variant.value in variants)
      then before else before + [lines[n]]
  }

  // ------------------------------------------------------------------ one step

  predicate WritesOrders(call: Call) {
    call.Checkout? || call.ClaimWithCoupon? || call.PlaceClaimed?
    || call.ApproveOrder? || call.RejectOrder? || call.CancelFulfilment? || call.SetFulfilment?
  }

  function DoOrders(cfg: Config, s: Store, call: Call): (Store, Reply)
    requires WritesOrders(call)
  {
    match call
    case Checkout(r) => DoCheckout(cfg, s, r)
    case ClaimWithCoupon(r) => DoClaim(s, r)
    case PlaceClaimed(r, lines, total, discount, seen) => DoPlaceClaimed(cfg, s, r, lines, total, discount, seen)
    case ApproveOrder(o) => DoApproveOrder(s, o)
    case RejectOrder(o) => DoRejectOrder(s, o)
    case CancelFulfilment(o) => DoCancelFulfilment(s, o)
    case SetFulfilment(o, to) => DoSetFulfilment(s, o, to)
  }

  predicate WritesPoints(call: Call) { call.EnsurePoints? || call.Mutate? || call.RedeemPoints? }

  function DoPoints(s: Store, call: Call): (Store, Reply)
    requires WritesPoints(call)
  {
    match call
    case EnsurePoints(u) => DoEnsurePoints(s, u)
    case Mutate(u, kind, amount, tier, key) => DoMutate(s, u, kind, amount, tier, key)
    case RedeemPoints(u, points, toman, key) => DoRedeem(s, u, points, toman, key)
  }

  predicate WritesReferrals(call: Call) {
    call.AddUser? || call.SetReferrer? || call.RewardReferrer? || call.InviteReward?
  }

  function DoReferrals(cfg: Config, s: Store, call: Call): (Store, Reply)
    requires WritesReferrals(call)
  {
    match call
    case AddUser(u) =>
      if u in s.users then (s, Refused) else (s.(users := s.users[u := User(0, None, false, false)]), Done)
    case SetReferrer(u, r) => DoSetReferrer(s, u, r)
    case RewardReferrer(u, paid) => DoRewardReferrer(cfg, s, u, paid)
    case InviteReward(u, r) => DoInviteReward(cfg, s, u, r)
  }

  predicate WritesTopUps(call: Call) {
    call.CreateTopUp? || call.ApproveTopUp? || call.RejectTopUp? || call.AdjustCredit?
  }

  function DoTopUps(s: Store, call: Call): (Store, Reply)
    requires WritesTopUps(call)
  {
    match call
    case CreateTopUp(u, amount) => (s.(topups := s.topups + [TopUp(u, amount, Pending)]), Done)
    case ApproveTopUp(t) => DoApproveTopUp(s, t)
    case RejectTopUp(t) => DoRejectTopUp(s, t)
    case AdjustCredit(u, delta) => (s.(users := Credit(s.users, u, delta)), Done)
  }

  /** The catalogue, the carts, the codes and the shelf. */
  predicate WritesShop(call: Call) {
    call.SetCart? || call.AddCode? || call.ToggleCode? || call.AdjustStock? || call.SetStock? || call.DeleteVariants?
  }

  function DoShop(s: Store, call: Call): (Store, Reply)
    requires WritesShop(call)
  {
    match call
    case SetCart(u, lines) =>
      if u in s.users then (s.(carts := s.carts[u := lines]), Done) else (s, Violation)
    case AddCode(c, terms) =>
      if c in s.codes then (s, Violation) else (s.(codes := s.codes[c := terms.(used := 0)]), Done)
    case ToggleCode(c) =>
      if c in s.codes then (s.(codes := s.codes[c := s.codes[c].(active := !s.codes[c].active)]), Done)
      else (s, Refused)
    case AdjustStock(v, delta) => DoAdjustStock(s, v, delta)
    case SetStock(v, onHand) => DoSetStock(s, v, onHand)
    case DeleteVariants(product, variants) => DoDeleteVariants(s, product, variants)
  }

  function Do(cfg: Config, s: Store, call: Call): (Store, Reply) {
    if WritesOrders(call) then DoOrders(cfg, s, call)
    else if WritesPoints(call) then DoPoints(s, call)
    else if WritesReferrals(call) then DoReferrals(cfg, s, call)
    else if WritesTopUps(call) then DoTopUps(s, call)
    else DoShop(s, call)
  }
}
