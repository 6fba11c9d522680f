/** The tables of the shop's database, one field of Store each.  Rows that the program never deletes
    (orders, top-ups, the loyalty ledger) are sequences indexed by row id; the others are maps. */
module Tables {
  datatype Option<+T> = None | Some(value: T)

  type UserId = int
  type CodeId = int
  type VariantId = int
  type ProductId = int
  type OrderId = int

  function Min(a: int, b: int): int { if a <= b then a else b }

  function Max(a: int, b: int): int { if a >= b then a else b }

  datatype User = User(credit: int, referredBy: Option<UserId>, purchaseRewarded: bool, inviteGiven: bool)

  /** A discount code; maxUses == 0 means no limit, percent == 0 means the fixed amount applies. */
  datatype Code = Code(percent: int, fixedAmount: int, maxUses: int, used: int, active: bool, expiresAt: Option<int>)

  /** A cart row joined with its product and variant (services/checkout.py:37-48). */
  datatype CartLine = CartLine(
    product: ProductId, physical: bool, variant: Option<VariantId>, quantity: int,
    productPrice: int, variantPrice: Option<int>,
    productActive: bool, variantActive: bool, hasFiles: bool)

  datatype Item = Item(product: ProductId, physical: bool, variant: Option<VariantId>, quantity: int)

  /** The payment status is not kept apart: it is pending, paid or refunded as the order is
      pending, approved or rejected. */
  datatype Status = Pending | Approved | Rejected
  datatype Kind = Digital | Physical | Mixed
  datatype Fulfilment = Processing | Packed | Shipped | Delivered | Cancelled

  datatype Order = Order(
    user: UserId, status: Status, basePrice: int, walletUsed: int, code: Option<CodeId>,
    finalPrice: int, shipping: int, kind: Kind, items: seq<Item>, key: string, fulfilment: Fulfilment)

  datatype TopUp = TopUp(user: UserId, amount: int, status: Status)

  datatype Stock = Stock(onHand: int, reserved: int)

  datatype Points = Points(current: int, earned: int, spent: int, tier: string)

  datatype TxKind = Purchase | PurchaseRefund | Registration | Referral | AdminAdjustment | Redeem | Expire

  /** Idempotency keys; the source writes them as text, one prefix for each constructor. */
  datatype Key =
    | PurchaseKey(order: OrderId)
    | RefundKey(order: OrderId)
    | RegistrationKey(user: UserId)
    | ReferralKey(referrer: UserId, referred: UserId)
    | RedeemKey(user: UserId, nonce: int)

  /** A ledger row; toman is the wallet amount a redemption row names in its description. */
  datatype Row = Row(user: UserId, kind: TxKind, amount: int, balanceAfter: int, key: Option<Key>, toman: int)

  datatype Store = Store(
    users: map<UserId, User>,
    carts: map<UserId, seq<CartLine>>,
    orders: seq<Order>,
    placed: map<string, OrderId>,
    codes: map<CodeId, Code>,
    topups: seq<TopUp>,
    stock: map<VariantId, Stock>,
    points: map<UserId, Points>,
    ledger: seq<Row>)

  const NO_POINTS := Points(0, 0, 0, "")

  function CreditOf(users: map<UserId, User>, u: UserId): int {
    if u in users then users[u].credit else 0
  }

  function UsedOf(codes: map<CodeId, Code>, c: CodeId): int {
    if c in codes then codes[c].used else 0
  }

  function StockOf(stock: map<VariantId, Stock>, v: VariantId): Stock {
    if v in stock then stock[v] else Stock(0, 0)
  }

  function PointsOf(points: map<UserId, Points>, u: UserId): Points {
    if u in points then points[u] else NO_POINTS
  }

  function CartOf(carts: map<UserId, seq<CartLine>>, u: UserId): seq<CartLine> {
    if u in carts then carts[u] else []
  }

  predicate HasKey(ledger: seq<Row>, k: Key) {
    exists i | 0 <= i < |ledger| :: ledger[i].key == Some(k)
  }

  /** The first row with a key; keys are unique, so the only one. */
  function FindKey(ledger: seq<Row>, k: Key): (r: Option<Row>)
    ensures r.Some? <==> HasKey(ledger, k)
    ensures r.Some? ==> r.value in ledger && r.value.key == Some(k)
  {
    if ledger == [] then None
    else
      var earlier := FindKey(ledger[..|ledger| - 1], k);
      var last := ledger[|ledger| - 1];
      assert ledger == ledger[..|ledger| - 1] + [last];
      if earlier.Some? then earlier
      else if last.key == Some(k) then Some(last) else None
  }

  datatype Tier = Tier(id: string, min: int, mult: int)

  /** The settings the modelled code reads. */
  datatype Config = Config(
    cartOn: bool, autoApprove: bool,
    buttonOn: bool, commissionOn: bool, percent: int, commissionCap: int,
    inviteOn: bool, inviteAmount: int, inviteCap: int,
    loyaltyOn: bool, perToman: int, maxPerOrder: int, referralPoints: int,
    redeemPoints: int, redeemToman: int, minRedeem: int, tiers: seq<Tier>)
}
