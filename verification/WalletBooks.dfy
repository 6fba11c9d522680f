/** The wallet balances at every moment of every run. */
module WalletBooks {
  import opened Tables
  import opened Sums
  import opened Calls
  import opened Runs

  function ToppedUp(u: UserId): TopUp -> int {
    (t: TopUp) => if t.user == u && t.status == Approved then t.amount else 0
  }

  function Redeemed(u: UserId): Row -> int {
    (r: Row) => if r.user == u then r.toman else 0
  }

  function PaidOut(u: UserId): Payout -> int {
    (p: Payout) => if p.to == u then p.amount else 0
  }

  /** What an order keeps of its buyer's wallet: nothing once it is rejected. */
  function Held(u: UserId): Order -> int {
    (o: Order) => if o.user == u && o.status != Rejected then o.walletUsed else 0
  }

  function OpeningOf(b: Books, u: UserId): int { if u in b.opening then b.opening[u] else 0 }

  /** What the other tables say a user's balance should be. */
  function Balance(b: Books, u: UserId): int {
    OpeningOf(b, u)
    + Sum(b.s.topups, ToppedUp(u)) + Sum(b.s.ledger, Redeemed(u)) + Sum(b.paid, PaidOut(u))
    - Sum(b.s.orders, Held(u))
  }

  ghost predicate Balanced(b: Books) {
    forall u :: CreditOf(b.s.users, u) == Balance(b, u)
  }

  predicate Solvent(s: Store) {
    && (forall u | u in s.users :: s.users[u].credit >= 0)
    && (forall u | u in s.users && s.users[u].referredBy.Some? :: s.users[u].referredBy.value in s.users)
    && (forall o | 0 <= o < |s.orders| :: s.orders[o].user in s.users && s.orders[o].walletUsed >= 0)
    && (forall t | 0 <= t < |s.topups| :: s.topups[t].user in s.users && s.topups[t].amount >= 0)
    && (forall u | u in s.carts :: u in s.users)
  }

  /** b' is b after its tables became s' and its payouts became paid. */
  predicate Follows(b: Books, b': Books, s': Store, paid: seq<Payout>) {
    b'.opening == b.opening && b'.s == s' && b'.paid == paid
  }

  /** What callers must respect for the wallet to balance: amounts are not negative, top-ups are asked
      for by registered users, and a manual correction takes no more than there is. */
  predicate FairToWallet(cfg: Config, s: Store, call: Call) {
    match call
    case AdjustCredit(u, delta) => u in s.users ==> s.users[u].credit + delta >= 0
    case PlaceClaimed(r, _, _, _, seen) => r.user in s.users && seen >= 0
    case CreateTopUp(u, amount) => u in s.users && amount >= 0
    case RedeemPoints(_, _, toman, _) => toman >= 0
    case RewardReferrer(_, paid) => paid >= 0 && cfg.percent >= 0
    case _ => true
  }

  /** A new order takes from its buyer's wallet what it holds. */
  lemma PlacedBalances(b: Books, b': Books, order: Order)
    requires Balanced(b)
    requires b'.opening == b.opening && b'.paid == b.paid
    requires b'.s.topups == b.s.topups && b'.s.ledger == b.s.ledger
    requires b'.s.orders == b.s.orders + [order]
    requires forall u :: CreditOf(b'.s.users, u) == CreditOf(b.s.users, u) - Held(u)(order)
    ensures Balanced(b')
  {
  }

  /** What a successful checkout does to the wallet: the debit is what was available. */
  lemma CheckoutDebit(cfg: Config, s: Store, r: Request)
    requires Solvent(s) && DoCheckout(cfg, s, r).1.Placed?
    ensures var s', order := DoCheckout(cfg, s, r).0, NewOrder(cfg, s, r);
            && r.user in s.users && order.user == r.user
            && order.status != Rejected
            && 0 <= order.walletUsed <= s.users[r.user].credit
            && s'.users == s.users[r.user := s.users[r.user].(credit := s.users[r.user].credit - order.walletUsed)]
            && s'.orders == s.orders + [order]
            && s'.topups == s.topups && s'.ledger == s.ledger && s'.carts.Keys <= s.carts.Keys
  {
  }

  lemma CheckoutBalances(cfg: Config, b: Books, b': Books, r: Request)
    requires Balanced(b) && Solvent(b.s)
    requires Follows(b, b', DoCheckout(cfg, b.s, r).0, b.paid)
    ensures Balanced(b') && Solvent(b'.s)
  {
    if DoCheckout(cfg, b.s, r).1.Placed? {
      CheckoutDebit(cfg, b.s, r);
      PlacedBalances(b, b', NewOrder(cfg, b.s, r));
    } else {
      FailedCheckoutKeeps(cfg, b.s, r);
      BalanceUnchanged(b, b');
    }
  }

  /** The second half of a coupon checkout debits what its order records, however old the balance it
      worked from: the conditional update has the last word. */
  lemma ClaimedDebit(cfg: Config, s: Store, r: Request, lines: seq<CartLine>, q: Quote)
    requires Solvent(s) && r.user in s.users && q.walletUsed >= 0
    requires PaymentFault(s, r, lines, q).None?
    ensures var s', order := Placement(s, OrderFor(cfg, r, lines, q)), OrderFor(cfg, r, lines, q);
            && order.walletUsed == q.walletUsed <= s.users[r.user].credit
            && s'.users == s.users[r.user := s.users[r.user].(credit := s.users[r.user].credit - order.walletUsed)]
  {
  }

  lemma PlaceClaimedBalances(cfg: Config, b: Books, b': Books, r: Request, lines: seq<CartLine>,
                             total: int, discount: int, seen: int)
    requires Balanced(b) && Solvent(b.s) && r.user in b.s.users && seen >= 0
    requires Follows(b, b', DoPlaceClaimed(cfg, b.s, r, lines, total, discount, seen).0, b.paid)
    ensures Balanced(b') && Solvent(b'.s)
  {
    var q := QuoteFor(total, discount, seen, ShippingCost(r, lines));
    if PaymentFault(b.s, r, lines, q).None? {
      ClaimedDebit(cfg, b.s, r, lines, q);
      PlacedBalances(b, b', OrderFor(cfg, r, lines, q));
    } else {
      BalanceUnchanged(b, b');
    }
  }

  lemma BalanceUnchanged(b: Books, b': Books)
    requires Balanced(b)
    requires b'.opening == b.opening && b'.paid == b.paid
    requires b'.s.topups == b.s.topups && b'.s.ledger == b.s.ledger && b'.s.orders == b.s.orders
    requires forall u :: CreditOf(b'.s.users, u) == CreditOf(b.s.users, u)
    ensures Balanced(b')
  {
  }

  lemma OrderStepBalances(b: Books, b': Books, o: int)
    requires Balanced(b)
    requires b'.opening == b.opening && b'.paid == b.paid
    requires b'.s.topups == b.s.topups && b'.s.ledger == b.s.ledger
    requires 0 <= o < |b.s.orders| && |b'.s.orders| == |b.s.orders|
    requires b'.s.orders == b.s.orders[o := b'.s.orders[o]]
    requires forall u :: CreditOf(b'.s.users, u)
                      == CreditOf(b.s.users, u) + Held(u)(b.s.orders[o]) - Held(u)(b'.s.orders[o])
    ensures Balanced(b')
  {
    forall u ensures CreditOf(b'.s.users, u) == Balance(b', u) {
      assert CreditOf(b.s.users, u) == Balance(b, u);
      SumUpdate(b.s.orders, o, b'.s.orders[o], Held(u));
    }
  }

  lemma TopUpStepBalances(b: Books, b': Books, t: int)
    requires Balanced(b)
    requires b'.opening == b.opening && b'.paid == b.paid
    requires b'.s.orders == b.s.orders && b'.s.ledger == b.s.ledger
    requires 0 <= t < |b.s.topups| && |b'.s.topups| == |b.s.topups|
    requires b'.s.topups == b.s.topups[t := b'.s.topups[t]]
    requires forall u :: CreditOf(b'.s.users, u)
                      == CreditOf(b.s.users, u) - ToppedUp(u)(b.s.topups[t]) + ToppedUp(u)(b'.s.topups[t])
    ensures Balanced(b')
  {
    forall u ensures CreditOf(b'.s.users, u) == Balance(b', u) {
      assert CreditOf(b.s.users, u) == Balance(b, u);
      SumUpdate(b.s.topups, t, b'.s.topups[t], ToppedUp(u));
    }
  }

  lemma RowBalances(b: Books, b': Books, row: Row)
    requires Balanced(b)
    requires b'.opening == b.opening && b'.paid == b.paid
    requires b'.s.orders == b.s.orders && b'.s.topups == b.s.topups
    requires b'.s.ledger == b.s.ledger + [row]
    requires forall u :: CreditOf(b'.s.users, u) == CreditOf(b.s.users, u) + Redeemed(u)(row)
    ensures Balanced(b')
  {
  }

  lemma PayoutBalances(b: Books, b': Books, p: Payout)
    requires Balanced(b)
    requires b'.opening == b.opening && b'.paid == b.paid + [p]
    requires b'.s.orders == b.s.orders && b'.s.topups == b.s.topups && b'.s.ledger == b.s.ledger
    requires forall u :: CreditOf(b'.s.users, u) == CreditOf(b.s.users, u) + PaidOut(u)(p)
    ensures Balanced(b')
  {
  }

  lemma ApproveOrderBalances(b: Books, b': Books, o: OrderId)
    requires Balanced(b) && Solvent(b.s)
    requires Follows(b, b', DoApproveOrder(b.s, o).0, b.paid)
    ensures Balanced(b') && Solvent(b'.s)
  {
    if IsPending(b.s, o) { OrderStepBalances(b, b', o); } else { BalanceUnchanged(b, b'); }
  }

  lemma RejectOrderBalances(b: Books, b': Books, o: OrderId)
    requires Balanced(b) && Solvent(b.s)
    requires Follows(b, b', DoRejectOrder(b.s, o).0, b.paid)
    ensures Balanced(b') && Solvent(b'.s)
  {
    if IsPending(b.s, o) { OrderStepBalances(b, b', o); } else { BalanceUnchanged(b, b'); }
  }

  lemma CancelFulfilmentBalances(b: Books, b': Books, o: OrderId)
    requires Balanced(b) && Solvent(b.s)
    requires Follows(b, b', DoCancelFulfilment(b.s, o).0, b.paid)
    ensures Balanced(b') && Solvent(b'.s)
  {
    if Cancellable(b.s, o) { OrderStepBalances(b, b', o); } else { BalanceUnchanged(b, b'); }
  }

  lemma SetFulfilmentBalances(b: Books, b': Books, o: OrderId, to: Fulfilment)
    requires Balanced(b) && Solvent(b.s)
    requires Follows(b, b', DoSetFulfilment(b.s, o, to).0, b.paid)
    ensures Balanced(b') && Solvent(b'.s)
  {
    if 0 <= o < |b.s.orders| { OrderStepBalances(b, b', o); } else { BalanceUnchanged(b, b'); }
  }

  lemma CreateTopUpBalances(b: Books, b': Books, t: TopUp)
    requires Balanced(b) && Solvent(b.s) && t.user in b.s.users && t.amount >= 0 && t.status == Pending
    requires Follows(b, b', b.s.(topups := b.s.topups + [t]), b.paid)
    ensures Balanced(b') && Solvent(b'.s)
  {
  }

  lemma ApproveTopUpBalances(b: Books, b': Books, t: int)
    requires Balanced(b) && Solvent(b.s)
    requires Follows(b, b', DoApproveTopUp(b.s, t).0, b.paid)
    ensures Balanced(b') && Solvent(b'.s)
  {
    if TopUpPending(b.s, t) { TopUpStepBalances(b, b', t); } else { BalanceUnchanged(b, b'); }
  }

  lemma RejectTopUpBalances(b: Books, b': Books, t: int)
    requires Balanced(b) && Solvent(b.s)
    requires Follows(b, b', DoRejectTopUp(b.s, t).0, b.paid)
    ensures Balanced(b') && Solvent(b'.s)
  {
    if TopUpPending(b.s, t) { TopUpStepBalances(b, b', t); } else { BalanceUnchanged(b, b'); }
  }

  lemma MutateBalances(b: Books, b': Books, u: UserId, kind: TxKind, amount: int, tier: Option<string>,
                       key: Option<Key>)
    requires Balanced(b) && Solvent(b.s)
    requires Follows(b, b', DoMutate(b.s, u, kind, amount, tier, key).0, b.paid)
    ensures Balanced(b') && Solvent(b'.s)
  {
    var reply := DoMutate(b.s, u, kind, amount, tier, key).1;
    if reply.Entered? { RowBalances(b, b', reply.row); } else { BalanceUnchanged(b, b'); }
  }

  lemma RedeemBalances(b: Books, b': Books, u: UserId, points: int, toman: int, key: Key)
    requires Balanced(b) && Solvent(b.s) && toman >= 0
    requires Follows(b, b', DoRedeem(b.s, u, points, toman, key).0, b.paid)
    ensures Balanced(b') && Solvent(b'.s)
  {
    var reply := DoRedeem(b.s, u, points, toman, key).1;
    if reply.Entered? { RowBalances(b, b', reply.row); } else { BalanceUnchanged(b, b'); }
  }

  /** A referral call changes one balance at most, by what it reports. */
  predicate Credited(users: map<UserId, User>, users': map<UserId, User>, reply: Reply) {
    && users'.Keys == users.Keys
    && (reply.Paid? ==> reply.to in users && reply.amount >= 0)
    && forall u | u in users ::
         && users'[u].referredBy == users[u].referredBy
         && users'[u].credit == users[u].credit + (if reply.Paid? && reply.to == u then reply.amount else 0)
  }

  /** Flags were set and one balance raised. */
  lemma CreditOne(users: map<UserId, User>, marked: map<UserId, User>, r: UserId, amount: int)
    requires marked.Keys == users.Keys && r in users && amount >= 0
    requires forall u | u in users :: users[u].credit >= 0
    requires forall u | u in users :: marked[u].credit == users[u].credit && marked[u].referredBy == users[u].referredBy
    ensures Credited(users, Credit(marked, r, amount), Paid(r, amount))
  {
  }

  lemma ShareNatural(paid: int, percent: int)
    requires paid >= 0 && percent >= 0
    ensures paid * percent / 100 >= 0
  {
    assert paid * percent >= 0;
  }

  lemma RewardCredits(cfg: Config, s: Store, u: UserId, paid: int)
    requires Solvent(s) && paid >= 0 && cfg.percent >= 0
    ensures var (s', reply) := DoRewardReferrer(cfg, s, u, paid);
            s' == s.(users := s'.users) && Credited(s.users, s'.users, reply)
  {
    hide Credit;
    if u in s.users && s.users[u].referredBy.Some? {
      ShareNatural(paid, cfg.percent);
      CreditOne(s.users, MarkBuyer(s.users, u), s.users[u].referredBy.value, paid * cfg.percent / 100);
    }
  }

  lemma InviteCredits(cfg: Config, s: Store, u: UserId, r: UserId)
    requires Solvent(s)
    ensures var (s', reply) := DoInviteReward(cfg, s, u, r);
            s' == s.(users := s'.users) && Credited(s.users, s'.users, reply)
  {
    hide Credit;
    if u in s.users && r in s.users && cfg.inviteAmount > 0 {
      CreditOne(s.users, MarkInvited(s.users, u), r, cfg.inviteAmount);
    }
  }

  lemma CreditedBalances(b: Books, b': Books, reply: Reply, kind: PayKind, source: UserId)
    requires Balanced(b) && Solvent(b.s)
    requires b'.opening == b.opening && b'.s == b.s.(users := b'.s.users)
    requires Credited(b.s.users, b'.s.users, reply)
    requires b'.paid == if reply.Paid? then b.paid + [Payout(kind, reply.to, source, reply.amount)] else b.paid
    ensures Balanced(b') && Solvent(b'.s)
  {
    if reply.Paid? {
      PayoutBalances(b, b', Payout(kind, reply.to, source, reply.amount));
    } else {
      BalanceUnchanged(b, b');
    }
  }

  lemma AdjustCreditBalances(b: Books, b': Books, u: UserId, delta: int)
    requires Balanced(b) && Solvent(b.s) && (u in b.s.users ==> b.s.users[u].credit + delta >= 0)
    requires Follows(b, b', b.s.(users := Credit(b.s.users, u, delta)),
                     if u in b.s.users then b.paid + [Payout(Manual, u, u, delta)] else b.paid)
    ensures Balanced(b') && Solvent(b'.s)
  {
    if u in b.s.users { PayoutBalances(b, b', Payout(Manual, u, u, delta)); } else { BalanceUnchanged(b, b'); }
  }

  lemma AddUserBalances(b: Books, b': Books, u: UserId)
    requires Balanced(b) && Solvent(b.s) && u !in b.s.users
    requires Follows(b, b', b.s.(users := b.s.users[u := User(0, None, false, false)]), b.paid)
    ensures Balanced(b') && Solvent(b'.s)
  {
    BalanceUnchanged(b, b');
  }

  lemma SetReferrerBalances(b: Books, b': Books, u: UserId, r: UserId)
    requires Balanced(b) && Solvent(b.s)
    requires Follows(b, b', DoSetReferrer(b.s, u, r).0, b.paid)
    ensures Balanced(b') && Solvent(b'.s)
  {
    BalanceUnchanged(b, b');
  }

  /** A call that writes no table the balances depend on. */
  lemma UntouchedBalances(b: Books, b': Books)
    requires Balanced(b) && Solvent(b.s)
    requires Follows(b, b', b'.s, b.paid) && b'.s.users == b.s.users
    requires b'.s.topups == b.s.topups && b'.s.ledger == b.s.ledger && b'.s.orders == b.s.orders
    requires forall u | u in b'.s.carts :: u in b.s.users
    ensures Balanced(b') && Solvent(b'.s)
  {
  }

  lemma OrderCallsBalance(cfg: Config, b: Books, b': Books, call: Call)
    requires Balanced(b) && Solvent(b.s) && FairToWallet(cfg, b.s, call) && WritesOrders(call)
    requires Follows(b, b', DoOrders(cfg, b.s, call).0, b.paid)
    ensures Balanced(b') && Solvent(b'.s)
  {
    hide Balanced, Solvent, DoCheckout, DoClaim, PayAndPlace;
    hide DoApproveOrder, DoRejectOrder, DoCancelFulfilment, DoSetFulfilment;
    match call
    case Checkout(r) => CheckoutBalances(cfg, b, b', r);
    case ClaimWithCoupon(r) => ClaimBalances(b, b', r);
    case PlaceClaimed(r, lines, total, discount, seen) =>
      PlaceClaimedBalances(cfg, b, b', r, lines, total, discount, seen);
    case ApproveOrder(o) => ApproveOrderBalances(b, b', o);
    case RejectOrder(o) => RejectOrderBalances(b, b', o);
    case CancelFulfilment(o) => CancelFulfilmentBalances(b, b', o);
    case SetFulfilment(o, to) => SetFulfilmentBalances(b, b', o, to);
  }

  lemma ClaimBalances(b: Books, b': Books, r: Request)
    requires Balanced(b) && Solvent(b.s) && Follows(b, b', DoClaim(b.s, r).0, b.paid)
    ensures Balanced(b') && Solvent(b'.s)
  {
    ClaimFrame(b.s, r);
    UntouchedBalances(b, b');
  }

  lemma PointsCallsBalance(cfg: Config, b: Books, b': Books, call: Call)
    requires Balanced(b) && Solvent(b.s) && FairToWallet(cfg, b.s, call) && WritesPoints(call)
    requires Follows(b, b', DoPoints(b.s, call).0, b.paid)
    ensures Balanced(b') && Solvent(b'.s)
  {
    hide Balanced, Solvent, DoMutate, DoRedeem;
    match call
    case Mutate(u, kind, amount, tier, key) => MutateBalances(b, b', u, kind, amount, tier, key);
    case RedeemPoints(u, points, toman, key) => RedeemBalances(b, b', u, points, toman, key);
    case EnsurePoints(u) => EnsureBalances(b, b', u);
  }

  lemma EnsureBalances(b: Books, b': Books, u: UserId)
    requires Balanced(b) && Solvent(b.s) && Follows(b, b', DoEnsurePoints(b.s, u).0, b.paid)
    ensures Balanced(b') && Solvent(b'.s)
  {
    UntouchedBalances(b, b');
  }

  lemma TopUpCallsBalance(cfg: Config, b: Books, b': Books, call: Call)
    requires Balanced(b) && Solvent(b.s) && FairToWallet(cfg, b.s, call) && WritesTopUps(call)
    requires var (s', reply) := DoTopUps(b.s, call); Follows(b, b', s', Noted(b.paid, b.s, call, reply))
    ensures Balanced(b') && Solvent(b'.s)
  {
    hide Balanced, Solvent, DoApproveTopUp, DoRejectTopUp, Credit;
    match call
    case CreateTopUp(u, amount) => CreateTopUpBalances(b, b', TopUp(u, amount, Pending));
    case ApproveTopUp(t) => ApproveTopUpBalances(b, b', t);
    case RejectTopUp(t) => RejectTopUpBalances(b, b', t);
    case AdjustCredit(u, delta) => AdjustCreditBalances(b, b', u, delta);
  }

  lemma ReferralCallsBalance(cfg: Config, b: Books, b': Books, call: Call)
    requires Balanced(b) && Solvent(b.s) && FairToWallet(cfg, b.s, call) && WritesReferrals(call)
    requires var (s', reply) := DoReferrals(cfg, b.s, call); Follows(b, b', s', Noted(b.paid, b.s, call, reply))
    ensures Balanced(b') && Solvent(b'.s)
  {
    hide Balanced, Solvent, DoRewardReferrer, DoInviteReward, DoSetReferrer;
    match call
    case RewardReferrer(u, paid) =>
      RewardCredits(cfg, b.s, u, paid);
      CreditedBalances(b, b', DoRewardReferrer(cfg, b.s, u, paid).1, Commission, u);
    case InviteReward(u, r) =>
      InviteCredits(cfg, b.s, u, r);
      CreditedBalances(b, b', DoInviteReward(cfg, b.s, u, r).1, Bonus, u);
    case SetReferrer(u, r) => SetReferrerBalances(b, b', u, r);
    case AddUser(u) => JoinBalances(b, b', u);
  }

  lemma JoinBalances(b: Books, b': Books, u: UserId)
    requires Balanced(b) && Solvent(b.s)
    requires Follows(b, b',
               if u in b.s.users then b.s else b.s.(users := b.s.users[u := User(0, None, false, false)]), b.paid)
    ensures Balanced(b') && Solvent(b'.s)
  {
    if u in b.s.users { UntouchedBalances(b, b'); } else { AddUserBalances(b, b', u); }
  }

  lemma ShopKeepsOwners(s: Store, call: Call)
    requires WritesShop(call) && forall u | u in s.carts :: u in s.users
    ensures forall u | u in DoShop(s, call).0.carts :: u in s.users
  {
  }

  lemma ShopCallsBalance(b: Books, b': Books, call: Call)
    requires Balanced(b) && Solvent(b.s) && WritesShop(call) && Follows(b, b', DoShop(b.s, call).0, b.paid)
    ensures Balanced(b') && Solvent(b'.s)
  {
    hide DoShop, Balanced;
    ShopFrame(b.s, call);
    ShopKeepsOwners(b.s, call);
    UntouchedBalances(b, b');
  }

  /** One call, whichever it is, keeps the wallet balanced and every balance non-negative. */
  lemma StepBalances(cfg: Config, b: Books, call: Call)
    requires Balanced(b) && Solvent(b.s) && FairToWallet(cfg, b.s, call)
    ensures Balanced(Record(cfg, b, call)) && Solvent(Record(cfg, b, call).s)
  {
    hide Balanced, Solvent, DoOrders, DoPoints, DoReferrals, DoTopUps, DoShop;
    var b' := Record(cfg, b, call);
    if WritesOrders(call) {
      OrderCallsBalance(cfg, b, b', call);
    } else if WritesPoints(call) {
      PointsCallsBalance(cfg, b, b', call);
    } else if WritesReferrals(call) {
      ReferralCallsBalance(cfg, b, b', call);
    } else if WritesTopUps(call) {
      TopUpCallsBalance(cfg, b, b', call);
    } else {
      ShopCallsBalance(b, b', call);
    }
  }

  // ------------------------------------------------------------------ over runs

  predicate FairRun(cfg: Config, b: Books, calls: seq<Call>) {
    || calls == []
    || (var n := |calls| - 1;
        FairRun(cfg, b, calls[..n]) && FairToWallet(cfg, Run(cfg, b, calls[..n]).s, calls[n]))
  }

  lemma OpeningBalanced(b: Books)
    requires Opening(b)
    ensures Balanced(b) && Solvent(b.s)
  {
  }

  /** In every run from the opening, whatever the callers and however they interleave, each balance is
      the opening balance plus the approved top-ups, the redeemed points and the payouts, less what
      the orders that were not rejected hold; and no balance is ever negative. */
  lemma {:induction false} WalletConserved(cfg: Config, b: Books, calls: seq<Call>)
    requires Opening(b) && FairRun(cfg, b, calls)
    ensures Balanced(Run(cfg, b, calls)) && Solvent(Run(cfg, b, calls).s)
  {
    if calls == [] {
      OpeningBalanced(b);
    } else {
      var n := |calls| - 1;
      WalletConserved(cfg, b, calls[..n]);
      StepBalances(cfg, Run(cfg, b, calls[..n]), calls[n]);
    }
  }

  /** A correction that takes more than there is breaks the balance, and only such a one does. */
  lemma ClampBreaksBalance(cfg: Config, b: Books, u: UserId, delta: int)
    requires Balanced(b) && Solvent(b.s) && u in b.s.users
    ensures Balanced(Record(cfg, b, AdjustCredit(u, delta))) <==> b.s.users[u].credit + delta >= 0
  {
    var b' := Record(cfg, b, AdjustCredit(u, delta));
    if b.s.users[u].credit + delta >= 0 {
      AdjustCreditBalances(b, b', u, delta);
    } else {
      SumAppend(b.paid, Payout(Manual, u, u, delta), PaidOut(u));
      assert CreditOf(b.s.users, u) == Balance(b, u);
      assert Balance(b', u) == Balance(b, u) + delta;
      assert CreditOf(b'.s.users, u) == 0;
    }
  }

  // ------------------------------------------------------------------ top-ups are decided once

  /** A top-up keeps its user and amount, and its status once it has been decided. */
  predicate TopUpStays(s: Store, s': Store, t: int) {
    0 <= t < |s.topups| ==>
      && t < |s'.topups|
      && s'.topups[t] == s.topups[t].(status := s'.topups[t].status)
      && (s.topups[t].status != Pending ==> s'.topups[t].status == s.topups[t].status)
  }

  lemma CallTopUpStays(cfg: Config, s: Store, call: Call, t: int)
    ensures TopUpStays(s, Do(cfg, s, call).0, t)
  {
    hide DoOrders, DoPoints, DoReferrals, DoShop;
    if WritesOrders(call) { OrdersFrame(cfg, s, call); } else { Frames(cfg, s, call); }
  }

  lemma {:induction false} TopUpOverRuns(cfg: Config, b: Books, calls: seq<Call>, t: int)
    ensures TopUpStays(b.s, Run(cfg, b, calls).s, t)
  {
    if calls != [] {
      var n := |calls| - 1;
      TopUpOverRuns(cfg, b, calls[..n], t);
      CallTopUpStays(cfg, Run(cfg, b, calls[..n]).s, calls[n], t);
    }
  }

  /** Approving a pending top-up credits its amount, and after any run of calls nobody can decide it
      again: it is paid once. */
  lemma TopUpPaidOnce(cfg: Config, b: Books, calls: seq<Call>, t: int)
    requires TopUpPending(b.s, t)
    ensures var (s', reply) := DoApproveTopUp(b.s, t);
            var later := Run(cfg, b.(s := s'), calls).s;
            && reply == Done
            && (forall u :: CreditOf(s'.users, u)
                         == CreditOf(b.s.users, u) + (if u in b.s.users && u == b.s.topups[t].user
                                                         then b.s.topups[t].amount else 0))
            && 0 <= t < |later.topups| && later.topups[t].status == Approved
            && DoApproveTopUp(later, t) == (later, Refused) && DoRejectTopUp(later, t) == (later, Refused)
  {
    TopUpOverRuns(cfg, b.(s := DoApproveTopUp(b.s, t).0), calls, t);
  }
}
