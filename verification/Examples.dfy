/** Inputs: for every property that fails, a store and a sequence of calls or events at which it does. */
module Examples {
  import opened Tables
  import opened Calls
  import opened Runs
  import opened Loyalty
  import opened Programs
  import opened Databases
  import opened Services
  import A = AwardBooks
  import I = InvitationPoints
  import C = CheckoutBooks
  import K = StockBooks
  import R = ReferralBooks
  import S = Shipping
  import W = WalletBooks

  lemma RunTwo(cfg: Config, b: Books, c: Call, d: Call)
    ensures Run(cfg, b, [c, d]) == Record(cfg, Record(cfg, b, c), d)
  {
    hide Record;
    assert [c, d][..1] == [c] && [c][..0] == [];
    assert Run(cfg, b, [c]) == Record(cfg, b, c);
  }

  lemma RunThree(cfg: Config, b: Books, c: Call, d: Call, e: Call)
    ensures Run(cfg, b, [c, d, e]) == Record(cfg, Record(cfg, Record(cfg, b, c), d), e)
  {
    hide Record;
    RunTwo(cfg, b, c, d);
    assert [c, d, e][..2] == [c, d];
  }

  // ------------------------------------------------------------------ stock given back twice

  /** A physical order stays one whatever is called. */
  lemma StaysPhysical(cfg: Config, b: Books, call: Call, o: OrderId)
    requires Cancellable(b.s, o)
    ensures Cancellable(Record(cfg, b, call).s, o)
  {
    hide Do;
    OrdersStay(cfg, b.s, call);
    assert SameOrder(b.s.orders[o], Do(cfg, b.s, call).0.orders[o]);
  }

  /** A rejected order whose delivery is then cancelled. */
  lemma RejectThenCancel(cfg: Config, b: Books, o: OrderId)
    requires IsPending(b.s, o) && Cancellable(b.s, o)
    ensures Run(cfg, b, [RejectOrder(o), CancelFulfilment(o)]).released[o] == b.released[o] + 2
  {
    hide Record;
    RunTwo(cfg, b, RejectOrder(o), CancelFulfilment(o));
    S.CallReleases(cfg, b, RejectOrder(o), o);
    StaysPhysical(cfg, b, RejectOrder(o), o);
    S.CallReleases(cfg, Record(cfg, b, RejectOrder(o)), CancelFulfilment(o), o);
  }

  /** A cancelled order that is approved, which sets it to processing, and cancelled again. */
  lemma CancelApproveCancel(cfg: Config, b: Books, o: OrderId)
    requires IsPending(b.s, o) && Cancellable(b.s, o)
    ensures Run(cfg, b, [CancelFulfilment(o), ApproveOrder(o), CancelFulfilment(o)]).released[o] == b.released[o] + 2
    ensures Run(cfg, b, [CancelFulfilment(o), ApproveOrder(o)]).s.orders
         == b.s.orders[o := b.s.orders[o].(status := Approved, fulfilment := Processing)]
  {
    RunTwo(cfg, b, CancelFulfilment(o), ApproveOrder(o));
    ThreeReleases(cfg, b, ApproveOrder(o), o);
  }

  lemma ThreeReleases(cfg: Config, b: Books, between: Call, o: OrderId)
    requires Cancellable(b.s, o) && (between == ApproveOrder(o) || between == SetFulfilment(o, Packed))
    ensures Run(cfg, b, [CancelFulfilment(o), between, CancelFulfilment(o)]).released[o] == b.released[o] + 2
  {
    hide Record;
    var b1 := Record(cfg, b, CancelFulfilment(o));
    var b2 := Record(cfg, b1, between);
    RunThree(cfg, b, CancelFulfilment(o), between, CancelFulfilment(o));
    S.CallReleases(cfg, b, CancelFulfilment(o), o);
    StaysPhysical(cfg, b, CancelFulfilment(o), o);
    S.CallReleases(cfg, b1, between, o);
    StaysPhysical(cfg, b1, between, o);
    S.CallReleases(cfg, b2, CancelFulfilment(o), o);
  }

  /** Three requests one after another, all accepted: cancelled, packed, cancelled. */
  method CancelPackCancel(db: Database, ghost cfg: Config, o: OrderId)
    requires 0 <= o < |db.orders| && db.orders[o].kind != Digital && db.orders[o].fulfilment == Processing
    modifies db
    ensures forall b: Books | b.s == old(db.View()) ::
              Run(cfg, b, [CancelFulfilment(o), SetFulfilment(o, Packed), CancelFulfilment(o)]).released[o]
              == b.released[o] + 2
    ensures db.View() == DoCancelFulfilment(DoSetFulfilment(DoCancelFulfilment(old(db.View()), o).0, o, Packed).0, o).0
  {
    hide Alone, Run;
    ghost var s := db.View();
    S.ShipAlone(cfg, s, o, Cancelled);
    var first := S.SetFulfilmentStatus(db, cfg, o, Cancelled);
    S.ShipAlone(cfg, db.View(), o, Packed);
    var second := S.SetFulfilmentStatus(db, cfg, o, Packed);
    S.ShipAlone(cfg, db.View(), o, Cancelled);
    var third := S.SetFulfilmentStatus(db, cfg, o, Cancelled);
    assert first == S.Moved && second == S.Moved && third == S.Moved;
    forall b: Books | b.s == s
      ensures Run(cfg, b, [CancelFulfilment(o), SetFulfilment(o, Packed), CancelFulfilment(o)]).released[o]
          == b.released[o] + 2
    {
      ThreeReleases(cfg, b, SetFulfilment(o, Packed), o);
    }
  }

  /** Two requests to cancel one order that both read it before either writes. */
  function CrossedCancels(o: OrderId): seq<Event> {
    [Begin(0, ShipRead(o, Cancelled)), Begin(1, ShipRead(o, Cancelled)), Advance(0), Advance(1), Advance(0), Advance(1)]
  }

  lemma ShipReads(cfg: Config, m: System, a: nat, o: OrderId)
    requires a in m.actors && m.actors[a] == ShipRead(o, Cancelled)
    requires Cancellable(m.s, o) && m.s.orders[o].fulfilment == Processing
    ensures Step(cfg, m, Advance(a)) == System(m.s, m.actors[a := ShipWrite(o, Cancelled)])
    ensures CallOf(cfg, m, Advance(a)) == None
  {
  }

  lemma CallsNone(cfg: Config, m: System, events: seq<Event>)
    ensures CallsOf(cfg, m, events[..0]) == []
  {
  }

  lemma CallsLast(cfg: Config, m: System, events: seq<Event>, k: nat)
    requires k < |events|
    ensures var call := CallOf(cfg, Steps(cfg, m, events[..k]), events[k]);
            CallsOf(cfg, m, events[..k + 1]) == CallsOf(cfg, m, events[..k]) + (if call.Some? then [call.value] else [])
  {
    hide CallOf, Steps;
    assert events[..k + 1][..k] == events[..k];
  }

  lemma ConcurrentCancels(cfg: Config, m: System, b: Books, o: OrderId)
    requires b.s == m.s && m.actors == map[] && Cancellable(m.s, o) && m.s.orders[o].fulfilment == Processing
    ensures CallsOf(cfg, m, CrossedCancels(o)) == [CancelFulfilment(o), CancelFulfilment(o)]
    ensures Run(cfg, b, [CancelFulfilment(o), CancelFulfilment(o)]).released[o] == b.released[o] + 2
  {
    CrossedCalls(cfg, m, o);
    RunTwo(cfg, b, CancelFulfilment(o), CancelFulfilment(o));
    S.CallReleases(cfg, b, CancelFulfilment(o), o);
    StaysPhysical(cfg, b, CancelFulfilment(o), o);
    S.CallReleases(cfg, Record(cfg, b, CancelFulfilment(o)), CancelFulfilment(o), o);
  }

  lemma CrossedBegins(cfg: Config, m: System, o: OrderId)
    requires m.actors == map[] && Cancellable(m.s, o) && m.s.orders[o].fulfilment == Processing
    ensures Steps(cfg, m, CrossedCancels(o)[..4])
         == System(m.s, map[0 := ShipWrite(o, Cancelled), 1 := ShipWrite(o, Cancelled)])
    ensures CallsOf(cfg, m, CrossedCancels(o)[..4]) == []
  {
    hide Step, Steps, CallsOf;
    var events := CrossedCancels(o);
    StepsNone(cfg, m, events);
    StepsLast(cfg, m, events, 0);
    StepsLast(cfg, m, events, 1);
    StepsLast(cfg, m, events, 2);
    StepsLast(cfg, m, events, 3);
    BeginStep(cfg, m, 0, ShipRead(o, Cancelled));
    BeginStep(cfg, Steps(cfg, m, events[..1]), 1, ShipRead(o, Cancelled));
    ShipReads(cfg, Steps(cfg, m, events[..2]), 0, o);
    ShipReads(cfg, Steps(cfg, m, events[..3]), 1, o);
    CallsNone(cfg, m, events);
    CallsLast(cfg, m, events, 0);
    CallsLast(cfg, m, events, 1);
    CallsLast(cfg, m, events, 2);
    CallsLast(cfg, m, events, 3);
  }

  lemma CrossedCalls(cfg: Config, m: System, o: OrderId)
    requires m.actors == map[] && Cancellable(m.s, o) && m.s.orders[o].fulfilment == Processing
    ensures CallsOf(cfg, m, CrossedCancels(o)) == [CancelFulfilment(o), CancelFulfilment(o)]
  {
    hide Steps, CallsOf, Effect;
    var events := CrossedCancels(o);
    CrossedBegins(cfg, m, o);
    StepsLast(cfg, m, events, 4);
    CallsLast(cfg, m, events, 4);
    CallsLast(cfg, m, events, 5);
    assert events[..6] == events;
  }

  // ------------------------------------------------------------------ stock freed that others hold

  const SHIRT := Item(1, true, Some(7), 1)

  function ShirtOrder(u: UserId, key: string): Order {
    Order(u, Pending, 500, 0, None, 500, 0, Physical, [SHIRT], key, Processing)
  }

  function Nobody(): User { User(0, None, false, false) }

  /** Users 1 and 2 have each ordered one of the last two shirts. */
  function TwoShirts(): Books {
    Books(Store(map[1 := Nobody(), 2 := Nobody()], map[], [ShirtOrder(1, "a"), ShirtOrder(2, "b")],
                map["a" := 0, "b" := 1], map[], [], map[7 := Stock(2, 2)], map[], []),
          map[1 := 0, 2 := 0], map[], [], multiset{}, {0, 1}, multiset{})
  }

  lemma OneShirt(v: VariantId)
    ensures K.QtyOf([SHIRT], v) == if v == 7 then 1 else 0
  {
    assert [SHIRT][..0] == [];
  }

  lemma TwoShirtsStocked()
    ensures K.Stocked(TwoShirts()) && K.Sound(TwoShirts().s)
  {
    var b := TwoShirts();
    forall v ensures K.HeldStock(b.s.orders, b.released, v) == if v == 7 then 2 else 0 {
      OneShirt(v);
      assert b.s.orders[..1] == [ShirtOrder(1, "a")] && b.s.orders[..1][..0] == [];
      assert K.HeldStock(b.s.orders[..1], b.released, v) == if v == 7 then 1 else 0;
    }
  }

  /** Cancelling the first order and then rejecting it frees the shirt the second order holds. */
  lemma FreesAnothersShirt(cfg: Config)
    ensures K.Stocked(TwoShirts())
    ensures !K.Stocked(Run(cfg, TwoShirts(), [CancelFulfilment(0), RejectOrder(0)]))
  {
    hide Record;
    TwoShirtsStocked();
    RunTwo(cfg, TwoShirts(), CancelFulfilment(0), RejectOrder(0));
    K.CancelThenRejectExact(cfg, TwoShirts(), 0);
    OneShirt(7);
    assert K.QtyOf(TwoShirts().s.orders[0].items, 7) > 0;
  }

  // ------------------------------------------------------------------ bought twice

  const EBOOK := Item(5, false, None, 1)

  function EbookOrder(key: string): Order {
    Order(1, Pending, 500, 0, None, 500, 0, Digital, [EBOOK], key, Processing)
  }

  /** User 1 has two pending orders for one e-book. */
  function TwoPending(): Store {
    Store(map[1 := Nobody()], map[], [EbookOrder("a"), EbookOrder("b")], map["a" := 0, "b" := 1],
          map[], [], map[], map[], [])
  }

  lemma BothApproved()
    ensures C.BoughtOnce(TwoPending().orders)
    ensures !C.BoughtOnce(DoApproveOrder(DoApproveOrder(TwoPending(), 0).0, 1).0.orders)
  {
    var orders := DoApproveOrder(DoApproveOrder(TwoPending(), 0).0, 1).0.orders;
    assert orders[0].items[0] == EBOOK && orders[1].items[0] == EBOOK;
    assert C.SharePaid(orders[0], orders[1]);
  }

  const EBOOK_LINE := CartLine(5, false, None, 1, 500, None, true, true, true)

  /** User 1 has the e-book in the cart, its price in the wallet, and a code that takes it all off. */
  function Tempted(): Store {
    Store(map[1 := User(500, None, false, false)], map[1 := [EBOOK_LINE]], [], map[],
          map[9 := Code(100, 0, 0, 0, true, None)], [], map[], map[], [])
  }

  function TemptedRequest(coupon: Option<CodeId>): Request { Request(1, "k", coupon, 0, NotChosen, NotGiven) }

  function EbookPaid(walletUsed: int, code: Option<CodeId>): Order {
    Order(1, Approved, 500, walletUsed, code, 0, 0, Digital, [EBOOK], "k", Processing)
  }

  lemma EbookLine()
    ensures CartFault([EBOOK_LINE]).None? && CartTotal([EBOOK_LINE]) == 500 && ItemsOf([EBOOK_LINE]) == [EBOOK]
    ensures !HasPhysical([EBOOK_LINE]) && HasDigital([EBOOK_LINE])
    ensures forall stock :: ReserveAll(stock, [EBOOK]) == Some(stock)
  {
    assert [EBOOK_LINE][..0] == [] && [EBOOK][..0] == [];
    assert ItemsOf([EBOOK_LINE])[0] == ItemOf(EBOOK_LINE);
    assert [EBOOK_LINE][0].physical == false;
    forall stock ensures ReserveAll(stock, [EBOOK]) == Some(stock) {
      assert ReserveAll(stock, [EBOOK][..0]) == Some(stock);
    }
  }

  lemma TemptedClaim(cfg: Config)
    requires cfg.cartOn
    ensures MayClaim(cfg, Tempted(), TemptedRequest(Some(9)))
    ensures DoClaim(Tempted(), TemptedRequest(Some(9))) == (ClaimCart(Tempted(), 1), Claimed([EBOOK_LINE], 500, 500))
  {
    hide CartFault, CartTotal, ItemsOf;
    EbookLine();
    assert CartOf(Tempted().carts, 1) == [EBOOK_LINE];
  }

  /** What the plain checkout of the refilled cart leaves. */
  function Bought(): Store {
    Store(map[1 := User(0, None, false, false)], map[], [EbookPaid(500, None)], map["k" := 0],
          map[9 := Code(100, 0, 0, 0, true, None)], [], map[], map[], [])
  }

  lemma TemptedCheckout(cfg: Config)
    requires cfg.cartOn && cfg.autoApprove
    ensures DoCheckout(cfg, Tempted(), TemptedRequest(None)) == (Bought(), Placed(0))
  {
    hide Placement, EarlyFault, OrderFor, RequestQuote;
    EbookLine();
    TemptedLooks(cfg);
    TemptedPlaces(cfg);
  }

  lemma TemptedLooks(cfg: Config)
    requires cfg.cartOn
    ensures var s, r := Tempted(), TemptedRequest(None);
            && CartOf(s.carts, 1) == [EBOOK_LINE] && EarlyFault(cfg, s, r).None?
            && RequestQuote(s, r) == Quote(500, 0, 500, 0)
  {
    EbookLine();
  }

  lemma TemptedPlaces(cfg: Config)
    requires cfg.autoApprove
    ensures OrderFor(cfg, TemptedRequest(None), [EBOOK_LINE], Quote(500, 0, 500, 0)) == EbookPaid(500, None)
    ensures Placement(ClaimCart(Tempted(), 1), EbookPaid(500, None)) == Bought()
  {
    EbookLine();
  }

  lemma ClaimedPlacement(cfg: Config)
    requires cfg.autoApprove
    ensures var (s', reply) := DoPlaceClaimed(cfg, Bought(), TemptedRequest(Some(9)), [EBOOK_LINE], 500, 500, 0);
            s'.orders == [EbookPaid(500, None), EbookPaid(0, Some(9))] && s'.placed == map["k" := 0]
  {
    EbookLine();
    var s, r := Bought(), TemptedRequest(Some(9));
    assert OrderFor(cfg, r, [EBOOK_LINE], Quote(500, 500, 0, 0)) == EbookPaid(0, Some(9));
  }

  /** A coupon checkout claims the cart; the cart is filled again and checked out under the same key from
      the wallet; the claimed cart is placed: two orders with one key, and the e-book paid for twice. */
  lemma OneKeyTwoOrders(cfg: Config)
    requires cfg.cartOn && cfg.autoApprove
    ensures var r := TemptedRequest(Some(9));
            var s1 := DoClaim(Tempted(), r).0;
            var s2 := DoShop(s1, SetCart(1, [EBOOK_LINE])).0;
            var s3 := DoCheckout(cfg, s2, TemptedRequest(None)).0;
            var s4 := DoPlaceClaimed(cfg, s3, r, [EBOOK_LINE], 500, 500, CreditOf(s3.users, 1)).0;
            C.Keyed(Tempted()) && C.Keyed(s3) && C.BoughtOnce(s3.orders) && !C.Keyed(s4) && !C.BoughtOnce(s4.orders)
  {
    hide DoCheckout, DoClaim, DoPlaceClaimed;
    TemptedClaim(cfg);
    TemptedCheckout(cfg);
    ClaimedPlacement(cfg);
    assert ClaimCart(Tempted(), 1).carts[1 := [EBOOK_LINE]] == Tempted().carts;
    TwicePaid([EbookPaid(500, None), EbookPaid(0, Some(9))]);
  }

  lemma TwicePaid(orders: seq<Order>)
    requires orders == [EbookPaid(500, None), EbookPaid(0, Some(9))]
    ensures !C.BoughtOnce(orders) && orders[0].key == orders[1].key
  {
    assert orders[0].items[0] == EBOOK && orders[1].items[0] == EBOOK;
    assert C.SharePaid(orders[0], orders[1]);
  }

  /** A code switched off between the look and the claim costs the buyer the cart. */
  lemma CodeSwitchedOff(cfg: Config)
    requires cfg.cartOn
    ensures var r := TemptedRequest(Some(9));
            var s := DoShop(Tempted(), ToggleCode(9)).0;
            && MayClaim(cfg, Tempted(), r)
            && DoClaim(s, r) == (ClaimCart(s, 1), Failed(DiscountInvalid))
            && CartOf(s.carts, 1) == [EBOOK_LINE] && CartOf(ClaimCart(s, 1).carts, 1) == []
  {
    EbookLine();
    TemptedClaim(cfg);
    assert CartOf(Tempted().carts, 1) == [EBOOK_LINE];
  }

  // ------------------------------------------------------------------ points and commission

  /** An order of 500,000 paid from the wallet in full earns 50 points and no commission. */
  lemma FreeOrderEarnsPoints()
    ensures var order := Order(1, Approved, 500000, 500000, None, 0, 0, Digital, [EBOOK], "k", Processing);
            && AwardBase(order) == 500000 && PaidAmount(order) == 0
            && PurchasePoints(AwardBase(order), 0, 10000, 0, []) == 50
  {
    assert 500000 * 100 / (10000 * 100) == 50;
  }

  // ------------------------------------------------------------------ the late cancel

  /** Actor 1 is a buyer's cancel that has read the order pending; actor 0 then approves it to the end;
      then the cancel goes on. */
  function LateCancel(o: OrderId): seq<Event> {
    [Begin(1, RejectRead(o, false)), Advance(1), Begin(0, ApproveRead(o, true))]
    + Advances(0, 6)
    + [Advance(1), Advance(1), Advance(1)]
  }

  /** One order of user 1, paid 1,000,000, pending. */
  function OnePending(): Store {
    Store(map[1 := Nobody()], map[],
          [Order(1, Pending, 1000000, 0, None, 1000000, 0, Digital, [EBOOK], "k", Processing)],
          map["k" := 0], map[], [], map[], map[], [])
  }

  predicate EarnsHundred(cfg: Config) {
    cfg.loyaltyOn && cfg.perToman == 10000 && cfg.maxPerOrder == 0 && cfg.tiers == [] && !cfg.buttonOn
  }

  const AWARDED := Row(1, Purchase, 100, 100, Some(PurchaseKey(0)), 0)

  function Approved100(): Store {
    var s := DoApproveOrder(OnePending(), 0).0;
    s.(points := map[1 := Points(100, 100, 0, "")], ledger := [AWARDED])
  }

  lemma HundredEarned(cfg: Config)
    requires EarnsHundred(cfg)
    ensures PurchasePoints(1000000, 0, cfg.perToman, cfg.maxPerOrder, cfg.tiers) == 100 && TierId(100, cfg.tiers) == ""
  {
    assert 1000000 * 100 / (10000 * 100) == 100;
  }

  lemma NoKeyYet(s: Store)
    requires s.ledger == []
    ensures !KeyTaken(s, Some(PurchaseKey(0)))
  {
  }

  lemma FirstEntry(s: Store)
    requires 1 in s.users && PointsOf(s.points, 1) == NO_POINTS && s.ledger == []
    ensures DoMutate(s, 1, Purchase, 100, Some(""), Some(PurchaseKey(0)))
         == (s.(points := s.points[1 := Points(100, 100, 0, "")], ledger := s.ledger + [AWARDED]), Entered(AWARDED))
  {
    hide KeyTaken;
    NoKeyYet(s);
  }

  lemma FirstAward(cfg: Config, s: Store)
    requires EarnsHundred(cfg) && 0 < |s.orders| && s.orders[0].status == Approved && s.orders[0].user == 1
    requires AwardBase(s.orders[0]) == 1000000 && 1 in s.users && s.points == map[] && s.ledger == []
    ensures Award(cfg, s, 0)
         == (s.(points := map[1 := Points(100, 100, 0, "")], ledger := [AWARDED]), 100, false)
  {
    hide PurchasePoints, TierId, AwardBase, DoMutate, KeyTaken;
    HundredEarned(cfg);
    var s1 := DoEnsurePoints(s, 1).0;
    FirstEntry(s1);
    var p := Points(100, 100, 0, "");
    assert s1.points[1 := p] == map[1 := p];
    assert s1.ledger + [AWARDED] == [AWARDED];
  }

  lemma AwardIsHundred(cfg: Config)
    requires EarnsHundred(cfg)
    ensures Award(cfg, DoApproveOrder(OnePending(), 0).0, 0) == (Approved100(), 100, false)
  {
    hide Award;
    FirstAward(cfg, DoApproveOrder(OnePending(), 0).0);
  }

  lemma ApprovedAlone(cfg: Config)
    requires EarnsHundred(cfg)
    ensures Alone(cfg, OnePending(), ApproveRead(0, true)) == Approved100()
  {
    hide Alone, Award;
    ApproveAlone(cfg, OnePending(), 0, true);
    AwardAlone(cfg, DoApproveOrder(OnePending(), 0).0, 0);
    AwardIsHundred(cfg);
    CommissionAlone(cfg, Approved100(), 1, 1000000);
  }

  lemma CancelReads(cfg: Config)
    ensures var m := System(OnePending(), map[]);
            Steps(cfg, m, [Begin(1, RejectRead(0, false)), Advance(1), Begin(0, ApproveRead(0, true))])
            == System(OnePending(), map[1 := RejectDecide(0, false), 0 := ApproveRead(0, true)])
  {
    hide Steps, Effect, Do;
    var m := System(OnePending(), map[]);
    var events := [Begin(1, RejectRead(0, false)), Advance(1), Begin(0, ApproveRead(0, true))];
    StepsNone(cfg, m, events);
    StepsLast(cfg, m, events, 0);
    StepsLast(cfg, m, events, 1);
    StepsLast(cfg, m, events, 2);
    assert events[..3] == events;
    BeginStep(cfg, m, 1, RejectRead(0, false));
    NoEffect(cfg, OnePending());
  }

  /** The store when the cancel goes on: approved, and the points awarded. */
  lemma ApprovedMeanwhile(cfg: Config)
    requires EarnsHundred(cfg)
    ensures var m := Steps(cfg, System(OnePending(), map[]), LateCancel(0)[..9]);
            m.s == Approved100() && 1 in m.actors && m.actors[1] == RejectDecide(0, false)
  {
    hide Steps, Step, Alone;
    var m := System(OnePending(), map[]);
    var start := [Begin(1, RejectRead(0, false)), Advance(1), Begin(0, ApproveRead(0, true))];
    var m1 := System(OnePending(), map[1 := RejectDecide(0, false), 0 := ApproveRead(0, true)]);
    assert LateCancel(0)[..9] == start + Advances(0, 6);
    StepsConcat(cfg, m, start, Advances(0, 6));
    CancelReads(cfg);
    AloneIsSteps(cfg, m1, 0, 6);
    ApprovedAlone(cfg);
    assert Spares(Advances(0, 6), 1);
    SparedStands(cfg, m1, Advances(0, 6), 1);
  }

  /** The interleaving is possible, and at its end the points of the approved order are gone. */
  lemma LateCancelHappens(cfg: Config)
    requires EarnsHundred(cfg)
    ensures var m, events := System(OnePending(), map[]), LateCancel(0);
            var before, after := Steps(cfg, m, events[..9]).s, Steps(cfg, m, events).s;
            && A.Fresh(m) && A.AllAllowed(events)
            && A.AwardLeft(before.ledger, 0) == 100
            && 0 < |after.orders| && after.orders[0].status == Approved && A.AwardLeft(after.ledger, 0) == 0
  {
    hide Steps, Step, A.AwardsSound;
    var m, events := System(OnePending(), map[]), LateCancel(0);
    var m2 := Steps(cfg, m, events[..9]);
    ApprovedMeanwhile(cfg);
    AllowedPrefix(events, 9);
    A.AwardOnceRefundOnce(cfg, m, events[..9]);
    AwardedFound();
    var m3 := Step(cfg, m2, Advance(1));
    var m4 := Step(cfg, m3, Advance(1));
    NothingBetween(cfg, m2);
    NothingBetween(cfg, m3);
    NothingBetween(cfg, m4);
    RejectsNothing(cfg, m2, 1, 0);
    A.RejectStep(cfg, m2, 1, 0);
    A.FindStep(cfg, m3, 1, 0);
    A.LateCancelTakesPoints(cfg, m2, 1, 0, [], [], []);
    LastThree(cfg, m, events);
  }

  lemma NothingBetween(cfg: Config, m: System)
    ensures Steps(cfg, m, []) == m
  {
  }

  lemma RejectsNothing(cfg: Config, m: System, a: nat, o: OrderId)
    requires a in m.actors && m.actors[a] == RejectDecide(o, false) && !IsPending(m.s, o)
    ensures Step(cfg, m, Advance(a)).s == m.s
  {
  }

  lemma AllowedPrefix(events: seq<Event>, k: nat)
    requires events == LateCancel(0) && k <= |events|
    ensures A.AllAllowed(events) && A.AllAllowed(events[..k])
  {
    forall i | 0 <= i < |events| ensures Allowed(events[i]) {}
    forall e | e in events[..k] ensures e in events {}
  }

  lemma AwardedFound()
    ensures FindKey([AWARDED], PurchaseKey(0)) == Some(AWARDED) && !HasKey([AWARDED], RefundKey(0))
    ensures HasKey([AWARDED], PurchaseKey(0))
  {
    assert [AWARDED][..0] == [] && [AWARDED][0] == AWARDED;
  }

  lemma LastThree(cfg: Config, m: System, events: seq<Event>)
    requires |events| == 12 && events[9] == events[10] == events[11] == Advance(1)
    ensures Steps(cfg, m, events)
         == Step(cfg, Step(cfg, Step(cfg, Steps(cfg, m, events[..9]), Advance(1)), Advance(1)), Advance(1))
  {
    hide Steps, Step;
    StepsLast(cfg, m, events, 9);
    StepsLast(cfg, m, events, 10);
    StepsLast(cfg, m, events, 11);
    assert events[..12] == events;
  }

  // ------------------------------------------------------------------ two links at once

  /** Users 1, 2 and 3 are registered and nothing has happened yet. */
  function ThreeUsers(): Books {
    Books(Store(map[1 := Nobody(), 2 := Nobody(), 3 := Nobody()], map[], [], map[], map[], [], map[], map[], []),
          map[1 := 0, 2 := 0, 3 := 0], map[], [], multiset{}, {}, multiset{})
  }

  /** Taking one toman from an empty wallet takes nothing, and the books say it took one. */
  lemma ClampedCorrection(cfg: Config)
    ensures W.Balanced(ThreeUsers())
    ensures var b := Record(cfg, ThreeUsers(), AdjustCredit(1, -1)); CreditOf(b.s.users, 1) == 0 && !W.Balanced(b)
  {
    hide W.Balanced, W.Solvent;
    W.OpeningBalanced(ThreeUsers());
    W.ClampBreaksBalance(cfg, ThreeUsers(), 1, -1);
  }

  predicate BonusOnly(cfg: Config) {
    cfg.buttonOn && cfg.inviteOn && cfg.inviteAmount > 0 && cfg.inviteCap == 0 && !cfg.loyaltyOn
  }

  /** User 3 follows the links of users 1 and 2; both see that nobody has invited 3 yet. */
  function TwoLinks(): seq<Event> {
    [Begin(0, InviteRead(3, 1)), Begin(1, InviteRead(3, 2)), Advance(0), Advance(1),
     Advance(0), Advance(1), Advance(1), Advance(1)]
  }

  lemma InviteReads(cfg: Config, m: System, a: nat, r: UserId)
    requires a in m.actors && m.actors[a] == InviteRead(3, r) && r != 3
    requires 3 in m.s.users && m.s.users[3].referredBy.None?
    ensures Step(cfg, m, Advance(a)) == System(m.s, m.actors[a := InviteSet(3, r)])
    ensures CallOf(cfg, m, Advance(a)) == None
  {
  }

  lemma InviteSets(cfg: Config, m: System, a: nat, r: UserId)
    requires a in m.actors && m.actors[a] == InviteSet(3, r)
    ensures Step(cfg, m, Advance(a)) == System(DoSetReferrer(m.s, 3, r).0, m.actors[a := InvitePoints(3, r)])
    ensures CallOf(cfg, m, Advance(a)) == Some(SetReferrer(3, r))
  {
  }

  lemma InviteGivesPoints(cfg: Config, m: System, a: nat, r: UserId)
    requires cfg.loyaltyOn && cfg.referralPoints > 0 && r in m.s.users && PointsOf(m.s.points, r) == NO_POINTS
    requires a in m.actors && m.actors[a] == InvitePoints(3, r)
    ensures I.HasPoints(Step(cfg, m, Advance(a)).s, r, 3)
  {
    hide HasKey, Step;
    if I.HasPoints(m.s, r, 3) {
      StepsLater(cfg, m, Advance(a));
      A.FoundInPrefix(m.s.ledger, Step(cfg, m, Advance(a)).s.ledger, ReferralKey(r, 3));
    } else {
      I.PointsEnteredExact(cfg, m, Advance(a), r, 3);
    }
  }

  lemma InviteGivesNoPoints(cfg: Config, m: System, a: nat, r: UserId)
    requires !cfg.loyaltyOn && a in m.actors && m.actors[a] == InvitePoints(3, r)
    ensures Step(cfg, m, Advance(a)) == System(m.s, m.actors[a := InviteBonus(3, r)])
    ensures CallOf(cfg, m, Advance(a)) == None
  {
  }

  lemma TwoLinksRead(cfg: Config)
    ensures var m := System(ThreeUsers().s, map[]);
            && Steps(cfg, m, TwoLinks()[..4]) == System(m.s, map[0 := InviteSet(3, 1), 1 := InviteSet(3, 2)])
            && CallsOf(cfg, m, TwoLinks()[..4]) == []
  {
    hide Step, Steps, CallsOf;
    var m, events := System(ThreeUsers().s, map[]), TwoLinks();
    StepsNone(cfg, m, events);
    StepsLast(cfg, m, events, 0);
    StepsLast(cfg, m, events, 1);
    StepsLast(cfg, m, events, 2);
    StepsLast(cfg, m, events, 3);
    BeginStep(cfg, m, 0, InviteRead(3, 1));
    BeginStep(cfg, Steps(cfg, m, events[..1]), 1, InviteRead(3, 2));
    InviteReads(cfg, Steps(cfg, m, events[..2]), 0, 1);
    InviteReads(cfg, Steps(cfg, m, events[..3]), 1, 2);
    CallsNone(cfg, m, events);
    CallsLast(cfg, m, events, 0);
    CallsLast(cfg, m, events, 1);
    CallsLast(cfg, m, events, 2);
    CallsLast(cfg, m, events, 3);
  }

  /** The calls they make: the second naming of a referrer is refused, the bonus goes to its referrer all
      the same. */
  lemma TwoLinksCalls(cfg: Config)
    requires BonusOnly(cfg)
    ensures CallsOf(cfg, System(ThreeUsers().s, map[]), TwoLinks())
         == [SetReferrer(3, 1), SetReferrer(3, 2), InviteReward(3, 2)]
  {
    hide Step, Steps, CallsOf, DoSetReferrer;
    var m, events := System(ThreeUsers().s, map[]), TwoLinks();
    TwoLinksRead(cfg);
    StepsLast(cfg, m, events, 4);
    StepsLast(cfg, m, events, 5);
    StepsLast(cfg, m, events, 6);
    InviteSets(cfg, Steps(cfg, m, events[..4]), 0, 1);
    InviteSets(cfg, Steps(cfg, m, events[..5]), 1, 2);
    InviteGivesNoPoints(cfg, Steps(cfg, m, events[..6]), 1, 2);
    CallsLast(cfg, m, events, 4);
    CallsLast(cfg, m, events, 5);
    CallsLast(cfg, m, events, 6);
    CallsLast(cfg, m, events, 7);
    assert events[..8] == events;
  }

  /** After them user 3 counts for user 1, and user 2 has the bonus. */
  lemma WrongReferrerPaid(cfg: Config)
    requires BonusOnly(cfg)
    ensures Opening(ThreeUsers())
    ensures CallsOf(cfg, System(ThreeUsers().s, map[]), TwoLinks())
         == [SetReferrer(3, 1), SetReferrer(3, 2), InviteReward(3, 2)]
    ensures var e := Run(cfg, ThreeUsers(), [SetReferrer(3, 1), SetReferrer(3, 2), InviteReward(3, 2)]);
            && 3 in e.s.users && e.s.users[3].referredBy == Some(1) && e.paid == [Payout(Bonus, 2, 3, cfg.inviteAmount)]
            && !R.BonusesCapped(cfg, e)
  {
    hide Record, R.CommissionsCapped, R.BonusesCapped, R.MeetsCaps, CallsOf;
    var b := ThreeUsers();
    TwoLinksCalls(cfg);
    RunThree(cfg, b, SetReferrer(3, 1), SetReferrer(3, 2), InviteReward(3, 2));
    NamedTwice(cfg, b);
    CappedBefore(cfg, b);
    R.InviteKeepsCapsExact(cfg, Record(cfg, Record(cfg, b, SetReferrer(3, 1)), SetReferrer(3, 2)), 3, 2);
  }

  lemma CappedBefore(cfg: Config, b: Books)
    requires Opening(b)
    ensures R.BonusesCapped(cfg, Record(cfg, Record(cfg, b, SetReferrer(3, 1)), SetReferrer(3, 2)))
  {
    hide Record, R.CommissionsCapped, R.BonusesCapped, R.MeetsCaps, Opening;
    R.OpeningCapped(cfg, b);
    R.StepCapped(cfg, b, SetReferrer(3, 1));
    R.StepCapped(cfg, Record(cfg, b, SetReferrer(3, 1)), SetReferrer(3, 2));
  }

  lemma NamedTwice(cfg: Config, b: Books)
    requires b == ThreeUsers() && BonusOnly(cfg)
    ensures var b2 := Record(cfg, Record(cfg, b, SetReferrer(3, 1)), SetReferrer(3, 2));
            && !R.MeetsCaps(cfg, b2.s, 3, 2)
            && Record(cfg, b2, InviteReward(3, 2)).paid == [Payout(Bonus, 2, 3, cfg.inviteAmount)]
            && 3 in Record(cfg, b2, InviteReward(3, 2)).s.users
            && Record(cfg, b2, InviteReward(3, 2)).s.users[3].referredBy == Some(1)
  {
    hide Record;
    NamedOnce(cfg, b);
    BonusToOther(cfg, Record(cfg, Record(cfg, b, SetReferrer(3, 1)), SetReferrer(3, 2)));
  }

  lemma NamedOnce(cfg: Config, b: Books)
    requires b == ThreeUsers()
    ensures var b2 := Record(cfg, Record(cfg, b, SetReferrer(3, 1)), SetReferrer(3, 2));
            b2.s.users == b.s.users[3 := User(0, Some(1), false, false)] && b2.paid == []
  {
  }

  lemma BonusToOther(cfg: Config, b: Books)
    requires 2 in b.s.users && 3 in b.s.users && b.s.users[3] == User(0, Some(1), false, false)
    requires b.paid == [] && BonusOnly(cfg)
    ensures var b' := Record(cfg, b, InviteReward(3, 2));
            && !R.MeetsCaps(cfg, b.s, 3, 2) && b'.paid == [Payout(Bonus, 2, 3, cfg.inviteAmount)]
            && 3 in b'.s.users && b'.s.users[3].referredBy == Some(1)
  {
  }

  /** The same two links with the programme on: each names its referrer and asks for the points. */
  function TwoPoints(): seq<Event> {
    [Begin(0, InviteRead(3, 1)), Begin(1, InviteRead(3, 2)), Advance(0), Advance(1),
     Advance(0), Advance(1), Advance(0), Advance(1)]
  }

  lemma BothNamed(cfg: Config)
    ensures var m := System(ThreeUsers().s, map[]);
            Steps(cfg, m, TwoPoints()[..6])
            == System(m.s.(users := m.s.users[3 := User(0, Some(1), false, false)]),
                      map[0 := InvitePoints(3, 1), 1 := InvitePoints(3, 2)])
  {
    hide Step, Steps, CallsOf;
    var m, events := System(ThreeUsers().s, map[]), TwoPoints();
    TwoLinksRead(cfg);
    assert events[..4] == TwoLinks()[..4];
    StepsLast(cfg, m, events, 4);
    StepsLast(cfg, m, events, 5);
    InviteSets(cfg, Steps(cfg, m, events[..4]), 0, 1);
    InviteSets(cfg, Steps(cfg, m, events[..5]), 1, 2);
  }

  /** Both get the points for user 3, who is recorded under user 1 (see InvitationPoints.LatePointsExact). */
  lemma BothReferrersGetPoints(cfg: Config)
    requires cfg.loyaltyOn && cfg.referralPoints > 0
    ensures var s := Steps(cfg, System(ThreeUsers().s, map[]), TwoPoints()).s;
            I.AllByLinks(TwoPoints()) && I.HasPoints(s, 1, 3) && I.HasPoints(s, 2, 3)
  {
    hide Step, Steps, HasKey;
    var m, events := System(ThreeUsers().s, map[]), TwoPoints();
    BothNamed(cfg);
    var m6, m7 := Steps(cfg, m, events[..6]), Steps(cfg, m, events[..7]);
    StepsLast(cfg, m, events, 6);
    StepsLast(cfg, m, events, 7);
    assert events[..8] == events;
    InviteGivesPoints(cfg, m6, 0, 1);
    SparedOnce(cfg, m6, Advance(0), 1);
    I.OtherPointsStand(cfg, m6, 0, 3, 1, 2);
    UsersKept(cfg, m6, 0);
    InviteGivesPoints(cfg, m7, 1, 2);
    StepsLater(cfg, m7, Advance(1));
    A.FoundInPrefix(m7.s.ledger, Steps(cfg, m, events).s.ledger, ReferralKey(1, 3));
  }

  lemma UsersKept(cfg: Config, m: System, a: nat)
    requires a in m.actors && m.actors[a].InvitePoints?
    ensures Step(cfg, m, Advance(a)).s.users == m.s.users
  {
    hide DoMutate, After;
    EntryKeepsUsers(m.s, m.actors[a].link, cfg.referralPoints, ReferralKey(m.actors[a].link, m.actors[a].invited));
  }

  lemma EntryKeepsUsers(s: Store, u: UserId, amount: int, k: Key)
    ensures DoMutate(s, u, Referral, amount, None, Some(k)).0.users == s.users
  {
    hide KeyTaken;
  }
}
