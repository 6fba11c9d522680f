/** Points for purchases under every interleaving of approvers, rejecters and cancel flows. */
module AwardBooks {
  import opened Tables
  import opened Sums
  import opened Calls
  import opened Runs
  import opened Programs

  /** What a ledger row adds to the points an order is responsible for. */
  function NetOf(o: OrderId): Row -> int {
    (r: Row) => if r.key == Some(PurchaseKey(o)) || r.key == Some(RefundKey(o)) then r.amount else 0
  }

  /** An order's one award, unless it has been refunded. */
  function AwardLeft(ledger: seq<Row>, o: OrderId): int {
    var award := FindKey(ledger, PurchaseKey(o));
    if award.None? || HasKey(ledger, RefundKey(o)) then 0 else award.value.amount
  }

  ghost predicate NetSound(ledger: seq<Row>) {
    forall o ::
      && (HasKey(ledger, RefundKey(o)) ==> HasKey(ledger, PurchaseKey(o)))
      && Sum(ledger, NetOf(o)) == AwardLeft(ledger, o)
  }

  predicate ApprovedFor(s: Store, o: OrderId, u: UserId) {
    0 <= o < |s.orders| && s.orders[o].status == Approved && s.orders[o].user == u
  }

  /** Purchase rows are positive and belong to an approved order of the same user. */
  predicate EntriesSound(s: Store) {
    forall i | 0 <= i < |s.ledger| && s.ledger[i].key.Some? && s.ledger[i].key.value.PurchaseKey? ::
      ApprovedFor(s, s.ledger[i].key.value.order, s.ledger[i].user) && s.ledger[i].amount > 0
  }

  /** What an actor may rely on at its place, whatever happened since it read. */
  predicate Informed(s: Store, p: Program) {
    match p
    case AwardEnsure(o, u, _, _) => ApprovedFor(s, o, u)
    case AwardWrite(o, u, points, _, _) => ApprovedFor(s, o, u) && points > 0
    case RefundWrite(o, u, amount) =>
      var award := FindKey(s.ledger, PurchaseKey(o));
      award.Some? && award.value.user == u && award.value.amount == amount
    case _ => true
  }

  ghost predicate AwardsSound(m: System) {
    && NetSound(m.s.ledger) && EntriesSound(m.s)
    && forall a | a in m.actors :: Informed(m.s, m.actors[a])
  }

  lemma InformedStays(s: Store, s': Store, p: Program)
    requires Later(s, s') && Informed(s, p)
    ensures Informed(s', p)
  {
    if p.RefundWrite? { FoundStaysFound(s.ledger, s'.ledger, PurchaseKey(p.order)); }
  }

  /** A call that enters a purchase or a refund is entitled to: the first for an approved order, the
      second for the amount its award gave. */
  predicate Entitled(s: Store, call: Call) {
    match call
    case Mutate(u, _, amount, _, key) =>
      && (key.Some? && key.value.PurchaseKey? ==> ApprovedFor(s, key.value.order, u) && amount > 0)
      && (key.Some? && key.value.RefundKey? ==>
            var award := FindKey(s.ledger, PurchaseKey(key.value.order));
            award.Some? && amount == -award.value.amount)
    case RedeemPoints(_, _, _, key) => !key.PurchaseKey? && !key.RefundKey?
    case _ => true
  }

  lemma FoundInAppended(ledger: seq<Row>, row: Row, k: Key)
    ensures HasKey(ledger + [row], k) <==> HasKey(ledger, k) || row.key == Some(k)
    ensures FindKey(ledger + [row], k) == if HasKey(ledger, k) then FindKey(ledger, k)
                                          else if row.key == Some(k) then Some(row) else None
  {
    assert (ledger + [row])[..|ledger|] == ledger;
    if i :| 0 <= i < |ledger| && ledger[i].key == Some(k) { assert (ledger + [row])[i].key == Some(k); }
    assert (ledger + [row])[|ledger|] == row;
  }

  lemma FoundInPrefix(ledger: seq<Row>, ledger': seq<Row>, k: Key)
    requires ledger <= ledger' && HasKey(ledger, k)
    ensures HasKey(ledger', k)
  {
    var i :| 0 <= i < |ledger| && ledger[i].key == Some(k);
    assert ledger'[i] == ledger[i];
  }

  lemma RowNet(ledger: seq<Row>, row: Row)
    requires NetSound(ledger)
    requires row.key.Some? ==> !HasKey(ledger, row.key.value)
    requires row.key.Some? && row.key.value.RefundKey? ==>
               var award := FindKey(ledger, PurchaseKey(row.key.value.order));
               award.Some? && row.amount == -award.value.amount
    ensures NetSound(ledger + [row])
  {
    forall o
      ensures HasKey(ledger + [row], RefundKey(o)) ==> HasKey(ledger + [row], PurchaseKey(o))
      ensures Sum(ledger + [row], NetOf(o)) == AwardLeft(ledger + [row], o)
    {
      SumAppend(ledger, row, NetOf(o));
      FoundInAppended(ledger, row, PurchaseKey(o));
      FoundInAppended(ledger, row, RefundKey(o));
      assert Sum(ledger, NetOf(o)) == AwardLeft(ledger, o);
    }
  }

  lemma EntriesStay(s: Store, s': Store)
    requires EntriesSound(s) && Later(s, s')
    requires forall i | |s.ledger| <= i < |s'.ledger| && s'.ledger[i].key.Some?
                          && s'.ledger[i].key.value.PurchaseKey? ::
               ApprovedFor(s', s'.ledger[i].key.value.order, s'.ledger[i].user) && s'.ledger[i].amount > 0
    ensures EntriesSound(s')
  {
  }

  lemma CallAwards(cfg: Config, s: Store, call: Call)
    requires NetSound(s.ledger) && EntriesSound(s) && Entitled(s, call)
    ensures NetSound(Do(cfg, s, call).0.ledger) && EntriesSound(Do(cfg, s, call).0)
  {
    hide NetSound, EntriesSound, Later, DoOrders, DoReferrals, DoTopUps, DoShop;
    var s' := Do(cfg, s, call).0;
    CallsLater(cfg, s, call);
    if call.Mutate? {
      EntryAwards(s, s', DoMutate(s, call.user, call.kind, call.amount, call.tier, call.key).1);
    } else if call.RedeemPoints? {
      EntryAwards(s, s', DoRedeem(s, call.user, call.points, call.toman, call.redeemKey).1);
    } else {
      OthersEnterNothing(cfg, s, call);
      EntriesStay(s, s');
    }
  }

  lemma OthersEnterNothing(cfg: Config, s: Store, call: Call)
    requires !call.Mutate? && !call.RedeemPoints?
    ensures Do(cfg, s, call).0.ledger == s.ledger
  {
    if !call.EnsurePoints? { OthersKeepPoints(cfg, s, call); }
  }

  lemma EntryAwards(s: Store, s': Store, reply: Reply)
    requires NetSound(s.ledger) && EntriesSound(s) && Later(s, s')
    requires s'.ledger == if reply.Entered? then s.ledger + [reply.row] else s.ledger
    requires reply.Entered? && reply.row.key.Some? ==>
               && !HasKey(s.ledger, reply.row.key.value)
               && (reply.row.key.value.PurchaseKey? ==>
                     ApprovedFor(s, reply.row.key.value.order, reply.row.user) && reply.row.amount > 0)
               && (reply.row.key.value.RefundKey? ==>
                     var award := FindKey(s.ledger, PurchaseKey(reply.row.key.value.order));
                     award.Some? && reply.row.amount == -award.value.amount)
    ensures NetSound(s'.ledger) && EntriesSound(s')
  {
    if reply.Entered? { RowNet(s.ledger, reply.row); }
    EntriesStay(s, s');
  }

  lemma EntitledBySystem(cfg: Config, m: System, e: Event)
    requires AwardsSound(m) && Allowed(e)
    ensures var call := CallOf(cfg, m, e); call.Some? ==> Entitled(m.s, call.value)
  {
    if e.Advance? && e.actor in m.actors {
      assert Informed(m.s, m.actors[e.actor]);
    }
  }

  lemma AfterInformed(cfg: Config, s: Store, s': Store, p: Program, reply: Reply)
    requires Later(s, s') && Informed(s, p)
    requires s' == s || CallBy(cfg, p).Some?
    ensures Informed(s', After(cfg, s', p, reply))
  {
  }

  lemma StepAwards(cfg: Config, m: System, e: Event)
    requires AwardsSound(m) && Allowed(e)
    ensures AwardsSound(Step(cfg, m, e))
  {
    var m' := Step(cfg, m, e);
    var call := CallOf(cfg, m, e);
    StepIsCall(cfg, m, e);
    StepsLater(cfg, m, e);
    EntitledBySystem(cfg, m, e);
    if call.Some? { CallAwards(cfg, m.s, call.value); }
    forall a | a in m'.actors ensures Informed(m'.s, m'.actors[a]) {
      if e.Advance? && a == e.actor {
        AfterInformed(cfg, m.s, m'.s, m.actors[a], Effect(cfg, m.s, call).1);
      } else if a in m.actors {
        InformedStays(m.s, m'.s, m.actors[a]);
      }
    }
  }

  predicate Fresh(m: System) {
    m.s.ledger == [] && m.s.points == map[] && m.actors == map[]
  }

  predicate AllAllowed(events: seq<Event>) { forall e | e in events :: Allowed(e) }

  /** Under every interleaving, the unguarded cancel flow included: an order's net contribution to the
      ledger is nothing or exactly its one award, and nothing again once refunded; awards and refunds
      stand only against approved orders. */
  lemma {:induction false} AwardOnceRefundOnce(cfg: Config, m: System, events: seq<Event>)
    requires Fresh(m) && AllAllowed(events)
    ensures AwardsSound(Steps(cfg, m, events))
    ensures var s := Steps(cfg, m, events).s;
            forall o | HasKey(s.ledger, RefundKey(o)) ::
              0 <= o < |s.orders| && s.orders[o].status == Approved && Sum(s.ledger, NetOf(o)) == 0
  {
    if events != [] {
      var n := |events| - 1;
      assert events[n] in events;
      AwardOnceRefundOnce(cfg, m, events[..n]);
      StepAwards(cfg, Steps(cfg, m, events[..n]), events[n]);
    }
    var s := Steps(cfg, m, events).s;
    forall o | HasKey(s.ledger, RefundKey(o))
      ensures 0 <= o < |s.orders| && s.orders[o].status == Approved && Sum(s.ledger, NetOf(o)) == 0
    {
      assert HasKey(s.ledger, PurchaseKey(o));
      var i :| 0 <= i < |s.ledger| && s.ledger[i].key == Some(PurchaseKey(o));
      assert ApprovedFor(s, o, s.ledger[i].user);
    }
  }

  /** Once refunded, an order contributes nothing at any later time. */
  lemma {:induction false} RefundedForEver(cfg: Config, m: System, events: seq<Event>, o: OrderId)
    requires AwardsSound(m) && AllAllowed(events) && HasKey(m.s.ledger, RefundKey(o))
    ensures AwardsSound(Steps(cfg, m, events))
    ensures HasKey(Steps(cfg, m, events).s.ledger, RefundKey(o))
    ensures Sum(Steps(cfg, m, events).s.ledger, NetOf(o)) == 0
  {
    if events != [] {
      var n := |events| - 1;
      assert events[n] in events;
      RefundedForEver(cfg, m, events[..n], o);
      StepAwards(cfg, Steps(cfg, m, events[..n]), events[n]);
      StepsLater(cfg, Steps(cfg, m, events[..n]), events[n]);
      FoundStaysFound(Steps(cfg, m, events[..n]).s.ledger, Steps(cfg, m, events).s.ledger, RefundKey(o));
    }
  }

  // ------------------------------------------------------------------ guarded callers

  predicate Guarded(p: Program) {
    (p.RejectRead? ==> p.guarded) && (p.RejectDecide? ==> p.guarded) && !p.RefundWrite?
  }

  predicate RejectedFor(s: Store, o: OrderId) { 0 <= o < |s.orders| && s.orders[o].status == Rejected }

  /** An actor looking for an award to refund has rejected the order itself. */
  predicate KnowsRejected(s: Store, p: Program) { p.RefundFind? ==> RejectedFor(s, p.order) }

  ghost predicate NothingToRefund(m: System) {
    && AwardsSound(m)
    && (forall o :: !HasKey(m.s.ledger, RefundKey(o)))
    && (forall a | a in m.actors :: Guarded(m.actors[a]) && KnowsRejected(m.s, m.actors[a]))
  }

  predicate GuardedEvent(e: Event) { Allowed(e) && (e.Begin? ==> Guarded(e.program)) }

  lemma RejectedHasNoAward(s: Store, o: OrderId)
    requires EntriesSound(s) && RejectedFor(s, o)
    ensures FindKey(s.ledger, PurchaseKey(o)).None?
  {
  }

  lemma AfterGuarded(cfg: Config, s: Store, p: Program)
    requires Guarded(p) && KnowsRejected(s, p) && EntriesSound(s)
    ensures var (s', reply) := Effect(cfg, s, CallBy(cfg, p));
            Guarded(After(cfg, s', p, reply)) && KnowsRejected(s', After(cfg, s', p, reply))
  {
  }

  lemma NoRefundEntered(cfg: Config, s: Store, call: Call)
    requires forall o :: !HasKey(s.ledger, RefundKey(o))
    requires call.Mutate? && call.key.Some? ==> !call.key.value.RefundKey?
    requires call.RedeemPoints? ==> !call.redeemKey.RefundKey?
    ensures forall o :: !HasKey(Do(cfg, s, call).0.ledger, RefundKey(o))
  {
    if call.Mutate? {
      RowIsNoRefund(s.ledger, DoMutate(s, call.user, call.kind, call.amount, call.tier, call.key));
    } else if call.RedeemPoints? {
      RowIsNoRefund(s.ledger, DoRedeem(s, call.user, call.points, call.toman, call.redeemKey));
    } else {
      OthersEnterNothing(cfg, s, call);
    }
  }

  lemma RowIsNoRefund(ledger: seq<Row>, result: (Store, Reply))
    requires forall o :: !HasKey(ledger, RefundKey(o))
    requires result.0.ledger == if result.1.Entered? then ledger + [result.1.row] else ledger
    requires result.1.Entered? && result.1.row.key.Some? ==> !result.1.row.key.value.RefundKey?
    ensures forall o :: !HasKey(result.0.ledger, RefundKey(o))
  {
  }

  lemma SystemCallsNoRefund(cfg: Config, m: System, e: Event)
    requires NothingToRefund(m) && GuardedEvent(e)
    ensures var call := CallOf(cfg, m, e);
            call.Some? ==> && (call.value.Mutate? && call.value.key.Some? ==> !call.value.key.value.RefundKey?)
                           && (call.value.RedeemPoints? ==> !call.value.redeemKey.RefundKey?)
  {
  }

  lemma ActorsStayGuarded(cfg: Config, m: System, e: Event, a: nat)
    requires NothingToRefund(m) && GuardedEvent(e) && a in Step(cfg, m, e).actors
    ensures var m' := Step(cfg, m, e); Guarded(m'.actors[a]) && KnowsRejected(m'.s, m'.actors[a])
  {
    StepsLater(cfg, m, e);
    if e.Advance? && a == e.actor { AfterGuarded(cfg, m.s, m.actors[a]); }
  }

  lemma StepGuarded(cfg: Config, m: System, e: Event)
    requires NothingToRefund(m) && GuardedEvent(e)
    ensures NothingToRefund(Step(cfg, m, e))
  {
    var m' := Step(cfg, m, e);
    var call := CallOf(cfg, m, e);
    StepIsCall(cfg, m, e);
    StepAwards(cfg, m, e);
    SystemCallsNoRefund(cfg, m, e);
    if call.Some? { NoRefundEntered(cfg, m.s, call.value); }
    forall a | a in m'.actors ensures Guarded(m'.actors[a]) && KnowsRejected(m'.s, m'.actors[a]) {
      ActorsStayGuarded(cfg, m, e, a);
    }
  }

  /** With only callers that look at the outcome of the decision, no refund is ever entered: whoever
      looks for an award after rejecting finds none, because awards stand only against approved
      orders. */
  lemma {:induction false} GuardedNeverRefunds(cfg: Config, m: System, events: seq<Event>)
    requires Fresh(m) && forall e | e in events :: GuardedEvent(e)
    ensures NothingToRefund(Steps(cfg, m, events))
    ensures var m' := Steps(cfg, m, events);
            forall a | a in m'.actors && m'.actors[a].RefundFind? ::
              FindKey(m'.s.ledger, PurchaseKey(m'.actors[a].order)).None?
  {
    if events != [] {
      var n := |events| - 1;
      assert events[n] in events;
      GuardedNeverRefunds(cfg, m, events[..n]);
      StepGuarded(cfg, Steps(cfg, m, events[..n]), events[n]);
    }
    var m' := Steps(cfg, m, events);
    forall a | a in m'.actors && m'.actors[a].RefundFind?
      ensures FindKey(m'.s.ledger, PurchaseKey(m'.actors[a].order)).None?
    {
      assert KnowsRejected(m'.s, m'.actors[a]);
      RejectedHasNoAward(m'.s, m'.actors[a].order);
    }
  }

  // ------------------------------------------------------------------ the unguarded cancel flow

  /** Whatever others do, and then one step of actor a. */
  function Around(cfg: Config, m: System, others: seq<Event>, a: nat): System {
    Step(cfg, Steps(cfg, m, others), Advance(a))
  }

  predicate Elsewhere(events: seq<Event>, a: nat) { AllAllowed(events) && Spares(events, a) }

  /** s' is s after the attempt to take back what award gave for order o: it succeeds exactly when the
      balance covers the award and it was not taken back before, and then nothing is left of it. */
  predicate TakenBack(s: Store, s': Store, o: OrderId, award: Row) {
    && s'.orders == s.orders
    && (s'.ledger != s.ledger <==>
          && !HasKey(s.ledger, RefundKey(o)) && award.user in s.users
          && PointsOf(s.points, award.user).current >= award.amount)
    && (s'.ledger != s.ledger ==> AwardLeft(s.ledger, o) == award.amount && AwardLeft(s'.ledger, o) == 0)
  }

  lemma RefundEntersExact(s: Store, o: OrderId, award: Row)
    requires FindKey(s.ledger, PurchaseKey(o)) == Some(award) && award.amount > 0
    ensures TakenBack(s, DoMutate(s, award.user, PurchaseRefund, -award.amount, None, Some(RefundKey(o))).0, o, award)
  {
    var (s', reply) := DoMutate(s, award.user, PurchaseRefund, -award.amount, None, Some(RefundKey(o)));
    if reply.Entered? {
      FoundInAppended(s.ledger, reply.row, RefundKey(o));
      assert |s'.ledger| == |s.ledger| + 1;
    }
  }

  lemma RejectStep(cfg: Config, m: System, a: nat, o: OrderId)
    requires a in m.actors && m.actors[a] == RejectDecide(o, false)
    ensures var m' := Step(cfg, m, Advance(a)); a in m'.actors && m'.actors[a] == RefundFind(o)
  {
    hide Effect;
  }

  lemma FindStep(cfg: Config, m: System, a: nat, o: OrderId)
    requires a in m.actors && m.actors[a] == RefundFind(o)
    ensures var m', award := Step(cfg, m, Advance(a)), FindKey(m.s.ledger, PurchaseKey(o));
            && m'.s == m.s && a in m'.actors
            && m'.actors[a] == if award.Some? then RefundWrite(o, award.value.user, award.value.amount) else Finished
  {
  }

  lemma FinishedStep(cfg: Config, m: System, a: nat)
    requires a in m.actors && m.actors[a] == Finished
    ensures Step(cfg, m, Advance(a)).s == m.s
  {
  }

  lemma RefundStep(cfg: Config, m: System, a: nat, o: OrderId, award: Row)
    requires a in m.actors && m.actors[a] == RefundWrite(o, award.user, award.amount)
    requires FindKey(m.s.ledger, PurchaseKey(o)) == Some(award) && award.amount > 0
    ensures TakenBack(m.s, Step(cfg, m, Advance(a)).s, o, award)
  {
    hide DoMutate, TakenBack, After;
    RefundEntersExact(m.s, o, award);
    StepIsCall(cfg, m, Advance(a));
  }

  lemma {:induction false} AwardsStay(cfg: Config, m: System, events: seq<Event>)
    requires AwardsSound(m) && AllAllowed(events)
    ensures AwardsSound(Steps(cfg, m, events))
  {
    hide AwardsSound, Step;
    if events != [] {
      var n := |events| - 1;
      assert events[n] in events;
      AwardsStay(cfg, m, events[..n]);
      StepAwards(cfg, Steps(cfg, m, events[..n]), events[n]);
    }
  }

  /** What is in the ledger as the award of an order was entered for its approved order. */
  lemma FoundIsAward(m: System, o: OrderId)
    requires AwardsSound(m) && HasKey(m.s.ledger, PurchaseKey(o))
    ensures var award := FindKey(m.s.ledger, PurchaseKey(o)).value; ApprovedFor(m.s, o, award.user) && award.amount > 0
  {
    var award := FindKey(m.s.ledger, PurchaseKey(o)).value;
    var i :| 0 <= i < |m.s.ledger| && m.s.ledger[i] == award;
  }

  lemma FindThenWrite(cfg: Config, found: System, others: seq<Event>, a: nat, o: OrderId, award: Row)
    requires a in found.actors && found.actors[a] == RefundWrite(o, award.user, award.amount)
    requires FindKey(found.s.ledger, PurchaseKey(o)) == Some(award) && award.amount > 0 && Spares(others, a)
    ensures TakenBack(Steps(cfg, found, others).s, Around(cfg, found, others, a).s, o, award)
  {
    hide Step, Steps, TakenBack;
    SparedStands(cfg, found, others, a);
    LedgerGrows(cfg, found, others);
    FoundStaysFound(found.s.ledger, Steps(cfg, found, others).s.ledger, PurchaseKey(o));
    RefundStep(cfg, Steps(cfg, found, others), a, o, award);
  }

  /** An actor of the cancel flow that saw its order pending goes on to its end, with anything happening
      before each of its three steps.  If it finds an award when it looks, which is then one of an
      approved order, it takes the points exactly when the balance covers them as it writes and they
      were not taken before; if it finds none, it takes nothing, even if one is entered later. */
  lemma LateCancelTakesPoints(cfg: Config, m: System, a: nat, o: OrderId,
                              first: seq<Event>, second: seq<Event>, third: seq<Event>)
    requires AwardsSound(m) && a in m.actors && m.actors[a] == RejectDecide(o, false)
    requires Elsewhere(first, a) && Elsewhere(second, a) && Elsewhere(third, a)
    ensures var looks := Steps(cfg, Around(cfg, m, first, a), second);
            var writes := Steps(cfg, Step(cfg, looks, Advance(a)), third);
            var ends := Step(cfg, writes, Advance(a));
            var award := FindKey(looks.s.ledger, PurchaseKey(o));
            if award.Some?
            then && ApprovedFor(looks.s, o, award.value.user) && award.value.amount > 0
                 && TakenBack(writes.s, ends.s, o, award.value)
            else ends.s == writes.s
  {
    hide Step, Steps, AwardsSound, TakenBack;
    var decides := Steps(cfg, m, first);
    var rejected := Step(cfg, decides, Advance(a));
    var looks := Steps(cfg, rejected, second);
    AwardsStay(cfg, m, first);
    SparedStands(cfg, m, first, a);
    StepAwards(cfg, decides, Advance(a));
    RejectStep(cfg, decides, a, o);
    AwardsStay(cfg, rejected, second);
    SparedStands(cfg, rejected, second, a);
    FindStep(cfg, looks, a, o);
    var found := Step(cfg, looks, Advance(a));
    var award := FindKey(looks.s.ledger, PurchaseKey(o));
    if award.Some? {
      FoundIsAward(looks, o);
      FindThenWrite(cfg, found, third, a, o, award.value);
    } else {
      SparedStands(cfg, found, third, a);
      FinishedStep(cfg, Steps(cfg, found, third), a);
    }
  }
}
