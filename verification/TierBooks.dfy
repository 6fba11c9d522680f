/** Stored tiers and redemptions under every interleaving, with the settings fixed. */
module TierBooks {
  import opened Tables
  import opened Sums
  import opened Calls
  import opened Runs
  import opened Loyalty
  import opened Programs
  import opened AwardBooks
  import WalletBooks

  // ------------------------------------------------------------------ tiers

  /** No tier, or one whose threshold has been earned. */
  predicate Reached(tiers: seq<Tier>, tier: string, earned: int) {
    tier == "" || exists i | 0 <= i < |tiers| :: tiers[i].id == tier && tiers[i].min <= earned
  }

  /** The tier an actor is about to store will have been reached once its points are in, however old
      the total it worked from. */
  predicate TierInformed(cfg: Config, s: Store, p: Program) {
    match p
    case AwardWrite(_, u, points, tier, _) =>
      u in s.points && points > 0 && Reached(cfg.tiers, tier, s.points[u].earned + points)
    case AdjustWrite(u, amount, tier) =>
      u in s.points && Reached(cfg.tiers, tier, s.points[u].earned + Max(amount, 0))
    case _ => true
  }

  predicate TiersReached(cfg: Config, s: Store) {
    forall u | u in s.points :: Reached(cfg.tiers, s.points[u].tier, s.points[u].earned)
  }

  predicate TiersSound(cfg: Config, m: System) {
    && TiersReached(cfg, m.s)
    && forall a | a in m.actors :: TierInformed(cfg, m.s, m.actors[a])
  }

  lemma TierIdReached(lifetime: int, tiers: seq<Tier>)
    ensures Reached(tiers, TierId(lifetime, tiers), lifetime)
  {
  }

  lemma TierInformedStays(cfg: Config, s: Store, s': Store, p: Program)
    requires Later(s, s') && TierInformed(cfg, s, p)
    ensures TierInformed(cfg, s', p)
  {
  }

  /** A call that stores a tier stores one that will have been reached. */
  predicate StoresReached(cfg: Config, s: Store, call: Call) {
    call.Mutate? && call.tier.Some? ==>
      call.user in s.points && Reached(cfg.tiers, call.tier.value, s.points[call.user].earned + Max(call.amount, 0))
  }

  lemma MutateTiers(cfg: Config, s: Store, u: UserId, kind: TxKind, amount: int, tier: Option<string>, key: Option<Key>)
    requires TiersReached(cfg, s)
    requires tier.Some? ==> u in s.points && Reached(cfg.tiers, tier.value, s.points[u].earned + Max(amount, 0))
    ensures TiersReached(cfg, DoMutate(s, u, kind, amount, tier, key).0)
  {
  }

  lemma RedeemTiers(cfg: Config, s: Store, u: UserId, points: int, toman: int, key: Key)
    requires TiersReached(cfg, s)
    ensures TiersReached(cfg, DoRedeem(s, u, points, toman, key).0)
  {
  }

  lemma CallTiers(cfg: Config, s: Store, call: Call)
    requires TiersReached(cfg, s) && StoresReached(cfg, s, call)
    ensures TiersReached(cfg, Do(cfg, s, call).0)
  {
    if call.Mutate? {
      MutateTiers(cfg, s, call.user, call.kind, call.amount, call.tier, call.key);
    } else if call.RedeemPoints? {
      RedeemTiers(cfg, s, call.user, call.points, call.toman, call.redeemKey);
    } else if !call.EnsurePoints? {
      OthersKeepPoints(cfg, s, call);
    }
  }

  /** Only two places of the programs lead to one that stores a tier. */
  lemma AwardEnsureInformed(cfg: Config, s: Store, s': Store, o: OrderId, u: UserId, base: int, paid: int, reply: Reply)
    requires reply.Done? ==> u in s'.points
    ensures TierInformed(cfg, s', After(cfg, s', AwardEnsure(o, u, base, paid), reply))
  {
    var earned := PointsOf(s'.points, u).earned;
    TierIdReached(earned + PurchasePoints(base, earned, cfg.perToman, cfg.maxPerOrder, cfg.tiers), cfg.tiers);
  }

  lemma AdjustReadInformed(cfg: Config, s: Store, s': Store, u: UserId, amount: int, reply: Reply)
    requires reply.Done? ==> u in s'.points
    ensures TierInformed(cfg, s', After(cfg, s', AdjustRead(u, amount), reply))
  {
    TierIdReached(PointsOf(s'.points, u).earned + Max(amount, 0), cfg.tiers);
  }

  lemma AfterTierInformed(cfg: Config, s: Store, p: Program)
    ensures var (s', reply) := Effect(cfg, s, CallBy(cfg, p)); TierInformed(cfg, s', After(cfg, s', p, reply))
  {
    var (s', reply) := Effect(cfg, s, CallBy(cfg, p));
    match p
    case AwardEnsure(o, u, base, paid) =>
      EnsureMakesRow(cfg, s, u);
      AwardEnsureInformed(cfg, s, s', o, u, base, paid, reply);
    case AdjustRead(u, amount) =>
      EnsureMakesRow(cfg, s, u);
      AdjustReadInformed(cfg, s, s', u, amount, reply);
    case _ => NoTierStored(cfg, s', p, reply);
  }

  lemma EnsureMakesRow(cfg: Config, s: Store, u: UserId)
    ensures var (s', reply) := Do(cfg, s, EnsurePoints(u)); reply.Done? ==> u in s'.points
  {
  }

  lemma NoTierStored(cfg: Config, s: Store, p: Program, reply: Reply)
    requires !p.AwardEnsure? && !p.AdjustRead?
    ensures TierInformed(cfg, s, After(cfg, s, p, reply))
  {
  }

  lemma SystemStoresReached(cfg: Config, m: System, e: Event)
    requires TiersSound(cfg, m) && Allowed(e)
    ensures var call := CallOf(cfg, m, e); call.Some? ==> StoresReached(cfg, m.s, call.value)
  {
  }

  lemma StepTiers(cfg: Config, m: System, e: Event)
    requires TiersSound(cfg, m) && Allowed(e)
    ensures TiersSound(cfg, Step(cfg, m, e))
  {
    var m' := Step(cfg, m, e);
    var call := CallOf(cfg, m, e);
    StepIsCall(cfg, m, e);
    StepsLater(cfg, m, e);
    SystemStoresReached(cfg, m, e);
    if call.Some? { CallTiers(cfg, m.s, call.value); }
    forall a | a in m'.actors ensures TierInformed(cfg, m'.s, m'.actors[a]) {
      if e.Advance? && a == e.actor {
        AfterTierInformed(cfg, m.s, m.actors[a]);
      } else if a in m.actors {
        TierInformedStays(cfg, m.s, m'.s, m.actors[a]);
      }
    }
  }

  /** For any tier table and any interleaving, stale reads included, a user's stored tier is never one
      whose threshold the user has not earned. */
  lemma {:induction false} StoredTierNeverAhead(cfg: Config, m: System, events: seq<Event>)
    requires Fresh(m) && AllAllowed(events)
    ensures TiersSound(cfg, Steps(cfg, m, events))
  {
    if events != [] {
      var n := |events| - 1;
      assert events[n] in events;
      StoredTierNeverAhead(cfg, m, events[..n]);
      StepTiers(cfg, Steps(cfg, m, events[..n]), events[n]);
    }
  }

  // ------------------------------------------------------------------ it can fall behind

  lemma AdjustReads(cfg: Config, m: System, a: nat, u: UserId, amount: int)
    requires a in m.actors && m.actors[a] == AdjustRead(u, amount) && amount != 0 && u in m.s.users
    ensures Step(cfg, m, Advance(a)) ==
            System(m.s.(points := EnsureRow(m.s.points, u)),
                   m.actors[a := AdjustWrite(u, amount,
                                             TierId(PointsOf(m.s.points, u).earned + Max(amount, 0), cfg.tiers))])
  {
  }

  lemma AdjustWrites(cfg: Config, m: System, a: nat, u: UserId, amount: int, tier: string)
    requires a in m.actors && m.actors[a] == AdjustWrite(u, amount, tier) && amount > 0 && u in m.s.users
    requires PointsOf(m.s.points, u).current >= 0
    ensures var p, m' := PointsOf(m.s.points, u), Step(cfg, m, Advance(a));
            && m'.s.points == m.s.points[u := Points(p.current + amount, p.earned + amount, p.spent, tier)]
            && m'.s.users == m.s.users && m'.actors == m.actors[a := Finished]
  {
  }

  const TWO_TIERS := [Tier("t0", 0, 100), Tier("t1", 100, 120)]

  lemma TwoTiers(lifetime: int)
    requires lifetime >= 0
    ensures TierId(lifetime, TWO_TIERS) == if lifetime >= 100 then "t1" else "t0"
  {
    var first := Tier("t0", 0, 100);
    assert TWO_TIERS[..1] == [first];
    assert TierFor(lifetime, [first]) == Some(first);
  }

  /** Two admins add 60 and 200 points to one new user; the first reads before and writes after the
      second. */
  function CrossedAdjustments(u: UserId): seq<Event> {
    [Begin(0, AdjustRead(u, 60)), Advance(0), Begin(1, AdjustRead(u, 200)), Advance(1), Advance(1), Advance(0)]
  }

  /** Both have read, neither has written. */
  function BothRead(m: System, u: UserId): System {
    System(m.s.(points := map[u := NO_POINTS]),
           map[0 := AdjustWrite(u, 60, "t0"), 1 := AdjustWrite(u, 200, "t1")])
  }

  lemma AdminReads(cfg: Config, m: System, a: nat, u: UserId, amount: int)
    requires a !in m.actors && amount > 0 && u in m.s.users
    ensures Step(cfg, Step(cfg, m, Begin(a, AdjustRead(u, amount))), Advance(a)) ==
            System(m.s.(points := EnsureRow(m.s.points, u)),
                   m.actors[a := AdjustWrite(u, amount, TierId(PointsOf(m.s.points, u).earned + amount, cfg.tiers))])
  {
    BeginStep(cfg, m, a, AdjustRead(u, amount));
    var m' := System(m.s, m.actors[a := AdjustRead(u, amount)]);
    AdjustReads(cfg, m', a, u, amount);
    assert m'.actors[a := AdjustWrite(u, amount, "")] == m.actors[a := AdjustWrite(u, amount, "")];
  }

  lemma StepsLastTwo(cfg: Config, m: System, events: seq<Event>, k: nat)
    requires k + 1 < |events|
    ensures Steps(cfg, m, events[..k + 2]) == Step(cfg, Step(cfg, Steps(cfg, m, events[..k]), events[k]), events[k + 1])
  {
    StepsLast(cfg, m, events, k);
    StepsLast(cfg, m, events, k + 1);
  }

  lemma CrossedReads(cfg: Config, m: System, u: UserId)
    requires Fresh(m) && u in m.s.users && cfg.tiers == TWO_TIERS
    ensures Steps(cfg, m, CrossedAdjustments(u)[..4]) == BothRead(m, u)
  {
    hide Step, Steps;
    var events := CrossedAdjustments(u);
    TwoTiers(60);
    TwoTiers(200);
    StepsNone(cfg, m, events);
    StepsLastTwo(cfg, m, events, 0);
    StepsLastTwo(cfg, m, events, 2);
    AdminReads(cfg, m, 0, u, 60);
    AdminReads(cfg, Steps(cfg, m, events[..2]), 1, u, 200);
  }

  /** The stored tier can fall back and then lag: after the fifth event it is the second tier, after the
      sixth the first again, although 260 points have been earned by then. */
  lemma StoredTierMayRegress(cfg: Config, m: System, u: UserId)
    requires Fresh(m) && u in m.s.users && cfg.tiers == TWO_TIERS
    ensures var events := CrossedAdjustments(u);
            && AllAllowed(events)
            && PointsOf(Steps(cfg, m, events[..5]).s.points, u) == Points(200, 200, 0, "t1")
            && PointsOf(Steps(cfg, m, events).s.points, u) == Points(260, 260, 0, "t0")
            && TierId(260, cfg.tiers) == "t1"
  {
    hide Step, Steps;
    var events := CrossedAdjustments(u);
    TwoTiers(260);
    CrossedReads(cfg, m, u);
    StepsLast(cfg, m, events, 4);
    AdjustWrites(cfg, BothRead(m, u), 1, u, 200, "t1");
    StepsLast(cfg, m, events, 5);
    AdjustWrites(cfg, Steps(cfg, m, events[..5]), 0, u, 60, "t0");
    assert events[..6] == events;
  }

  // ------------------------------------------------------------------ redemptions

  function TomanOf(s: Store, u: UserId): int { Sum(s.ledger, WalletBooks.Redeemed(u)) }

  ghost predicate RateKept(cfg: Config, s: Store) {
    forall u :: cfg.redeemPoints * TomanOf(s, u) == cfg.redeemToman * PointsOf(s.points, u).spent
  }

  /** What is about to be redeemed is worth what the rate says. */
  predicate RateInformed(cfg: Config, p: Program) {
    p.RedeemWrite? ==> cfg.redeemPoints * p.toman == cfg.redeemToman * p.points
  }

  ghost predicate RedemptionsSound(cfg: Config, m: System) {
    && RateKept(cfg, m.s)
    && forall a | a in m.actors :: RateInformed(cfg, m.actors[a])
  }

  predicate AtRate(cfg: Config, call: Call) {
    && (call.RedeemPoints? ==> cfg.redeemPoints * call.toman == cfg.redeemToman * call.points)
    && (call.Mutate? ==> call.kind != Redeem && call.kind != Expire)
  }

  lemma RowAtRate(cfg: Config, s: Store, s': Store, row: Row, spent: int)
    requires RateKept(cfg, s) && s'.ledger == s.ledger + [row]
    requires cfg.redeemPoints * row.toman == cfg.redeemToman * spent
    requires forall u :: PointsOf(s'.points, u).spent
                      == PointsOf(s.points, u).spent + (if u == row.user then spent else 0)
    ensures RateKept(cfg, s')
  {
  }

  lemma SpentSame(cfg: Config, s: Store, s': Store)
    requires RateKept(cfg, s) && s'.ledger == s.ledger
    requires forall u :: PointsOf(s'.points, u).spent == PointsOf(s.points, u).spent
    ensures RateKept(cfg, s')
  {
  }

  lemma MutateAtRate(cfg: Config, s: Store, u: UserId, kind: TxKind, amount: int, tier: Option<string>,
                     key: Option<Key>)
    requires RateKept(cfg, s) && kind != Redeem && kind != Expire
    ensures RateKept(cfg, DoMutate(s, u, kind, amount, tier, key).0)
  {
    var (s', reply) := DoMutate(s, u, kind, amount, tier, key);
    if reply.Entered? { RowAtRate(cfg, s, s', reply.row, 0); }
  }

  lemma RedeemAtRate(cfg: Config, s: Store, u: UserId, points: int, toman: int, key: Key)
    requires RateKept(cfg, s) && cfg.redeemPoints * toman == cfg.redeemToman * points
    ensures RateKept(cfg, DoRedeem(s, u, points, toman, key).0)
  {
    var (s', reply) := DoRedeem(s, u, points, toman, key);
    if reply.Entered? { RowAtRate(cfg, s, s', reply.row, points); } else { SpentSame(cfg, s, s'); }
  }

  lemma CallAtRate(cfg: Config, s: Store, call: Call)
    requires RateKept(cfg, s) && AtRate(cfg, call)
    ensures RateKept(cfg, Do(cfg, s, call).0)
  {
    if call.Mutate? {
      MutateAtRate(cfg, s, call.user, call.kind, call.amount, call.tier, call.key);
    } else if call.RedeemPoints? {
      RedeemAtRate(cfg, s, call.user, call.points, call.toman, call.redeemKey);
    } else {
      if !call.EnsurePoints? { OthersKeepPoints(cfg, s, call); }
      SpentSame(cfg, s, Do(cfg, s, call).0);
    }
  }

  lemma AfterRateInformed(cfg: Config, s: Store, p: Program, reply: Reply)
    requires RateInformed(cfg, p)
    ensures RateInformed(cfg, After(cfg, s, p, reply))
  {
  }

  lemma StepAtRate(cfg: Config, m: System, e: Event)
    requires RedemptionsSound(cfg, m) && Allowed(e)
    ensures RedemptionsSound(cfg, Step(cfg, m, e))
  {
    var m' := Step(cfg, m, e);
    var call := CallOf(cfg, m, e);
    StepIsCall(cfg, m, e);
    if e.Advance? && e.actor in m.actors { assert RateInformed(cfg, m.actors[e.actor]); }
    if call.Some? { CallAtRate(cfg, m.s, call.value); }
    forall a | a in m'.actors ensures RateInformed(cfg, m'.actors[a]) {
      if e.Advance? && a == e.actor { AfterRateInformed(cfg, m'.s, m.actors[a], Effect(cfg, m.s, call).1); }
    }
  }

  /** In every interleaving the toman credited by redemptions and the points spent on them stand in the
      set rate exactly, user by user, so no way of splitting a redemption gains or loses anything. */
  lemma {:induction false} RedemptionsExact(cfg: Config, m: System, events: seq<Event>)
    requires Fresh(m) && AllAllowed(events)
    ensures RedemptionsSound(cfg, Steps(cfg, m, events))
  {
    if events != [] {
      var n := |events| - 1;
      assert events[n] in events;
      RedemptionsExact(cfg, m, events[..n]);
      StepAtRate(cfg, Steps(cfg, m, events[..n]), events[n]);
    }
  }
}
