/** When the stored tier of a user is the right one: it was computed from a total that may have been
    overtaken, and entries without a tier leave it as it is. */
module StoredTiers {
  import opened Tables
  import opened Calls
  import opened Runs
  import opened Loyalty
  import opened Programs
  import opened AwardBooks
  import opened TierBooks

  // ------------------------------------------------------------------ tables

  /** No threshold lies above lo and not above hi. */
  predicate NoneCrossed(tiers: seq<Tier>, lo: int, hi: int) {
    forall i | 0 <= i < |tiers| :: !(lo < tiers[i].min <= hi)
  }

  /** Sorted by threshold, with ids that tell the rows from each other and from no tier. */
  predicate Named(tiers: seq<Tier>) {
    && (forall i | 0 <= i < |tiers| :: tiers[i].id != "")
    && (forall i, j | 0 <= i < j < |tiers| :: tiers[i].min <= tiers[j].min && tiers[i].id != tiers[j].id)
  }

  lemma {:induction false} DigitsDiffer(a: nat, b: nat)
    requires Digits(a) == Digits(b)
    ensures a == b
  {
    var da, db := Digits(a), Digits(b);
    assert da[|da| - 1] == ((a % 10) as char) + '0' && db[|db| - 1] == ((b % 10) as char) + '0';
    if a >= 10 && b >= 10 {
      assert da[..|da| - 1] == Digits(a / 10) && db[..|db| - 1] == Digits(b / 10);
      DigitsDiffer(a / 10, b / 10);
    } else {
      DigitsLonger(a);
      DigitsLonger(b);
    }
  }

  lemma DigitsLonger(n: nat)
    ensures |Digits(n)| > 0 && (n >= 10 ==> |Digits(n)| > 1)
  {
  }

  /** Every table an editor accepts is one. */
  lemma AcceptedIsNamed(rows: seq<TierRow>)
    requires Acceptable(rows)
    ensures Named(TableOf(Sorted(rows)))
  {
    var tiers := TableOf(Sorted(rows));
    AcceptedIsLadder(rows);
    forall i, j | 0 <= i < j < |tiers| ensures tiers[i].id != tiers[j].id {
      if tiers[i].id == tiers[j].id {
        assert tiers[i].id[1..] == Digits(i) && tiers[j].id[1..] == Digits(j);
        DigitsDiffer(i, j);
      }
    }
  }

  lemma LastTier(lifetime: int, tiers: seq<Tier>)
    requires tiers != []
    ensures var n := |tiers| - 1;
            TierId(lifetime, tiers) == if lifetime >= tiers[n].min then tiers[n].id else TierId(lifetime, tiers[..n])
  {
  }

  /** No tier exactly below all thresholds, and otherwise one of the table. */
  lemma {:induction false} TierIdOf(lifetime: int, tiers: seq<Tier>)
    requires Named(tiers)
    ensures TierId(lifetime, tiers) == "" <==> forall i | 0 <= i < |tiers| :: tiers[i].min > lifetime
    ensures TierId(lifetime, tiers) == "" || exists i | 0 <= i < |tiers| :: tiers[i].id == TierId(lifetime, tiers)
  {
    hide TierId;
    if tiers == [] {
      NoTier(lifetime);
    } else {
      var n := |tiers| - 1;
      LastTier(lifetime, tiers);
      if lifetime < tiers[n].min { TierIdOf(lifetime, tiers[..n]); }
    }
  }

  lemma NoTier(lifetime: int)
    ensures TierId(lifetime, []) == ""
  {
  }

  lemma NotLastTier(lifetime: int, tiers: seq<Tier>)
    requires Named(tiers) && tiers != []
    ensures TierId(lifetime, tiers[..|tiers| - 1]) != tiers[|tiers| - 1].id
  {
    hide TierId;
    var n := |tiers| - 1;
    TierIdOf(lifetime, tiers[..n]);
  }

  /** Two totals have one tier if and only if no threshold lies between them. */
  lemma {:induction false} SameTierExact(tiers: seq<Tier>, lo: int, hi: int)
    requires Named(tiers) && lo <= hi
    ensures TierId(lo, tiers) == TierId(hi, tiers) <==> NoneCrossed(tiers, lo, hi)
  {
    hide TierId;
    if tiers == [] {
      NoTier(lo);
      NoTier(hi);
    } else {
      var n := |tiers| - 1;
      LastTier(lo, tiers);
      LastTier(hi, tiers);
      NotLastTier(lo, tiers);
      if hi < tiers[n].min {
        SameTierExact(tiers[..n], lo, hi);
        NoneCrossedLast(tiers, lo, hi);
      }
    }
  }

  lemma NoneCrossedLast(tiers: seq<Tier>, lo: int, hi: int)
    requires tiers != [] && hi < tiers[|tiers| - 1].min
    ensures NoneCrossed(tiers[..|tiers| - 1], lo, hi) <==> NoneCrossed(tiers, lo, hi)
  {
    assert forall i | 0 <= i < |tiers| - 1 :: tiers[..|tiers| - 1][i] == tiers[i];
  }

  // ------------------------------------------------------------------ one entry

  /** The stored tier is the one of what has been earned. */
  predicate TierCurrent(cfg: Config, s: Store, u: UserId) {
    PointsOf(s.points, u).tier == TierId(PointsOf(s.points, u).earned, cfg.tiers)
  }

  function EarnedBy(s: Store, u: UserId): int { PointsOf(s.points, u).earned }

  /** An entry without a tier, as registration and referral bonuses are, leaves a current tier current if
      and only if it carries the user over no threshold. */
  lemma UntieredCreditExact(cfg: Config, s: Store, u: UserId, kind: TxKind, amount: int, key: Option<Key>)
    requires Named(cfg.tiers) && TierCurrent(cfg, s, u)
    requires DoMutate(s, u, kind, amount, None, key).1.Entered?
    ensures TierCurrent(cfg, DoMutate(s, u, kind, amount, None, key).0, u)
            <==> NoneCrossed(cfg.tiers, EarnedBy(s, u), EarnedBy(s, u) + Max(amount, 0))
  {
    hide TierId, NoneCrossed, Named, KeyTaken;
    SameTierExact(cfg.tiers, EarnedBy(s, u), EarnedBy(s, u) + Max(amount, 0));
  }

  /** An entry with the tier of the total read earlier makes the tier current if and only if no threshold
      lies between what that total came to and what the total comes to now. */
  lemma TieredWriteExact(cfg: Config, s: Store, u: UserId, kind: TxKind, amount: int, read: int, key: Option<Key>)
    requires Named(cfg.tiers) && read <= EarnedBy(s, u)
    requires DoMutate(s, u, kind, amount, Some(TierId(read + Max(amount, 0), cfg.tiers)), key).1.Entered?
    ensures TierCurrent(cfg, DoMutate(s, u, kind, amount, Some(TierId(read + Max(amount, 0), cfg.tiers)), key).0, u)
            <==> NoneCrossed(cfg.tiers, read + Max(amount, 0), EarnedBy(s, u) + Max(amount, 0))
  {
    hide TierId, NoneCrossed, Named, KeyTaken;
    SameTierExact(cfg.tiers, read + Max(amount, 0), EarnedBy(s, u) + Max(amount, 0));
  }

  // ------------------------------------------------------------------ over interleavings

  /** A system and, beside it, from which total (its own points included) each actor that is about to
      store a tier has worked that tier out, and from which total the last tier stored for a user was. */
  datatype Traced = Traced(m: System, seen: map<nat, int>, base: map<UserId, int>)

  predicate StoresTier(p: Program) { p.AwardWrite? || p.AdjustWrite? }

  function Gain(p: Program): int
    requires StoresTier(p)
  {
    if p.AwardWrite? then Max(p.points, 0) else Max(p.amount, 0)
  }

  function Track(cfg: Config, x: Traced, e: Event): Traced {
    var m' := Step(cfg, x.m, e);
    if !(e.Advance? && e.actor in x.m.actors) then x.(m := m')
    else
      var a := e.actor;
      var p, p' := x.m.actors[a], m'.actors[a];
      var entered := Effect(cfg, x.m.s, CallBy(cfg, p)).1.Entered?;
      Traced(m',
             if StoresTier(p') then x.seen[a := EarnedBy(m'.s, p'.user) + Gain(p')] else x.seen,
             if StoresTier(p) && entered && a in x.seen then x.base[p.user := x.seen[a]] else x.base)
  }

  function Tracks(cfg: Config, x: Traced, events: seq<Event>): Traced {
    if events == [] then x else Track(cfg, Tracks(cfg, x, events[..|events| - 1]), events[|events| - 1])
  }

  /** An actor's tier is that of the total it saw, which its user has reached by the time it writes. */
  predicate Knows(cfg: Config, s: Store, seen: map<nat, int>, a: nat, p: Program) {
    StoresTier(p) ==>
      a in seen && p.tier == TierId(seen[a], cfg.tiers) && seen[a] <= EarnedBy(s, p.user) + Gain(p)
  }

  /** A user's stored tier is that of the total its last tiered entry came to, or none before the first. */
  predicate BasedOn(cfg: Config, s: Store, base: map<UserId, int>, u: UserId) {
    && PointsOf(s.points, u).tier == (if u in base then TierId(base[u], cfg.tiers) else "")
    && (u in base ==> base[u] <= EarnedBy(s, u))
  }

  ghost predicate WellTraced(cfg: Config, x: Traced) {
    && (forall a | a in x.m.actors :: Knows(cfg, x.m.s, x.seen, a, x.m.actors[a]))
    && (forall u :: BasedOn(cfg, x.m.s, x.base, u))
  }

  /** What a call does to the tier of u and to what u has earned. */
  predicate TierMoves(s: Store, s': Store, call: Call, reply: Reply, u: UserId) {
    var p, p' := PointsOf(s.points, u), PointsOf(s'.points, u);
    if call.Mutate? && call.user == u && reply.Entered?
    then p'.earned == p.earned + Max(call.amount, 0)
         && p'.tier == (if call.tier.Some? then call.tier.value else p.tier)
    else p'.earned == p.earned && p'.tier == p.tier
  }

  lemma MutateMoves(s: Store, call: Call, u: UserId)
    requires call.Mutate?
    ensures var (s', reply) := DoMutate(s, call.user, call.kind, call.amount, call.tier, call.key);
            TierMoves(s, s', call, reply, u)
  {
    hide KeyTaken;
  }

  lemma CallMoves(cfg: Config, s: Store, call: Call, u: UserId)
    ensures var (s', reply) := Do(cfg, s, call); TierMoves(s, s', call, reply, u)
  {
    hide DoOrders, DoReferrals, DoTopUps, DoShop, DoMutate;
    if call.Mutate? {
      MutateMoves(s, call, u);
    } else if !WritesPoints(call) {
      OthersKeepPoints(cfg, s, call);
    }
  }

  /** The same of an event; no call, no move. */
  predicate EventMoves(cfg: Config, m: System, e: Event, u: UserId) {
    var s, s', call := m.s, Step(cfg, m, e).s, CallOf(cfg, m, e);
    if call.Some? then TierMoves(s, s', call.value, Effect(cfg, s, call).1, u)
    else s' == s
  }

  lemma StepMoves(cfg: Config, m: System, e: Event, u: UserId)
    ensures EventMoves(cfg, m, e, u)
  {
    hide Do, Step, TierMoves, CallOf;
    StepIsCall(cfg, m, e);
    var call := CallOf(cfg, m, e);
    if call.Some? { CallMoves(cfg, m.s, call.value, u); }
  }

  /** The actors that store a tier are the only ones that do, with their user, their points and their tier. */
  lemma TieredByActor(cfg: Config, m: System, e: Event)
    requires Allowed(e)
    ensures var call := CallOf(cfg, m, e);
            call.Some? && call.value.Mutate? && call.value.tier.Some? ==>
              && e.Advance? && e.actor in m.actors && StoresTier(m.actors[e.actor])
              && call.value.user == m.actors[e.actor].user && call.value.tier == Some(m.actors[e.actor].tier)
              && Max(call.value.amount, 0) == Gain(m.actors[e.actor])
  {
  }

  lemma ActorsTier(cfg: Config, m: System, e: Event)
    requires e.Advance? && e.actor in m.actors && StoresTier(m.actors[e.actor])
    ensures var call, p := CallOf(cfg, m, e), m.actors[e.actor];
            && call.Some? && call.value.Mutate? && call.value.user == p.user && call.value.tier == Some(p.tier)
            && Max(call.value.amount, 0) == Gain(p)
  {
  }

  lemma BaseKept(cfg: Config, x: Traced, e: Event, u: UserId)
    requires WellTraced(cfg, x) && Allowed(e)
    ensures BasedOn(cfg, Track(cfg, x, e).m.s, Track(cfg, x, e).base, u)
  {
    hide TierId, Step, CallOf, CallBy, Do;
    StepMoves(cfg, x.m, e, u);
    TieredByActor(cfg, x.m, e);
    assert BasedOn(cfg, x.m.s, x.base, u);
    if e.Advance? && e.actor in x.m.actors {
      AdvanceCalls(cfg, x.m, e.actor);
      assert Knows(cfg, x.m.s, x.seen, e.actor, x.m.actors[e.actor]);
      if StoresTier(x.m.actors[e.actor]) { ActorsTier(cfg, x.m, e); }
    }
  }

  lemma AdvanceCalls(cfg: Config, m: System, a: nat)
    requires a in m.actors
    ensures CallOf(cfg, m, Advance(a)) == CallBy(cfg, m.actors[a])
    ensures a in Step(cfg, m, Advance(a)).actors
  {
    hide Do, CallBy, After;
  }

  /** The two places that lead to storing a tier work it out from the total they see. */
  lemma ReaderKnows(cfg: Config, m: System, a: nat)
    requires a in m.actors && StoresTier(Step(cfg, m, Advance(a)).actors[a])
    ensures var m' := Step(cfg, m, Advance(a));
            m'.actors[a].tier == TierId(EarnedBy(m'.s, m'.actors[a].user) + Gain(m'.actors[a]), cfg.tiers)
  {
    hide Effect, TierFor, PurchasePoints, CallBy;
  }

  lemma KnowsLater(cfg: Config, x: Traced, e: Event, a: nat)
    requires a in x.m.actors && Knows(cfg, x.m.s, x.seen, a, x.m.actors[a])
    ensures Knows(cfg, Step(cfg, x.m, e).s, x.seen, a, x.m.actors[a])
  {
    hide TierId, Step, Effect;
    if StoresTier(x.m.actors[a]) { EarnedGrows(cfg, x.m, e, x.m.actors[a].user); }
  }

  lemma EarnedGrows(cfg: Config, m: System, e: Event, u: UserId)
    ensures EarnedBy(m.s, u) <= EarnedBy(Step(cfg, m, e).s, u)
  {
    hide Step, Effect, CallOf;
    StepMoves(cfg, m, e, u);
  }

  lemma StepTraced(cfg: Config, x: Traced, e: Event)
    requires WellTraced(cfg, x) && Allowed(e)
    ensures WellTraced(cfg, Track(cfg, x, e))
  {
    hide TierId, Effect, CallBy;
    var x' := Track(cfg, x, e);
    forall u ensures BasedOn(cfg, x'.m.s, x'.base, u) {
      BaseKept(cfg, x, e, u);
    }
    forall a | a in x'.m.actors ensures Knows(cfg, x'.m.s, x'.seen, a, x'.m.actors[a]) {
      if e.Advance? && a == e.actor {
        if StoresTier(x'.m.actors[a]) { ReaderKnows(cfg, x.m, a); }
      } else if a in x.m.actors {
        KnowsLater(cfg, x, e, a);
      }
    }
  }

  predicate TraceStart(x: Traced) { Fresh(x.m) && x.seen == map[] && x.base == map[] }

  /** In every interleaving, stale reads included, the stored tier of every user is that of the total its
      last tiered entry was worked out from, which is never ahead of what has been earned. */
  lemma {:induction false} StoredTierTraced(cfg: Config, x: Traced, events: seq<Event>)
    requires TraceStart(x) && AllAllowed(events)
    ensures WellTraced(cfg, Tracks(cfg, x, events))
  {
    hide Track;
    if events != [] {
      var n := |events| - 1;
      assert events[n] in events;
      StoredTierTraced(cfg, x, events[..n]);
      StepTraced(cfg, Tracks(cfg, x, events[..n]), events[n]);
    }
  }

  /** So it is the right one if and only if no threshold lies above that total and not above what has been
      earned by now; and for a user without a tiered entry, if and only if no threshold is reached. */
  lemma StoredTierCurrentExact(cfg: Config, x: Traced, events: seq<Event>, u: UserId)
    requires TraceStart(x) && AllAllowed(events) && Named(cfg.tiers)
    ensures var e := Tracks(cfg, x, events);
            TierCurrent(cfg, e.m.s, u) <==>
              if u in e.base then NoneCrossed(cfg.tiers, e.base[u], EarnedBy(e.m.s, u))
              else forall i | 0 <= i < |cfg.tiers| :: cfg.tiers[i].min > EarnedBy(e.m.s, u)
  {
    hide TierId, NoneCrossed;
    var e := Tracks(cfg, x, events);
    StoredTierTraced(cfg, x, events);
    assert BasedOn(cfg, e.m.s, e.base, u);
    if u in e.base {
      SameTierExact(cfg.tiers, e.base[u], EarnedBy(e.m.s, u));
    } else {
      TierIdOf(EarnedBy(e.m.s, u), cfg.tiers);
    }
  }

  // ------------------------------------------------------------------ event by event

  /** The event carries u over no threshold without the tier being told: an entry without a tier over none
      at all, one with a tier over none that its actor has not seen crossed. */
  predicate KeepsTier(cfg: Config, x: Traced, e: Event, u: UserId) {
    var call := CallOf(cfg, x.m, e);
    call.Some? && call.value.Mutate? && call.value.user == u && Effect(cfg, x.m.s, call).1.Entered? ==>
      var after := EarnedBy(x.m.s, u) + Max(call.value.amount, 0);
      if call.value.tier.None? then NoneCrossed(cfg.tiers, EarnedBy(x.m.s, u), after)
      else e.Advance? && e.actor in x.seen && NoneCrossed(cfg.tiers, x.seen[e.actor], after)
  }

  /** A current tier stays current over an event if and only if the event keeps it. */
  lemma KeepsTierExact(cfg: Config, x: Traced, e: Event, u: UserId)
    requires WellTraced(cfg, x) && Allowed(e) && Named(cfg.tiers) && TierCurrent(cfg, x.m.s, u)
    ensures TierCurrent(cfg, Track(cfg, x, e).m.s, u) <==> KeepsTier(cfg, x, e, u)
  {
    hide TierId, NoneCrossed, Named, Effect, CallOf, CallBy, Step, Knows;
    StepMoves(cfg, x.m, e, u);
    TieredByActor(cfg, x.m, e);
    var call := CallOf(cfg, x.m, e);
    if call.Some? && call.value.Mutate? && call.value.user == u {
      var after := EarnedBy(x.m.s, u) + Max(call.value.amount, 0);
      SameTierExact(cfg.tiers, EarnedBy(x.m.s, u), after);
      if call.value.tier.Some? {
        assert Knows(cfg, x.m.s, x.seen, e.actor, x.m.actors[e.actor]);
        KnownTier(cfg, x, e.actor);
        SameTierExact(cfg.tiers, x.seen[e.actor], after);
      }
    }
  }

  lemma ActorKnows(cfg: Config, x: Traced, a: nat)
    requires WellTraced(cfg, x) && a in x.m.actors
    ensures Knows(cfg, x.m.s, x.seen, a, x.m.actors[a])
  {
    hide Knows, BasedOn;
  }

  lemma KnownTier(cfg: Config, x: Traced, a: nat)
    requires a in x.m.actors && StoresTier(x.m.actors[a]) && Knows(cfg, x.m.s, x.seen, a, x.m.actors[a])
    ensures var p := x.m.actors[a];
            a in x.seen && p.tier == TierId(x.seen[a], cfg.tiers) && x.seen[a] <= EarnedBy(x.m.s, p.user) + Gain(p)
  {
  }

  predicate KeepsTierRun(cfg: Config, x: Traced, events: seq<Event>, u: UserId) {
    || events == []
    || (var n := |events| - 1;
        KeepsTierRun(cfg, x, events[..n], u) && KeepsTier(cfg, Tracks(cfg, x, events[..n]), events[n], u))
  }

  /** From any moment at which it is right, the stored tier of a user is right for as long as every entry
      for that user keeps it. */
  lemma {:induction false} TierStaysCurrent(cfg: Config, x: Traced, events: seq<Event>, u: UserId)
    requires WellTraced(cfg, x) && AllAllowed(events) && Named(cfg.tiers)
    requires TierCurrent(cfg, x.m.s, u) && KeepsTierRun(cfg, x, events, u)
    ensures WellTraced(cfg, Tracks(cfg, x, events)) && TierCurrent(cfg, Tracks(cfg, x, events).m.s, u)
  {
    hide Track, KeepsTier, TierCurrent, WellTraced;
    if events != [] {
      var n := |events| - 1;
      assert events[n] in events;
      TierStaysCurrent(cfg, x, events[..n], u);
      StepTraced(cfg, Tracks(cfg, x, events[..n]), events[n]);
      KeepsTierExact(cfg, Tracks(cfg, x, events[..n]), events[n], u);
    }
  }

  // ------------------------------------------------------------------ undisturbed writers

  lemma {:induction false} SparedStays(cfg: Config, x: Traced, events: seq<Event>, a: nat)
    requires a in x.m.actors && a in x.seen && Spares(events, a)
    ensures var e := Tracks(cfg, x, events);
            a in e.m.actors && e.m.actors[a] == x.m.actors[a] && a in e.seen && e.seen[a] == x.seen[a]
    ensures forall u :: EarnedBy(x.m.s, u) <= EarnedBy(Tracks(cfg, x, events).m.s, u)
  {
    hide Track;
    if events != [] {
      var n := |events| - 1;
      var before := Tracks(cfg, x, events[..n]);
      assert events[n] in events;
      SparedStays(cfg, x, events[..n], a);
      SparedStep(cfg, before, events[n], a);
      forall u ensures EarnedBy(x.m.s, u) <= EarnedBy(Track(cfg, before, events[n]).m.s, u) {
        TrackSteps(cfg, before, events[n]);
        EarnedGrows(cfg, before.m, events[n], u);
      }
    }
  }

  lemma TrackSteps(cfg: Config, x: Traced, e: Event)
    ensures Track(cfg, x, e).m == Step(cfg, x.m, e)
  {
    hide Step, Effect;
  }

  lemma SparedStep(cfg: Config, x: Traced, e: Event, a: nat)
    requires a in x.m.actors && a in x.seen && e != Advance(a) && e != Crash(a)
    ensures var x' := Track(cfg, x, e);
            a in x'.m.actors && x'.m.actors[a] == x.m.actors[a] && a in x'.seen && x'.seen[a] == x.seen[a]
  {
    hide Effect, Step;
    SparedOnce(cfg, x.m, e, a);
  }

  /** Whatever else happens, an award or adjustment whose user earns nothing between its read and its
      write leaves the right tier. */
  lemma QuietWriteCurrent(cfg: Config, x: Traced, events: seq<Event>, a: nat)
    requires WellTraced(cfg, x) && AllAllowed(events) && Named(cfg.tiers) && Spares(events, a)
    requires a in x.m.actors && StoresTier(Step(cfg, x.m, Advance(a)).actors[a])
    requires var read := Track(cfg, x, Advance(a));
             var p, e := read.m.actors[a], Tracks(cfg, read, events);
             EarnedBy(e.m.s, p.user) == EarnedBy(read.m.s, p.user) && Effect(cfg, e.m.s, CallBy(cfg, p)).1.Entered?
    ensures var read := Track(cfg, x, Advance(a));
            var u, e := read.m.actors[a].user, Tracks(cfg, read, events);
            TierCurrent(cfg, Track(cfg, e, Advance(a)).m.s, u)
  {
    hide NoneCrossed, Named, Effect, CallOf, CallBy, Step, WellTraced, TierCurrent, Knows;
    StepTraced(cfg, x, Advance(a));
    JustRead(cfg, x, a);
    ReadAndWritten(cfg, Track(cfg, x, Advance(a)), events, a);
  }

  lemma JustRead(cfg: Config, x: Traced, a: nat)
    requires a in x.m.actors && StoresTier(Step(cfg, x.m, Advance(a)).actors[a])
    ensures var read := Track(cfg, x, Advance(a));
            && a in read.m.actors && StoresTier(read.m.actors[a]) && a in read.seen
            && read.seen[a] == EarnedBy(read.m.s, read.m.actors[a].user) + Gain(read.m.actors[a])
  {
    hide Effect, CallBy;
  }

  lemma ReadAndWritten(cfg: Config, x: Traced, events: seq<Event>, a: nat)
    requires WellTraced(cfg, x) && Spares(events, a)
    requires a in x.m.actors && StoresTier(x.m.actors[a])
    requires a in x.seen && x.seen[a] == EarnedBy(x.m.s, x.m.actors[a].user) + Gain(x.m.actors[a])
    requires var u, e := x.m.actors[a].user, Tracks(cfg, x, events);
             && EarnedBy(e.m.s, u) == EarnedBy(x.m.s, u)
             && Effect(cfg, e.m.s, CallBy(cfg, x.m.actors[a])).1.Entered?
    ensures TierCurrent(cfg, Track(cfg, Tracks(cfg, x, events), Advance(a)).m.s, x.m.actors[a].user)
  {
    hide TierId, NoneCrossed, Named, Effect, CallOf, CallBy, Step, WellTraced;
    var e, u := Tracks(cfg, x, events), x.m.actors[a].user;
    ActorKnows(cfg, x, a);
    KnownTier(cfg, x, a);
    SparedStays(cfg, x, events, a);
    AdvanceCalls(cfg, e.m, a);
    ActorsTier(cfg, e.m, Advance(a));
    StepMoves(cfg, e.m, Advance(a), u);
    TrackSteps(cfg, e, Advance(a));
  }

  // ------------------------------------------------------------------ one bonus is enough

  /** One adjustment and, when it is done, one bonus. */
  function AdjustmentThenBonus(u: UserId): seq<Event> {
    [Begin(0, AdjustRead(u, 60)), Advance(0), Advance(0),
     Other(Mutate(u, Registration, 100, None, Some(RegistrationKey(u))))]
  }

  lemma BonusEntered(cfg: Config, m: System, u: UserId)
    requires u in m.s.users && PointsOf(m.s.points, u) == Points(60, 60, 0, "t0")
    requires !HasKey(m.s.ledger, RegistrationKey(u))
    ensures PointsOf(Step(cfg, m, AdjustmentThenBonus(u)[3]).s.points, u) == Points(160, 160, 0, "t0")
  {
  }

  lemma AdjustmentEntered(cfg: Config, m: System, u: UserId)
    requires Fresh(m) && u in m.s.users && cfg.tiers == TWO_TIERS
    ensures var s := Steps(cfg, m, AdjustmentThenBonus(u)[..3]).s;
            && PointsOf(s.points, u) == Points(60, 60, 0, "t0") && u in s.users
            && !HasKey(s.ledger, RegistrationKey(u))
  {
    hide Step, Steps, HasKey;
    var events := AdjustmentThenBonus(u);
    TwoTiers(60);
    StepsNone(cfg, m, events);
    StepsLastTwo(cfg, m, events, 0);
    AdminReads(cfg, m, 0, u, 60);
    StepsLast(cfg, m, events, 2);
    AdjustWrites(cfg, Steps(cfg, m, events[..2]), 0, u, 60, "t0");
    NoBonusYet(cfg, Steps(cfg, m, events[..2]), u);
  }

  lemma NoBonusYet(cfg: Config, m: System, u: UserId)
    requires m.s.ledger == [] && 0 in m.actors && m.actors[0] == AdjustWrite(u, 60, "t0")
    ensures !HasKey(Step(cfg, m, Advance(0)).s.ledger, RegistrationKey(u))
  {
  }

  /** With one caller after another, the registration bonus takes the user over the second threshold and
      leaves the first tier stored. */
  lemma BonusLeavesTierBehind(cfg: Config, m: System, u: UserId)
    requires Fresh(m) && u in m.s.users && cfg.tiers == TWO_TIERS
    ensures var events := AdjustmentThenBonus(u);
            && AllAllowed(events)
            && TierCurrent(cfg, Steps(cfg, m, events[..3]).s, u)
            && PointsOf(Steps(cfg, m, events).s.points, u) == Points(160, 160, 0, "t0")
            && TierId(160, cfg.tiers) == "t1"
  {
    hide Step, Steps;
    var events := AdjustmentThenBonus(u);
    TwoTiers(60);
    TwoTiers(160);
    AdjustmentEntered(cfg, m, u);
    StepsLast(cfg, m, events, 3);
    BonusEntered(cfg, Steps(cfg, m, events[..3]), u);
    assert events[..4] == events;
  }
}
