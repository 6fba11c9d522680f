/** Invitation links under every interleaving: to whom they bring points, and when to more than one. */
module InvitationPoints {
  import opened Tables
  import opened Calls
  import opened Runs
  import opened Programs
  import opened Interleavings
  import opened Invitations
  import A = AwardBooks
  import R = ReferralBooks

  /** The points for bringing u have been entered for r. */
  predicate HasPoints(s: Store, r: UserId, u: UserId) { HasKey(s.ledger, ReferralKey(r, u)) }

  predicate Referred(s: Store, u: UserId) { u in s.users && s.users[u].referredBy.Some? }

  /** The points for an invitation are entered by the invitation program only. */
  predicate ByLinks(e: Event) {
    Allowed(e) && (e.Other? && e.call.Mutate? && e.call.key.Some? ==> !e.call.key.value.ReferralKey?)
  }

  predicate AllByLinks(events: seq<Event>) { forall e | e in events :: ByLinks(e) }

  /** An actor that follows r's link for u, has seen u without a referrer and has not asked for the points
      yet. */
  predicate PastRead(p: Program, u: UserId, r: UserId) {
    (p.InviteSet? || p.InvitePoints?) && p.invited == u && p.link == r
  }

  predicate UnderWay(m: System, u: UserId, r: UserId) {
    exists a | a in m.actors :: PastRead(m.actors[a], u, r)
  }

  // ------------------------------------------------------------------ one row

  lemma MutateEnters(s: Store, u: UserId, kind: TxKind, amount: int, tier: Option<string>, key: Option<Key>, k: Key)
    ensures var (s', reply) := DoMutate(s, u, kind, amount, tier, key);
            HasKey(s'.ledger, k) <==> HasKey(s.ledger, k) || (reply.Entered? && key == Some(k))
  {
    hide HasKey;
    var reply := DoMutate(s, u, kind, amount, tier, key).1;
    if reply.Entered? { A.FoundInAppended(s.ledger, reply.row, k); }
  }

  lemma RedeemEnters(s: Store, u: UserId, points: int, toman: int, key: Key, k: Key)
    requires key != k
    ensures HasKey(DoRedeem(s, u, points, toman, key).0.ledger, k) <==> HasKey(s.ledger, k)
  {
    hide HasKey;
    var reply := DoRedeem(s, u, points, toman, key).1;
    if reply.Entered? { A.FoundInAppended(s.ledger, reply.row, k); }
  }

  /** The call an event makes, as far as a key is concerned. */
  predicate Asks(cfg: Config, m: System, e: Event, k: Key) {
    var call := CallOf(cfg, m, e);
    call.Some? && call.value.Mutate? && call.value.key == Some(k)
  }

  lemma EventEnters(cfg: Config, m: System, e: Event, k: Key)
    requires var call := CallOf(cfg, m, e); call.Some? && call.value.RedeemPoints? ==> call.value.redeemKey != k
    ensures HasKey(Step(cfg, m, e).s.ledger, k)
            <==> HasKey(m.s.ledger, k) || (Asks(cfg, m, e, k) && Effect(cfg, m.s, CallOf(cfg, m, e)).1.Entered?)
  {
    hide HasKey, DoMutate, DoRedeem, Step, CallOf;
    StepIsCall(cfg, m, e);
    var call := CallOf(cfg, m, e);
    if call.None? {
    } else if call.value.Mutate? {
      var c := call.value;
      MutateEnters(m.s, c.user, c.kind, c.amount, c.tier, c.key, k);
    } else if call.value.RedeemPoints? {
      var c := call.value;
      RedeemEnters(m.s, c.user, c.points, c.toman, c.redeemKey, k);
    } else {
      A.OthersEnterNothing(cfg, m.s, call.value);
    }
  }

  lemma OnlyLinksAsk(cfg: Config, m: System, e: Event, r: UserId, u: UserId)
    requires ByLinks(e)
    ensures var call := CallOf(cfg, m, e);
            call.Some? && call.value.RedeemPoints? ==> call.value.redeemKey != ReferralKey(r, u)
    ensures Asks(cfg, m, e, ReferralKey(r, u)) <==>
              && e.Advance? && e.actor in m.actors && m.actors[e.actor] == InvitePoints(u, r)
              && cfg.loyaltyOn && cfg.referralPoints > 0
    ensures Asks(cfg, m, e, ReferralKey(r, u)) ==>
              CallOf(cfg, m, e) == Some(Mutate(r, Referral, cfg.referralPoints, None, Some(ReferralKey(r, u))))
  {
  }

  lemma FirstEntry(cfg: Config, s: Store, r: UserId, u: UserId)
    requires !HasPoints(s, r, u) && PointsOf(s.points, r).current >= 0 && cfg.referralPoints > 0
    ensures Effect(cfg, s, Some(Mutate(r, Referral, cfg.referralPoints, None, Some(ReferralKey(r, u))))).1.Entered?
            <==> r in s.users
  {
  }

  /** The points for a link are entered by its actor at its place, with the programme and the bonus on, for
      a registered referrer that has not got them yet, and never otherwise. */
  lemma PointsEnteredExact(cfg: Config, m: System, e: Event, r: UserId, u: UserId)
    requires ByLinks(e) && !HasPoints(m.s, r, u) && PointsOf(m.s.points, r).current >= 0
    ensures HasPoints(Step(cfg, m, e).s, r, u) <==>
              && e.Advance? && e.actor in m.actors && m.actors[e.actor] == InvitePoints(u, r)
              && cfg.loyaltyOn && cfg.referralPoints > 0 && r in m.s.users
  {
    hide HasKey, Step, CallOf, Effect;
    OnlyLinksAsk(cfg, m, e, r, u);
    EventEnters(cfg, m, e, ReferralKey(r, u));
    if Asks(cfg, m, e, ReferralKey(r, u)) { FirstEntry(cfg, m.s, r, u); }
  }

  /** They are the set number of points, to the referrer. */
  lemma PointsEnteredTold(cfg: Config, m: System, e: Event, r: UserId, u: UserId)
    requires ByLinks(e) && !HasPoints(m.s, r, u) && HasPoints(Step(cfg, m, e).s, r, u)
    ensures var s' := Step(cfg, m, e).s;
            && |s'.ledger| == |m.s.ledger| + 1
            && s'.ledger[|m.s.ledger|].user == r && s'.ledger[|m.s.ledger|].amount == cfg.referralPoints
            && PointsOf(s'.points, r).current == PointsOf(m.s.points, r).current + cfg.referralPoints
  {
    hide HasKey, Step, CallOf, DoMutate;
    StepIsCall(cfg, m, e);
    OnlyLinksAsk(cfg, m, e, r, u);
    EventEnters(cfg, m, e, ReferralKey(r, u));
    EntryMoves(m.s, r, cfg.referralPoints, ReferralKey(r, u));
  }

  lemma EntryMoves(s: Store, r: UserId, amount: int, k: Key)
    ensures var (s', reply) := DoMutate(s, r, Referral, amount, None, Some(k));
            reply.Entered? ==>
              && s'.ledger == s.ledger + [reply.row] && reply.row.user == r && reply.row.amount == amount
              && PointsOf(s'.points, r).current == PointsOf(s.points, r).current + amount
  {
    hide KeyTaken;
  }

  /** Whatever the balance, a new row is the actor's. */
  lemma NewPointsByLink(cfg: Config, m: System, e: Event, r: UserId, u: UserId)
    requires ByLinks(e) && !HasPoints(m.s, r, u) && HasPoints(Step(cfg, m, e).s, r, u)
    ensures e.Advance? && e.actor in m.actors && m.actors[e.actor] == InvitePoints(u, r)
  {
    hide HasKey, Step, CallOf, Effect;
    OnlyLinksAsk(cfg, m, e, r, u);
    EventEnters(cfg, m, e, ReferralKey(r, u));
  }

  // ------------------------------------------------------------------ after u has a referrer

  lemma ReferredStays(cfg: Config, m: System, e: Event, u: UserId)
    requires Referred(m.s, u)
    ensures Referred(Step(cfg, m, e).s, u)
  {
    hide Step, Do, CallOf;
    StepIsCall(cfg, m, e);
    var call := CallOf(cfg, m, e);
    if call.Some? { ReferrerMoves(cfg, m.s, call.value, u); }
  }

  /** How an actor comes to be past its read. */
  lemma PastReadBefore(cfg: Config, m: System, e: Event, a: nat, u: UserId, r: UserId)
    requires a in Step(cfg, m, e).actors && PastRead(Step(cfg, m, e).actors[a], u, r)
    ensures a in m.actors
    ensures || PastRead(m.actors[a], u, r)
            || (e == Advance(a) && m.actors[a] == InviteRead(u, r) && u != r && !Referred(m.s, u)
                && Step(cfg, m, e).s == m.s)
  {
    hide Do;
  }

  /** u has a referrer, and r neither has the points for u nor is on the way to them. */
  predicate NoWay(m: System, u: UserId, r: UserId) {
    Referred(m.s, u) && !HasPoints(m.s, r, u) && !UnderWay(m, u, r)
  }

  lemma StepNoWay(cfg: Config, m: System, e: Event, u: UserId, r: UserId)
    requires NoWay(m, u, r) && ByLinks(e)
    ensures NoWay(Step(cfg, m, e), u, r)
  {
    hide HasKey, Step;
    var m' := Step(cfg, m, e);
    ReferredStays(cfg, m, e, u);
    if HasPoints(m'.s, r, u) { NewPointsByLink(cfg, m, e, r, u); }
    forall a | a in m'.actors ensures !PastRead(m'.actors[a], u, r) {
      if PastRead(m'.actors[a], u, r) { PastReadBefore(cfg, m, e, a, u, r); }
    }
  }

  lemma {:induction false} NoWayStays(cfg: Config, m: System, events: seq<Event>, u: UserId, r: UserId)
    requires NoWay(m, u, r) && AllByLinks(events)
    ensures NoWay(Steps(cfg, m, events), u, r)
  {
    hide NoWay, Step;
    if events != [] {
      var n := |events| - 1;
      assert events[n] in events;
      NoWayStays(cfg, m, events[..n], u, r);
      StepNoWay(cfg, Steps(cfg, m, events[..n]), events[n], u, r);
    }
  }

  lemma StepsAppend(cfg: Config, m: System, events: seq<Event>, e: Event)
    ensures Steps(cfg, m, events + [e]) == Step(cfg, Steps(cfg, m, events), e)
  {
    assert (events + [e])[..|events|] == events;
  }

  /** The next two steps of an actor past its read. */
  lemma SetThenPoints(cfg: Config, m: System, a: nat, u: UserId, r: UserId)
    requires a in m.actors && m.actors[a] == InviteSet(u, r)
    ensures var m' := Step(cfg, m, Advance(a));
            && a in m'.actors && m'.actors[a] == InvitePoints(u, r)
            && m'.s.users.Keys == m.s.users.Keys && m'.s.points == m.s.points && m'.s.ledger == m.s.ledger
  {
    hide DoSetReferrer;
    NamingKeeps(m.s, u, r);
  }

  lemma NamingKeeps(s: Store, u: UserId, r: UserId)
    ensures var s' := DoSetReferrer(s, u, r).0;
            s'.users.Keys == s.users.Keys && s'.points == s.points && s'.ledger == s.ledger
  {
  }

  lemma Registers(cfg: Config, m: System, r: UserId)
    ensures var m' := Step(cfg, m, Other(AddUser(r)));
            && r in m'.s.users && m'.actors == m.actors && m'.s.points == m.s.points && m'.s.ledger == m.s.ledger
  {
  }

  lemma OtherPointsStand(cfg: Config, m: System, a: nat, u: UserId, r: UserId, other: UserId)
    requires a in m.actors && m.actors[a] == InvitePoints(u, r) && other != r
    ensures PointsOf(Step(cfg, m, Advance(a)).s.points, other) == PointsOf(m.s.points, other)
  {
    hide DoMutate, After;
    StepIsCall(cfg, m, Advance(a));
    EntryKeepsOthers(m.s, r, cfg.referralPoints, ReferralKey(r, u), other);
  }

  lemma EntryKeepsOthers(s: Store, r: UserId, amount: int, k: Key, other: UserId)
    requires other != r
    ensures PointsOf(DoMutate(s, r, Referral, amount, None, Some(k)).0.points, other) == PointsOf(s.points, other)
  {
    hide KeyTaken;
  }

  /** With the programme and the bonus on, an actor past its read can still bring its referrer the points. */
  lemma PointsReachable(cfg: Config, m: System, a: nat, u: UserId, r: UserId) returns (events: seq<Event>)
    requires a in m.actors && PastRead(m.actors[a], u, r)
    requires cfg.loyaltyOn && cfg.referralPoints > 0 && PointsOf(m.s.points, r).current >= 0
    ensures AllByLinks(events) && HasPoints(Steps(cfg, m, events).s, r, u)
    ensures forall c | c != a :: Spares(events, c)
    ensures forall other | other != r :: PointsOf(Steps(cfg, m, events).s.points, other) == PointsOf(m.s.points, other)
  {
    hide HasKey, Step, Steps, PointsOf;
    events := [];
    StepsNothing(cfg, m);
    if r !in m.s.users {
      Registers(cfg, m, r);
      StepsAppend(cfg, m, events, Other(AddUser(r)));
      events := events + [Other(AddUser(r))];
    }
    var m1 := Steps(cfg, m, events);
    if m.actors[a].InviteSet? {
      SetThenPoints(cfg, m1, a, u, r);
      StepsAppend(cfg, m, events, Advance(a));
      events := events + [Advance(a)];
    }
    var m2 := Steps(cfg, m, events);
    StepsAppend(cfg, m, events, Advance(a));
    events := events + [Advance(a)];
    forall other | other != r ensures PointsOf(Steps(cfg, m, events).s.points, other) == PointsOf(m.s.points, other) {
      OtherPointsStand(cfg, m2, a, u, r, other);
    }
    if HasPoints(m2.s, r, u) {
      StepsLater(cfg, m2, Advance(a));
      A.FoundInPrefix(m2.s.ledger, Step(cfg, m2, Advance(a)).s.ledger, ReferralKey(r, u));
    } else {
      PointsEnteredExact(cfg, m2, Advance(a), r, u);
    }
  }

  lemma StepsNothing(cfg: Config, m: System)
    ensures Steps(cfg, m, []) == m
  {
  }

  /** Once u has a referrer, r can come to the points for u if and only if it has them or a link of r was
      past its read then: whoever reads later stops. */
  lemma LatePointsExact(cfg: Config, m: System, u: UserId, r: UserId)
    requires Referred(m.s, u) && cfg.loyaltyOn && cfg.referralPoints > 0 && PointsOf(m.s.points, r).current >= 0
    ensures (exists events :: AllByLinks(events) && HasPoints(Steps(cfg, m, events).s, r, u))
            <==> HasPoints(m.s, r, u) || UnderWay(m, u, r)
  {
    hide HasKey, Step, Steps, AllByLinks;
    if HasPoints(m.s, r, u) {
      StepsNothing(cfg, m);
      NoEvents();
      assert HasPoints(Steps(cfg, m, []).s, r, u);
    } else if UnderWay(m, u, r) {
      var a :| a in m.actors && PastRead(m.actors[a], u, r);
      var events := PointsReachable(cfg, m, a, u, r);
    } else {
      forall events | AllByLinks(events) ensures !HasPoints(Steps(cfg, m, events).s, r, u) {
        NoWayStays(cfg, m, events, u, r);
      }
    }
  }

  lemma NoEvents()
    ensures AllByLinks([])
  {
  }

  // ------------------------------------------------------------------ two rows for one user

  /** Both ends of a link are registered when it is followed. */
  predicate Registered(m: System, e: Event) {
    e.Begin? && Inviting(e.program) ==> e.program.invited in m.s.users && e.program.link in m.s.users
  }

  predicate RegisteredRun(cfg: Config, m: System, events: seq<Event>) {
    || events == []
    || (var n := |events| - 1;
        RegisteredRun(cfg, m, events[..n]) && Registered(Steps(cfg, m, events[..n]), events[n]))
  }

  /** An actor that asks for points or a bonus knows that its user has a referrer, if not which. */
  predicate LinkFit(s: Store, p: Program) {
    Inviting(p) ==>
      && p.invited in s.users && p.link in s.users
      && (p.InviteSet? ==> p.invited != p.link)
      && (p.InvitePoints? || p.InviteBonus? ==> Referred(s, p.invited))
  }

  ghost predicate Rooted(m: System) {
    && (forall r, u | HasPoints(m.s, r, u) :: Referred(m.s, u))
    && (forall a | a in m.actors :: LinkFit(m.s, m.actors[a]))
  }

  lemma LinkFitStays(cfg: Config, m: System, e: Event, p: Program)
    requires LinkFit(m.s, p)
    ensures LinkFit(Step(cfg, m, e).s, p)
  {
    hide Step, Do, CallOf;
    StepIsCall(cfg, m, e);
    var call := CallOf(cfg, m, e);
    if call.Some? { UsersStay(cfg, m.s, call.value); }
    if Inviting(p) && Referred(m.s, p.invited) { ReferredStays(cfg, m, e, p.invited); }
  }

  /** Naming a referrer leaves a registered user with one, the new or the old. */
  lemma SetRefers(cfg: Config, m: System, a: nat)
    requires a in m.actors && m.actors[a].InviteSet? && LinkFit(m.s, m.actors[a])
    ensures Referred(Step(cfg, m, Advance(a)).s, m.actors[a].invited)
  {
  }

  lemma AdvanceLinkFit(cfg: Config, m: System, a: nat)
    requires a in m.actors && LinkFit(m.s, m.actors[a])
    ensures LinkFit(Step(cfg, m, Advance(a)).s, Step(cfg, m, Advance(a)).actors[a])
  {
    hide Effect;
    LinkFitStays(cfg, m, Advance(a), m.actors[a]);
    if m.actors[a].InviteSet? { SetRefers(cfg, m, a); }
  }

  lemma StepRooted(cfg: Config, m: System, e: Event)
    requires Rooted(m) && ByLinks(e) && Registered(m, e)
    ensures Rooted(Step(cfg, m, e))
  {
    hide HasKey, Effect, LinkFit;
    var m' := Step(cfg, m, e);
    forall r, u | HasPoints(m'.s, r, u) ensures Referred(m'.s, u) {
      if !HasPoints(m.s, r, u) {
        NewPointsByLink(cfg, m, e, r, u);
        PointsFit(m.s, m.actors[e.actor]);
      }
      ReferredStays(cfg, m, e, u);
    }
    forall a | a in m'.actors ensures LinkFit(m'.s, m'.actors[a]) {
      if a !in m.actors {
        BeginsFit(cfg, m, e, a);
      } else if e == Advance(a) {
        AdvanceLinkFit(cfg, m, a);
      } else {
        LinkFitStays(cfg, m, e, m.actors[a]);
      }
    }
  }

  lemma PointsFit(s: Store, p: Program)
    requires LinkFit(s, p) && p.InvitePoints?
    ensures Referred(s, p.invited)
  {
  }

  lemma BeginsFit(cfg: Config, m: System, e: Event, a: nat)
    requires Registered(m, e) && a !in m.actors && a in Step(cfg, m, e).actors
    ensures LinkFit(Step(cfg, m, e).s, Step(cfg, m, e).actors[a])
  {
    hide Do;
  }

  lemma {:induction false} StepsRooted(cfg: Config, m: System, events: seq<Event>)
    requires A.Fresh(m) && AllByLinks(events) && RegisteredRun(cfg, m, events)
    ensures Rooted(Steps(cfg, m, events))
  {
    hide Step, Registered;
    if events != [] {
      var n := |events| - 1;
      assert events[n] in events;
      StepsRooted(cfg, m, events[..n]);
      StepRooted(cfg, Steps(cfg, m, events[..n]), events[n]);
    }
  }

  /** The event that gives u a referrer. */
  lemma {:induction false} FirstReferred(cfg: Config, m: System, events: seq<Event>, u: UserId) returns (k: nat)
    requires !Referred(m.s, u) && Referred(Steps(cfg, m, events).s, u)
    ensures k < |events| && !Referred(Steps(cfg, m, events[..k]).s, u)
    ensures Referred(Step(cfg, Steps(cfg, m, events[..k]), events[k]).s, u)
  {
    hide Step, Referred;
    var n := |events| - 1;
    if events == [] {
      assert false;
    } else if Referred(Steps(cfg, m, events[..n]).s, u) {
      k := FirstReferred(cfg, m, events[..n], u);
      assert events[..n][..k] == events[..k];
    } else {
      k := n;
    }
  }

  /** As the event gives u a referrer, whoever can still come to the points for u is past its read. */
  lemma PastReadAsReferred(cfg: Config, m: System, e: Event, rest: seq<Event>, u: UserId, r: UserId)
    requires Rooted(m) && ByLinks(e) && AllByLinks(rest)
    requires !Referred(m.s, u) && Referred(Step(cfg, m, e).s, u)
    requires HasPoints(Steps(cfg, Step(cfg, m, e), rest).s, r, u)
    ensures UnderWay(m, u, r)
  {
    hide HasKey, Step, Steps;
    var m' := Step(cfg, m, e);
    if NoWay(m', u, r) { NoWayStays(cfg, m', rest, u, r); }
    if HasPoints(m'.s, r, u) {
      NewPointsByLink(cfg, m, e, r, u);
      PointsFit(m.s, m.actors[e.actor]);
    }
    var a :| a in m'.actors && PastRead(m'.actors[a], u, r);
    PastReadBefore(cfg, m, e, a, u, r);
  }

  /** Both links for u are past their reads and u has no referrer yet. */
  predicate Crossed(m: System, u: UserId, r: UserId, q: UserId) {
    !Referred(m.s, u) && UnderWay(m, u, r) && UnderWay(m, u, q)
  }

  /** If two referrers have got the points for one user, there was a moment at which both links had been
      read and neither had named a referrer. */
  lemma TwoRowsCrossed(cfg: Config, m: System, events: seq<Event>, u: UserId, r: UserId, q: UserId)
    requires A.Fresh(m) && AllByLinks(events) && RegisteredRun(cfg, m, events)
    requires r != q && HasPoints(Steps(cfg, m, events).s, r, u) && HasPoints(Steps(cfg, m, events).s, q, u)
    ensures exists k | 0 <= k < |events| :: Crossed(Steps(cfg, m, events[..k]), u, r, q)
  {
    hide HasKey, Step, Steps, Rooted, UnderWay, RegisteredRun;
    StepsRooted(cfg, m, events);
    RootedRow(Steps(cfg, m, events), r, u);
    NobodyUnderWay(m, u, r);
    if Referred(m.s, u) { NoWayStays(cfg, m, events, u, r); }
    var k := FirstReferred(cfg, m, events, u);
    var before, rest := Steps(cfg, m, events[..k]), events[k + 1..];
    RegisteredPrefix(cfg, m, events, k);
    ByLinksParts(events, k);
    StepsRooted(cfg, m, events[..k]);
    StepsLast(cfg, m, events, k);
    assert events == events[..k + 1] + rest;
    StepsConcat(cfg, m, events[..k + 1], rest);
    PastReadAsReferred(cfg, before, events[k], rest, u, r);
    PastReadAsReferred(cfg, before, events[k], rest, u, q);
    assert Crossed(before, u, r, q);
  }

  lemma NobodyUnderWay(m: System, u: UserId, r: UserId)
    requires A.Fresh(m)
    ensures !HasPoints(m.s, r, u) && !UnderWay(m, u, r)
  {
  }

  lemma RootedRow(m: System, r: UserId, u: UserId)
    requires Rooted(m) && HasPoints(m.s, r, u)
    ensures Referred(m.s, u)
  {
  }

  lemma ByLinksParts(events: seq<Event>, k: nat)
    requires AllByLinks(events) && k < |events|
    ensures AllByLinks(events[..k]) && ByLinks(events[k]) && AllByLinks(events[k + 1..])
  {
    assert events[k] in events;
  }

  lemma {:induction false} RegisteredPrefix(cfg: Config, m: System, events: seq<Event>, k: nat)
    requires RegisteredRun(cfg, m, events) && k <= |events|
    ensures RegisteredRun(cfg, m, events[..k])
  {
    hide Steps, Registered;
    if k < |events| {
      RegisteredPrefix(cfg, m, events[..|events| - 1], k);
      assert events[..|events| - 1][..k] == events[..k];
    } else {
      assert events[..k] == events;
    }
  }

  /** And from any such moment, with the programme and the bonus on, both can get the points. */
  lemma CrossedGivesTwoRows(cfg: Config, m: System, u: UserId, r: UserId, q: UserId) returns (events: seq<Event>)
    requires Crossed(m, u, r, q) && r != q && cfg.loyaltyOn && cfg.referralPoints > 0
    requires PointsOf(m.s.points, r).current >= 0 && PointsOf(m.s.points, q).current >= 0
    ensures AllByLinks(events)
    ensures var s := Steps(cfg, m, events).s; HasPoints(s, r, u) && HasPoints(s, q, u)
  {
    hide HasKey, Step, Steps, PointsOf;
    var a :| a in m.actors && PastRead(m.actors[a], u, r);
    var c :| c in m.actors && PastRead(m.actors[c], u, q);
    var first := PointsReachable(cfg, m, a, u, r);
    var m1 := Steps(cfg, m, first);
    SparedStands(cfg, m, first, c);
    var second := PointsReachable(cfg, m1, c, u, q);
    StepsConcat(cfg, m, first, second);
    LedgerGrows(cfg, m1, second);
    A.FoundInPrefix(m1.s.ledger, Steps(cfg, m1, second).s.ledger, ReferralKey(r, u));
    events := first + second;
  }

  // ------------------------------------------------------------------ one link at a time

  /** The points for u went to the referrer on record and to no one else. */
  ghost predicate OnRecord(s: Store) {
    forall r, u | HasPoints(s, r, u) :: u in s.users && s.users[u].referredBy == Some(r)
  }

  lemma MoveOnRecord(cfg: Config, x: Shop, e: Event)
    requires InvitesInOrder(cfg, x) && ByLinks(e) && OnRecord(x.m.s)
    ensures OnRecord(Step(cfg, x.m, e).s)
  {
    hide HasKey, Step, CallOf, Do, R.CommissionsCapped, R.BonusesCapped;
    var s' := Step(cfg, x.m, e).s;
    StepIsCall(cfg, x.m, e);
    forall r, u | HasPoints(s', r, u) ensures u in s'.users && s'.users[u].referredBy == Some(r) {
      if !HasPoints(x.m.s, r, u) {
        NewPointsByLink(cfg, x.m, e, r, u);
        assert InviteFit(x.m.s, x.m.actors[e.actor]);
      }
      var call := CallOf(cfg, x.m, e);
      if call.Some? { ReferrerMoves(cfg, x.m.s, call.value, u); }
    }
  }

  /** As long as no user follows two links at once, only the referrer on record gets points for a user. */
  lemma {:induction false} PointsOnRecord(cfg: Config, x: Shop, events: seq<Event>)
    requires Opens(x) && FairInvites(cfg, x, events) && AllByLinks(events)
    ensures OnRecord(Moves(cfg, x, events).m.s)
  {
    hide Step, FairInvite, InviteFit, OnRecord;
    if events == [] {
      NoPointsYet(x.m.s);
    } else {
      var n := |events| - 1;
      assert events[n] in events;
      PointsOnRecord(cfg, x, events[..n]);
      InvitationsCapped(cfg, x, events[..n]);
      MoveOnRecord(cfg, Moves(cfg, x, events[..n]), events[n]);
    }
  }

  lemma NoPointsYet(s: Store)
    requires s.ledger == []
    ensures OnRecord(s)
  {
  }
}
