/** Invitation links under every interleaving: for whom a referrer gets a bonus. */
module Invitations {
  import opened Tables
  import opened Calls
  import opened Runs
  import opened Programs
  import opened Interleavings
  import R = ReferralBooks

  predicate Inviting(p: Program) { p.InviteRead? || p.InviteSet? || p.InvitePoints? || p.InviteBonus? }

  /** What an actor of the invitation program may rely on if its user follows one link only. */
  predicate InviteFit(s: Store, p: Program) {
    Inviting(p) ==>
      && p.invited in s.users && p.link in s.users
      && (p.InviteSet? ==> p.invited != p.link
                           && (s.users[p.invited].referredBy.None? || s.users[p.invited].referredBy == Some(p.link)))
      && (p.InvitePoints? || p.InviteBonus? ==> s.users[p.invited].referredBy == Some(p.link))
  }

  /** Every actor inviting u follows link r. */
  predicate OnlyLink(m: System, u: UserId, r: UserId) {
    forall a | a in m.actors && Inviting(m.actors[a]) && m.actors[a].invited == u :: m.actors[a].link == r
  }

  predicate OneLink(m: System) {
    forall a | a in m.actors && Inviting(m.actors[a]) :: OnlyLink(m, m.actors[a].invited, m.actors[a].link)
  }

  ghost predicate InvitesInOrder(cfg: Config, x: Shop) {
    && x.b.s == x.m.s && R.CommissionsCapped(cfg, x.b) && R.BonusesCapped(cfg, x.b)
    && OneLink(x.m) && forall a | a in x.m.actors :: InviteFit(x.m.s, x.m.actors[a])
  }

  /** A link is followed by a registered user to a registered one, and while it is, the same user follows
      no other and is given no other referrer; a bonus asked for outside the program keeps the caps. */
  predicate FairInvite(cfg: Config, x: Shop, e: Event) {
    match e
    case Begin(_, p) =>
      Inviting(p) ==> p.invited in x.m.s.users && p.link in x.m.s.users && OnlyLink(x.m, p.invited, p.link)
    case Other(call) =>
      && (call.SetReferrer? ==> OnlyLink(x.m, call.user, call.referrer))
      && (call.InviteReward? ==> R.MeetsCaps(cfg, x.m.s, call.user, call.referrer))
    case _ => true
  }

  predicate FairInvites(cfg: Config, x: Shop, events: seq<Event>) {
    || events == []
    || (var n := |events| - 1;
        FairInvites(cfg, x, events[..n]) && FairInvite(cfg, Moves(cfg, x, events[..n]), events[n]))
  }

  /** Only naming a referrer changes who the referrer is, and only from nobody. */
  predicate SameReferrer(users: map<UserId, User>, users': map<UserId, User>, u: UserId) {
    u in users ==> u in users' && users'[u].referredBy == users[u].referredBy
  }

  lemma RewardKeepsReferrer(cfg: Config, s: Store, v: UserId, paid: int, u: UserId)
    ensures SameReferrer(s.users, DoRewardReferrer(cfg, s, v, paid).0.users, u)
  {
  }

  lemma BonusKeepsReferrer(cfg: Config, s: Store, v: UserId, r: UserId, u: UserId)
    ensures SameReferrer(s.users, DoInviteReward(cfg, s, v, r).0.users, u)
  {
  }

  lemma ReferralCallMoves(cfg: Config, s: Store, call: Call, u: UserId)
    requires WritesReferrals(call)
    ensures var s' := DoReferrals(cfg, s, call).0;
            || SameReferrer(s.users, s'.users, u)
            || (u in s.users && s.users[u].referredBy.None? && call.SetReferrer? && call.user == u
                && u in s'.users && s'.users[u].referredBy == Some(call.referrer))
  {
    hide DoRewardReferrer, DoInviteReward;
    match call
    case RewardReferrer(v, paid) => RewardKeepsReferrer(cfg, s, v, paid, u);
    case InviteReward(v, r) => BonusKeepsReferrer(cfg, s, v, r, u);
    case SetReferrer(_, _) =>
    case AddUser(_) =>
  }

  lemma ReferrerMoves(cfg: Config, s: Store, call: Call, u: UserId)
    ensures var s' := Do(cfg, s, call).0;
            || SameReferrer(s.users, s'.users, u)
            || (u in s.users && s.users[u].referredBy.None? && call.SetReferrer? && call.user == u
                && u in s'.users && s'.users[u].referredBy == Some(call.referrer))
  {
    hide DoOrders, DoPoints, DoTopUps, DoShop, DoReferrals;
    if WritesOrders(call) {
      OrdersFrame(cfg, s, call);
    } else if WritesReferrals(call) {
      ReferralCallMoves(cfg, s, call, u);
    } else {
      Frames(cfg, s, call);
    }
  }

  /** The call an event makes, if it names a referrer for a user being invited, names the link followed. */
  lemma NamesTheLink(cfg: Config, x: Shop, e: Event, a: nat)
    requires InvitesInOrder(cfg, x) && FairInvite(cfg, x, e) && a in x.m.actors && Inviting(x.m.actors[a])
    ensures var call := CallOf(cfg, x.m, e);
            call.Some? && call.value.SetReferrer? && call.value.user == x.m.actors[a].invited ==>
              call.value.referrer == x.m.actors[a].link
  {
    hide R.CommissionsCapped, R.BonusesCapped, R.MeetsCaps;
    assert OnlyLink(x.m, x.m.actors[a].invited, x.m.actors[a].link);
  }

  lemma InviteFitStays(cfg: Config, x: Shop, e: Event, a: nat)
    requires InvitesInOrder(cfg, x) && FairInvite(cfg, x, e) && a in x.m.actors
    ensures InviteFit(Step(cfg, x.m, e).s, x.m.actors[a])
  {
    hide Do, Step, R.CommissionsCapped, R.BonusesCapped, FairInvite;
    StepIsCall(cfg, x.m, e);
    var call, p := CallOf(cfg, x.m, e), x.m.actors[a];
    if call.Some? && Inviting(p) {
      NamesTheLink(cfg, x, e, a);
      ReferrerMoves(cfg, x.m.s, call.value, p.invited);
      UsersStay(cfg, x.m.s, call.value);
    }
  }

  lemma SetEffect(cfg: Config, s: Store, u: UserId, r: UserId)
    requires u in s.users && r in s.users && u != r
    requires s.users[u].referredBy.None? || s.users[u].referredBy == Some(r)
    ensures var s' := Effect(cfg, s, Some(SetReferrer(u, r))).0;
            u in s'.users && r in s'.users && s'.users[u].referredBy == Some(r)
  {
  }

  /** The actor that moves stays fit. */
  lemma InviteMoves(cfg: Config, s: Store, s': Store, p: Program, reply: Reply)
    requires InviteFit(s, p) && (Inviting(p) ==> InviteFit(s', p))
    requires p.InviteSet? ==> s'.users[p.invited].referredBy == Some(p.link)
    requires p.InviteRead? ==> s' == s
    ensures InviteFit(s', After(cfg, s', p, reply))
    ensures Inviting(After(cfg, s', p, reply)) ==>
              && Inviting(p)
              && After(cfg, s', p, reply).invited == p.invited && After(cfg, s', p, reply).link == p.link
  {
  }

  lemma ActorInvites(cfg: Config, x: Shop, e: Event, a: nat)
    requires InvitesInOrder(cfg, x) && FairInvite(cfg, x, e) && a in Step(cfg, x.m, e).actors
    ensures var m' := Step(cfg, x.m, e);
            && InviteFit(m'.s, m'.actors[a])
            && (Inviting(m'.actors[a]) ==>
                  if a in x.m.actors
                  then Inviting(x.m.actors[a]) && m'.actors[a].invited == x.m.actors[a].invited
                       && m'.actors[a].link == x.m.actors[a].link
                  else e.Begin? && m'.actors[a] == e.program)
  {
    hide Effect, R.CommissionsCapped, R.BonusesCapped;
    var m' := Step(cfg, x.m, e);
    StepIsCall(cfg, x.m, e);
    if a in x.m.actors { InviteFitStays(cfg, x, e, a); }
    if e.Advance? && a == e.actor {
      var p := x.m.actors[a];
      var (s', reply) := Effect(cfg, x.m.s, CallBy(cfg, p));
      if p.InviteSet? { SetEffect(cfg, x.m.s, p.invited, p.link); }
      if p.InviteRead? { ReadEffect(cfg, x.m.s); }
      InviteMoves(cfg, x.m.s, s', p, reply);
    } else if e.Begin? && a == e.actor && a !in x.m.actors {
      ReadEffect(cfg, x.m.s);
    }
  }

  lemma LinksStay(cfg: Config, x: Shop, e: Event)
    requires InvitesInOrder(cfg, x) && FairInvite(cfg, x, e)
    ensures OneLink(Step(cfg, x.m, e))
  {
    hide Step, R.CommissionsCapped, R.BonusesCapped, InviteFit;
    var m' := Step(cfg, x.m, e);
    forall a, c | a in m'.actors && Inviting(m'.actors[a]) && c in m'.actors && Inviting(m'.actors[c])
                  && m'.actors[c].invited == m'.actors[a].invited
      ensures m'.actors[c].link == m'.actors[a].link
    {
      ActorInvites(cfg, x, e, a);
      ActorInvites(cfg, x, e, c);
      if a != c { BeginsOne(cfg, x.m, e, a, c); }
      if a in x.m.actors { assert OnlyLink(x.m, x.m.actors[a].invited, x.m.actors[a].link); }
      if c in x.m.actors { assert OnlyLink(x.m, x.m.actors[c].invited, x.m.actors[c].link); }
    }
  }

  lemma BeginsOne(cfg: Config, m: System, e: Event, a: nat, c: nat)
    requires a in Step(cfg, m, e).actors && c in Step(cfg, m, e).actors && a != c
    ensures a in m.actors || c in m.actors
  {
    hide Effect;
  }

  /** A bonus the program asks for names the referrer on record. */
  lemma BonusMeetsCaps(cfg: Config, x: Shop, e: Event)
    requires InvitesInOrder(cfg, x) && FairInvite(cfg, x, e)
    ensures var call := CallOf(cfg, x.m, e);
            call.Some? && call.value.InviteReward? ==> R.MeetsCaps(cfg, x.m.s, call.value.user, call.value.referrer)
  {
    hide R.CommissionsCapped, R.BonusesCapped;
    if e.Advance? && e.actor in x.m.actors { assert InviteFit(x.m.s, x.m.actors[e.actor]); }
  }

  lemma MoveInvites(cfg: Config, x: Shop, e: Event)
    requires InvitesInOrder(cfg, x) && FairInvite(cfg, x, e)
    ensures InvitesInOrder(cfg, Move(cfg, x, e))
  {
    hide Do, Step, R.CommissionsCapped, R.BonusesCapped, R.MeetsCaps, InviteFit, OneLink, FairInvite;
    var x' := Move(cfg, x, e);
    var call := CallOf(cfg, x.m, e);
    StepIsCall(cfg, x.m, e);
    BonusMeetsCaps(cfg, x, e);
    LinksStay(cfg, x, e);
    if call.Some? { R.StepCapped(cfg, x.b, call.value); }
    forall a | a in x'.m.actors ensures InviteFit(x'.m.s, x'.m.actors[a]) {
      ActorInvites(cfg, x, e, a);
    }
  }

  /** In every interleaving of invitations with everything else, as long as no user follows two links at
      once: the bonuses a referrer got are the first claims up to the cap, and for nobody twice. */
  lemma {:induction false} InvitationsCapped(cfg: Config, x: Shop, events: seq<Event>)
    requires Opens(x) && FairInvites(cfg, x, events)
    ensures InvitesInOrder(cfg, Moves(cfg, x, events))
  {
    hide Move, FairInvite, InviteFit;
    if events == [] {
      R.CommissionCaps(cfg, x.b, []);
      R.ReferralCaps(cfg, x.b, []);
    } else {
      var n := |events| - 1;
      InvitationsCapped(cfg, x, events[..n]);
      MoveInvites(cfg, Moves(cfg, x, events[..n]), events[n]);
    }
  }
}
