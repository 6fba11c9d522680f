/** The loyalty ledger: an append-only log from which every points balance can be replayed. */
module LedgerBooks {
  import opened Tables
  import opened Sums
  import opened Calls
  import opened Runs

  function Amount(u: UserId): Row -> int {
    (r: Row) => if r.user == u then r.amount else 0
  }

  function Earned(u: UserId): Row -> int {
    (r: Row) => if r.user == u && r.amount > 0 then r.amount else 0
  }

  function Spent(u: UserId): Row -> int {
    (r: Row) => if r.user == u && r.amount < 0 && (r.kind == Redeem || r.kind == Expire) then -r.amount else 0
  }

  /** The three counters of a user are what replaying the ledger gives. */
  ghost predicate Replays(s: Store) {
    forall u :: var p := PointsOf(s.points, u);
      && p.current == Sum(s.ledger, Amount(u))
      && p.earned == Sum(s.ledger, Earned(u))
      && p.spent == Sum(s.ledger, Spent(u))
  }

  /** Every row carries the balance its prefix adds up to, and no balance was ever negative. */
  predicate BalancesRecorded(ledger: seq<Row>) {
    forall i | 0 <= i < |ledger| ::
      ledger[i].balanceAfter == Sum(ledger[..i + 1], Amount(ledger[i].user)) && ledger[i].balanceAfter >= 0
  }

  predicate KeysUnique(ledger: seq<Row>) {
    forall i, j | 0 <= i < j < |ledger| :: ledger[i].key.Some? ==> ledger[i].key != ledger[j].key
  }

  /** Nothing is negative, no row is empty, and what is held and spent has been earned. */
  predicate Covered(s: Store) {
    && (forall u | u in s.points ::
          && s.points[u].current >= 0 && s.points[u].spent >= 0
          && s.points[u].current + s.points[u].spent <= s.points[u].earned)
    && (forall i | 0 <= i < |s.ledger| :: s.ledger[i].amount != 0)
  }

  ghost predicate LedgerSound(s: Store) {
    Replays(s) && BalancesRecorded(s.ledger) && KeysUnique(s.ledger) && Covered(s)
  }

  /** A row was appended and its user's counters moved by it. */
  predicate Appended(s: Store, s': Store, row: Row) {
    && row.amount != 0 && (row.key.Some? ==> !HasKey(s.ledger, row.key.value))
    && (var p := PointsOf(s.points, row.user);
        && row.balanceAfter == p.current + row.amount && row.balanceAfter >= 0
        && s'.points.Keys == s.points.Keys + {row.user}
        && (forall u | u in s.points && u != row.user :: s'.points[u] == s.points[u])
        && s'.points[row.user].current == row.balanceAfter
        && s'.points[row.user].earned == p.earned + Earned(row.user)(row)
        && s'.points[row.user].spent == p.spent + Spent(row.user)(row))
    && s'.ledger == s.ledger + [row]
  }

  lemma AppendedReplays(s: Store, s': Store, row: Row)
    requires Appended(s, s', row) && Replays(s)
    ensures Replays(s')
  {
    forall u
      ensures var p := PointsOf(s'.points, u);
              && p.current == Sum(s'.ledger, Amount(u))
              && p.earned == Sum(s'.ledger, Earned(u))
              && p.spent == Sum(s'.ledger, Spent(u))
    {
      assert var p := PointsOf(s.points, u); p.current == Sum(s.ledger, Amount(u));
      SumAppend(s.ledger, row, Amount(u));
      SumAppend(s.ledger, row, Earned(u));
      SumAppend(s.ledger, row, Spent(u));
      assert u != row.user ==> PointsOf(s'.points, u) == PointsOf(s.points, u);
    }
  }

  lemma AppendedBalances(s: Store, s': Store, row: Row)
    requires Appended(s, s', row) && Replays(s') && BalancesRecorded(s.ledger)
    ensures BalancesRecorded(s'.ledger)
  {
    forall i | 0 <= i < |s'.ledger|
      ensures s'.ledger[i].balanceAfter == Sum(s'.ledger[..i + 1], Amount(s'.ledger[i].user))
    {
      if i < |s.ledger| {
        assert s'.ledger[..i + 1] == s.ledger[..i + 1];
      } else {
        assert s'.ledger[..i + 1] == s'.ledger;
        assert var p := PointsOf(s'.points, row.user); p.current == Sum(s'.ledger, Amount(row.user));
      }
    }
  }

  lemma AppendedKeys(s: Store, s': Store, row: Row)
    requires Appended(s, s', row) && KeysUnique(s.ledger)
    ensures KeysUnique(s'.ledger)
  {
    forall i, j | 0 <= i < j < |s'.ledger| && s'.ledger[i].key.Some? ensures s'.ledger[i].key != s'.ledger[j].key {
      if j == |s.ledger| && s'.ledger[j].key.Some? {
        assert s.ledger[i].key != Some(row.key.value);
      }
    }
  }

  lemma AppendedCovered(s: Store, s': Store, row: Row)
    requires Appended(s, s', row) && Covered(s)
    ensures Covered(s')
  {
  }

  lemma AppendedSound(s: Store, s': Store, row: Row)
    requires LedgerSound(s) && Appended(s, s', row)
    ensures LedgerSound(s')
  {
    AppendedReplays(s, s', row);
    AppendedBalances(s, s', row);
    AppendedKeys(s, s', row);
    AppendedCovered(s, s', row);
  }

  lemma EnsuredSound(s: Store, s': Store, u: UserId)
    requires LedgerSound(s) && s'.ledger == s.ledger && s'.points == EnsureRow(s.points, u)
    ensures LedgerSound(s')
  {
  }

  lemma MutateSound(s: Store, u: UserId, kind: TxKind, amount: int, tier: Option<string>, key: Option<Key>)
    requires LedgerSound(s)
    ensures LedgerSound(DoMutate(s, u, kind, amount, tier, key).0)
  {
    var (s', reply) := DoMutate(s, u, kind, amount, tier, key);
    if reply.Entered? { AppendedSound(s, s', reply.row); }
  }

  lemma RedeemSound(s: Store, u: UserId, points: int, toman: int, key: Key)
    requires LedgerSound(s) && points >= 0
    ensures LedgerSound(DoRedeem(s, u, points, toman, key).0)
  {
    var (s', reply) := DoRedeem(s, u, points, toman, key);
    if reply.Entered? { AppendedSound(s, s', reply.row); } else if reply.Insufficient? { EnsuredSound(s, s', u); }
  }

  lemma EnsureSound(s: Store, u: UserId)
    requires LedgerSound(s)
    ensures LedgerSound(DoEnsurePoints(s, u).0)
  {
    if u in s.users { EnsuredSound(s, DoEnsurePoints(s, u).0, u); }
  }

  lemma PointsCallLedger(s: Store, call: Call)
    requires LedgerSound(s) && (call.RedeemPoints? ==> call.points >= 0) && WritesPoints(call)
    ensures LedgerSound(DoPoints(s, call).0)
  {
    hide LedgerSound, DoEnsurePoints, DoMutate, DoRedeem;
    match call
    case EnsurePoints(u) => EnsureSound(s, u);
    case Mutate(u, kind, amount, tier, key) => MutateSound(s, u, kind, amount, tier, key);
    case RedeemPoints(u, points, toman, key) => RedeemSound(s, u, points, toman, key);
  }

  lemma StepLedger(cfg: Config, s: Store, call: Call)
    requires LedgerSound(s) && (call.RedeemPoints? ==> call.points >= 0)
    ensures LedgerSound(Do(cfg, s, call).0)
  {
    hide DoOrders, DoPoints, DoReferrals, DoTopUps, DoShop;
    if !WritesPoints(call) { OthersKeepPoints(cfg, s, call); } else { PointsCallLedger(s, call); }
  }

  /** In every run the counters replay from the ledger, each row names the balance it left, no balance
      is negative, no key occurs twice, and nobody holds or spends points that were not earned. */
  lemma {:induction false} LedgerReplays(cfg: Config, b: Books, calls: seq<Call>)
    requires Opening(b)
    requires forall c | c in calls :: c.RedeemPoints? ==> c.points >= 0
    ensures LedgerSound(Run(cfg, b, calls).s)
  {
    if calls != [] {
      var n := |calls| - 1;
      assert calls[n] in calls;
      LedgerReplays(cfg, b, calls[..n]);
      StepLedger(cfg, Run(cfg, b, calls[..n]).s, calls[n]);
    }
  }

  /** A mutation or redemption that does not enter a row changes no counter and no balance. */
  lemma NoRowNoEffect(cfg: Config, s: Store, call: Call)
    requires call.Mutate? || call.RedeemPoints?
    requires !Do(cfg, s, call).1.Entered?
    ensures var s' := Do(cfg, s, call).0;
            && s'.ledger == s.ledger && s'.users == s.users
            && forall u :: PointsOf(s'.points, u) == PointsOf(s.points, u)
  {
  }
}
