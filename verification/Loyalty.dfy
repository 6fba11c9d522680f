/** loyalty.py and the two editors of the tier table: which tables are accepted, which tier a user has,
    and how many points a purchase earns. */
module Loyalty {
  import opened Tables
  import opened Sorting

  // ------------------------------------------------------------------ tier tables

  /** A row as an admin types it, its name already stripped. */
  datatype TierRow = TierRow(name: string, min: int, mult: int)

  function RowMin(r: TierRow): int { r.min }

  function Mins(rows: seq<TierRow>): (mins: seq<int>)
    ensures |mins| == |rows|
    ensures forall i | 0 <= i < |rows| :: mins[i] == rows[i].min
  {
    Keys(rows, RowMin)
  }

  function Sorted(rows: seq<TierRow>): seq<TierRow> { SortedBy(rows, RowMin) }

  predicate MinsDistinct(rows: seq<TierRow>) { forall i, j | 0 <= i < j < |rows| :: rows[i].min != rows[j].min }

  predicate RowsValid(rows: seq<TierRow>) {
    forall i | 0 <= i < |rows| :: rows[i].name != "" && rows[i].min >= 0 && rows[i].mult >= 1
  }

  /** The rule for a table, told without sorting it. */
  predicate Acceptable(rows: seq<TierRow>) {
    RowsValid(rows) && MinsDistinct(rows) && exists i | 0 <= i < |rows| :: rows[i].min == 0
  }

  /** What is stored for an accepted table; ids name the place in it. */
  function TableOf(sorted: seq<TierRow>): (t: seq<Tier>)
    ensures |t| == |sorted|
    ensures forall i | 0 <= i < |t| :: t[i].min == sorted[i].min && t[i].mult == sorted[i].mult
  {
    seq(|sorted|, i requires 0 <= i < |sorted| => Tier("t" + Digits(i), sorted[i].min, sorted[i].mult))
  }

  function Digits(n: nat): string {
    if n < 10 then [(n as char) + '0'] else Digits(n / 10) + [((n % 10) as char) + '0']
  }

  /** A sorted table of valid rows is acceptable exactly when it starts at zero and climbs. */
  lemma SortedAcceptable(rows: seq<TierRow>)
    requires rows != [] && RowsValid(rows)
    ensures var s := Sorted(rows);
            && |s| == |rows| && Ascending(s, RowMin)
            && (Acceptable(rows) <==> s[0].min == 0 && MinsDistinct(s))
  {
    var s := Sorted(rows);
    SortedIsAscending(rows, RowMin);
    SortedPermutes(rows, RowMin);
    if MinsDistinct(rows) { SameDistinct(rows, s); }
    if MinsDistinct(s) { SameDistinct(s, rows); }
    SameRows(rows, s);
    SameRows(s, rows);
    if i :| 0 <= i < |rows| && rows[i].min == 0 { assert rows[i] in s; }
    assert s[0] in rows;
  }

  lemma SameRows(a: seq<TierRow>, b: seq<TierRow>)
    requires multiset(a) == multiset(b)
    ensures forall r | r in a :: r in b
  {
    forall r | r in a ensures r in b {
      assert r in multiset(a);
    }
  }

  lemma SameDistinct(a: seq<TierRow>, b: seq<TierRow>)
    requires multiset(Mins(a)) == multiset(Mins(b)) && MinsDistinct(a)
    ensures MinsDistinct(b)
  {
    forall i, j | 0 <= i < j < |a| ensures Mins(a)[i] != Mins(a)[j] {}
    DistinctAnyOrder(Mins(a), Mins(b));
    MinsTold(b);
  }

  lemma MinsTold(rows: seq<TierRow>)
    requires forall i, j | 0 <= i < j < |rows| :: Mins(rows)[i] != Mins(rows)[j]
    ensures MinsDistinct(rows)
  {
    forall i, j | 0 <= i < j < |rows| ensures rows[i].min != rows[j].min {
      assert Mins(rows)[i] != Mins(rows)[j];
    }
  }

  /** The checks both editors make row by row. */
  method CheckRows(rows: seq<TierRow>) returns (ok: bool)
    ensures ok <==> RowsValid(rows)
  {
    for i := 0 to |rows|
      invariant forall k | 0 <= k < i :: rows[k].name != "" && rows[k].min >= 0 && rows[k].mult >= 1
    {
      if rows[i].name == "" || rows[i].min < 0 || rows[i].mult < 1 { return false; }
    }
    return true;
  }

  /** _parse_loyalty_tiers from its split rows on (handlers_admin.py:1582-1605): neighbours compared. */
  method ParseTiers(rows: seq<TierRow>) returns (table: Option<seq<Tier>>)
    ensures table == if Acceptable(rows) then Some(TableOf(Sorted(rows))) else None
    ensures table.Some? <==>
              && (forall i | 0 <= i < |rows| :: rows[i].name != "" && rows[i].min >= 0 && rows[i].mult >= 1)
              && (forall i, j | 0 <= i < j < |rows| :: rows[i].min != rows[j].min)
              && (exists i | 0 <= i < |rows| :: rows[i].min == 0)
  {
    if |rows| == 0 { return None; }
    var ok := CheckRows(rows);
    if !ok { return None; }
    var sorted := Sorted(rows);
    SortedAcceptable(rows);
    if sorted[0].min != 0 { return None; }
    for i := 0 to |sorted| - 1
      invariant forall a, b | 0 <= a < b <= i :: sorted[a].min < sorted[b].min
    {
      if sorted[i].min == sorted[i + 1].min { return None; }
    }
    return Some(TableOf(sorted));
  }

  /** The settings endpoint's checks (admin_panel/server.py:1858-1875): a set of thresholds counted. */
  method CheckTiers(rows: seq<TierRow>) returns (table: Option<seq<Tier>>)
    ensures table == if Acceptable(rows) then Some(TableOf(Sorted(rows))) else None
    ensures table.Some? <==>
              && (forall i | 0 <= i < |rows| :: rows[i].name != "" && rows[i].min >= 0 && rows[i].mult >= 1)
              && (forall i, j | 0 <= i < j < |rows| :: rows[i].min != rows[j].min)
              && (exists i | 0 <= i < |rows| :: rows[i].min == 0)
  {
    if |rows| == 0 { return None; }
    var ok := CheckRows(rows);
    if !ok { return None; }
    var sorted := Sorted(rows);
    SortedAcceptable(rows);
    if sorted[0].min != 0 { return None; }
    var mins := Mins(sorted);
    var distinct := set m | m in mins;
    DistinctBySetSize(mins);
    if |distinct| != |mins| { return None; }
    return Some(TableOf(sorted));
  }

  // ------------------------------------------------------------------ loading

  function TierMin(t: Tier): int { t.min }

  /** The rows of the stored JSON that parse; the others are skipped. */
  function Parsed(raw: seq<Option<Tier>>): seq<Tier> {
    if raw == [] then []
    else
      var before := Parsed(raw[..|raw| - 1]);
      if raw[|raw| - 1].Some? then before + [raw[|raw| - 1].value] else before
  }

  /** load_tiers (loyalty.py:64-85), from the parsed JSON list on. */
  method LoadTiers(raw: seq<Option<Tier>>) returns (tiers: seq<Tier>)
    ensures Ascending(tiers, TierMin) && multiset(tiers) == multiset(Parsed(raw))
    ensures tiers == SortedBy(Parsed(raw), TierMin)
  {
    tiers := [];
    for i := 0 to |raw|
      invariant tiers == Parsed(raw[..i])
    {
      assert raw[..i + 1][..i] == raw[..i];
      if raw[i].Some? { tiers := tiers + [raw[i].value]; }
    }
    assert raw[..|raw|] == raw;
    SortedIsAscending(tiers, TierMin);
    SortedPermutes(tiers, TierMin);
    tiers := SortedBy(tiers, TierMin);
  }

  function Stored(tiers: seq<Tier>): (raw: seq<Option<Tier>>)
    ensures |raw| == |tiers| && forall i | 0 <= i < |tiers| :: raw[i] == Some(tiers[i])
  {
    seq(|tiers|, i requires 0 <= i < |tiers| => Some(tiers[i]))
  }

  lemma {:induction false} ParsedStored(tiers: seq<Tier>)
    ensures Parsed(Stored(tiers)) == tiers
  {
    if tiers != [] {
      var n := |tiers| - 1;
      ParsedStored(tiers[..n]);
      assert Stored(tiers)[..n] == Stored(tiers[..n]);
      assert tiers == tiers[..n] + [tiers[n]];
    }
  }

  /** What an editor stores is loaded as it was stored. */
  lemma LoadedAsStored(rows: seq<TierRow>)
    requires Acceptable(rows)
    ensures var tiers := TableOf(Sorted(rows)); SortedBy(Parsed(Stored(tiers)), TierMin) == tiers
  {
    var tiers := TableOf(Sorted(rows));
    ParsedStored(tiers);
    AcceptedIsLadder(rows);
    AscendingStays(tiers, TierMin);
  }

  // ------------------------------------------------------------------ tiers

  /** The last tier in table order whose threshold is reached. */
  function TierFor(lifetime: int, tiers: seq<Tier>): (t: Option<Tier>)
    ensures t.Some? ==> t.value in tiers && t.value.min <= lifetime
  {
    if tiers == [] then None
    else
      var n := |tiers| - 1;
      assert tiers == tiers[..n] + [tiers[n]];
      if lifetime >= tiers[n].min then Some(tiers[n]) else TierFor(lifetime, tiers[..n])
  }

  method FindTier(lifetime: int, tiers: seq<Tier>) returns (current: Option<Tier>)
    ensures current == TierFor(lifetime, tiers)
  {
    current := None;
    for i := 0 to |tiers|
      invariant current == TierFor(lifetime, tiers[..i])
    {
      assert tiers[..i + 1][..i] == tiers[..i];
      if lifetime >= tiers[i].min { current := Some(tiers[i]); }
    }
    assert tiers[..|tiers|] == tiers;
  }

  /** The first tier in table order whose threshold lies above. */
  function NextTier(lifetime: int, tiers: seq<Tier>): Option<Tier> {
    if tiers == [] then None
    else if tiers[0].min > lifetime then Some(tiers[0])
    else NextTier(lifetime, tiers[1..])
  }

  method FindNextTier(lifetime: int, tiers: seq<Tier>) returns (next: Option<Tier>)
    ensures next == NextTier(lifetime, tiers)
  {
    for i := 0 to |tiers|
      invariant NextTier(lifetime, tiers) == NextTier(lifetime, tiers[i..])
    {
      if tiers[i].min > lifetime { return Some(tiers[i]); }
      assert tiers[i..][1..] == tiers[i + 1..];
    }
    return None;
  }

  /** Thresholds start at zero and climb. */
  predicate Ladder(tiers: seq<Tier>) {
    && tiers != [] && tiers[0].min == 0
    && forall i, j | 0 <= i < j < |tiers| :: tiers[i].min < tiers[j].min
  }

  lemma AcceptedIsLadder(rows: seq<TierRow>)
    requires Acceptable(rows)
    ensures Ladder(TableOf(Sorted(rows)))
  {
    SortedAcceptable(rows);
  }

  /** Step i of a ladder holds a lifetime total. */
  predicate OnStep(lifetime: int, tiers: seq<Tier>, i: int) {
    0 <= i < |tiers| && tiers[i].min <= lifetime && (i + 1 < |tiers| ==> lifetime < tiers[i + 1].min)
  }

  lemma {:induction false} TierForStep(lifetime: int, tiers: seq<Tier>, i: int)
    requires OnStep(lifetime, tiers, i)
    requires forall a, b | 0 <= a < b < |tiers| :: tiers[a].min < tiers[b].min
    ensures TierFor(lifetime, tiers) == Some(tiers[i])
  {
    if i < |tiers| - 1 {
      TierForStep(lifetime, tiers[..|tiers| - 1], i);
    }
  }

  lemma {:induction false} NextTierStep(lifetime: int, tiers: seq<Tier>, i: int)
    requires OnStep(lifetime, tiers, i)
    requires forall a, b | 0 <= a < b < |tiers| :: tiers[a].min < tiers[b].min
    ensures NextTier(lifetime, tiers) == if i + 1 < |tiers| then Some(tiers[i + 1]) else None
  {
    if i > 0 {
      NextTierStep(lifetime, tiers[1..], i - 1);
    } else if |tiers| > 1 {
      assert tiers[1..][0] == tiers[1];
    }
  }

  lemma {:induction false} StepExists(lifetime: int, tiers: seq<Tier>) returns (i: int)
    requires Ladder(tiers) && lifetime >= 0
    ensures OnStep(lifetime, tiers, i)
  {
    var n := |tiers| - 1;
    if tiers[n].min <= lifetime { return n; }
    i := StepExists(lifetime, tiers[..n]);
  }

  lemma StepsDiffer(lifetime: int, tiers: seq<Tier>, i: int, j: int)
    requires Ladder(tiers) && OnStep(lifetime, tiers, i) && OnStep(lifetime, tiers, j)
    ensures i == j
  {
  }

  /** Every accepted table cuts the naturals into intervals: a lifetime total lies in exactly one, its
      tier is that one, the next tier is the adjacent one, and there is a positive way to go to it. */
  lemma TiersPartition(lifetime: int, rows: seq<TierRow>) returns (i: int)
    requires Acceptable(rows) && lifetime >= 0
    ensures var tiers := TableOf(Sorted(rows));
            && OnStep(lifetime, tiers, i) && (forall j | OnStep(lifetime, tiers, j) :: j == i)
            && TierFor(lifetime, tiers) == Some(tiers[i])
            && NextTier(lifetime, tiers) == (if i + 1 < |tiers| then Some(tiers[i + 1]) else None)
            && (NextTier(lifetime, tiers).Some? ==> NextTier(lifetime, tiers).value.min - lifetime > 0)
  {
    var tiers := TableOf(Sorted(rows));
    AcceptedIsLadder(rows);
    i := StepExists(lifetime, tiers);
    TierForStep(lifetime, tiers, i);
    NextTierStep(lifetime, tiers, i);
    forall j | OnStep(lifetime, tiers, j) ensures j == i {
      StepsDiffer(lifetime, tiers, i, j);
    }
  }

  /** A later total stands on the same step or a later one. */
  lemma StepsClimb(a: int, b: int, tiers: seq<Tier>, i: int, j: int)
    requires Ladder(tiers) && a <= b && OnStep(a, tiers, i) && OnStep(b, tiers, j)
    ensures i <= j
  {
  }

  /** Earning more never lowers the tier, nor the next one to reach. */
  lemma TierMonotone(a: int, b: int, rows: seq<TierRow>)
    requires Acceptable(rows) && 0 <= a <= b
    ensures var tiers := TableOf(Sorted(rows));
            && TierFor(a, tiers).Some? && TierFor(b, tiers).Some?
            && TierFor(a, tiers).value.min <= TierFor(b, tiers).value.min
            && (NextTier(b, tiers).Some? ==>
                  NextTier(a, tiers).Some? && NextTier(a, tiers).value.min <= NextTier(b, tiers).value.min)
  {
    var tiers := TableOf(Sorted(rows));
    var i := TiersPartition(a, rows);
    var j := TiersPartition(b, rows);
    AcceptedIsLadder(rows);
    StepsClimb(a, b, tiers, i, j);
  }

  // ------------------------------------------------------------------ points of a purchase

  function Multiplier(lifetime: int, tiers: seq<Tier>): int {
    var t := TierFor(lifetime, tiers);
    if t.Some? then t.value.mult else 100
  }

  /** _purchase_points (loyalty.py:115-129). */
  function PurchasePoints(paid: int, lifetime: int, perToman: int, maxPerOrder: int, tiers: seq<Tier>): (points: int)
    ensures points >= 0
    ensures maxPerOrder > 0 ==> points <= maxPerOrder
  {
    if paid <= 0 || perToman <= 0 then 0
    else
      var points := paid * Multiplier(lifetime, tiers) / (perToman * 100);
      Max(if maxPerOrder > 0 then Min(points, maxPerOrder) else points, 0)
  }

  /** What award_purchase takes as paid (loyalty.py:176-183): a final price of zero falls back to the
      base price, and then shipping is not taken off. */
  function AwardBase(o: Order): int {
    Max(if o.finalPrice != 0 then o.finalPrice - o.shipping else o.basePrice, 0)
  }

  /** What the commission takes as paid (services/orders.py:16-30). */
  function PaidAmount(o: Order): int {
    Max(o.finalPrice - o.shipping, 0)
  }

  /** The two are documented as one rule.  They differ exactly for orders paid in full from the wallet
      or by a code: those earn points on their base price and no commission. */
  lemma AwardBaseIsPaidAmountExact(o: Order)
    requires o.shipping >= 0
    ensures AwardBase(o) == PaidAmount(o) <==> o.finalPrice != 0 || o.basePrice <= 0
  {
  }

  lemma FloorSum(a: nat, b: nat, m: nat, d: nat)
    requires d > 0
    ensures a * m / d + b * m / d <= (a + b) * m / d <= a * m / d + b * m / d + 1
  {
    FloorSumTerms(a * m, b * m, d);
    assert (a + b) * m == a * m + b * m;
  }

  lemma FloorSumTerms(x: nat, y: nat, d: nat)
    requires d > 0
    ensures x / d + y / d <= (x + y) / d <= x / d + y / d + 1
  {
    var p: int, q: int, r, t := x / d, y / d, x % d, y % d;
    Distribute(p, q, d);
    Distribute(p + q, 1, d);
    assert x + y == (p + q) * d + (r + t);
    if r + t < d {
      DivUnique(x + y, p + q, r + t, d);
    } else {
      DivUnique(x + y, p + q + 1, r + t - d, d);
    }
  }

  lemma Distribute(a: int, b: int, d: int)
    ensures (a + b) * d == a * d + b * d
  {
  }

  lemma AtLeastOne(a: int, d: int)
    requires a >= 1 && d > 0
    ensures a * d >= d
  {
  }

  lemma DivUnique(x: int, k: int, r: int, d: int)
    requires d > 0 && x == k * d + r && 0 <= r < d
    ensures x / d == k
  {
    var p: int := x / d;
    assert x == p * d + x % d;
    Distribute(p, -k, d);
    Distribute(k, -p, d);
    if p > k { AtLeastOne(p - k, d); }
    if p < k { AtLeastOne(k - p, d); }
  }

  function Total(parts: seq<nat>): nat {
    if parts == [] then 0 else Total(parts[..|parts| - 1]) + parts[|parts| - 1]
  }

  /** What the parts earn bought one by one, at one tier and without a cap. */
  function PartsEarn(parts: seq<nat>, lifetime: int, perToman: int, tiers: seq<Tier>): int {
    if parts == [] then 0
    else PartsEarn(parts[..|parts| - 1], lifetime, perToman, tiers)
         + PurchasePoints(parts[|parts| - 1], lifetime, perToman, 0, tiers)
  }

  /** Without a cap the points are a floor. */
  lemma PointsAreFloor(paid: nat, lifetime: int, perToman: int, tiers: seq<Tier>)
    requires perToman > 0 && Multiplier(lifetime, tiers) >= 0
    ensures PurchasePoints(paid, lifetime, perToman, 0, tiers) == paid * Multiplier(lifetime, tiers) / (perToman * 100)
  {
    ProductOfNaturals(paid, Multiplier(lifetime, tiers));
    FloorOfNatural(paid * Multiplier(lifetime, tiers), perToman * 100);
  }

  lemma ProductOfNaturals(a: nat, b: nat)
    ensures a * b >= 0 && (a == 0 ==> a * b == 0)
  {
  }

  lemma FloorOfNatural(x: nat, d: nat)
    requires d > 0
    ensures x / d >= 0 && (x == 0 ==> x / d == 0)
  {
  }

  /** p is x over d, rounded down. */
  predicate Floors(p: int, x: int, d: int) { p * d <= x < (p + 1) * d }

  lemma FloorTold(x: nat, d: nat)
    requires d > 0
    ensures Floors(x / d, x, d)
  {
    var p: int := x / d;
    assert x == p * d + x % d;
    Distribute(p, 1, d);
  }

  /** On a table whose thresholds start at zero and climb, a purchase earns at the rate of the step its
      buyer stands on: the amount times the rate, over a hundred times the toman a point costs, rounded
      down. */
  lemma PointsAtStep(paid: nat, lifetime: int, perToman: int, tiers: seq<Tier>, i: int)
    requires perToman > 0 && Ladder(tiers) && OnStep(lifetime, tiers, i) && tiers[i].mult >= 0
    ensures Floors(PurchasePoints(paid, lifetime, perToman, 0, tiers), paid * tiers[i].mult, perToman * 100)
  {
    TierForStep(lifetime, tiers, i);
    PointsAreFloor(paid, lifetime, perToman, tiers);
    ProductOfNaturals(paid, tiers[i].mult);
    FloorTold(paid * tiers[i].mult, perToman * 100);
  }

  lemma NoTierReached(lifetime: int, tiers: seq<Tier>)
    requires forall i | 0 <= i < |tiers| :: tiers[i].min > lifetime
    ensures TierFor(lifetime, tiers).None?
  {
  }

  /** Without a tier it earns a point for every perToman toman. */
  lemma PointsWithoutTier(paid: nat, lifetime: int, perToman: int, tiers: seq<Tier>)
    requires perToman > 0 && forall i | 0 <= i < |tiers| :: tiers[i].min > lifetime
    ensures Floors(PurchasePoints(paid, lifetime, perToman, 0, tiers), paid, perToman)
  {
    var p := PurchasePoints(paid, lifetime, perToman, 0, tiers);
    NoTierReached(lifetime, tiers);
    PointsAreFloor(paid, lifetime, perToman, tiers);
    FloorTold(paid * 100, perToman * 100);
    Hundredfold(p, paid, perToman);
  }

  lemma Hundredfold(p: int, x: int, d: int)
    requires Floors(p, x * 100, d * 100)
    ensures Floors(p, x, d)
  {
    assert p * (d * 100) == (p * d) * 100 && (p + 1) * (d * 100) == ((p + 1) * d) * 100;
  }

  /** A cap takes what lies above it and nothing else; no amount, or no price of a point, earns nothing. */
  lemma PointsCapped(paid: int, lifetime: int, perToman: int, maxPerOrder: int, tiers: seq<Tier>)
    ensures var free := PurchasePoints(paid, lifetime, perToman, 0, tiers);
            PurchasePoints(paid, lifetime, perToman, maxPerOrder, tiers)
            == if 0 < maxPerOrder < free then maxPerOrder else free
    ensures paid <= 0 || perToman <= 0 ==> PurchasePoints(paid, lifetime, perToman, maxPerOrder, tiers) == 0
  {
  }

  /** So it is on every table an editor accepts. */
  lemma PointsOnAccepted(rows: seq<TierRow>, paid: nat, lifetime: nat, perToman: int, maxPerOrder: int)
    returns (i: int)
    requires Acceptable(rows) && perToman > 0
    ensures var tiers := TableOf(Sorted(rows));
            && OnStep(lifetime, tiers, i) && tiers[i].mult >= 1
            && var points := PurchasePoints(paid, lifetime, perToman, maxPerOrder, tiers);
               if maxPerOrder <= 0 || points < maxPerOrder
               then Floors(points, paid * tiers[i].mult, perToman * 100)
               else points == maxPerOrder && points * (perToman * 100) <= paid * tiers[i].mult
  {
    hide PurchasePoints, Ladder, TierFor;
    var tiers := TableOf(Sorted(rows));
    i := TiersPartition(lifetime, rows);
    AcceptedIsLadder(rows);
    AcceptedRates(rows, i);
    PointsAtStep(paid, lifetime, perToman, tiers, i);
    PointsCapped(paid, lifetime, perToman, maxPerOrder, tiers);
    CappedBelow(PurchasePoints(paid, lifetime, perToman, 0, tiers), maxPerOrder, paid * tiers[i].mult, perToman * 100);
  }

  lemma CappedBelow(free: int, cap: int, x: int, d: int)
    requires Floors(free, x, d) && d > 0
    ensures cap <= free ==> cap * d <= x
  {
    if cap <= free { assert (free - cap) * d >= 0 && free * d == (free - cap) * d + cap * d; }
  }

  lemma AcceptedRates(rows: seq<TierRow>, i: int)
    requires Acceptable(rows) && 0 <= i < |TableOf(Sorted(rows))|
    ensures TableOf(Sorted(rows))[i].mult >= 1
  {
    SortedPermutes(rows, RowMin);
    assert Sorted(rows)[i] in Sorted(rows);
    SameRows(Sorted(rows), rows);
  }

  /** At one tier and without a cap, splitting a purchase into k parts never earns more than the whole
      and loses at most k - 1 points. */
  lemma {:induction false} SplittingLosesLittle(parts: seq<nat>, lifetime: int, perToman: int, tiers: seq<Tier>)
    requires parts != [] && Multiplier(lifetime, tiers) >= 0
    ensures PartsEarn(parts, lifetime, perToman, tiers)
         <= PurchasePoints(Total(parts), lifetime, perToman, 0, tiers)
         <= PartsEarn(parts, lifetime, perToman, tiers) + |parts| - 1
  {
    var n := |parts| - 1;
    if n > 0 {
      SplittingLosesLittle(parts[..n], lifetime, perToman, tiers);
      if perToman > 0 {
        PointsAreFloor(Total(parts[..n]), lifetime, perToman, tiers);
        PointsAreFloor(parts[n], lifetime, perToman, tiers);
        PointsAreFloor(Total(parts), lifetime, perToman, tiers);
        FloorSum(Total(parts[..n]), parts[n], Multiplier(lifetime, tiers), perToman * 100);
      }
    } else {
      assert parts[..n] == [];
    }
  }

  lemma FloorMonotone(x: nat, y: nat, d: nat)
    requires x <= y && d > 0
    ensures x / d <= y / d
  {
    FloorSumTerms(x, y - x, d);
    assert (y - x) / d >= 0;
  }

  /** With the tier fixed, paying more never earns less, cap or no cap. */
  lemma PointsMonotone(a: int, b: int, lifetime: int, perToman: int, maxPerOrder: int, tiers: seq<Tier>)
    requires a <= b && Multiplier(lifetime, tiers) >= 0
    ensures PurchasePoints(a, lifetime, perToman, maxPerOrder, tiers)
         <= PurchasePoints(b, lifetime, perToman, maxPerOrder, tiers)
  {
    var m := Multiplier(lifetime, tiers);
    if a > 0 && perToman > 0 {
      assert a * m <= b * m by { assert (b - a) * m >= 0; }
      assert a * m >= 0;
      FloorMonotone(a * m, b * m, perToman * 100);
    }
  }
}
