/** admin_panel/vless_manager.py: reconciling the stored nodes of a subscription with the list received
    from it. */
module Subscriptions {
  import opened Tables

  /** A received node: its link, and the columns parsed from it taken as one value.  A node without a
      link makes the loop fail where it stands. */
  datatype Node = Node(uri: Option<string>, details: string)

  /** What load_subscription gives: an error, or a list. */
  datatype Fetch = Broken(error: string) | Received(nodes: seq<Node>)

  /** health stands for the columns the health probe writes: status, latency, last check and so on. */
  datatype NodeRow = NodeRow(
    sub: int, uri: string, details: string, enabled: bool, present: bool, health: string,
    createdAt: int, updatedAt: int)

  datatype Subscription = Subscription(enabled: bool, lastSyncAt: Option<int>, lastError: Option<string>,
                                       updatedAt: int)

  datatype Outcome = Synced(received: nat) | Failed(error: string) | Missing

  const UNKNOWN := "unknown"
  const NO_NODES := "no VLESS node was received"
  const NO_URI := "uri"

  // ------------------------------------------------------------------ the two statements

  function Updated(row: NodeRow, details: string, now: int): NodeRow {
    row.(details := details, present := true, updatedAt := now)
  }

  function Inserted(s: int, uri: string, details: string, now: int): NodeRow {
    NodeRow(s, uri, details, true, true, UNKNOWN, now, now)
  }

  /** INSERT ... ON CONFLICT(subscription_id, uri) DO UPDATE. */
  function Upsert(nodes: seq<NodeRow>, s: int, uri: string, details: string, now: int): seq<NodeRow> {
    if nodes == [] then [Inserted(s, uri, details, now)]
    else if nodes[0].sub == s && nodes[0].uri == uri then [Updated(nodes[0], details, now)] + nodes[1..]
    else [nodes[0]] + Upsert(nodes[1..], s, uri, details, now)
  }

  function ClearRow(row: NodeRow, s: int, uris: set<string>, now: int): NodeRow {
    if row.sub == s && row.uri !in uris then row.(present := false, updatedAt := now) else row
  }

  function Clear(nodes: seq<NodeRow>, s: int, uris: set<string>, now: int): (cleared: seq<NodeRow>)
    ensures |cleared| == |nodes|
    ensures forall i | 0 <= i < |nodes| :: cleared[i] == ClearRow(nodes[i], s, uris, now)
  {
    if nodes == [] then [] else [ClearRow(nodes[0], s, uris, now)] + Clear(nodes[1..], s, uris, now)
  }

  predicate AllLinked(received: seq<Node>) { forall i | 0 <= i < |received| :: received[i].uri.Some? }

  function Uris(received: seq<Node>): set<string> {
    set i | 0 <= i < |received| && received[i].uri.Some? :: received[i].uri.value
  }

  function UpsertAll(nodes: seq<NodeRow>, s: int, received: seq<Node>, now: int): seq<NodeRow>
    requires AllLinked(received)
  {
    if received == [] then nodes
    else
      var last := received[|received| - 1];
      Upsert(UpsertAll(nodes, s, received[..|received| - 1], now), s, last.uri.value, last.details, now)
  }

  function SyncNodes(nodes: seq<NodeRow>, s: int, received: seq<Node>, now: int): seq<NodeRow>
    requires AllLinked(received)
  {
    Clear(UpsertAll(nodes, s, received, now), s, Uris(received), now)
  }

  /** Why a fetch cannot be taken over. */
  function Fault(f: Fetch): Option<string> {
    if f.Broken? then Some(f.error)
    else if f.nodes == [] then Some(NO_NODES)
    else if !AllLinked(f.nodes) then Some(NO_URI)
    else None
  }

  /** The nodes after one attempt: a failed one changes none. */
  function Attempt(nodes: seq<NodeRow>, s: int, f: Fetch, now: int): seq<NodeRow> {
    if Fault(f).Some? then nodes else SyncNodes(nodes, s, f.nodes, now)
  }

  function Noted(sub: Subscription, f: Fetch, now: int): Subscription {
    if Fault(f).Some? then sub.(lastError := Fault(f), updatedAt := now)
    else sub.(lastSyncAt := Some(now), lastError := None, updatedAt := now)
  }

  class Manager {
    var subs: map<int, Subscription>
    var nodes: seq<NodeRow>

    /** sync_subscription (lines 311-471).  An unknown id raises before anything is recorded. */
    method SyncSubscription(s: int, fetched: Fetch, now: int) returns (outcome: Outcome)
      modifies this
      ensures s !in old(subs) ==> outcome == Missing && subs == old(subs) && nodes == old(nodes)
      ensures s in old(subs) ==>
                && outcome == (if Fault(fetched).Some? then Failed(Fault(fetched).value) else Synced(|fetched.nodes|))
                && nodes == Attempt(old(nodes), s, fetched, now)
                && subs == old(subs)[s := Noted(old(subs)[s], fetched, now)]
      ensures outcome.Synced? ==>
                && fetched.Received? && outcome.received == |fetched.nodes| > 0
                && (forall i | 0 <= i < |fetched.nodes| :: fetched.nodes[i].uri.Some?)
                && subs[s] == old(subs)[s].(lastSyncAt := Some(now), lastError := None, updatedAt := now)
      ensures outcome.Failed? ==>
                && nodes == old(nodes) && subs[s] == old(subs)[s].(lastError := Some(outcome.error), updatedAt := now)
                && match fetched
                   case Broken(error) => outcome.error == error
                   case Received(received) =>
                     if received == [] then outcome.error == "no VLESS node was received"
                     else outcome.error == "uri" && exists i | 0 <= i < |received| :: received[i].uri.None?
    {
      if s !in subs { return Missing; }
      if fetched.Broken? {
        RecordError(s, fetched.error, now);
        return Failed(fetched.error);
      }
      var received := fetched.nodes;
      if received == [] {
        RecordError(s, NO_NODES, now);
        return Failed(NO_NODES);
      }
      var committed := nodes;
      var currentUris: set<string> := {};
      for i := 0 to |received|
        invariant AllLinked(received[..i])
        invariant nodes == UpsertAll(committed, s, received[..i], now)
        invariant currentUris == Uris(received[..i])
        invariant subs == old(subs)
      {
        assert received[..i + 1][..i] == received[..i];
        if received[i].uri.None? {
          nodes := committed;
          RecordError(s, NO_URI, now);
          return Failed(NO_URI);
        }
        var uri := received[i].uri.value;
        currentUris := currentUris + {uri};
        nodes := Upsert(nodes, s, uri, received[i].details, now);
      }
      assert received[..|received|] == received;
      ClearAbsent(s, currentUris, now);
      subs := subs[s := subs[s].(lastSyncAt := Some(now), lastError := None, updatedAt := now)];
      return Synced(|received|);
    }

    /** The second loop: rows of the subscription that were not received are marked, not deleted. */
    method ClearAbsent(s: int, currentUris: set<string>, now: int)
      modifies this`nodes
      ensures nodes == Clear(old(nodes), s, currentUris, now)
    {
      var rows := nodes;
      for i := 0 to |rows|
        invariant |nodes| == |rows|
        invariant forall k | 0 <= k < i :: nodes[k] == ClearRow(rows[k], s, currentUris, now)
        invariant forall k | i <= k < |rows| :: nodes[k] == rows[k]
      {
        if rows[i].sub == s && rows[i].uri !in currentUris {
          nodes := nodes[i := nodes[i].(present := false, updatedAt := now)];
        }
      }
    }

    method RecordError(s: int, error: string, now: int)
      requires s in subs
      modifies this`subs
      ensures subs == old(subs)[s := old(subs)[s].(lastError := Some(error), updatedAt := now)]
    {
      subs := subs[s := subs[s].(lastError := Some(error), updatedAt := now)];
    }

    /** sync_all (lines 474-494): the enabled subscriptions in the order they are listed; a failure is
        noted and the loop goes on. */
    method SyncAll(listed: seq<int>, fetched: int -> Fetch, now: int) returns (outcomes: seq<Outcome>)
      requires forall i | 0 <= i < |listed| :: listed[i] in subs
      modifies this
      ensures nodes == AttemptAll(old(nodes), Enabled(old(subs), listed), fetched, now)
      ensures subs == NotedAll(old(subs), Enabled(old(subs), listed), fetched, now)
      ensures outcomes == Outcomes(Enabled(old(subs), listed), fetched)
    {
      outcomes := [];
      for i := 0 to |listed|
        invariant nodes == AttemptAll(old(nodes), Enabled(old(subs), listed[..i]), fetched, now)
        invariant subs == NotedAll(old(subs), Enabled(old(subs), listed[..i]), fetched, now)
        invariant outcomes == Outcomes(Enabled(old(subs), listed[..i]), fetched)
      {
        assert listed[..i + 1][..i] == listed[..i];
        assert listed[i] in old(subs);
        if subs[listed[i]].enabled {
          var outcome := SyncSubscription(listed[i], fetched(listed[i]), now);
          outcomes := outcomes + [outcome];
          ghost var done := Enabled(old(subs), listed[..i]);
          assert (done + [listed[i]])[..|done|] == done;
        }
      }
      assert listed[..|listed|] == listed;
    }
  }

  /** The enabled ones of a list of subscriptions. */
  function Enabled(subs: map<int, Subscription>, listed: seq<int>): (on: seq<int>)
    ensures forall s | s in on :: s in subs
  {
    if listed == [] then []
    else
      var n := |listed| - 1;
      var before := Enabled(subs, listed[..n]);
      if listed[n] in subs && subs[listed[n]].enabled then before + [listed[n]] else before
  }

  /** A listing without repetitions is taken without repetitions, and all the enabled ones are taken. */
  lemma {:induction false} EnabledOnce(subs: map<int, Subscription>, listed: seq<int>)
    requires forall i, j | 0 <= i < j < |listed| :: listed[i] != listed[j]
    ensures var on := Enabled(subs, listed);
            && (forall i, j | 0 <= i < j < |on| :: on[i] != on[j])
            && (forall s :: s in on <==> s in listed && s in subs && subs[s].enabled)
  {
    if listed != [] {
      var n := |listed| - 1;
      assert listed == listed[..n] + [listed[n]];
      EnabledOnce(subs, listed[..n]);
      assert listed[n] !in listed[..n];
    }
  }

  function NotedAll(subs: map<int, Subscription>, order: seq<int>, fetched: int -> Fetch, now: int)
    : (noted: map<int, Subscription>)
    ensures noted.Keys == subs.Keys
    ensures forall s | s in subs :: noted[s].enabled == subs[s].enabled
  {
    if order == [] then subs
    else
      var s := order[|order| - 1];
      var before := NotedAll(subs, order[..|order| - 1], fetched, now);
      if s in before then before[s := Noted(before[s], fetched(s), now)] else before
  }

  function AttemptAll(nodes: seq<NodeRow>, order: seq<int>, fetched: int -> Fetch, now: int): seq<NodeRow> {
    if order == [] then nodes
    else
      var s := order[|order| - 1];
      Attempt(AttemptAll(nodes, order[..|order| - 1], fetched, now), s, fetched(s), now)
  }

  function Outcomes(order: seq<int>, fetched: int -> Fetch): (outcomes: seq<Outcome>)
    ensures |outcomes| == |order|
    ensures forall i | 0 <= i < |order| ::
              (outcomes[i].Synced? <==> Fault(fetched(order[i])).None?) && !outcomes[i].Missing?
  {
    if order == [] then []
    else
      var f := fetched(order[|order| - 1]);
      Outcomes(order[..|order| - 1], fetched)
      + [if Fault(f).Some? then Failed(Fault(f).value) else Synced(|f.nodes|)]
  }

  // ------------------------------------------------------------------ row by row

  /** The row with a key, if there is one. */
  function RowFor(nodes: seq<NodeRow>, s: int, uri: string): (row: Option<NodeRow>)
    ensures row.Some? ==> row.value in nodes && row.value.sub == s && row.value.uri == uri
    ensures row.None? ==> forall r | r in nodes :: !(r.sub == s && r.uri == uri)
  {
    if nodes == [] then None
    else if nodes[0].sub == s && nodes[0].uri == uri then Some(nodes[0])
    else RowFor(nodes[1..], s, uri)
  }

  /** The details received last for a link. */
  function LastDetails(received: seq<Node>, uri: string): (d: Option<string>)
    ensures d.Some? <==> uri in Uris(received)
  {
    if received == [] then None
    else
      var n := |received| - 1;
      assert received[n].uri == Some(uri) ==> uri in Uris(received);
      assert forall u :: u in Uris(received[..n]) ==> u in Uris(received);
      assert forall u | u in Uris(received) && received[n].uri != Some(u) :: u in Uris(received[..n]) by {
        forall u | u in Uris(received) && received[n].uri != Some(u) ensures u in Uris(received[..n]) {
          var i :| 0 <= i < |received| && received[i].uri == Some(u);
          assert received[..n][i].uri == Some(u);
        }
      }
      if received[n].uri == Some(uri) then Some(received[n].details) else LastDetails(received[..n], uri)
  }

  /** What becomes of the row of one key. */
  function Merged(row: Option<NodeRow>, s: int, uri: string, details: Option<string>, now: int): Option<NodeRow> {
    if details.Some? then
      Some(if row.Some? then Updated(row.value, details.value, now) else Inserted(s, uri, details.value, now))
    else row
  }

  lemma {:induction false} UpsertRow(nodes: seq<NodeRow>, s: int, uri: string, details: string, now: int,
                                     s': int, uri': string)
    ensures RowFor(Upsert(nodes, s, uri, details, now), s', uri')
         == if s' == s && uri' == uri then Merged(RowFor(nodes, s, uri), s, uri, Some(details), now)
            else RowFor(nodes, s', uri')
  {
    if nodes != [] { UpsertRow(nodes[1..], s, uri, details, now, s', uri'); }
  }

  lemma {:induction false} ClearedRow(nodes: seq<NodeRow>, s: int, uris: set<string>, now: int, s': int, uri': string)
    ensures RowFor(Clear(nodes, s, uris, now), s', uri')
         == var row := RowFor(nodes, s', uri'); if row.Some? then Some(ClearRow(row.value, s, uris, now)) else None
  {
    if nodes != [] {
      ClearedRow(nodes[1..], s, uris, now, s', uri');
      assert Clear(nodes, s, uris, now)[1..] == Clear(nodes[1..], s, uris, now);
    }
  }

  lemma {:induction false} UpsertAllRow(nodes: seq<NodeRow>, s: int, received: seq<Node>, now: int,
                                        s': int, uri: string)
    requires AllLinked(received)
    ensures var row := RowFor(nodes, s', uri);
            var row' := RowFor(UpsertAll(nodes, s, received, now), s', uri);
            row' == if s' == s then Merged(row, s, uri, LastDetails(received, uri), now) else row
  {
    if received != [] {
      var n := |received| - 1;
      UpsertAllRow(nodes, s, received[..n], now, s', uri);
      UpsertRow(UpsertAll(nodes, s, received[..n], now), s, received[n].uri.value, received[n].details, now, s', uri);
    }
  }

  /** A sync decides every row by its key: what was received is there with the details received last,
      what was not is marked absent, other subscriptions are left alone. */
  lemma SyncRow(nodes: seq<NodeRow>, s: int, received: seq<Node>, now: int, s': int, uri: string)
    requires AllLinked(received)
    ensures var row, details := RowFor(nodes, s', uri), LastDetails(received, uri);
            RowFor(SyncNodes(nodes, s, received, now), s', uri) ==
            if s' != s then row
            else if details.Some? then Merged(row, s, uri, details, now)
            else if row.Some? then Some(row.value.(present := false, updatedAt := now))
            else None
  {
    UpsertAllRow(nodes, s, received, now, s', uri);
    ClearedRow(UpsertAll(nodes, s, received, now), s, Uris(received), now, s', uri);
  }

  predicate Unique(nodes: seq<NodeRow>) {
    forall i, j | 0 <= i < j < |nodes| :: !(nodes[i].sub == nodes[j].sub && nodes[i].uri == nodes[j].uri)
  }

  predicate SameKey(a: NodeRow, b: NodeRow) { a.sub == b.sub && a.uri == b.uri }

  /** What a sync leaves of a row it finds. */
  predicate Kept(a: NodeRow, b: NodeRow, s: int) {
    && b == a.(details := b.details, present := b.present, updatedAt := b.updatedAt)
    && (a.sub != s ==> b == a)
  }

  lemma {:induction false} UpsertKeeps(nodes: seq<NodeRow>, s: int, uri: string, details: string, now: int)
    ensures var after := Upsert(nodes, s, uri, details, now);
            && |nodes| <= |after|
            && (forall i | 0 <= i < |nodes| :: Kept(nodes[i], after[i], s))
            && (forall i | |nodes| <= i < |after| :: after[i] == Inserted(s, uri, details, now))
            && |after| == |nodes| + (if RowFor(nodes, s, uri).None? then 1 else 0)
  {
    if nodes != [] && !(nodes[0].sub == s && nodes[0].uri == uri) {
      UpsertKeeps(nodes[1..], s, uri, details, now);
      var rest := Upsert(nodes[1..], s, uri, details, now);
      forall i | 0 <= i < |nodes| ensures Kept(nodes[i], ([nodes[0]] + rest)[i], s) {
        if i > 0 { assert nodes[i] == nodes[1..][i - 1]; }
      }
    }
  }

  lemma UpsertUnique(nodes: seq<NodeRow>, s: int, uri: string, details: string, now: int)
    requires Unique(nodes)
    ensures Unique(Upsert(nodes, s, uri, details, now))
  {
    var after := Upsert(nodes, s, uri, details, now);
    UpsertKeeps(nodes, s, uri, details, now);
    forall i, j | 0 <= i < j < |after| ensures !(after[i].sub == after[j].sub && after[i].uri == after[j].uri) {
      assert Kept(nodes[i], after[i], s);
      if j < |nodes| {
        assert Kept(nodes[j], after[j], s);
        assert !(nodes[i].sub == nodes[j].sub && nodes[i].uri == nodes[j].uri);
      } else {
        assert nodes[i] in nodes;
      }
    }
  }

  lemma {:induction false} UpsertAllKeeps(nodes: seq<NodeRow>, s: int, received: seq<Node>, now: int)
    requires AllLinked(received)
    ensures var after := UpsertAll(nodes, s, received, now);
            && |nodes| <= |after|
            && (forall i | 0 <= i < |nodes| :: Kept(nodes[i], after[i], s))
            && (Unique(nodes) ==> Unique(after))
  {
    if received != [] {
      var n := |received| - 1;
      UpsertAllKeeps(nodes, s, received[..n], now);
      var before := UpsertAll(nodes, s, received[..n], now);
      UpsertKeeps(before, s, received[n].uri.value, received[n].details, now);
      if Unique(nodes) { UpsertUnique(before, s, received[n].uri.value, received[n].details, now); }
    }
  }

  /** The link was received with these details and not again after that. */
  predicate ReceivedLast(received: seq<Node>, uri: string, details: string) {
    exists k | 0 <= k < |received| ::
      received[k] == Node(Some(uri), details) && forall j | k < j < |received| :: received[j].uri != Some(uri)
  }

  lemma {:induction false} LastDetailsTold(received: seq<Node>, uri: string)
    requires uri in Uris(received)
    ensures ReceivedLast(received, uri, LastDetails(received, uri).value)
  {
    var n := |received| - 1;
    if received[n].uri == Some(uri) {
      assert received[n] == Node(Some(uri), received[n].details);
    } else {
      var i :| 0 <= i < |received| && received[i].uri == Some(uri);
      assert received[..n][i].uri == Some(uri);
      LastDetailsTold(received[..n], uri);
      var d := LastDetails(received[..n], uri).value;
      var k :| 0 <= k < n && received[..n][k] == Node(Some(uri), d)
               && forall j | k < j < n :: received[..n][j].uri != Some(uri);
      assert received[k] == received[..n][k];
      assert forall j | k < j < n :: received[j] == received[..n][j];
    }
  }

  /** What a sync makes of a row it finds: the details received last, or a mark that it is gone. */
  predicate Renewed(a: NodeRow, b: NodeRow, received: seq<Node>, now: int) {
    && b.updatedAt == now
    && if exists k | 0 <= k < |received| :: received[k].uri == Some(a.uri)
       then b.present && ReceivedLast(received, a.uri, b.details)
       else !b.present && b.details == a.details
  }

  /** The row of a link not known before: on, present, never probed, made now. */
  predicate Made(row: NodeRow, s: int, received: seq<Node>, now: int) {
    && row.sub == s && row.enabled && row.present && row.health == "unknown"
    && row.createdAt == now && row.updatedAt == now && ReceivedLast(received, row.uri, row.details)
  }

  lemma RowRenewed(nodes: seq<NodeRow>, s: int, received: seq<Node>, now: int, i: nat)
    requires Unique(nodes) && AllLinked(received) && i < |nodes| && nodes[i].sub == s
    requires var after := SyncNodes(nodes, s, received, now);
             Unique(after) && i < |after| && SameKey(nodes[i], after[i])
    ensures Renewed(nodes[i], SyncNodes(nodes, s, received, now)[i], received, now)
  {
    var after, uri := SyncNodes(nodes, s, received, now), nodes[i].uri;
    UniqueRow(nodes, i);
    UniqueRow(after, i);
    SyncRow(nodes, s, received, now, s, uri);
    ReceivedUris(received, uri);
    if uri in Uris(received) { LastDetailsTold(received, uri); }
  }

  lemma ReceivedUris(received: seq<Node>, uri: string)
    ensures uri in Uris(received) <==> exists k | 0 <= k < |received| :: received[k].uri == Some(uri)
  {
  }

  lemma RowMade(nodes: seq<NodeRow>, s: int, received: seq<Node>, now: int, i: nat)
    requires AllLinked(received)
    requires var after := SyncNodes(nodes, s, received, now);
             && |nodes| <= i < |after| && Unique(after) && forall j | 0 <= j < |nodes| :: SameKey(nodes[j], after[j])
    ensures Made(SyncNodes(nodes, s, received, now)[i], s, received, now)
  {
    var after := SyncNodes(nodes, s, received, now);
    var row := after[i];
    forall found | found in nodes ensures !SameKey(found, row) {
      var j :| 0 <= j < |nodes| && nodes[j] == found;
      assert SameKey(nodes[j], after[j]) && !SameKey(after[j], after[i]);
    }
    UniqueRow(after, i);
    SyncRow(nodes, s, received, now, row.sub, row.uri);
    LastDetailsTold(received, row.uri);
  }

  /** After a sync: the rows of the subscription that are marked present are exactly the received links;
      no row is lost or moved, and enabled and health stay as they were; rows of other subscriptions
      are untouched; and a link still has one row.  Rows found carry the details received last or are
      marked absent, and rows made are on, present and not probed yet. */
  lemma SyncReconciles(nodes: seq<NodeRow>, s: int, received: seq<Node>, now: int)
    requires Unique(nodes) && AllLinked(received)
    ensures var after := SyncNodes(nodes, s, received, now);
            && Unique(after)
            && |nodes| <= |after|
            && (forall i | 0 <= i < |nodes| :: Kept(nodes[i], after[i], s))
            && (set r | r in after && r.sub == s && r.present :: r.uri) == Uris(received)
            && (forall i | 0 <= i < |nodes| && nodes[i].sub == s :: Renewed(nodes[i], after[i], received, now))
            && (forall i | |nodes| <= i < |after| :: Made(after[i], s, received, now))
  {
    SyncLeaves(nodes, s, received, now);
    var after := SyncNodes(nodes, s, received, now);
    forall i | 0 <= i < |nodes| ensures SameKey(nodes[i], after[i]) { assert Kept(nodes[i], after[i], s); }
    forall i | 0 <= i < |nodes| && nodes[i].sub == s ensures Renewed(nodes[i], after[i], received, now) {
      RowRenewed(nodes, s, received, now, i);
    }
    forall i | |nodes| <= i < |after| ensures Made(after[i], s, received, now) {
      RowMade(nodes, s, received, now, i);
    }
  }

  lemma SyncLeaves(nodes: seq<NodeRow>, s: int, received: seq<Node>, now: int)
    requires Unique(nodes) && AllLinked(received)
    ensures var after := SyncNodes(nodes, s, received, now);
            && Unique(after)
            && |nodes| <= |after|
            && (forall i | 0 <= i < |nodes| :: Kept(nodes[i], after[i], s))
            && (set r | r in after && r.sub == s && r.present :: r.uri) == Uris(received)
  {
    var upserted, after := UpsertAll(nodes, s, received, now), SyncNodes(nodes, s, received, now);
    UpsertAllKeeps(nodes, s, received, now);
    forall i, j | 0 <= i < j < |after| ensures !(after[i].sub == after[j].sub && after[i].uri == after[j].uri) {
      assert !SameKey(upserted[i], upserted[j]);
    }
    forall r | r in after && r.sub == s && r.present ensures r.uri in Uris(received) {
      var i :| 0 <= i < |after| && after[i] == r;
      UniqueRow(upserted, i);
      UpsertAllRow(nodes, s, received, now, s, r.uri);
    }
    forall uri | uri in Uris(received) ensures uri in (set r | r in after && r.sub == s && r.present :: r.uri) {
      SyncRow(nodes, s, received, now, s, uri);
      var row := RowFor(after, s, uri);
      assert row.Some? && row.value in after && row.value.present;
    }
  }

  lemma {:induction false} UniqueRow(nodes: seq<NodeRow>, i: nat)
    requires Unique(nodes) && i < |nodes|
    ensures RowFor(nodes, nodes[i].sub, nodes[i].uri) == Some(nodes[i])
  {
    if i > 0 {
      assert !SameKey(nodes[0], nodes[i]);
      UniqueRow(nodes[1..], i - 1);
    }
  }

  predicate SameButTime(a: Option<NodeRow>, b: Option<NodeRow>) {
    if a.Some? && b.Some? then a.value.(updatedAt := 0) == b.value.(updatedAt := 0) else a == b
  }

  /** Receiving the same list again changes nothing but the times. */
  lemma SyncIdempotent(nodes: seq<NodeRow>, s: int, received: seq<Node>, now: int, later: int, s': int, uri: string)
    requires AllLinked(received)
    ensures var once := SyncNodes(nodes, s, received, now);
            SameButTime(RowFor(SyncNodes(once, s, received, later), s', uri), RowFor(once, s', uri))
  {
    SyncRow(nodes, s, received, now, s', uri);
    SyncRow(SyncNodes(nodes, s, received, now), s, received, later, s', uri);
  }

  // ------------------------------------------------------------------ all subscriptions

  /** The rows of one subscription, in order. */
  function RowsOf(nodes: seq<NodeRow>, s: int): seq<NodeRow> {
    if nodes == [] then []
    else if nodes[0].sub == s then [nodes[0]] + RowsOf(nodes[1..], s)
    else RowsOf(nodes[1..], s)
  }

  lemma {:induction false} UpsertRowsOf(nodes: seq<NodeRow>, s: int, uri: string, details: string, now: int, s': int)
    ensures RowsOf(Upsert(nodes, s, uri, details, now), s')
         == if s' == s then Upsert(RowsOf(nodes, s), s, uri, details, now) else RowsOf(nodes, s')
  {
    if nodes == [] {
      var row := Inserted(s, uri, details, now);
      assert [row][1..] == [];
    } else {
      var rest := nodes[1..];
      UpsertRowsOf(rest, s, uri, details, now, s');
      assert ([nodes[0]] + Upsert(rest, s, uri, details, now))[1..] == Upsert(rest, s, uri, details, now);
      assert ([Updated(nodes[0], details, now)] + rest)[1..] == rest;
      assert ([nodes[0]] + RowsOf(rest, s))[1..] == RowsOf(rest, s);
    }
  }

  lemma {:induction false} ClearRowsOf(nodes: seq<NodeRow>, s: int, uris: set<string>, now: int, s': int)
    ensures RowsOf(Clear(nodes, s, uris, now), s')
         == if s' == s then Clear(RowsOf(nodes, s), s, uris, now) else RowsOf(nodes, s')
  {
    if nodes != [] {
      ClearRowsOf(nodes[1..], s, uris, now, s');
      assert Clear(nodes, s, uris, now)[1..] == Clear(nodes[1..], s, uris, now);
    }
  }

  lemma {:induction false} UpsertAllRowsOf(nodes: seq<NodeRow>, s: int, received: seq<Node>, now: int, s': int)
    requires AllLinked(received)
    ensures RowsOf(UpsertAll(nodes, s, received, now), s')
         == if s' == s then UpsertAll(RowsOf(nodes, s), s, received, now) else RowsOf(nodes, s')
  {
    if received != [] {
      var n := |received| - 1;
      UpsertAllRowsOf(nodes, s, received[..n], now, s');
      UpsertRowsOf(UpsertAll(nodes, s, received[..n], now), s, received[n].uri.value, received[n].details, now, s');
    }
  }

  /** An attempt works on the rows of its own subscription as if there were no others. */
  lemma AttemptRowsOf(nodes: seq<NodeRow>, s: int, f: Fetch, now: int, s': int)
    ensures RowsOf(Attempt(nodes, s, f, now), s')
         == if s' == s then Attempt(RowsOf(nodes, s), s, f, now) else RowsOf(nodes, s')
  {
    if Fault(f).None? {
      UpsertAllRowsOf(nodes, s, f.nodes, now, s');
      ClearRowsOf(UpsertAll(nodes, s, f.nodes, now), s, Uris(f.nodes), now, s');
    }
  }

  /** Each subscription comes out of sync_all as if it alone had been synced, in whatever order they are
      taken and whichever of the others fail; one that is not taken keeps its rows and its record. */
  lemma {:induction false} SyncAllIsolates(nodes: seq<NodeRow>, subs: map<int, Subscription>, order: seq<int>,
                                           fetched: int -> Fetch, now: int, s: int)
    requires forall i, j | 0 <= i < j < |order| :: order[i] != order[j]
    requires forall t | t in order :: t in subs
    ensures RowsOf(AttemptAll(nodes, order, fetched, now), s)
         == if s in order then Attempt(RowsOf(nodes, s), s, fetched(s), now) else RowsOf(nodes, s)
    ensures s in subs ==>
              NotedAll(subs, order, fetched, now)[s]
              == (if s in order then Noted(subs[s], fetched(s), now) else subs[s])
  {
    if order != [] {
      var n := |order| - 1;
      assert order == order[..n] + [order[n]];
      SyncAllIsolates(nodes, subs, order[..n], fetched, now, s);
      AttemptRowsOf(AttemptAll(nodes, order[..n], fetched, now), order[n], fetched(order[n]), now, s);
    }
  }
}
