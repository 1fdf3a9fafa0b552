/** `prune`: one catalog of complete runs, kept for as long as any destination's policy keeps it. */
module BackupPruning {
  import opened BackupModel
  import opened BackupGuarantees
  import opened Retention
  import BackupSafety
  import BackupCommit
  import BackupExact
  import BackupCatalog

  /** A complete run: does it have no deliveries at all, and which destinations hold a complete one? */
  datatype Row = Row(item: Item, local: bool, holders: set<DestinationId>)

  datatype Target = Target(id: DestinationId, policy: Policy)

  /** When runs were created, the policy of each destination, and the general schedule. */
  datatype Rules = Rules(createdAt: RunId -> Instant, policies: DestinationId -> Policy, schedule: Policy)

  function Items(rows: seq<Row>): (r: seq<Item>)
    ensures |r| == |rows| && forall k :: 0 <= k < |rows| ==> r[k] == rows[k].item
  {
    if rows == [] then [] else [rows[0].item] + Items(rows[1..])
  }

  /** The runs one policy decides about; `None` stands for the runs that were never to be delivered. */
  datatype Scope = Local | Held(id: DestinationId)

  predicate Concerns(row: Row, share: Scope) {
    match share
    case Local => row.local
    case Held(id) => id in row.holders
  }

  function Share(rows: seq<Row>, share: Scope): seq<Item> {
    if rows == [] then []
    else if Concerns(rows[0], share) then [rows[0].item] + Share(rows[1..], share) else Share(rows[1..], share)
  }

  function KeepTargets(rows: seq<Row>, targets: seq<Target>): set<Id> {
    if targets == [] then {}
    else
      var last := targets[|targets| - 1];
      KeepTargets(rows, targets[..|targets| - 1]) + Keep(Share(rows, Held(last.id)), last.policy)
  }

  function KeepAll(rows: seq<Row>, targets: seq<Target>, schedule: Policy): set<Id> {
    Pinned(Items(rows)) + Keep(Share(rows, Local), schedule) + KeepTargets(rows, targets)
  }

  /** What all the policies together keep: the pinned runs, by the general schedule the runs that have no delivery, and
      by each destination's policy those it holds. */
  method SelectKept(rows: seq<Row>, targets: seq<Target>, schedule: Policy) returns (keep: set<Id>)
    ensures keep == KeepAll(rows, targets, schedule)
    ensures Distinct(Items(rows)) ==>
      forall row :: row in rows ==> (row.item.id in keep <==> KeptSomewhere(rows, targets, schedule, row))
  {
    keep := Pinned(Items(rows));
    var local := RetentionKeep(Share(rows, Local), schedule);
    keep := keep + local;
    for i := 0 to |targets|
      invariant keep == Pinned(Items(rows)) + Keep(Share(rows, Local), schedule) + KeepTargets(rows, targets[..i])
    {
      var held := RetentionKeep(Share(rows, Held(targets[i].id)), targets[i].policy);
      keep := keep + held;
      assert targets[..i + 1][..i] == targets[..i];
    }
    assert targets[..|targets|] == targets;
    if Distinct(Items(rows)) { KeepAllExactly(rows, targets, schedule); }
  }

  // ----- the decision, in terms of the rows alone

  ghost function LocalIds(rows: seq<Row>): set<Id> {
    set row | row in rows && row.local :: row.item.id
  }

  ghost function HeldIds(rows: seq<Row>, id: DestinationId): set<Id> {
    set row | row in rows && id in row.holders :: row.item.id
  }

  /** A run is kept if it is pinned, if it has no delivery and the general schedule keeps it among those, or if a
      destination holds it whose policy keeps it among those it holds. */
  ghost predicate KeptSomewhere(rows: seq<Row>, targets: seq<Target>, schedule: Policy, row: Row) {
    || row.item.pinned
    || (row.local && Kept(Items(rows), LocalIds(rows), row.item, schedule))
    || exists i :: 0 <= i < |targets| && KeptBy(rows, targets[i], row)
  }

  ghost predicate KeptBy(rows: seq<Row>, target: Target, row: Row) {
    target.id in row.holders && Kept(Items(rows), HeldIds(rows, target.id), row.item, target.policy)
  }

  ghost function ScopeIds(rows: seq<Row>, share: Scope): set<Id> {
    set row | row in rows && Concerns(row, share) :: row.item.id
  }

  lemma ShareIds(rows: seq<Row>, share: Scope)
    ensures Ids(Share(rows, share)) == ScopeIds(rows, share)
  {
    ShareMembers(rows, share);
  }

  lemma ListedFirst(x: Item, items: seq<Item>, y: Item, z: Item)
    ensures ListedBefore([x] + items, y, z) <==> (y == x && z in items) || ListedBefore(items, y, z)
  {
    var all := [x] + items;
    if ListedBefore(all, y, z) {
      var i, j :| 0 <= i < j < |all| && all[i] == y && all[j] == z;
      if i > 0 { assert items[i - 1] == y && items[j - 1] == z; }
    }
    if ListedBefore(items, y, z) {
      var i, j :| 0 <= i < j < |items| && items[i] == y && items[j] == z;
      assert all[i + 1] == y && all[j + 1] == z;
    }
    if y == x && z in items {
      var j :| 0 <= j < |items| && items[j] == z;
      assert all[0] == y && all[j + 1] == z;
    }
  }

  /** Members of a share stand in the order of the catalog. */
  lemma {:induction false} ShareOrder(rows: seq<Row>, share: Scope, y: Item, z: Item)
    requires Distinct(Items(rows)) && y in Share(rows, share) && z in Share(rows, share)
    ensures ListedBefore(Share(rows, share), y, z) <==> ListedBefore(Items(rows), y, z)
  {
    var rest := rows[1..];
    ShareMembers(rest, share);
    assert Items(rows) == [rows[0].item] + Items(rest);
    ListedFirst(rows[0].item, Items(rest), y, z);
    ListedFirst(rows[0].item, Share(rest, share), y, z);
    RestDistinct(rows);
    if y in Share(rest, share) && z in Share(rest, share) { ShareOrder(rest, share, y, z); }
    HeadIsNew(rows, share);
    if z !in Share(rest, share) {
      ListedIn(Share(rest, share), y, z);
      ListedIn(Items(rest), y, z);
    }
    if y !in Share(rest, share) {
      ListedIn(Share(rest, share), y, z);
      ListedIn(Items(rest), y, z);
      ShareWithin(rest, share);
    }
  }

  lemma ListedIn(items: seq<Item>, y: Item, z: Item)
    ensures ListedBefore(items, y, z) ==> y in items && z in items
  {
  }

  lemma ShareWithin(rows: seq<Row>, share: Scope)
    ensures forall x :: x in Share(rows, share) ==> x in Items(rows)
  {
    ShareMembers(rows, share);
    forall row | row in rows
      ensures row.item in Items(rows)
    {
      var k :| 0 <= k < |rows| && rows[k] == row;
      assert Items(rows)[k] == row.item;
    }
  }

  lemma {:induction false} RestDistinct(rows: seq<Row>)
    requires rows != [] && Distinct(Items(rows))
    ensures Distinct(Items(rows[1..])) && forall x :: x in Items(rows[1..]) ==> x.id != rows[0].item.id
  {
    assert Items(rows) == [rows[0].item] + Items(rows[1..]);
  }

  lemma {:induction false} HeadIsNew(rows: seq<Row>, share: Scope)
    requires rows != [] && Distinct(Items(rows))
    ensures rows[0].item !in Share(rows[1..], share) && rows[0].item !in Items(rows[1..])
  {
    RestDistinct(rows);
    ShareWithin(rows[1..], share);
  }

  lemma {:induction false} ShareDistinct(rows: seq<Row>, share: Scope)
    requires Distinct(Items(rows))
    ensures Distinct(Share(rows, share))
  {
    if rows != [] {
      RestDistinct(rows);
      ShareDistinct(rows[1..], share);
      ShareWithin(rows[1..], share);
    }
  }

  lemma ShareAhead(rows: seq<Row>, share: Scope, x: Item)
    requires Distinct(Items(rows)) && x in Share(rows, share)
    ensures Ahead(Share(rows, share), Ids(Share(rows, share)), x) == Ahead(Items(rows), ScopeIds(rows, share), x)
  {
    var some, all := Share(rows, share), Items(rows);
    ShareIds(rows, share);
    ShareWithin(rows, share);
    forall y | y in all && y.id in Ids(some)
      ensures y in some
    {
      var z :| z in some && z.id == y.id;
      assert z in all;
      SameItem(all, y, z);
    }
    forall y | y in some
      ensures Precedes(some, y, x) <==> Precedes(all, y, x)
    {
      ShareOrder(rows, share, y, x);
    }
  }

  lemma SameItem(items: seq<Item>, y: Item, z: Item)
    requires Distinct(items) && y in items && z in items && y.id == z.id
    ensures y == z
  {
  }

  lemma ShareKept(rows: seq<Row>, share: Scope, row: Row, policy: Policy)
    requires Distinct(Items(rows)) && row in rows
    ensures row.item.id in Keep(Share(rows, share), policy) <==>
      Concerns(row, share) && Kept(Items(rows), ScopeIds(rows, share), row.item, policy)
  {
    var some, x := Share(rows, share), row.item;
    ShareMembers(rows, share);
    ShareDistinct(rows, share);
    KeepWithin(some, policy);
    if x.id in Ids(some) {
      var z :| z in some && z.id == x.id;
      var other :| other in rows && Concerns(other, share) && other.item == z;
      SameRow(rows, row, other);
      KeepExact(some, x, policy);
      ShareAhead(rows, share, x);
    }
  }

  lemma SameRow(rows: seq<Row>, row: Row, other: Row)
    requires Distinct(Items(rows)) && row in rows && other in rows && row.item.id == other.item.id
    ensures row == other
  {
    var i :| 0 <= i < |rows| && rows[i] == row;
    var j :| 0 <= j < |rows| && rows[j] == other;
    assert Items(rows)[i].id == Items(rows)[j].id;
  }

  lemma {:induction false} TargetsExact(rows: seq<Row>, targets: seq<Target>, row: Row)
    requires Distinct(Items(rows)) && row in rows
    ensures row.item.id in KeepTargets(rows, targets) <==>
      exists i :: 0 <= i < |targets| && KeptBy(rows, targets[i], row)
    decreases |targets|
  {
    if targets != [] {
      var init, last := targets[..|targets| - 1], targets[|targets| - 1];
      TargetsExact(rows, init, row);
      TargetExact(rows, last, row);
      LastOrBefore(rows, targets, row);
    }
  }

  lemma TargetExact(rows: seq<Row>, target: Target, row: Row)
    requires Distinct(Items(rows)) && row in rows
    ensures row.item.id in Keep(Share(rows, Held(target.id)), target.policy) <==> KeptBy(rows, target, row)
  {
    ShareKept(rows, Held(target.id), row, target.policy);
    assert ScopeIds(rows, Held(target.id)) == HeldIds(rows, target.id);
  }

  lemma LastOrBefore(rows: seq<Row>, targets: seq<Target>, row: Row)
    requires targets != []
    ensures var init := targets[..|targets| - 1];
      (exists i :: 0 <= i < |targets| && KeptBy(rows, targets[i], row)) <==>
      (exists i :: 0 <= i < |init| && KeptBy(rows, init[i], row)) || KeptBy(rows, targets[|targets| - 1], row)
  {
    var init := targets[..|targets| - 1];
    assert forall i :: 0 <= i < |init| ==> init[i] == targets[i];
  }

  lemma KeepAllExact(rows: seq<Row>, targets: seq<Target>, schedule: Policy, row: Row)
    requires Distinct(Items(rows)) && row in rows
    ensures row.item.id in KeepAll(rows, targets, schedule) <==> KeptSomewhere(rows, targets, schedule, row)
  {
    TargetsExact(rows, targets, row);
    ShareKept(rows, Local, row, schedule);
    assert ScopeIds(rows, Local) == LocalIds(rows);
    var k :| 0 <= k < |rows| && rows[k] == row;
    ItemOf(Items(rows), k);
  }

  lemma KeepAllExactly(rows: seq<Row>, targets: seq<Target>, schedule: Policy)
    requires Distinct(Items(rows))
    ensures forall row :: row in rows ==>
      (row.item.id in KeepAll(rows, targets, schedule) <==> KeptSomewhere(rows, targets, schedule, row))
  {
    forall row | row in rows
      ensures row.item.id in KeepAll(rows, targets, schedule) <==> KeptSomewhere(rows, targets, schedule, row)
    {
      KeepAllExact(rows, targets, schedule, row);
    }
  }

  // ----- pruning again

  function Remaining(rows: seq<Row>, live: set<Id>): seq<Row> {
    if rows == [] then []
    else if rows[0].item.id in live then [rows[0]] + Remaining(rows[1..], live) else Remaining(rows[1..], live)
  }

  lemma {:induction false} RemainingItems(rows: seq<Row>, live: set<Id>)
    ensures Items(Remaining(rows, live)) == Filter(Items(rows), live)
  {
    if rows != [] {
      RemainingItems(rows[1..], live);
      assert Items(rows)[1..] == Items(rows[1..]);
      if rows[0].item.id in live { assert Remaining(rows, live)[1..] == Remaining(rows[1..], live); }
    }
  }

  lemma {:induction false} RemainingShare(rows: seq<Row>, share: Scope, live: set<Id>)
    ensures Share(Remaining(rows, live), share) == Filter(Share(rows, share), live)
  {
    if rows != [] {
      RemainingShare(rows[1..], share, live);
      if Concerns(rows[0], share) { assert Share(rows, share)[1..] == Share(rows[1..], share); }
      if rows[0].item.id in live { assert Remaining(rows, live)[1..] == Remaining(rows[1..], live); }
    }
  }

  lemma {:induction false} TargetsSettle(rows: seq<Row>, targets: seq<Target>, live: set<Id>)
    requires KeepTargets(rows, targets) <= live
    ensures KeepTargets(Remaining(rows, live), targets) == KeepTargets(rows, targets)
    decreases |targets|
  {
    if targets != [] {
      var last := targets[|targets| - 1];
      TargetsSettle(rows, targets[..|targets| - 1], live);
      RemainingShare(rows, Held(last.id), live);
      KeepClosed(Share(rows, Held(last.id)), live, last.policy);
    }
  }

  /** Wherever a prune stopped, the next one decides the same: each policy sees its own runs as if nothing had gone. */
  lemma PruneSettles(rows: seq<Row>, targets: seq<Target>, schedule: Policy, live: set<Id>)
    requires KeepAll(rows, targets, schedule) <= live
    ensures KeepAll(Remaining(rows, live), targets, schedule) == KeepAll(rows, targets, schedule)
  {
    RemainingItems(rows, live);
    PinnedFilter(Items(rows), live);
    RemainingShare(rows, Local, live);
    KeepClosed(Share(rows, Local), live, schedule);
    TargetsSettle(rows, targets, live);
  }

  // ----- a whole history

  /** A newer complete run joins the catalog, or a prune that may stop half way removes some runs that nothing keeps. */
  datatype CatalogEvent = Joined(row: Row) | Pruned(gone: set<Id>)

  datatype CatalogHistory = CatalogHistory(all: seq<Row>, live: set<Id>)

  ghost predicate NewerRow(x: Row, rows: seq<Row>) {
    forall y :: y in rows ==> y.item.createdAt < x.item.createdAt && y.item.id != x.item.id
  }

  ghost predicate Allowed(h: CatalogHistory, e: CatalogEvent, targets: seq<Target>, schedule: Policy) {
    match e
    case Joined(x) => NewerRow(x, h.all)
    case Pruned(gone) => gone !! KeepAll(Remaining(h.all, h.live), targets, schedule)
  }

  function Following(h: CatalogHistory, e: CatalogEvent): CatalogHistory {
    match e
    case Joined(x) => CatalogHistory([x] + h.all, h.live + {x.item.id})
    case Pruned(gone) => h.(live := h.live - gone)
  }

  function CatalogAfter(events: seq<CatalogEvent>): CatalogHistory
    decreases |events|
  {
    if events == [] then CatalogHistory([], {})
    else Following(CatalogAfter(events[..|events| - 1]), events[|events| - 1])
  }

  ghost predicate AllAllowed(events: seq<CatalogEvent>, targets: seq<Target>, schedule: Policy) {
    forall i :: 0 <= i < |events| ==> Allowed(CatalogAfter(events[..i]), events[i], targets, schedule)
  }

  lemma {:induction false} ShareNewer(x: Row, rows: seq<Row>, share: Scope)
    requires NewerRow(x, rows)
    ensures NewerThan(x.item, Share(rows, share))
  {
    ShareMembers(rows, share);
  }

  lemma ShareJoins(x: Row, rows: seq<Row>, share: Scope, policy: Policy)
    requires NewerRow(x, rows)
    ensures Keep(Share([x] + rows, share), policy) <= {x.item.id} + Keep(Share(rows, share), policy)
  {
    assert ([x] + rows)[1..] == rows;
    if Concerns(x, share) {
      ShareNewer(x, rows, share);
      KeepNewer(x.item, Share(rows, share), policy);
    }
  }

  lemma {:induction false} TargetsJoin(x: Row, rows: seq<Row>, targets: seq<Target>)
    requires NewerRow(x, rows)
    ensures KeepTargets([x] + rows, targets) <= {x.item.id} + KeepTargets(rows, targets)
    decreases |targets|
  {
    if targets != [] {
      var last := targets[|targets| - 1];
      TargetsJoin(x, rows, targets[..|targets| - 1]);
      ShareJoins(x, rows, Held(last.id), last.policy);
    }
  }

  lemma PinnedJoins(x: Row, rows: seq<Row>)
    ensures Pinned(Items([x] + rows)) <= {x.item.id} + Pinned(Items(rows))
  {
    assert ([x] + rows)[1..] == rows;
  }

  /** A newer run adds only itself to what all the policies together keep. */
  lemma KeepAllJoins(x: Row, rows: seq<Row>, targets: seq<Target>, schedule: Policy)
    requires NewerRow(x, rows)
    ensures KeepAll([x] + rows, targets, schedule) <= {x.item.id} + KeepAll(rows, targets, schedule)
  {
    ShareJoins(x, rows, Local, schedule);
    TargetsJoin(x, rows, targets);
    PinnedJoins(x, rows);
  }

  lemma FollowingKeeps(h: CatalogHistory, e: CatalogEvent, targets: seq<Target>, schedule: Policy)
    requires KeepAll(h.all, targets, schedule) <= h.live && Allowed(h, e, targets, schedule)
    ensures KeepAll(Following(h, e).all, targets, schedule) <= Following(h, e).live
  {
    PruneSettles(h.all, targets, schedule, h.live);
    match e
    case Joined(x) => KeepAllJoins(x, h.all, targets, schedule);
    case Pruned(gone) =>
  }

  lemma {:induction false} NothingToKeep(targets: seq<Target>)
    ensures KeepTargets([], targets) == {}
    decreases |targets|
  {
    if targets != [] { NothingToKeep(targets[..|targets| - 1]); }
    assert Sorted([]) == [];
  }

  /** However new runs and interrupted prunes alternate, with several destinations sharing runs: what is kept is what
      one pass over the full history keeps, and it is all still there. */
  lemma {:induction false} SharedPruningIsOnePass(events: seq<CatalogEvent>, targets: seq<Target>, schedule: Policy)
    requires AllAllowed(events, targets, schedule)
    ensures var h := CatalogAfter(events);
      && KeepAll(h.all, targets, schedule) <= h.live
      && KeepAll(Remaining(h.all, h.live), targets, schedule) == KeepAll(h.all, targets, schedule)
    decreases |events|
  {
    if events == [] {
      NothingToKeep(targets);
      assert Sorted([]) == [];
    } else {
      var earlier := events[..|events| - 1];
      assert forall i :: 0 <= i < |earlier| ==> earlier[..i] == events[..i];
      SharedPruningIsOnePass(earlier, targets, schedule);
      FollowingKeeps(CatalogAfter(earlier), events[|events| - 1], targets, schedule);
    }
    PruneSettles(CatalogAfter(events).all, targets, schedule, CatalogAfter(events).live);
  }

  // ----- what is never removed

  lemma {:induction false} TargetKept(rows: seq<Row>, targets: seq<Target>, i: nat)
    requires i < |targets|
    ensures Keep(Share(rows, Held(targets[i].id)), targets[i].policy) <= KeepTargets(rows, targets)
    decreases |targets|
  {
    if i < |targets| - 1 { TargetKept(rows, targets[..|targets| - 1], i); }
  }

  /** Whatever the policy, one of the newest items is kept. */
  lemma NewestKept(items: seq<Item>, policy: Policy) returns (x: Item)
    requires items != []
    ensures x in items && (forall y :: y in items ==> y.createdAt <= x.createdAt) && x.id in Keep(items, policy)
  {
    SortedOrders(items);
    var xs := Sorted(items);
    assert items[0] in multiset(xs);
    x := xs[0];
    assert x in multiset(items);
    forall y | y in items
      ensures y.createdAt <= x.createdAt
    {
      assert y in multiset(xs);
      var i :| 0 <= i < |xs| && xs[i] == y;
    }
  }

  lemma {:induction false} ShareMembers(rows: seq<Row>, share: Scope)
    ensures forall x :: x in Share(rows, share) <==> exists row :: row in rows && Concerns(row, share) && row.item == x
  {
    if rows != [] {
      ShareMembers(rows[1..], share);
      assert rows == [rows[0]] + rows[1..];
    }
  }

  /** No complete run that the destination holds is newer. */
  ghost predicate NewestHeld(rows: seq<Row>, id: DestinationId, row: Row) {
    && row in rows && id in row.holders
    && forall other :: other in rows && id in other.holders ==> other.item.createdAt <= row.item.createdAt
  }

  /** Of the complete runs that a destination holds, one of the newest survives every prune. */
  lemma NewestAtDestinationKept(rows: seq<Row>, targets: seq<Target>, schedule: Policy, i: nat)
    requires i < |targets| && exists row :: row in rows && targets[i].id in row.holders
    ensures exists row :: NewestHeld(rows, targets[i].id, row) && row.item.id in KeepAll(rows, targets, schedule)
  {
    var share := Held(targets[i].id);
    ShareMembers(rows, share);
    var held :| held in rows && targets[i].id in held.holders;
    assert Concerns(held, share) && held.item in Share(rows, share);
    var x := NewestKept(Share(rows, share), targets[i].policy);
    var row :| row in rows && Concerns(row, share) && row.item == x;
    forall other | other in rows && targets[i].id in other.holders
      ensures other.item.createdAt <= row.item.createdAt
    {
      assert Concerns(other, share) && other.item in Share(rows, share);
    }
    TargetKept(rows, targets, i);
    assert NewestHeld(rows, targets[i].id, row);
  }

  // ----- the catalog of an installation

  /** The destination has a complete delivery of this run. */
  ghost predicate HoldsCopy(s: State, run: RunId, destination: DestinationId) {
    exists id :: HoldsAs(s, run, destination, id)
  }

  ghost predicate HoldsAs(s: State, run: RunId, destination: DestinationId, id: DeliveryId) {
    DeliveryOf(s, id, run) && s.deliveries[id].state.Complete? && s.deliveries[id].destination == destination
  }

  /** What `prune` reads about the deliveries of one run. */
  function RowSeen(s: State, item: Item): Row {
    Row.Row(item,
        forall id :: id in s.deliveries ==> s.deliveries[id].run != item.id,
        set id | id in s.deliveries && s.deliveries[id].run == item.id &&
          s.deliveries[id].state.Complete? :: s.deliveries[id].destination)
  }

  /** No delivery names this run. */
  ghost predicate Undirected(s: State, run: RunId) {
    forall id :: id in s.deliveries ==> !DeliveryOf(s, id, run)
  }

  /** The row tells whether the run has a delivery at all, and which destinations hold a complete one. */
  ghost predicate RowSays(s: State, item: Item, row: Row) {
    && row.item == item && (row.local <==> Undirected(s, item.id))
    && forall destination :: destination in row.holders <==> HoldsCopy(s, item.id, destination)
  }

  lemma RowSeenSays(s: State, item: Item)
    ensures RowSays(s, item, RowSeen(s, item))
  {
    forall destination
      ensures destination in RowSeen(s, item).holders <==> HoldsCopy(s, item.id, destination)
    {
      HoldersExact(s, item, destination);
    }
  }

  lemma HoldersExact(s: State, item: Item, destination: DestinationId)
    ensures destination in RowSeen(s, item).holders <==> HoldsCopy(s, item.id, destination)
  {
    if HoldsCopy(s, item.id, destination) {
      var id :| HoldsAs(s, item.id, destination, id);
      assert s.deliveries[id].destination in RowSeen(s, item).holders;
    }
    if destination in RowSeen(s, item).holders {
      var id :| id in s.deliveries && s.deliveries[id].run == item.id && s.deliveries[id].state.Complete? &&
        s.deliveries[id].destination == destination;
      assert HoldsAs(s, item.id, destination, id);
    }
  }

  /** Exactly the complete runs, once each, as they were listed. */
  ghost predicate ListsComplete(items: seq<Item>, s: State, createdAt: RunId -> Instant) {
    && (forall i, j :: 0 <= i < j < |items| ==> items[i].id != items[j].id)
    && (forall run :: run in s.runs && s.runs[run].state.Complete? ==>
          Item(run, createdAt(run), s.runs[run].pinned) in items)
    && (forall x :: x in items ==>
          x.id in s.runs && s.runs[x.id].state.Complete? && x == Item(x.id, createdAt(x.id), s.runs[x.id].pinned))
  }

  ghost predicate Saw(before: seq<Action>, after: seq<Action>, item: Item, row: Row) {
    exists i :: |before| <= i <= |after| && RowSays(Replay(EMPTY, after[..i]), item, row)
  }

  /** One row for each item, each read at some moment. */
  ghost predicate CatalogSeen(before: seq<Action>, after: seq<Action>, items: seq<Item>, rows: seq<Row>) {
    |rows| == |items| && forall k :: 0 <= k < |rows| ==> Saw(before, after, items[k], rows[k])
  }

  lemma SawWithin(before: seq<Action>, now: seq<Action>, after: seq<Action>, item: Item, row: Row)
    requires before <= now <= after && Saw(before, now, item, row)
    ensures Saw(before, after, item, row)
  {
    var i :| |before| <= i <= |now| && RowSays(Replay(EMPTY, now[..i]), item, row);
    assert after[..i] == now[..i];
  }

  lemma SeesNow(before: seq<Action>, now: seq<Action>, item: Item)
    requires before <= now
    ensures Saw(before, now, item, RowSeen(Replay(EMPTY, now), item))
  {
    RowSeenSays(Replay(EMPTY, now), item);
    assert now[..|now|] == now;
  }

  lemma CatalogWithin(before: seq<Action>, now: seq<Action>, after: seq<Action>, items: seq<Item>, rows: seq<Row>)
    requires before <= now <= after && CatalogSeen(before, now, items, rows)
    ensures CatalogSeen(before, after, items, rows)
  {
    forall k | 0 <= k < |rows|
      ensures Saw(before, after, items[k], rows[k])
    {
      SawWithin(before, now, after, items[k], rows[k]);
    }
  }

  lemma CatalogGrows(before: seq<Action>, now: seq<Action>, after: seq<Action>, items: seq<Item>, i: nat,
                     rows: seq<Row>)
    requires before <= now <= after && i < |items| && CatalogSeen(before, now, items[..i], rows)
    ensures CatalogSeen(before, after, items[..i + 1], rows + [RowSeen(Replay(EMPTY, after), items[i])])
  {
    CatalogWithin(before, now, after, items[..i], rows);
    SeesNow(before, after, items[i]);
    CatalogAppends(before, after, items[..i], rows, items[i], RowSeen(Replay(EMPTY, after), items[i]));
    assert items[..i + 1] == items[..i] + [items[i]];
  }

  lemma CatalogAppends(before: seq<Action>, after: seq<Action>, items: seq<Item>, rows: seq<Row>, item: Item, row: Row)
    requires CatalogSeen(before, after, items, rows) && Saw(before, after, item, row)
    ensures CatalogSeen(before, after, items + [item], rows + [row])
  {
  }

  /** The items outside `keep`, in their order: what `prune` goes on to remove. */
  function Unkept(items: seq<Item>, keep: set<Id>): (r: seq<RunId>)
    ensures forall run :: run in r ==> run !in keep && exists x :: x in items && x.id == run
    ensures forall x :: x in items && x.id !in keep ==> x.id in r
    decreases |items|
  {
    if items == [] then []
    else
      var last := items[|items| - 1];
      assert items == items[..|items| - 1] + [last];
      Unkept(items[..|items| - 1], keep) + if last.id !in keep then [last.id] else []
  }

  ghost predicate RunBefore(items: seq<Item>, x: RunId, y: RunId) {
    exists i, j :: 0 <= i < j < |items| && items[i].id == x && items[j].id == y
  }

  /** In the order of the items. */
  ghost predicate FollowsItems(runs: seq<RunId>, items: seq<Item>) {
    forall a, b :: 0 <= a < b < |runs| ==> RunBefore(items, runs[a], runs[b])
  }

  lemma {:induction false} UnkeptFollows(items: seq<Item>, keep: set<Id>)
    ensures FollowsItems(Unkept(items, keep), items)
    decreases |items|
  {
    if items != [] {
      var init, last := items[..|items| - 1], items[|items| - 1];
      UnkeptFollows(init, keep);
      var runs := Unkept(init, keep);
      assert forall i :: 0 <= i < |init| ==> items[i] == init[i];
      forall a | 0 <= a < |runs|
        ensures RunBefore(items, runs[a], last.id)
      {
        assert runs[a] in runs;
        var x :| x in init && x.id == runs[a];
        var i :| 0 <= i < |init| && init[i] == x;
        assert items[i] == x && items[|items| - 1] == last;
      }
      forall a, b | 0 <= a < b < |runs|
        ensures RunBefore(items, runs[a], runs[b])
      {
        var i, j :| 0 <= i < j < |init| && init[i].id == runs[a] && init[j].id == runs[b];
        assert items[i] == init[i] && items[j] == init[j];
      }
    }
  }

  /** These are the runs that nothing keeps, in the order of the items. */
  ghost predicate Dooms(items: seq<Item>, rows: seq<Row>, targets: seq<Target>, schedule: Policy,
                        doomed: seq<RunId>) {
    && |rows| == |items| && FollowsItems(doomed, items)
    && (forall run :: run in doomed ==> exists x :: x in items && x.id == run)
    && forall k :: 0 <= k < |items| ==>
         (items[k].id in doomed <==> !KeptSomewhere(rows, targets, schedule, rows[k]))
  }

  lemma CatalogItems(before: seq<Action>, after: seq<Action>, items: seq<Item>, rows: seq<Row>)
    requires CatalogSeen(before, after, items, rows)
    ensures Items(rows) == items
  {
    forall k | 0 <= k < |rows|
      ensures rows[k].item == items[k]
    {
      assert Saw(before, after, items[k], rows[k]);
    }
  }

  lemma UnkeptDooms(before: seq<Action>, after: seq<Action>, items: seq<Item>, rows: seq<Row>, targets: seq<Target>,
                    schedule: Policy)
    requires Distinct(items) && CatalogSeen(before, after, items, rows)
    ensures Dooms(items, rows, targets, schedule, Unkept(items, KeepAll(rows, targets, schedule)))
  {
    CatalogItems(before, after, items, rows);
    KeepAllExactly(rows, targets, schedule);
    UnkeptFollows(items, KeepAll(rows, targets, schedule));
    forall k | 0 <= k < |items|
      ensures rows[k] in rows && items[k] in items && items[k] == rows[k].item
    {
    }
  }

  /** The destinations as they are at this moment, each with its policy. */
  ghost predicate TargetsListed(s: State, targets: seq<Target>, policies: DestinationId -> Policy) {
    && (forall i :: 0 <= i < |targets| ==>
          targets[i].id in s.destinations && targets[i].policy == policies(targets[i].id))
    && forall id :: id in s.destinations ==> exists i :: 0 <= i < |targets| && targets[i].id == id
  }

  // ----- runs without deliveries

  lemma StepUndirected(s: State, a: Action, run: RunId)
    requires !a.Work? && run in s.runs
    ensures run in Step(s, a).runs && (Undirected(Step(s, a), run) <==> Undirected(s, run))
  {
    match a
    case Api(handler) => HandlerUndirected(s, handler, run);
    case Remove(of, deletion) => BackupExact.DeletionNames(s, of, deletion);
  }

  lemma HandlerUndirected(s: State, a: Handler, run: RunId)
    requires run in s.runs
    ensures run in HandlerStep(s, a).runs && (Undirected(HandlerStep(s, a), run) <==> Undirected(s, run))
  {
    match a
    case Enqueue(added, targets, slot) =>
      BackupSafety.QueueShape(s, added, targets, slot);
      assert forall id :: DeliveryOf(s, id, run) ==> DeliveryOf(HandlerStep(s, a), id, run);
      assert forall id :: DeliveryOf(HandlerStep(s, a), id, run) ==> DeliveryOf(s, id, run);
    case SaveDestination(_, _, _) => BackupSafety.HandlerFrame(s, a);
    case DeleteDestination(_) => BackupSafety.HandlerFrame(s, a);
    case _ => BackupCommit.QuietHandlers(s, a);
  }

  lemma {:induction false} UndirectedStays(trace: seq<Action>, n: nat, m: nat, run: RunId)
    requires WorkerRests(trace, n, m) && run in Replay(EMPTY, trace[..n]).runs
    ensures run in Replay(EMPTY, trace[..m]).runs
    ensures Undirected(Replay(EMPTY, trace[..m]), run) <==> Undirected(Replay(EMPTY, trace[..n]), run)
    decreases m - n
  {
    if n < m {
      UndirectedStays(trace, n, m - 1, run);
      BackupExact.PrefixStep(trace, m - 1);
      StepUndirected(Replay(EMPTY, trace[..m - 1]), trace[m - 1], run);
    }
  }

  /** Those of the items whose run has no delivery. */
  ghost function UndirectedIds(s: State, items: seq<Item>): set<Id> {
    set x | x in items && Undirected(s, x.id) :: x.id
  }

  /** Whether a run has deliveries is the same throughout the reading. */
  lemma RowLocal(before: seq<Action>, after: seq<Action>, item: Item, row: Row)
    requires before <= after && WorkerRests(after, |before|, |after|) && Saw(before, after, item, row)
    requires item.id in Replay(EMPTY, before).runs
    ensures row.local <==> Undirected(Replay(EMPTY, before), item.id)
  {
    var i :| |before| <= i <= |after| && RowSays(Replay(EMPTY, after[..i]), item, row);
    assert after[..|before|] == before;
    UndirectedStays(after, |before|, i, item.id);
  }

  ghost predicate AllPresent(s: State, items: seq<Item>) {
    forall x :: x in items ==> x.id in s.runs
  }

  lemma LocalsSeen(before: seq<Action>, after: seq<Action>, items: seq<Item>, rows: seq<Row>)
    requires before <= after && WorkerRests(after, |before|, |after|) && CatalogSeen(before, after, items, rows)
    requires AllPresent(Replay(EMPTY, before), items)
    ensures forall k :: 0 <= k < |rows| ==> (rows[k].local <==> Undirected(Replay(EMPTY, before), items[k].id))
    ensures LocalIds(rows) == UndirectedIds(Replay(EMPTY, before), items)
  {
    CatalogItems(before, after, items, rows);
    forall k | 0 <= k < |rows|
      ensures rows[k].local <==> Undirected(Replay(EMPTY, before), items[k].id)
    {
      assert Saw(before, after, items[k], rows[k]) && items[k] in items;
      RowLocal(before, after, items[k], rows[k]);
    }
    LocalsAre(Replay(EMPTY, before), items, rows);
  }

  lemma {:induction false} LocalsAre(s: State, items: seq<Item>, rows: seq<Row>)
    requires Items(rows) == items
    requires forall k :: 0 <= k < |rows| ==> (rows[k].local <==> Undirected(s, items[k].id))
    ensures LocalIds(rows) == UndirectedIds(s, items)
  {
    forall x | x in items && Undirected(s, x.id)
      ensures x.id in LocalIds(rows)
    {
      var k :| 0 <= k < |items| && items[k] == x;
      assert rows[k] in rows && rows[k].item == x && rows[k].local;
    }
    forall row | row in rows && row.local
      ensures row.item.id in UndirectedIds(s, items)
    {
      var k :| 0 <= k < |rows| && rows[k] == row;
      assert items[k] == row.item && items[k] in items;
    }
  }

  /** The general schedule decides about the runs without deliveries as they were when the runs were listed. */
  lemma LocalDecided(before: seq<Action>, after: seq<Action>, items: seq<Item>, rows: seq<Row>, targets: seq<Target>,
                     schedule: Policy, doomed: seq<RunId>, x: Item)
    requires before <= after && WorkerRests(after, |before|, |after|) && CatalogSeen(before, after, items, rows)
    requires AllPresent(Replay(EMPTY, before), items) && Dooms(items, rows, targets, schedule, doomed)
    requires x in items && Undirected(Replay(EMPTY, before), x.id)
    ensures x.id in doomed <==>
      !x.pinned && !Kept(items, UndirectedIds(Replay(EMPTY, before), items), x, schedule)
  {
    LocalsSeen(before, after, items, rows);
    CatalogItems(before, after, items, rows);
    var k :| 0 <= k < |items| && items[k] == x;
    assert rows[k].item == x && Saw(before, after, items[k], rows[k]);
    NowhereHeld(before, after, items[k], rows[k]);
  }

  lemma {:induction false} NowhereHeld(before: seq<Action>, after: seq<Action>, item: Item, row: Row)
    requires Saw(before, after, item, row) && row.local
    ensures row.holders == {}
  {
    var i :| |before| <= i <= |after| && RowSays(Replay(EMPTY, after[..i]), item, row);
    var s := Replay(EMPTY, after[..i]);
    forall destination
      ensures !HoldsCopy(s, item.id, destination)
    {
      assert forall id :: HoldsAs(s, item.id, destination, id) ==> DeliveryOf(s, id, item.id);
    }
  }

  /** A run without deliveries, and no older than any other such run among the items. */
  ghost predicate NewestLocal(s: State, items: seq<Item>, x: Item) {
    && x in items && Undirected(s, x.id)
    && forall y :: y in items && Undirected(s, y.id) ==> y.createdAt <= x.createdAt
  }

  /** If there are runs without deliveries, one of the newest is never removed. */
  lemma NewestLocalSpared(before: seq<Action>, after: seq<Action>, items: seq<Item>, rows: seq<Row>,
                          targets: seq<Target>, schedule: Policy, doomed: seq<RunId>)
    requires before <= after && WorkerRests(after, |before|, |after|) && CatalogSeen(before, after, items, rows)
    requires AllPresent(Replay(EMPTY, before), items) && Dooms(items, rows, targets, schedule, doomed)
    requires Distinct(items) && exists y :: y in items && Undirected(Replay(EMPTY, before), y.id)
    ensures exists x :: NewestLocal(Replay(EMPTY, before), items, x) && x.id !in doomed
  {
    var s := Replay(EMPTY, before);
    LocalsSeen(before, after, items, rows);
    CatalogItems(before, after, items, rows);
    var y :| y in items && Undirected(s, y.id);
    LocalShared(s, items, rows, y);
    var x := NewestKept(Share(rows, Local), schedule);
    forall z | z in items && Undirected(s, z.id)
      ensures z.createdAt <= x.createdAt
    {
      LocalShared(s, items, rows, z);
    }
    ShareMembers(rows, Local);
    var row :| row in rows && Concerns(row, Local) && row.item == x;
    var k :| 0 <= k < |rows| && rows[k] == row;
    KeptNotDoomed(before, after, items, rows, targets, schedule, doomed, row);
    assert items[k] == x && items[k] in items && NewestLocal(s, items, x);
  }

  lemma {:induction false} LocalShared(s: State, items: seq<Item>, rows: seq<Row>, y: Item)
    requires Items(rows) == items && y in items && Undirected(s, y.id)
    requires forall k :: 0 <= k < |rows| ==> (rows[k].local <==> Undirected(s, items[k].id))
    ensures y in Share(rows, Local)
  {
    ShareMembers(rows, Local);
    var k :| 0 <= k < |items| && items[k] == y;
    assert rows[k] in rows && Concerns(rows[k], Local) && rows[k].item == y;
  }

  // ----- what a destination may lose while the catalog is read

  lemma StepFades(s: State, a: Action, run: RunId, destination: DestinationId, id: DeliveryId)
    requires !a.Work? && HoldsAs(Step(s, a), run, destination, id)
    ensures HoldsAs(s, run, destination, id)
  {
    match a
    case Api(handler) =>
      HandlersDeliver(s, handler, id);
      BackupCatalog.HandlersDelete(s, handler, id);
    case Remove(of, deletion) =>
      DeletionsDeliver(s, of, deletion, id);
      BackupExact.DeletionNames(s, of, deletion);
  }

  ghost predicate WorkerRests(trace: seq<Action>, n: nat, m: nat) {
    n <= m <= |trace| && forall i :: n <= i < m ==> !trace[i].Work?
  }

  /** While the worker takes no step no destination gains a copy. */
  lemma {:induction false} CopiesFade(trace: seq<Action>, n: nat, m: nat, run: RunId, destination: DestinationId)
    requires WorkerRests(trace, n, m) && HoldsCopy(Replay(EMPTY, trace[..m]), run, destination)
    ensures HoldsCopy(Replay(EMPTY, trace[..n]), run, destination)
    decreases m - n
  {
    if n < m {
      BackupExact.PrefixStep(trace, m - 1);
      var id :| HoldsAs(Replay(EMPTY, trace[..m]), run, destination, id);
      StepFades(Replay(EMPTY, trace[..m - 1]), trace[m - 1], run, destination, id);
      CopiesFade(trace, n, m - 1, run, destination);
    }
  }

  /** A row says no less than what the destination still holds after the reading, and no more than what it held
      before. */
  lemma RowBetween(before: seq<Action>, after: seq<Action>, item: Item, row: Row, destination: DestinationId)
    requires before <= after && WorkerRests(after, |before|, |after|) && Saw(before, after, item, row)
    ensures HoldsCopy(Replay(EMPTY, after), item.id, destination) ==> destination in row.holders
    ensures destination in row.holders ==> HoldsCopy(Replay(EMPTY, before), item.id, destination)
  {
    var i :| |before| <= i <= |after| && RowSays(Replay(EMPTY, after[..i]), item, row);
    assert after[..|after|] == after && after[..|before|] == before;
    if HoldsCopy(Replay(EMPTY, after), item.id, destination) { CopiesFade(after, i, |after|, item.id, destination); }
    if destination in row.holders { CopiesFade(after, |before|, i, item.id, destination); }
  }

  /** A run that the destination held when the runs were listed, and no older than any of them that it still holds after
      the reading. */
  ghost predicate NewestAt(before: seq<Action>, after: seq<Action>, items: seq<Item>, x: Item,
                           destination: DestinationId) {
    && x in items && HoldsCopy(Replay(EMPTY, before), x.id, destination)
    && forall y :: y in items && HoldsCopy(Replay(EMPTY, after), y.id, destination) ==> y.createdAt <= x.createdAt
  }

  lemma KeptIsNewest(before: seq<Action>, after: seq<Action>, items: seq<Item>, rows: seq<Row>, row: Row,
                     destination: DestinationId)
    requires before <= after && WorkerRests(after, |before|, |after|) && CatalogSeen(before, after, items, rows)
    requires NewestHeld(rows, destination, row)
    ensures NewestAt(before, after, items, row.item, destination)
  {
    var k :| 0 <= k < |rows| && rows[k] == row;
    assert Saw(before, after, items[k], rows[k]);
    RowBetween(before, after, items[k], rows[k], destination);
    forall y | y in items && HoldsCopy(Replay(EMPTY, after), y.id, destination)
      ensures y.createdAt <= row.item.createdAt
    {
      var j :| 0 <= j < |items| && items[j] == y;
      assert Saw(before, after, items[j], rows[j]);
      RowBetween(before, after, items[j], rows[j], destination);
      assert rows[j] in rows && rows[j].item == y;
    }
  }

  /** Every destination that still holds a complete run after the reading keeps one of the newest. */
  lemma NewestSpared(before: seq<Action>, after: seq<Action>, items: seq<Item>, rows: seq<Row>, targets: seq<Target>,
                     schedule: Policy, doomed: seq<RunId>, i: nat)
    requires before <= after && WorkerRests(after, |before|, |after|) && CatalogSeen(before, after, items, rows)
    requires Distinct(items) && Dooms(items, rows, targets, schedule, doomed)
    requires i < |targets| && exists x :: x in items && HoldsCopy(Replay(EMPTY, after), x.id, targets[i].id)
    ensures exists x :: NewestAt(before, after, items, x, targets[i].id) && x.id !in doomed
  {
    var destination := targets[i].id;
    var held :| held in items && HoldsCopy(Replay(EMPTY, after), held.id, destination);
    var j :| 0 <= j < |items| && items[j] == held;
    assert Saw(before, after, items[j], rows[j]);
    RowBetween(before, after, held, rows[j], destination);
    assert rows[j] in rows;
    NewestAtDestinationKept(rows, targets, schedule, i);
    var row :| NewestHeld(rows, destination, row) && row.item.id in KeepAll(rows, targets, schedule);
    KeptIsNewest(before, after, items, rows, row, destination);
    KeptNotDoomed(before, after, items, rows, targets, schedule, doomed, row);
  }

  lemma KeptNotDoomed(before: seq<Action>, after: seq<Action>, items: seq<Item>, rows: seq<Row>, targets: seq<Target>,
                      schedule: Policy, doomed: seq<RunId>, row: Row)
    requires CatalogSeen(before, after, items, rows) && Distinct(items)
    requires Dooms(items, rows, targets, schedule, doomed)
    requires row in rows && row.item.id in KeepAll(rows, targets, schedule)
    ensures row.item.id !in doomed
  {
    CatalogItems(before, after, items, rows);
    KeepAllExact(rows, targets, schedule, row);
    var k :| 0 <= k < |rows| && rows[k] == row;
    assert items[k] == row.item;
  }

  /** Of each destination that still holds one of these runs one of the newest is not among `tries`. */
  ghost predicate SparesNewest(before: seq<Action>, after: seq<Action>, items: seq<Item>, tries: seq<RunId>) {
    forall id, y :: (id in Replay(EMPTY, after).destinations && y in items &&
        HoldsCopy(Replay(EMPTY, after), y.id, id)) ==>
      exists x :: NewestAt(before, after, items, x, id) && x.id !in tries
  }

  /** What the general schedule keeps of the runs without deliveries is not among `tries`, and if there are such runs
      one of the newest is not. */
  ghost predicate SparesLocal(s: State, items: seq<Item>, schedule: Policy, tries: seq<RunId>) {
    && (forall x :: x in items && Undirected(s, x.id) && Kept(items, UndirectedIds(s, items), x, schedule) ==>
          x.id !in tries)
    && ((exists y :: y in items && Undirected(s, y.id)) ==> exists x :: NewestLocal(s, items, x) && x.id !in tries)
  }

  lemma SparesHeld(before: seq<Action>, after: seq<Action>, items: seq<Item>, rows: seq<Row>, targets: seq<Target>,
                   rules: Rules, doomed: seq<RunId>, tries: seq<RunId>)
    requires before <= after && WorkerRests(after, |before|, |after|) && CatalogSeen(before, after, items, rows)
    requires TargetsListed(Replay(EMPTY, after), targets, rules.policies) && Distinct(items)
    requires Dooms(items, rows, targets, rules.schedule, doomed) && tries <= doomed
    ensures SparesNewest(before, after, items, tries)
  {
    forall id, y | id in Replay(EMPTY, after).destinations && y in items && HoldsCopy(Replay(EMPTY, after), y.id, id)
      ensures exists x :: NewestAt(before, after, items, x, id) && x.id !in tries
    {
      var i :| 0 <= i < |targets| && targets[i].id == id;
      NewestSpared(before, after, items, rows, targets, rules.schedule, doomed, i);
      var x :| NewestAt(before, after, items, x, id) && x.id !in doomed;
      assert x.id !in tries;
    }
  }

  lemma SparesLocals(before: seq<Action>, after: seq<Action>, items: seq<Item>, rows: seq<Row>, targets: seq<Target>,
                     rules: Rules, doomed: seq<RunId>, tries: seq<RunId>)
    requires before <= after && WorkerRests(after, |before|, |after|) && CatalogSeen(before, after, items, rows)
    requires AllPresent(Replay(EMPTY, before), items) && Distinct(items)
    requires Dooms(items, rows, targets, rules.schedule, doomed) && tries <= doomed
    ensures SparesLocal(Replay(EMPTY, before), items, rules.schedule, tries)
  {
    var s := Replay(EMPTY, before);
    forall x | x in items && Undirected(s, x.id) && Kept(items, UndirectedIds(s, items), x, rules.schedule)
      ensures x.id !in tries
    {
      LocalDecided(before, after, items, rows, targets, rules.schedule, doomed, x);
    }
    if exists y :: y in items && Undirected(s, y.id) {
      NewestLocalSpared(before, after, items, rows, targets, rules.schedule, doomed);
      var x :| NewestLocal(s, items, x) && x.id !in doomed;
      assert x.id !in tries;
    }
  }
}
