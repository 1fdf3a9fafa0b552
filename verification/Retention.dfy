/** Which backups retention keeps. Slots come from any calendar: any local day of an instant, any month of a day. */
module Retention {
  import opened Sets

  type Instant = int
  type Id = nat

  datatype Item = Item(id: Id, createdAt: Instant, pinned: bool)

  datatype Policy = Policy(daily: nat, weekly: nat, monthly: nat, calendar: Calendar)

  /** The local day number of an instant (day 0 is 1 January 1970, a Thursday), and the month a day lies in. */
  datatype Calendar = Calendar(day: Instant -> int, month: int -> int)

  datatype Kind = Day | Week | Month

  function Slot(policy: Policy, kind: Kind, at: Instant): int {
    var day := policy.calendar.day(at);
    match kind
    case Day => day
    case Week => (day + 3) / 7
    case Month => policy.calendar.month(day)
  }

  /** The Monday on or before a day; day 4 was one. */
  function MondayOf(day: int): (r: int)
    ensures r <= day < r + 7 && (r - 4) % 7 == 0
  {
    day - (day - 4) % 7
  }

  /** Days share a week slot exactly if they share their Monday. */
  lemma WeeksStartOnMonday(policy: Policy, a: Instant, b: Instant)
    ensures Slot(policy, Week, a) == Slot(policy, Week, b) <==>
      MondayOf(policy.calendar.day(a)) == MondayOf(policy.calendar.day(b))
  {
    var x, y := policy.calendar.day(a), policy.calendar.day(b);
    assert (x + 3) / 7 * 7 - 3 == MondayOf(x) && (y + 3) / 7 * 7 - 3 == MondayOf(y);
  }

  function Limit(policy: Policy, kind: Kind): nat {
    match kind
    case Day => policy.daily
    case Week => policy.weekly
    case Month => policy.monthly
  }

  // ----- newest first

  /** Stable: among equal instants the earlier element stays in front. */
  function Insert(x: Item, xs: seq<Item>): seq<Item> {
    if xs == [] || xs[0].createdAt <= x.createdAt then [x] + xs else [xs[0]] + Insert(x, xs[1..])
  }

  function Sorted(items: seq<Item>): seq<Item> {
    if items == [] then [] else Insert(items[0], Sorted(items[1..]))
  }

  ghost predicate NewestFirst(xs: seq<Item>) {
    forall i, j :: 0 <= i < j < |xs| ==> xs[i].createdAt >= xs[j].createdAt
  }

  lemma {:induction false} InsertPermutes(x: Item, xs: seq<Item>)
    ensures multiset(Insert(x, xs)) == multiset(xs) + multiset{x}
  {
    if !(xs == [] || xs[0].createdAt <= x.createdAt) {
      InsertPermutes(x, xs[1..]);
      assert xs == [xs[0]] + xs[1..];
    }
  }

  lemma {:induction false} InsertOrders(x: Item, xs: seq<Item>)
    requires NewestFirst(xs)
    ensures NewestFirst(Insert(x, xs))
    ensures multiset(Insert(x, xs)) == multiset(xs) + multiset{x}
  {
    InsertPermutes(x, xs);
    if !(xs == [] || xs[0].createdAt <= x.createdAt) {
      InsertOrders(x, xs[1..]);
      InsertPermutes(x, xs[1..]);
      forall i | 0 <= i < |Insert(x, xs[1..])|
        ensures Insert(x, xs[1..])[i].createdAt <= xs[0].createdAt
      {
        assert Insert(x, xs[1..])[i] in multiset(Insert(x, xs[1..]));
      }
    }
  }

  lemma {:induction false} SortedOrders(items: seq<Item>)
    ensures NewestFirst(Sorted(items)) && multiset(Sorted(items)) == multiset(items)
  {
    if items != [] {
      SortedOrders(items[1..]);
      InsertOrders(items[0], Sorted(items[1..]));
      assert items == [items[0]] + items[1..];
    }
  }

  // ----- the policy

  function Ids(xs: seq<Item>): set<Id> {
    set x | x in xs :: x.id
  }

  function Pinned(xs: seq<Item>): set<Id> {
    set x | x in xs && x.pinned :: x.id
  }

  function Newest(sorted: seq<Item>): set<Id> {
    if sorted == [] then {} else {sorted[0].id}
  }

  /** The item starts a slot that nothing newer has taken, and there is room for it. */
  predicate Starts(x: Item, policy: Policy, kind: Kind, seen: set<int>) {
    Slot(policy, kind, x.createdAt) !in seen && |seen| < Limit(policy, kind)
  }

  function Take(x: Item, policy: Policy, kind: Kind, seen: set<int>): set<int> {
    if Starts(x, policy, kind, seen) then seen + {Slot(policy, kind, x.createdAt)} else seen
  }

  /** What one pass over the items keeps once the slots in `seen` are taken. */
  function Walk(xs: seq<Item>, policy: Policy, kind: Kind, seen: set<int>): set<Id> {
    if xs == [] then {}
    else
      var rest := Walk(xs[1..], policy, kind, Take(xs[0], policy, kind, seen));
      if Starts(xs[0], policy, kind, seen) then {xs[0].id} + rest else rest
  }

  function KeepSorted(xs: seq<Item>, policy: Policy): set<Id> {
    Pinned(xs) + Newest(xs) + Walk(xs, policy, Day, {}) + Walk(xs, policy, Week, {}) + Walk(xs, policy, Month, {})
  }

  function Keep(items: seq<Item>, policy: Policy): set<Id> {
    KeepSorted(Sorted(items), policy)
  }

  // ----- the loops

  function Taken(xs: seq<Item>, policy: Policy, kind: Kind, seen: set<int>): set<int> {
    if xs == [] then seen else Taken(xs[1..], policy, kind, Take(xs[0], policy, kind, seen))
  }

  lemma {:induction false} TakenAppend(xs: seq<Item>, x: Item, policy: Policy, kind: Kind, seen: set<int>)
    ensures Taken(xs + [x], policy, kind, seen) == Take(x, policy, kind, Taken(xs, policy, kind, seen))
  {
    if xs == [] {
      assert xs + [x] == [x];
    } else {
      assert (xs + [x])[1..] == xs[1..] + [x];
      TakenAppend(xs[1..], x, policy, kind, Take(xs[0], policy, kind, seen));
    }
  }

  lemma {:induction false} WalkAppend(xs: seq<Item>, x: Item, policy: Policy, kind: Kind, seen: set<int>)
    ensures Walk(xs + [x], policy, kind, seen) ==
      Walk(xs, policy, kind, seen) + if Starts(x, policy, kind, Taken(xs, policy, kind, seen)) then {x.id} else {}
  {
    if xs == [] {
      assert xs + [x] == [x];
      assert Walk([x][1..], policy, kind, Take(x, policy, kind, seen)) == {};
    } else {
      assert (xs + [x])[1..] == xs[1..] + [x];
      WalkAppend(xs[1..], x, policy, kind, Take(xs[0], policy, kind, seen));
    }
  }

  lemma WalkStep(xs: seq<Item>, i: nat, policy: Policy, kind: Kind, slots: set<int>)
    requires i < |xs|
    ensures Walk(xs[i..], policy, kind, slots) ==
      (if Starts(xs[i], policy, kind, slots) then {xs[i].id} else {}) +
        Walk(xs[i + 1..], policy, kind, Take(xs[i], policy, kind, slots))
  {
    assert xs[i..][1..] == xs[i + 1..];
  }

  ghost predicate Passed(sorted: seq<Item>, i: nat, policy: Policy, kind: Kind, keep: set<Id>, slots: set<int>,
                         kept: set<Id>)
    requires i <= |sorted|
  {
    kept + Walk(sorted[i..], policy, kind, slots) == keep + Walk(sorted, policy, kind, {})
  }

  lemma PassStep(sorted: seq<Item>, i: nat, policy: Policy, kind: Kind, keep: set<Id>, slots: set<int>, kept: set<Id>)
    requires i < |sorted| && Passed(sorted, i, policy, kind, keep, slots, kept)
    ensures Passed(sorted, i + 1, policy, kind, keep, Take(sorted[i], policy, kind, slots),
                   if Starts(sorted[i], policy, kind, slots) then kept + {sorted[i].id} else kept)
  {
    WalkStep(sorted, i, policy, kind, slots);
  }

  /** One of the three passes: the first item of each of the first `limit` slots. */
  method Pass(sorted: seq<Item>, policy: Policy, kind: Kind, keep: set<Id>) returns (kept: set<Id>)
    ensures kept == keep + Walk(sorted, policy, kind, {})
  {
    kept := keep;
    var slots: set<int> := {};
    assert sorted[0..] == sorted;
    for i := 0 to |sorted|
      invariant Passed(sorted, i, policy, kind, keep, slots, kept)
    {
      PassStep(sorted, i, policy, kind, keep, slots, kept);
      var key := Slot(policy, kind, sorted[i].createdAt);
      if key !in slots && |slots| < Limit(policy, kind) {
        slots := slots + {key};
        kept := kept + {sorted[i].id};
      }
    }
  }

  /** `retentionKeep`: the pinned items, the first of the order, and the first of each of the first days, weeks and
      months. */
  method RetentionKeep(items: seq<Item>, policy: Policy) returns (keep: set<Id>)
    ensures keep == Keep(items, policy) && keep <= Ids(items)
    ensures Distinct(items) ==>
      forall x :: x in items ==> (x.id in keep <==> Kept(items, Ids(items), x, policy))
  {
    var sorted := Sorted(items);
    keep := set x | x in sorted && x.pinned :: x.id;
    if |sorted| > 0 { keep := keep + {sorted[0].id}; }
    keep := Pass(sorted, policy, Day, keep);
    keep := Pass(sorted, policy, Week, keep);
    keep := Pass(sorted, policy, Month, keep);
    KeepWithin(items, policy);
    if Distinct(items) { KeptExactly(items, policy); }
  }

  // ----- what a pass means

  ghost function SlotsOf(xs: seq<Item>, policy: Policy, kind: Kind): set<int> {
    set x | x in xs :: Slot(policy, kind, x.createdAt)
  }

  ghost predicate Distinct(xs: seq<Item>) {
    forall i, j :: 0 <= i < j < |xs| ==> xs[i].id != xs[j].id
  }

  lemma SlotsAppend(xs: seq<Item>, x: Item, policy: Policy, kind: Kind)
    ensures SlotsOf(xs + [x], policy, kind) == SlotsOf(xs, policy, kind) + {Slot(policy, kind, x.createdAt)}
  {
    assert forall y :: y in xs + [x] <==> y in xs || y == x;
  }

  /** The taken slots are the slots seen, up to the limit. */
  lemma {:induction false} TakenIsSlots(xs: seq<Item>, policy: Policy, kind: Kind)
    ensures var taken := Taken(xs, policy, kind, {});
      && taken <= SlotsOf(xs, policy, kind) && |taken| <= Limit(policy, kind)
      && (|taken| < Limit(policy, kind) ==> taken == SlotsOf(xs, policy, kind))
    decreases |xs|
  {
    if xs != [] {
      var init, last := xs[..|xs| - 1], xs[|xs| - 1];
      assert xs == init + [last];
      TakenIsSlots(init, policy, kind);
      TakenAppend(init, last, policy, kind, {});
      SlotsAppend(init, last, policy, kind);
    }
  }

  lemma {:induction false} WalkWithin(xs: seq<Item>, policy: Policy, kind: Kind, seen: set<int>)
    ensures Walk(xs, policy, kind, seen) <= Ids(xs)
  {
    if xs != [] {
      WalkWithin(xs[1..], policy, kind, Take(xs[0], policy, kind, seen));
      assert xs == [xs[0]] + xs[1..];
    }
  }

  /** No newer item has this one's slot, and fewer than `limit` slots are newer. */
  ghost predicate Leads(xs: seq<Item>, i: nat, policy: Policy, kind: Kind)
    requires i < |xs|
  {
    && Slot(policy, kind, xs[i].createdAt) !in SlotsOf(xs[..i], policy, kind)
    && |SlotsOf(xs[..i], policy, kind)| < Limit(policy, kind)
  }

  lemma {:induction false} WalkExact(xs: seq<Item>, i: nat, policy: Policy, kind: Kind)
    requires Distinct(xs) && i < |xs|
    ensures xs[i].id in Walk(xs, policy, kind, {}) <==> Leads(xs, i, policy, kind)
    decreases |xs|
  {
    var init, last := xs[..|xs| - 1], xs[|xs| - 1];
    assert xs == init + [last];
    WalkAppend(init, last, policy, kind, {});
    if i < |init| {
      WalkExact(init, i, policy, kind);
      assert init[..i] == xs[..i];
    } else {
      WalkWithin(init, policy, kind, {});
      assert last.id !in Ids(init);
      TakenIsSlots(init, policy, kind);
      SubsetSize(Taken(init, policy, kind, {}), SlotsOf(init, policy, kind));
    }
  }

  lemma {:induction false} InsertDistinct(x: Item, xs: seq<Item>)
    requires Distinct(xs) && x.id !in Ids(xs)
    ensures Distinct(Insert(x, xs)) && Ids(Insert(x, xs)) == Ids(xs) + {x.id}
  {
    if xs == [] || xs[0].createdAt <= x.createdAt {
      assert Ids([x] + xs) == Ids(xs) + {x.id};
    } else {
      assert xs == [xs[0]] + xs[1..];
      assert Ids(xs) == {xs[0].id} + Ids(xs[1..]);
      InsertDistinct(x, xs[1..]);
      assert xs[0].id !in Ids(Insert(x, xs[1..]));
      assert Ids([xs[0]] + Insert(x, xs[1..])) == {xs[0].id} + Ids(Insert(x, xs[1..]));
      DistinctCons(xs[0], Insert(x, xs[1..]));
    }
  }

  lemma DistinctCons(x: Item, xs: seq<Item>)
    requires Distinct(xs) && x.id !in Ids(xs)
    ensures Distinct([x] + xs)
  {
    forall j | 0 <= j < |xs|
      ensures xs[j].id != x.id
    {
      assert xs[j].id in Ids(xs);
    }
  }

  lemma {:induction false} SortedDistinct(items: seq<Item>)
    requires Distinct(items)
    ensures Distinct(Sorted(items)) && Ids(Sorted(items)) == Ids(items)
  {
    if items != [] {
      SortedDistinct(items[1..]);
      assert items == [items[0]] + items[1..];
      assert Ids(items) == {items[0].id} + Ids(items[1..]);
      InsertDistinct(items[0], Sorted(items[1..]));
    }
  }

  lemma ItemOf(xs: seq<Item>, i: nat)
    requires Distinct(xs) && i < |xs|
    ensures xs[i].id in Pinned(xs) <==> xs[i].pinned
    ensures xs[i].id in Newest(xs) <==> i == 0
  {
  }

  lemma KeepParts(xs: seq<Item>, policy: Policy, id: Id)
    ensures id in KeepSorted(xs, policy) <==>
      || id in Pinned(xs) || id in Newest(xs)
      || id in Walk(xs, policy, Day, {}) || id in Walk(xs, policy, Week, {}) || id in Walk(xs, policy, Month, {})
  {
  }

  lemma KeepLeads(items: seq<Item>, i: nat, policy: Policy)
    requires Distinct(items) && i < |Sorted(items)|
    ensures var xs := Sorted(items);
      xs[i].id in Keep(items, policy) <==>
        xs[i].pinned || i == 0 || Leads(xs, i, policy, Day) || Leads(xs, i, policy, Week) || Leads(xs, i, policy, Month)
  {
    SortedDistinct(items);
    var xs := Sorted(items);
    ItemOf(xs, i);
    KeepParts(xs, policy, xs[i].id);
    WalkExact(xs, i, policy, Day);
    WalkExact(xs, i, policy, Week);
    WalkExact(xs, i, policy, Month);
  }

  lemma KeepWithin(items: seq<Item>, policy: Policy)
    ensures Keep(items, policy) <= Ids(items)
  {
    var xs := Sorted(items);
    SortedOrders(items);
    WalkWithin(xs, policy, Day, {});
    WalkWithin(xs, policy, Week, {});
    WalkWithin(xs, policy, Month, {});
    assert Ids(xs) <= Ids(items) by { SameMembers(xs, items); }
  }

  lemma SameMembers(xs: seq<Item>, ys: seq<Item>)
    requires multiset(xs) == multiset(ys)
    ensures forall x :: x in xs <==> x in ys
  {
    assert forall x :: x in xs <==> x in multiset(xs);
    assert forall x :: x in ys <==> x in multiset(ys);
  }

  // ----- what is kept, in terms of the items alone

  ghost predicate ListedBefore(items: seq<Item>, y: Item, x: Item) {
    exists i, j :: 0 <= i < j < |items| && items[i] == y && items[j] == x
  }

  /** `y` is newer than `x`, or of the same instant and listed earlier. */
  ghost predicate Precedes(items: seq<Item>, y: Item, x: Item) {
    y.createdAt > x.createdAt || (y.createdAt == x.createdAt && ListedBefore(items, y, x))
  }

  /** Those of the items in `among` that precede `x`. */
  ghost function Ahead(items: seq<Item>, among: set<Id>, x: Item): set<Item> {
    set y | y in items && y.id in among && Precedes(items, y, x)
  }

  ghost predicate Fresh(taken: set<int>, value: int, limit: nat) {
    value !in taken && |taken| < limit
  }

  ghost predicate FirstOfDay(ahead: set<Item>, x: Item, policy: Policy) {
    Fresh(set y | y in ahead :: policy.calendar.day(y.createdAt), policy.calendar.day(x.createdAt), policy.daily)
  }

  ghost predicate FirstOfWeek(ahead: set<Item>, x: Item, policy: Policy) {
    Fresh(set y | y in ahead :: MondayOf(policy.calendar.day(y.createdAt)),
          MondayOf(policy.calendar.day(x.createdAt)), policy.weekly)
  }

  ghost predicate FirstOfMonth(ahead: set<Item>, x: Item, policy: Policy) {
    Fresh(set y | y in ahead :: policy.calendar.month(policy.calendar.day(y.createdAt)),
          policy.calendar.month(policy.calendar.day(x.createdAt)), policy.monthly)
  }

  /** One policy's decision about the items in `among`: `x` is pinned, or nothing precedes it, or it is the first of its
      local day and fewer than `daily` days precede it, or the same with weeks from Monday on, or with months. */
  ghost predicate Kept(items: seq<Item>, among: set<Id>, x: Item, policy: Policy) {
    var ahead := Ahead(items, among, x);
    || x.pinned || ahead == {}
    || FirstOfDay(ahead, x, policy) || FirstOfWeek(ahead, x, policy) || FirstOfMonth(ahead, x, policy)
  }

  ghost predicate InOrder(xs: seq<Item>, items: seq<Item>) {
    forall a, b :: 0 <= a < b < |xs| ==> Precedes(items, xs[a], xs[b])
  }

  lemma {:induction false} InsertPrecedes(x: Item, xs: seq<Item>, items: seq<Item>)
    requires InOrder(xs, items) && forall y :: y in xs ==> ListedBefore(items, x, y)
    ensures InOrder(Insert(x, xs), items)
    ensures forall y :: y in Insert(x, xs) ==> y == x || y in xs
  {
    if xs == [] || xs[0].createdAt <= x.createdAt {
      forall y | y in xs
        ensures Precedes(items, x, y)
      {
        assert y == xs[0] || Precedes(items, xs[0], y);
      }
    } else {
      InsertPrecedes(x, xs[1..], items);
      forall y | y in Insert(x, xs[1..])
        ensures Precedes(items, xs[0], y)
      {
        assert y == x || y in xs[1..];
      }
    }
  }

  lemma {:induction false} SortedPrecedes(items: seq<Item>)
    ensures InOrder(Sorted(items), items)
  {
    if items != [] {
      var rest := items[1..];
      SortedPrecedes(rest);
      SortedOrders(rest);
      SameMembers(Sorted(rest), rest);
      assert items == [items[0]] + rest;
      forall y | y in Sorted(rest)
        ensures ListedBefore(items, items[0], y)
      {
        assert y in rest;
      }
      LaterStays(items);
      InsertPrecedes(items[0], Sorted(rest), items);
    }
  }

  lemma LaterStays(items: seq<Item>)
    requires items != []
    ensures forall y, x :: ListedBefore(items[1..], y, x) ==> ListedBefore(items, y, x)
  {
    forall y, x | ListedBefore(items[1..], y, x)
      ensures ListedBefore(items, y, x)
    {
      var i, j :| 0 <= i < j < |items[1..]| && items[1..][i] == y && items[1..][j] == x;
      assert items[i + 1] == y && items[j + 1] == x;
    }
  }

  lemma OneWay(items: seq<Item>, y: Item, x: Item)
    requires Distinct(items) && Precedes(items, y, x)
    ensures !Precedes(items, x, y)
  {
  }

  /** What stands before an item in the sorted list is what precedes it. */
  lemma AheadIsPrefix(items: seq<Item>, i: nat)
    requires Distinct(items) && i < |Sorted(items)|
    ensures forall y :: y in Sorted(items)[..i] <==> y in Ahead(items, Ids(items), Sorted(items)[i])
  {
    var xs := Sorted(items);
    SortedPrecedes(items);
    SortedOrders(items);
    SameMembers(xs, items);
    forall y | y in Ahead(items, Ids(items), xs[i])
      ensures y in xs[..i]
    {
      assert y in items && y in xs;
      var a :| 0 <= a < |xs| && xs[a] == y;
      OneWay(items, y, xs[i]);
    }
  }

  lemma LeadsAhead(items: seq<Item>, i: nat, policy: Policy, kind: Kind)
    requires Distinct(items) && i < |Sorted(items)|
    ensures var x := Sorted(items)[i];
      Leads(Sorted(items), i, policy, kind) <==>
      Fresh(set y | y in Ahead(items, Ids(items), x) :: Slot(policy, kind, y.createdAt),
            Slot(policy, kind, x.createdAt), Limit(policy, kind))
  {
    AheadIsPrefix(items, i);
    assert SlotsOf(Sorted(items)[..i], policy, kind) ==
      set y | y in Ahead(items, Ids(items), Sorted(items)[i]) :: Slot(policy, kind, y.createdAt);
  }

  /** The Monday that a week slot begins with. */
  function FirstDay(slot: int): int {
    slot * 7 - 3
  }

  lemma {:induction false} SameSize(slots: set<int>)
    ensures |set slot | slot in slots :: FirstDay(slot)| == |slots|
  {
    if slots != {} {
      var slot := SomeMember(slots);
      SameSize(slots - {slot});
      assert (set other | other in slots :: FirstDay(other)) ==
        (set other | other in slots - {slot} :: FirstDay(other)) + {FirstDay(slot)};
    }
  }

  lemma SlotBegins(policy: Policy, at: Instant)
    ensures MondayOf(policy.calendar.day(at)) == FirstDay(Slot(policy, Week, at))
  {
  }

  /** Counting week slots is counting Mondays. */
  lemma WeekIsMonday(ahead: set<Item>, x: Item, policy: Policy)
    ensures Fresh(set y | y in ahead :: Slot(policy, Week, y.createdAt), Slot(policy, Week, x.createdAt), policy.weekly)
      <==> FirstOfWeek(ahead, x, policy)
  {
    var slots := set y | y in ahead :: Slot(policy, Week, y.createdAt);
    var mondays := set y | y in ahead :: MondayOf(policy.calendar.day(y.createdAt));
    forall y: Item
      ensures MondayOf(policy.calendar.day(y.createdAt)) == FirstDay(Slot(policy, Week, y.createdAt))
    {
      SlotBegins(policy, y.createdAt);
    }
    assert mondays == set slot | slot in slots :: FirstDay(slot);
    SameSize(slots);
  }

  /** An item is kept exactly if it is pinned, the newest, or the newest of one of the newest days, weeks or months. */
  lemma KeepExact(items: seq<Item>, x: Item, policy: Policy)
    requires Distinct(items) && x in items
    ensures x.id in Keep(items, policy) <==> Kept(items, Ids(items), x, policy)
  {
    SortedOrders(items);
    SameMembers(Sorted(items), items);
    assert x in Sorted(items);
    var i :| 0 <= i < |Sorted(items)| && Sorted(items)[i] == x;
    KeepLeads(items, i, policy);
    FirstHasNothingAhead(items, i);
    LeadsDay(items, i, policy);
    LeadsWeek(items, i, policy);
    LeadsMonth(items, i, policy);
  }

  lemma LeadsDay(items: seq<Item>, i: nat, policy: Policy)
    requires Distinct(items) && i < |Sorted(items)|
    ensures Leads(Sorted(items), i, policy, Day) <==>
      FirstOfDay(Ahead(items, Ids(items), Sorted(items)[i]), Sorted(items)[i], policy)
  {
    LeadsAhead(items, i, policy, Day);
    var ahead := Ahead(items, Ids(items), Sorted(items)[i]);
    assert (set y | y in ahead :: Slot(policy, Day, y.createdAt)) ==
      set y | y in ahead :: policy.calendar.day(y.createdAt);
  }

  lemma LeadsWeek(items: seq<Item>, i: nat, policy: Policy)
    requires Distinct(items) && i < |Sorted(items)|
    ensures Leads(Sorted(items), i, policy, Week) <==>
      FirstOfWeek(Ahead(items, Ids(items), Sorted(items)[i]), Sorted(items)[i], policy)
  {
    LeadsAhead(items, i, policy, Week);
    WeekIsMonday(Ahead(items, Ids(items), Sorted(items)[i]), Sorted(items)[i], policy);
  }

  lemma LeadsMonth(items: seq<Item>, i: nat, policy: Policy)
    requires Distinct(items) && i < |Sorted(items)|
    ensures Leads(Sorted(items), i, policy, Month) <==>
      FirstOfMonth(Ahead(items, Ids(items), Sorted(items)[i]), Sorted(items)[i], policy)
  {
    LeadsAhead(items, i, policy, Month);
    var ahead := Ahead(items, Ids(items), Sorted(items)[i]);
    assert (set y | y in ahead :: Slot(policy, Month, y.createdAt)) ==
      set y | y in ahead :: policy.calendar.month(policy.calendar.day(y.createdAt));
  }

  lemma FirstHasNothingAhead(items: seq<Item>, i: nat)
    requires Distinct(items) && i < |Sorted(items)|
    ensures i == 0 <==> Ahead(items, Ids(items), Sorted(items)[i]) == {}
  {
    AheadIsPrefix(items, i);
    if i > 0 { assert Sorted(items)[0] in Sorted(items)[..i]; }
  }

  lemma KeptExactly(items: seq<Item>, policy: Policy)
    requires Distinct(items)
    ensures forall x :: x in items ==> (x.id in Keep(items, policy) <==> Kept(items, Ids(items), x, policy))
  {
    forall x | x in items
      ensures x.id in Keep(items, policy) <==> Kept(items, Ids(items), x, policy)
    {
      KeepExact(items, x, policy);
    }
  }

  // ----- pruning

  /** The items still there, in their order. */
  function Filter(xs: seq<Item>, live: set<Id>): seq<Item> {
    if xs == [] then []
    else if xs[0].id in live then [xs[0]] + Filter(xs[1..], live) else Filter(xs[1..], live)
  }

  lemma {:induction false} FilterMembers(xs: seq<Item>, live: set<Id>)
    ensures forall x :: x in Filter(xs, live) <==> x in xs && x.id in live
  {
    if xs != [] {
      FilterMembers(xs[1..], live);
      assert xs == [xs[0]] + xs[1..];
    }
  }

  lemma {:induction false} FilterSlots(xs: seq<Item>, live: set<Id>, policy: Policy, kind: Kind, seen: set<int>)
    requires Walk(xs, policy, kind, seen) <= live
    ensures Walk(Filter(xs, live), policy, kind, seen) == Walk(xs, policy, kind, seen)
  {
    if xs != [] {
      FilterSlots(xs[1..], live, policy, kind, Take(xs[0], policy, kind, seen));
      if xs[0].id in live {
        assert Filter(xs, live)[0] == xs[0] && Filter(xs, live)[1..] == Filter(xs[1..], live);
      }
    }
  }

  lemma {:induction false} InsertFilter(x: Item, xs: seq<Item>, live: set<Id>)
    requires NewestFirst(xs)
    ensures Filter(Insert(x, xs), live) == if x.id in live then Insert(x, Filter(xs, live)) else Filter(xs, live)
  {
    if xs == [] || xs[0].createdAt <= x.createdAt {
      assert ([x] + xs)[1..] == xs;
      if Filter(xs, live) != [] { FilterMembers(xs, live); }
    } else {
      InsertFilter(x, xs[1..], live);
      assert ([xs[0]] + Insert(x, xs[1..]))[1..] == Insert(x, xs[1..]);
      if xs[0].id in live { assert Filter(xs, live)[1..] == Filter(xs[1..], live); }
      if xs[0].id !in live { SkipInsert(x, xs, live); }
    }
  }

  lemma SkipInsert(x: Item, xs: seq<Item>, live: set<Id>)
    requires xs != [] && xs[0].id !in live
    ensures Filter(xs, live) == Filter(xs[1..], live)
  {
  }

  /** Sorting what is left is leaving out what was sorted. */
  lemma {:induction false} SortedFilter(items: seq<Item>, live: set<Id>)
    ensures Sorted(Filter(items, live)) == Filter(Sorted(items), live)
  {
    if items != [] {
      SortedFilter(items[1..], live);
      SortedOrders(items[1..]);
      InsertFilter(items[0], Sorted(items[1..]), live);
      if items[0].id in live { assert Filter(items, live)[1..] == Filter(items[1..], live); }
    }
  }

  lemma PinnedFilter(xs: seq<Item>, live: set<Id>)
    requires Pinned(xs) <= live
    ensures Pinned(Filter(xs, live)) == Pinned(xs)
  {
    FilterMembers(xs, live);
    forall x | x in xs && x.pinned
      ensures x in Filter(xs, live)
    {
      assert x.id in Pinned(xs);
    }
  }

  lemma KeepSortedFilter(xs: seq<Item>, live: set<Id>, policy: Policy)
    requires KeepSorted(xs, policy) <= live
    ensures KeepSorted(Filter(xs, live), policy) == KeepSorted(xs, policy)
  {
    FilterSlots(xs, live, policy, Day, {});
    FilterSlots(xs, live, policy, Week, {});
    FilterSlots(xs, live, policy, Month, {});
    PinnedFilter(xs, live);
    assert xs != [] ==> xs[0].id in Newest(xs);
    assert Newest(Filter(xs, live)) == Newest(xs);
  }

  /** Pruning down to any set between what is kept and everything changes nothing about what is kept. */
  lemma KeepClosed(items: seq<Item>, live: set<Id>, policy: Policy)
    requires Keep(items, policy) <= live
    ensures Keep(Filter(items, live), policy) == Keep(items, policy)
  {
    SortedFilter(items, live);
    KeepSortedFilter(Sorted(items), live, policy);
  }

  // ----- new backups

  lemma {:induction false} WalkFull(xs: seq<Item>, policy: Policy, kind: Kind, seen: set<int>)
    requires |seen| >= Limit(policy, kind)
    ensures Walk(xs, policy, kind, seen) == {}
  {
    if xs != [] { WalkFull(xs[1..], policy, kind, seen); }
  }

  lemma {:induction false} WalkShrinks(xs: seq<Item>, policy: Policy, kind: Kind, seen: set<int>, more: set<int>)
    requires seen <= more
    ensures Walk(xs, policy, kind, more) <= Walk(xs, policy, kind, seen)
  {
    SubsetSize(seen, more);
    if |more| >= Limit(policy, kind) {
      WalkFull(xs, policy, kind, more);
    } else if xs != [] {
      var slot := Slot(policy, kind, xs[0].createdAt);
      if slot in more {
        WalkShrinks(xs[1..], policy, kind, if slot in seen then seen else seen + {slot}, more);
      } else {
        WalkShrinks(xs[1..], policy, kind, seen + {slot}, more + {slot});
      }
    }
  }

  ghost predicate NewerThan(x: Item, items: seq<Item>) {
    forall y :: y in items ==> y.createdAt < x.createdAt && y.id != x.id
  }

  lemma SortedNewer(x: Item, items: seq<Item>)
    requires NewerThan(x, items)
    ensures Sorted([x] + items) == [x] + Sorted(items)
  {
    assert ([x] + items)[1..] == items;
    SortedOrders(items);
    if Sorted(items) != [] { assert Sorted(items)[0] in multiset(Sorted(items)); }
  }

  lemma WalkNewer(x: Item, xs: seq<Item>, policy: Policy, kind: Kind)
    ensures Walk([x] + xs, policy, kind, {}) <= {x.id} + Walk(xs, policy, kind, {})
  {
    assert ([x] + xs)[1..] == xs;
    WalkShrinks(xs, policy, kind, {}, {Slot(policy, kind, x.createdAt)});
  }

  lemma KeepSortedNewer(x: Item, xs: seq<Item>, policy: Policy)
    ensures KeepSorted([x] + xs, policy) <= {x.id} + KeepSorted(xs, policy)
  {
    WalkNewer(x, xs, policy, Day);
    WalkNewer(x, xs, policy, Week);
    WalkNewer(x, xs, policy, Month);
    assert Pinned([x] + xs) <= {x.id} + Pinned(xs);
    assert Newest([x] + xs) == {x.id};
  }

  /** A new backup only ever takes older ones out of what is kept. */
  lemma KeepNewer(x: Item, items: seq<Item>, policy: Policy)
    requires NewerThan(x, items)
    ensures Keep([x] + items, policy) <= {x.id} + Keep(items, policy)
  {
    SortedNewer(x, items);
    KeepSortedNewer(x, Sorted(items), policy);
  }

  /** Adding a backup to a pruned catalog keeps what adding it to the full history keeps. */
  lemma KeepNewerClosed(x: Item, items: seq<Item>, live: set<Id>, policy: Policy)
    requires NewerThan(x, items) && Keep(items, policy) <= live
    ensures Keep([x] + Filter(items, live), policy) == Keep([x] + items, policy)
  {
    KeepNewer(x, items, policy);
    KeepClosed([x] + items, {x.id} + live, policy);
    assert ([x] + items)[1..] == items;
    FilterSame(items, live, {x.id} + live);
  }

  lemma {:induction false} FilterSame(items: seq<Item>, live: set<Id>, other: set<Id>)
    requires forall x :: x in items ==> (x.id in live <==> x.id in other)
    ensures Filter(items, live) == Filter(items, other)
  {
    if items != [] { FilterSame(items[1..], live, other); }
  }

  // ----- a whole history

  datatype Event = Arrive(item: Item) | Prune(gone: set<Id>)

  datatype History = History(all: seq<Item>, live: set<Id>)

  /** A prune that may stop half way: it removes some of what retention does not keep. */
  ghost predicate Possible(h: History, e: Event, policy: Policy) {
    match e
    case Arrive(x) => NewerThan(x, h.all)
    case Prune(gone) => gone !! Keep(Filter(h.all, h.live), policy)
  }

  function After(h: History, e: Event): History {
    match e
    case Arrive(x) => History([x] + h.all, h.live + {x.id})
    case Prune(gone) => h.(live := h.live - gone)
  }

  function Final(events: seq<Event>): History
    decreases |events|
  {
    if events == [] then History([], {}) else After(Final(events[..|events| - 1]), events[|events| - 1])
  }

  ghost predicate Lawful(events: seq<Event>, policy: Policy) {
    forall i :: 0 <= i < |events| ==> Possible(Final(events[..i]), events[i], policy)
  }

  lemma StepKeepsRetained(h: History, e: Event, policy: Policy)
    requires Keep(h.all, policy) <= h.live && Possible(h, e, policy)
    ensures Keep(After(h, e).all, policy) <= After(h, e).live
  {
    KeepClosed(h.all, h.live, policy);
    match e
    case Arrive(x) => KeepNewer(x, h.all, policy);
    case Prune(gone) =>
  }

  /** However often pruning runs and wherever it stops, it keeps what one pass over the full history keeps. */
  lemma {:induction false} PruningIsOnePass(events: seq<Event>, policy: Policy)
    requires Lawful(events, policy)
    ensures var h := Final(events);
      Keep(h.all, policy) <= h.live && Keep(Filter(h.all, h.live), policy) == Keep(h.all, policy)
    decreases |events|
  {
    if events == [] {
      assert Sorted([]) == [];
    } else {
      var earlier := events[..|events| - 1];
      assert forall i :: 0 <= i < |earlier| ==> earlier[..i] == events[..i];
      PruningIsOnePass(earlier, policy);
      StepKeepsRetained(Final(earlier), events[|events| - 1], policy);
    }
    KeepClosed(Final(events).all, Final(events).live, policy);
  }
}
