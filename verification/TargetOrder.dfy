/** Round order: what reorder makes of it, which line speaks for the instance, and which target a name means. */
module TargetOrder {
  import opened Wrappers
  import opened Sorting
  import opened Targets
  import opened TargetStore

  // ------------------------------------------------------------------- covering them all

  lemma {:induction false} SetOfDistinct(s: seq<int>)
    ensures |set x | x in s| <= |s|
    ensures |set x | x in s| == |s| <==> forall i, j :: 0 <= i < j < |s| ==> s[i] != s[j]
  {
    var all := set x | x in s;
    if s == [] {
    } else {
      var init, last := s[..|s| - 1], s[|s| - 1];
      var before := set x | x in init;
      SetOfDistinct(init);
      assert s == init + [last];
      assert all == before + {last};
      if last in init {
        assert all == before;
        var k :| 0 <= k < |init| && init[k] == last;
        assert s[k] == s[|s| - 1];
      } else {
        assert forall i, j :: 0 <= i < j < |init| ==> init[i] == s[i] && init[j] == s[j];
      }
    }
  }

  lemma IdsAre(table: Table)
    requires DistinctIds(table)
    ensures forall i, j :: 0 <= i < j < |Ids(table)| ==> Ids(table)[i] != Ids(table)[j]
  {
  }

  /** Two lists without repeats, as long as each other, one holding the other's elements, hold the same. */
  lemma SameSizeSameSet(a: set<int>, b: set<int>)
    requires a <= b && |a| == |b|
    ensures a == b
  {
    assert b == a + (b - a);
    assert |b - a| == 0;
  }

  lemma CoveringIsPermuting(table: Table, ids: seq<int>)
    requires DistinctIds(table) && CoversAll(table, ids)
    ensures multiset(ids) == multiset(Ids(table))
  {
    var stored := Ids(table);
    IdsAre(table);
    SetOfDistinct(ids);
    SetOfDistinct(stored);
    var a, b := set x | x in stored, set x | x in ids;
    assert a <= b;
    SameSizeSameSet(a, b);
    forall x ensures multiset(ids)[x] == multiset(stored)[x] {
      OnceEach(ids, x);
      OnceEach(stored, x);
      assert x in a <==> x in b;
    }
  }

  lemma PermutingIsCovering(table: Table, ids: seq<int>)
    requires DistinctIds(table) && multiset(ids) == multiset(Ids(table))
    ensures CoversAll(table, ids)
  {
    var stored := Ids(table);
    IdsAre(table);
    SetOfDistinct(stored);
    assert |ids| == |multiset(ids)| == |multiset(stored)| == |stored|;
    assert forall x :: x in ids <==> x in multiset(ids);
    assert forall x :: x in stored <==> x in multiset(stored);
    assert (set x | x in ids) == set x | x in stored;
    forall i | 0 <= i < |table| ensures table[i].id in ids {
      assert stored[i] in stored;
    }
  }

  /** coversAll accepts exactly the permutations of the stored ids. */
  lemma CoversAllIffPermutation(table: Table, ids: seq<int>)
    requires DistinctIds(table)
    ensures CoversAll(table, ids) <==> multiset(ids) == multiset(Ids(table))
  {
    if CoversAll(table, ids) {
      CoveringIsPermuting(table, ids);
    }
    if multiset(ids) == multiset(Ids(table)) {
      PermutingIsCovering(table, ids);
    }
  }

  // ----------------------------------------------------------------------- in that order

  lemma ReorderedStaysKeyed(table: Table, ids: seq<int>)
    requires DistinctIds(table)
    ensures DistinctIds(Reordered(table, ids))
  {
  }

  lemma InPlace(table: Table, ids: seq<int>, t: Target)
    requires CoversAll(table, ids) && t in Reordered(table, ids)
    ensures 0 <= t.sortOrder < |ids| && ids[t.sortOrder] == t.id
  {
    var i :| 0 <= i < |table| && Reordered(table, ids)[i] == t;
    PositionIs(ids, table[i].id);
  }

  lemma NamedIsStored(table: Table, ids: seq<int>, k: nat)
    requires DistinctIds(table) && CoversAll(table, ids) && k < |ids|
    ensures FindId(Reordered(table, ids), ids[k]).Some?
  {
    CoveringIsPermuting(table, ids);
    assert ids[k] in multiset(ids);
    assert ids[k] in Ids(table);
    var i :| 0 <= i < |table| && Ids(table)[i] == ids[k];
    assert Reordered(table, ids)[i].id == ids[k];
    FindIdFinds(Reordered(table, ids), ids[k]);
  }

  /** The target an accepted list names at place k, as reorder leaves it. */
  function AtPlace(table: Table, ids: seq<int>, k: nat): (t: Target)
    requires DistinctIds(table) && CoversAll(table, ids) && k < |ids|
    ensures t in Reordered(table, ids) && t.id == ids[k] && t.sortOrder == k
  {
    NamedIsStored(table, ids, k);
    FindIdFinds(Reordered(table, ids), ids[k]);
    SetOfDistinct(ids);
    var t := Reordered(table, ids)[FindId(Reordered(table, ids), ids[k]).value];
    InPlace(table, ids, t);
    t
  }

  lemma PlacesAreTheRows(table: Table, ids: seq<int>, t: Target)
    requires DistinctIds(table) && CoversAll(table, ids) && t in Reordered(table, ids)
    ensures 0 <= t.sortOrder < |ids| && AtPlace(table, ids, t.sortOrder) == t
  {
    InPlace(table, ids, t);
    ReorderedStaysKeyed(table, ids);
    var other := AtPlace(table, ids, t.sortOrder);
    var after := Reordered(table, ids);
    var i :| 0 <= i < |after| && after[i] == t;
    var j :| 0 <= j < |after| && after[j] == other;
    SameIdSameRow(after, i, j);
  }

  lemma SameIdSameRow(table: Table, i: nat, j: nat)
    requires DistinctIds(table) && i < |table| && j < |table| && table[i].id == table[j].id
    ensures i == j
  {
  }

  /** After reorder, listing the targets answers the list that was given: these ids, in this order. */
  lemma ReorderListsAsGiven(table: Table, ids: seq<int>)
    requires DistinctIds(table) && CoversAll(table, ids)
    ensures Ids(ListAll(Reordered(table, ids))) == ids
  {
    var after := Reordered(table, ids);
    var places := seq(|ids|, k requires 0 <= k < |ids| => AtPlace(table, ids, k));
    ReorderedStaysKeyed(table, ids);
    AheadOrders(after);
    forall t ensures t in ListAll(after) <==> t in places {
      if t in after {
        PlacesAreTheRows(table, ids, t);
        assert places[t.sortOrder] == t;
      }
    }
    OneSortedList(ListAll(after), places, Ahead);
  }

  // ------------------------------------------------------------------- the headline line

  /** Which preference a target answers: scheduled and alerting, alerting, scheduled, any. */
  predicate Answers(t: Target, tier: nat) {
    match tier
    case 0 => t.alerts && t.enabled
    case 1 => t.alerts
    case 2 => t.enabled
    case _ => true
  }

  const TIERS := 4

  /** The best preference it answers. */
  function TierOf(t: Target): nat {
    if Answers(t, 0) then 0 else if Answers(t, 1) then 1 else if Answers(t, 2) then 2 else 3
  }

  function InTier(tier: nat): Target -> bool {
    (t: Target) => TierOf(t) == tier
  }

  function TierOfAll(all: seq<Target>): nat -> seq<Target> {
    (tier: nat) => Filter(all, InTier(tier))
  }

  /** Better tier first; within a tier, as listed. */
  function Preferred(all: seq<Target>): (Target, Target) -> bool {
    (a: Target, b: Target) => TierOf(a) < TierOf(b) || (TierOf(a) == TierOf(b) && Ahead(a, b))
  }

  lemma Included(all: seq<Target>, tier: nat, n: nat, t: Target)
    requires tier < TIERS && n < |all| && t == all[n] && (forall i :: 0 <= i < n ==> all[i] != t)
    ensures Answers(t, tier) && t !in Concat(TierOfAll(all), tier) + Filter(all[..n], InTier(tier)) <==>
            TierOf(t) == tier
  {
    ConcatIs(TierOfAll(all), tier, t);
    FilterIs(all[..n], InTier(tier));
    forall k: nat | k < tier ensures t in TierOfAll(all)(k) <==> TierOf(t) == k {
      FilterIs(all, InTier(k));
    }
  }

  /** headlineOrder: tier by tier, everyone not yet taken. */
  method HeadlineOrder(table: Table) returns (ordered: seq<Target>)
    requires DistinctIds(table)
    ensures ordered == Concat(TierOfAll(ListAll(table)), TIERS)
  {
    var all := ListAll(table);
    AheadOrders(table);
    ordered := [];
    for tier := 0 to TIERS
      invariant ordered == Concat(TierOfAll(all), tier)
    {
      for n := 0 to |all|
        invariant ordered == Concat(TierOfAll(all), tier) + Filter(all[..n], InTier(tier))
      {
        forall i | 0 <= i < n ensures all[i] != all[n] {
          assert Ahead(all[i], all[n]);
        }
        Included(all, tier, n, all[n]);
        assert all[..n + 1] == all[..n] + [all[n]];
        FilterAppends(all[..n], [all[n]], InTier(tier));
        if Answers(all[n], tier) && all[n] !in ordered {
          ordered := ordered + [all[n]];
        }
      }
      assert all[..|all|] == all;
    }
  }

  /** What a target has to say for the instance: alerting weighs more than being scheduled. */
  function Weight(t: Target): nat {
    (if t.alerts then 2 else 0) + (if t.enabled then 1 else 0)
  }

  /** Ahead in the headline order, told of the columns alone. */
  ghost predicate Outranks(a: Target, b: Target) {
    || Weight(a) > Weight(b)
    || (Weight(a) == Weight(b) && (a.sortOrder < b.sortOrder || (a.sortOrder == b.sortOrder && a.id < b.id)))
  }

  /** The headline order lists every target once, better tiers first, each tier in round order. */
  lemma HeadlineOrderIs(table: Table)
    requires DistinctIds(table)
    ensures Sorted(Concat(TierOfAll(ListAll(table)), TIERS), Outranks)
    ensures var ordered := Concat(TierOfAll(ListAll(table)), TIERS);
            && Sorted(ordered, Preferred(ListAll(table)))
            && (forall t :: t in ordered <==> t in table)
            && multiset(ordered) == multiset(table)
  {
    var all := ListAll(table);
    var block, less := TierOfAll(all), Preferred(all);
    AheadOrders(table);
    forall k | 0 <= k < TIERS ensures Sorted(block(k), less) {
      FilterKeepsSorted(all, InTier(k), Ahead);
      FilterIs(all, InTier(k));
      TierIsSorted(block(k), k, less);
    }
    forall i, j, x, y | 0 <= i < j < TIERS && x in block(i) && y in block(j) ensures less(x, y) {
      FilterIs(all, InTier(i));
      FilterIs(all, InTier(j));
    }
    ConcatSorts(block, TIERS, less);
    assert forall a, b :: less(a, b) ==> Outranks(a, b);
    forall t ensures t in Concat(block, TIERS) <==> t in table {
      ConcatIs(block, TIERS, t);
      forall k: nat | k < TIERS ensures t in block(k) <==> t in all && TierOf(t) == k {
        FilterIs(all, InTier(k));
      }
    }
    SortedOnce(Concat(block, TIERS), table, less);
  }

  lemma TierIsSorted(block: seq<Target>, tier: nat, less: (Target, Target) -> bool)
    requires Sorted(block, Ahead) && (forall t :: t in block ==> TierOf(t) == tier)
    requires forall a, b :: TierOf(a) == TierOf(b) && Ahead(a, b) ==> less(a, b)
    ensures Sorted(block, less)
  {
    forall i, j | 0 <= i < j < |block| ensures less(block[i], block[j]) {
      assert block[i] in block && block[j] in block && Ahead(block[i], block[j]);
    }
  }

  lemma SortedOnce(ordered: seq<Target>, table: Table, less: (Target, Target) -> bool)
    requires Sorted(ordered, less) && (forall t :: !less(t, t)) && DistinctIds(table)
    requires forall t :: t in ordered <==> t in table
    ensures multiset(ordered) == multiset(table)
  {
    forall i, j | 0 <= i < j < |ordered| ensures ordered[i] != ordered[j] {
      assert less(ordered[i], ordered[j]);
    }
    forall i, j | 0 <= i < j < |table| ensures table[i] != table[j] {
      assert table[i].id != table[j].id;
    }
    forall t ensures multiset(ordered)[t] == multiset(table)[t] {
      OnceEach(ordered, t);
      OnceEach(table, t);
    }
  }

  // ------------------------------------------------------------------- what a name means

  datatype Index = Index(byName: map<string, int>, byId: map<int, string>)

  function FirstNamed(listed: seq<Target>, name: string): Option<int> {
    if listed == [] then None
    else
      match FirstNamed(listed[..|listed| - 1], name)
      case Some(id) => Some(id)
      case None => if listed[|listed| - 1].name == name then Some(listed[|listed| - 1].id) else None
  }

  ghost predicate NamesFirst(byName: map<string, int>, listed: seq<Target>) {
    forall name :: (if name in byName then Some(byName[name]) else None) == FirstNamed(listed, name)
  }

  ghost predicate IdsLast(byId: map<int, string>, listed: seq<Target>) {
    && (forall id :: id in byId <==> exists k :: 0 <= k < |listed| && listed[k].id == id)
    && forall i :: 0 <= i < |listed| && (forall j :: i < j < |listed| ==> listed[j].id != listed[i].id) ==>
         listed[i].id in byId && byId[listed[i].id] == listed[i].name
  }

  lemma OneMoreId(byId: map<int, string>, listed: seq<Target>, t: Target)
    requires IdsLast(byId, listed)
    ensures IdsLast(byId[t.id := t.name], listed + [t])
  {
    var after, all := byId[t.id := t.name], listed + [t];
    forall id ensures id in after <==> exists k :: 0 <= k < |all| && all[k].id == id {
      if id in byId {
        var k :| 0 <= k < |listed| && listed[k].id == id;
        assert all[k].id == id;
      }
      assert all[|listed|] == t;
    }
    forall i | 0 <= i < |all| && (forall j :: i < j < |all| ==> all[j].id != all[i].id)
      ensures all[i].id in after && after[all[i].id] == all[i].name
    {
      if i < |listed| {
        assert all[|listed|].id != all[i].id;
        forall j | i < j < |listed| ensures listed[j].id != listed[i].id {
          assert all[j].id != all[i].id;
        }
      }
    }
  }

  lemma OneMoreName(byName: map<string, int>, listed: seq<Target>, t: Target)
    requires NamesFirst(byName, listed)
    ensures NamesFirst(if t.name in byName then byName else byName[t.name := t.id], listed + [t])
  {
    assert (listed + [t])[..|listed|] == listed;
  }

  /** targetIndex: the first in round order wins a shared name, the last of an id its name. */
  method TargetIndex(listed: seq<Target>) returns (index: Index)
    ensures NamesFirst(index.byName, listed) && IdsLast(index.byId, listed)
  {
    var byName: map<string, int>, byId: map<int, string> := map[], map[];
    for n := 0 to |listed|
      invariant NamesFirst(byName, listed[..n]) && IdsLast(byId, listed[..n])
    {
      assert listed[..n + 1] == listed[..n] + [listed[n]];
      OneMoreId(byId, listed[..n], listed[n]);
      OneMoreName(byName, listed[..n], listed[n]);
      byId := byId[listed[n].id := listed[n].name];
      if listed[n].name !in byName {
        byName := byName[listed[n].name := listed[n].id];
      }
    }
    assert listed[..|listed|] == listed;
    index := Index(byName, byId);
  }

  /** Target i is the first of its name. */
  ghost predicate FirstAt(listed: seq<Target>, name: string, i: int) {
    0 <= i < |listed| && listed[i].name == name && forall j :: 0 <= j < i ==> listed[j].name != name
  }

  lemma {:induction false} FirstNamedIs(listed: seq<Target>, name: string)
    ensures match FirstNamed(listed, name)
            case Some(id) => exists i :: FirstAt(listed, name, i) && listed[i].id == id
            case None => forall i :: 0 <= i < |listed| ==> listed[i].name != name
  {
    if listed == [] {
    } else {
      var init := listed[..|listed| - 1];
      FirstNamedIs(init, name);
      if FirstNamed(init, name).Some? {
        var i :| FirstAt(init, name, i) && init[i].id == FirstNamed(init, name).value;
        assert FirstAt(listed, name, i);
      } else if listed[|listed| - 1].name == name {
        assert FirstAt(listed, name, |listed| - 1);
      }
    }
  }

  /** importedTargetId: a missing name, and one that answers to nothing here, is an orphan. */
  function ImportedTargetId(listed: seq<Target>, targetName: Option<string>): Option<int> {
    if targetName.None? then None else FirstNamed(listed, targetName.value)
  }

  /**
   A history row exported under a target's name comes back to that target,
   whatever order its instance lists them in - exactly when no target listed
   earlier wears the same name, which a sound store never holds.
   */
  lemma NamesComeBack(table: Table, t: Target)
    requires DistinctIds(table) && t in table
    ensures ImportedTargetId(ListAll(table), Some(t.name)) == Some(t.id)
            <==> forall u :: u in table && Ahead(u, t) ==> u.name != t.name
  {
    var listed := ListAll(table);
    AheadOrders(table);
    FirstNamedIs(listed, t.name);
    var k :| 0 <= k < |listed| && listed[k] == t;
    var first := FirstNamed(listed, t.name);
    assert listed[k].name == t.name;
    var i :| FirstAt(listed, t.name, i) && listed[i].id == first.value;
    if first.value == t.id {
      ListedOnce(table, listed, i, k);
      forall u | u in table && Ahead(u, t) ensures u.name != t.name {
        var m :| 0 <= m < |listed| && listed[m] == u;
        RankedAhead(listed, Ahead, m, k);
      }
    } else {
      assert i < k by { assert i <= k; }
      assert Ahead(listed[i], listed[k]);
      assert listed[i] in listed;
    }
  }

  lemma ListedOnce(table: Table, listed: seq<Target>, i: nat, k: nat)
    requires DistinctIds(table) && Sorted(listed, Ahead) && (forall t :: t in listed <==> t in table)
    requires i < |listed| && k < |listed| && listed[i].id == listed[k].id
    ensures i == k
  {
    assert listed[i] in listed && listed[k] in listed;
    var x :| 0 <= x < |table| && table[x] == listed[i];
    var y :| 0 <= y < |table| && table[y] == listed[k];
    SameIdSameRow(table, x, y);
    AheadOrders(table);
    OnePlace(listed, Ahead, i, k);
  }

  lemma SoundNamesComeBack(env: Env, store: Store, t: Target)
    requires Sound(env, store) && t in store.table
    ensures ImportedTargetId(ListAll(store.table), Some(t.name)) == Some(t.id)
  {
    NamesComeBack(store.table, t);
    var i :| 0 <= i < |store.table| && store.table[i] == t;
    forall u | u in store.table && Ahead(u, t) ensures u.name != t.name {
      var j :| 0 <= j < |store.table| && store.table[j] == u;
      assert i != j;
    }
  }
}
