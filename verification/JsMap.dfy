/**
 The JavaScript Map: entries with distinct keys in insertion order. And the
 bounded table of entries that expire, which two parts of the server keep in one.

 Writing a key that is already there keeps its place; deleting it first moves
 it to the tail. The bounded tables evict from the head.
 */
module JsMap {
  import opened Wrappers

  datatype JsMap<!K(==), V> = JsMap(keys: seq<K>, vals: map<K, V>) {

    ghost predicate Valid() {
      && (forall i, j :: 0 <= i < j < |keys| ==> keys[i] != keys[j])
      && (forall k :: k in keys ==> k in vals)
      && (forall k :: k in vals ==> k in keys)
    }

    predicate Has(k: K) {
      k in vals
    }

    function Get(k: K): Option<V> {
      if k in vals then Some(vals[k]) else None
    }

    function Size(): nat {
      |keys|
    }

    function Set(k: K, v: V): (m: JsMap<K, V>)
      requires Valid()
      ensures m.Valid()
    {
      if k in vals then JsMap(keys, vals[k := v]) else JsMap(keys + [k], vals[k := v])
    }

    function Delete(k: K): (m: JsMap<K, V>)
      requires Valid()
      ensures m.Valid() && m.vals == vals - {k}
      ensures m.Size() == if k in vals then Size() - 1 else Size()
    {
      if k in vals then
        var i := IndexOf(keys, k);
        JsMap(keys[..i] + keys[i + 1..], vals - {k})
      else
        this
    }

    /** delete(keys().next().value): the head goes; an empty map has no head. */
    function DeleteHead(): (m: JsMap<K, V>)
      requires Valid()
      ensures m.Valid()
    {
      if keys == [] then this else JsMap(keys[1..], vals - {keys[0]})
    }

    /** Room for a newcomer: at the cap the head has to go. */
    function MakeRoom(cap: nat): (m: JsMap<K, V>)
      requires Valid()
      ensures m.Valid()
    {
      if Size() >= cap then DeleteHead() else this
    }

    /** Nothing ranks above `latest`. */
    ghost predicate DueBy(rank: V -> int, latest: int) {
      forall k :: k in vals ==> rank(vals[k]) <= latest
    }

    /** Keeping `order` between all earlier and later entries. */
    ghost predicate Sorted(rank: V -> int) {
      && (forall k :: k in keys ==> k in vals)
      && forall i, j :: 0 <= i < j < |keys| ==> rank(vals[keys[i]]) <= rank(vals[keys[j]])
    }
  }

  function Empty<K(==), V>(): (m: JsMap<K, V>)
    ensures m.Valid()
  {
    JsMap([], map[])
  }

  function IndexOf<K(==)>(s: seq<K>, k: K): (i: nat)
    requires k in s
    ensures i < |s| && s[i] == k
  {
    if s[0] == k then 0 else 1 + IndexOf(s[1..], k)
  }

  /** As many keys as there are entries. */
  lemma KeysAreTheDomain<K, V>(m: JsMap<K, V>)
    requires m.Valid()
    ensures |m.keys| == |m.vals.Keys|
    decreases |m.keys|
  {
    if m.keys != [] {
      var rest := m.DeleteHead();
      KeysAreTheDomain(rest);
      assert m.vals.Keys == rest.vals.Keys + {m.keys[0]};
    } else {
      assert m.vals.Keys == {};
    }
  }

  /** Where a surviving key sat before another one was deleted. */
  lemma DeletedAt<K, V>(m: JsMap<K, V>, k: K, i: nat)
    requires m.Valid() && m.Has(k) && i < |m.Delete(k).keys|
    ensures var source := if i < IndexOf(m.keys, k) then i else i + 1;
            && source < |m.keys| && m.Delete(k).keys[i] == m.keys[source] && m.keys[source] != k
            && m.keys[source] in m.vals && m.Delete(k).vals[m.keys[source]] == m.vals[m.keys[source]]
  {
  }

  /** Removing entries keeps the order of those that stay. */
  lemma DeletingKeepsSorted<K, V>(m: JsMap<K, V>, k: K, rank: V -> int)
    requires m.Valid() && m.Sorted(rank)
    ensures m.Delete(k).Sorted(rank)
  {
    if m.Has(k) {
      var d := m.Delete(k);
      forall i, j | 0 <= i < j < |d.keys|
        ensures rank(d.vals[d.keys[i]]) <= rank(d.vals[d.keys[j]])
      {
        DeletedAt(m, k, i);
        DeletedAt(m, k, j);
      }
    }
  }

  lemma DeletingHeadKeepsSorted<K, V>(m: JsMap<K, V>, rank: V -> int)
    requires m.Valid() && m.Sorted(rank)
    ensures m.DeleteHead().Sorted(rank)
  {
    var d := m.DeleteHead();
    forall i, j | 0 <= i < j < |d.keys|
      ensures rank(d.vals[d.keys[i]]) <= rank(d.vals[d.keys[j]])
    {
      assert d.keys[i] == m.keys[i + 1] && d.keys[j] == m.keys[j + 1];
    }
  }

  /** A new key goes to the tail: it keeps the order when nothing outranks it. */
  lemma AppendingKeepsSorted<K, V>(m: JsMap<K, V>, k: K, v: V, rank: V -> int)
    requires m.Valid() && m.Sorted(rank) && !m.Has(k)
    requires forall x :: x in m.vals ==> rank(m.vals[x]) <= rank(v)
    ensures m.Set(k, v).Sorted(rank)
  {
    var s := m.Set(k, v);
    forall i, j | 0 <= i < j < |s.keys|
      ensures rank(s.vals[s.keys[i]]) <= rank(s.vals[s.keys[j]])
    {
      assert s.keys[i] == m.keys[i];
    }
  }

  /** Rewriting a value of the same rank moves nothing. */
  lemma UpdatingKeepsSorted<K, V>(m: JsMap<K, V>, k: K, v: V, rank: V -> int)
    requires m.Valid() && m.Sorted(rank) && m.Has(k) && rank(m.vals[k]) == rank(v)
    ensures m.Set(k, v).Sorted(rank)
  {
    var s := m.Set(k, v);
    forall i, j | 0 <= i < j < |s.keys|
      ensures rank(s.vals[s.keys[i]]) <= rank(s.vals[s.keys[j]])
    {
      assert rank(s.vals[m.keys[i]]) == rank(m.vals[m.keys[i]]);
      assert rank(s.vals[m.keys[j]]) == rank(m.vals[m.keys[j]]);
    }
  }

  /** The head of an ordered map ranks lowest. */
  lemma HeadRanksLowest<K, V>(m: JsMap<K, V>, rank: V -> int)
    requires m.Valid() && m.Sorted(rank) && m.keys != []
    ensures forall k :: k in m.vals ==> rank(m.vals[m.keys[0]]) <= rank(m.vals[k])
  {
    forall k | k in m.vals ensures rank(m.vals[m.keys[0]]) <= rank(m.vals[k]) {
      var i := IndexOf(m.keys, k);
      assert rank(m.vals[m.keys[0]]) <= rank(m.vals[m.keys[i]]);
    }
  }

  // ------------------------------------------- a bounded table of entries that expire

  /** A client's entry opened anew: forgotten, room made if need be, written at the tail. */
  function Opened<K(==), V>(m: JsMap<K, V>, k: K, v: V, cap: nat): (r: JsMap<K, V>)
    requires m.Valid()
    ensures r.Valid()
  {
    m.Delete(k).MakeRoom(cap).Set(k, v)
  }

  lemma OpeningKeepsSorted<K, V>(m: JsMap<K, V>, k: K, v: V, cap: nat, rank: V -> int)
    requires m.Valid() && m.Sorted(rank) && m.DueBy(rank, rank(v))
    ensures Opened(m, k, v, cap).Sorted(rank)
  {
    DeletingKeepsSorted(m, k, rank);
    DeletingHeadKeepsSorted(m.Delete(k), rank);
    AppendingKeepsSorted(m.Delete(k).MakeRoom(cap), k, v, rank);
  }

  lemma OpeningKeepsBounds<K, V>(m: JsMap<K, V>, k: K, v: V, cap: nat, rank: V -> int)
    requires m.Valid() && m.Size() <= Max(1, cap) && m.DueBy(rank, rank(v))
    ensures Opened(m, k, v, cap).Size() <= Max(1, cap) && Opened(m, k, v, cap).DueBy(rank, rank(v))
  {
  }

  /** Whoever has to go expires no later than anyone who stays. */
  lemma EvictedIsDueFirst<K, V>(m: JsMap<K, V>, k: K, v: V, cap: nat, rank: V -> int, victim: K)
    requires m.Valid() && m.Sorted(rank) && victim != k
    requires m.Has(victim) && !Opened(m, k, v, cap).Has(victim)
    ensures forall x :: x in m.vals && x != k ==> rank(m.vals[victim]) <= rank(m.vals[x])
  {
    DeletingKeepsSorted(m, k, rank);
    HeadRanksLowest(m.Delete(k), rank);
  }
}
