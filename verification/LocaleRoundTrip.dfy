/** A locale flattened and nested again: exactly which trees come back as they were. */
module LocaleRoundTrip {
  import opened Wrappers
  import opened LocaleTree

  // ------------------------------------------------------------ flatten lists the paths

  /** The flat object of these paths, below a prefix. */
  function Lines<V>(prefix: seq<string>, paths: seq<Path<V>>): Object<V>
    requires PlainPaths(paths)
  {
    seq(|paths|, i requires 0 <= i < |paths| => Entry(Join(prefix + paths[i].parts), Leaf(paths[i].value)))
  }

  lemma {:induction false} IndexIs<V>(props: Object<V>, key: string)
    ensures match IndexOf(props, key)
            case Some(i) => i < |props| && props[i].key == key
            case None => forall j :: 0 <= j < |props| ==> props[j].key != key
  {
    if props == [] {
    } else {
      IndexIs(props[..|props| - 1], key);
    }
  }

  lemma JoinApart(a: seq<string>, b: seq<string>)
    requires a != [] && b != [] && PlainParts(a) && PlainParts(b) && a != b
    ensures Join(a) != Join(b)
  {
    SplitJoin(a);
    SplitJoin(b);
  }

  /** No path is the bare `__proto__`. */
  ghost predicate NoneIsProto<V>(prefix: seq<string>, paths: seq<Path<V>>) {
    forall i :: 0 <= i < |paths| ==> prefix + paths[i].parts != [PROTO]
  }

  lemma JoinIsNotProto(parts: seq<string>)
    requires parts != [] && PlainParts(parts) && parts != [PROTO]
    ensures Join(parts) != PROTO
  {
    SplitJoin(parts);
    SplitAt(PROTO, "");
  }

  lemma OneMoreLine<V>(prefix: seq<string>, done: seq<Path<V>>, path: Path<V>)
    requires PlainPaths(done) && path.parts != [] && PlainParts(path.parts)
    ensures PlainPaths(done + [path])
    ensures Lines(prefix, done + [path]) == Lines(prefix, done) + [Entry(Join(prefix + path.parts), Leaf(path.value))]
  {
  }

  lemma KeysApart(prefix: seq<string>, a: seq<string>, b: seq<string>)
    requires PlainParts(prefix) && PlainParts(a) && PlainParts(b) && a != [] && b != [] && a != b
    ensures Join(prefix + a) != Join(prefix + b)
  {
    assert (prefix + a)[|prefix|..] == a && (prefix + b)[|prefix|..] == b;
    JoinApart(prefix + a, prefix + b);
  }

  lemma PutNew<V>(props: Object<V>, key: string, tree: Tree<V>)
    requires key != PROTO && forall j :: 0 <= j < |props| ==> props[j].key != key
    ensures Put(props, key, tree) == props + [Entry(key, tree)]
  {
    IndexIs(props, key);
  }

  lemma LinesApart<V>(prefix: seq<string>, done: seq<Path<V>>, parts: seq<string>)
    requires PlainParts(prefix) && PlainPaths(done) && parts != [] && PlainParts(parts)
    requires forall j :: 0 <= j < |done| ==> done[j].parts != parts
    ensures forall j :: 0 <= j < |done| ==> Lines(prefix, done)[j].key != Join(prefix + parts)
  {
    forall j | 0 <= j < |done| ensures Lines(prefix, done)[j].key != Join(prefix + parts) {
      KeysApart(prefix, done[j].parts, parts);
    }
  }

  lemma NewLineAppends<V>(prefix: seq<string>, done: seq<Path<V>>, path: Path<V>)
    requires PlainParts(prefix) && PlainPaths(done) && path.parts != [] && PlainParts(path.parts)
    requires (forall j :: 0 <= j < |done| ==> done[j].parts != path.parts) && prefix + path.parts != [PROTO]
    ensures PlainPaths(done + [path])
    ensures Put(Lines(prefix, done), Join(prefix + path.parts), Leaf(path.value)) == Lines(prefix, done + [path])
  {
    JoinIsNotProto(prefix + path.parts);
    LinesApart(prefix, done, path.parts);
    PutNew(Lines(prefix, done), Join(prefix + path.parts), Leaf(path.value));
    OneMoreLine(prefix, done, path);
  }

  lemma {:induction false} AssignAppends<V>(prefix: seq<string>, done: seq<Path<V>>, more: seq<Path<V>>)
    requires PlainParts(prefix) && PlainPaths(done) && PlainPaths(more)
    requires DistinctPaths(done + more) && NoneIsProto(prefix, more)
    ensures PlainPaths(done + more)
    ensures Assign(Lines(prefix, done), Lines(prefix, more)) == Lines(prefix, done + more)
  {
    if more == [] {
      assert done + more == done;
    } else {
      var init, last := more[..|more| - 1], more[|more| - 1];
      assert done + more == (done + init) + [last];
      DistinctInit(done + init, last);
      AssignAppends(prefix, done, init);
      assert Lines(prefix, more)[..|more| - 1] == Lines(prefix, init);
      NewLineAppends(prefix, done + init, last);
    }
  }

  lemma DistinctInit<V>(init: seq<Path<V>>, last: Path<V>)
    requires DistinctPaths(init + [last])
    ensures DistinctPaths(init) && forall j :: 0 <= j < |init| ==> init[j].parts != last.parts
  {
    forall i, j | 0 <= i < j < |init| ensures init[i].parts != init[j].parts {
      assert (init + [last])[i].parts != (init + [last])[j].parts;
    }
    forall j | 0 <= j < |init| ensures init[j].parts != last.parts {
      assert (init + [last])[j].parts != (init + [last])[|init|].parts;
    }
  }

  lemma LinesUnder<V>(prefix: seq<string>, key: string, paths: seq<Path<V>>)
    requires PlainParts(prefix) && Plain(key) && PlainPaths(paths)
    ensures PlainPaths(Under(key, paths))
    ensures Lines(prefix + [key], paths) == Lines(prefix, Under(key, paths))
  {
    forall i | 0 <= i < |paths| ensures prefix + [key] + paths[i].parts == prefix + Under(key, paths)[i].parts {
    }
  }

  /** flatten lists the tree's leaves under their joined paths, in order. */
  lemma {:induction false} FlattenIs<V>(props: Object<V>, prefix: seq<string>)
    requires WellFormed(props) && PlainParts(prefix) && Built(props, false)
    ensures PlainPaths(Paths(props)) && Flatten(props, Prefix(prefix)) == Lines(prefix, Paths(props))
    ensures NoneIsProto(prefix, Paths(props))
    decreases props, 1
  {
    PathsAre(props);
    if props == [] {
    } else {
      var n := |props| - 1;
      WellFormedPrefix(props, n);
      BuiltPrefix(props, false, n);
      FlattenIs(props[..n], prefix);
      PathsOfAre(props[n]);
      EntryFlattens(props[n], prefix);
      var done, more := Paths(props[..n]), PathsOf(props[n]);
      AssignAppends(prefix, done, more);
      FullJoins(prefix, props[n].key);
      if props[n].tree.Leaf? {
        DistinctInit(done, more[0]);
        NewLineAppends(prefix, done, more[0]);
      }
    }
  }

  lemma {:induction false} EntryFlattens<V>(entry: Entry<V>, prefix: seq<string>)
    requires Plain(entry.key) && (entry.tree.Node? ==> WellFormed(entry.tree.kids))
    requires PlainParts(prefix) && BuiltEntry(entry, false)
    ensures PlainPaths(PathsOf(entry)) && NoneIsProto(prefix, PathsOf(entry))
    ensures entry.tree.Node? ==>
              Flatten(entry.tree.kids, Full(Prefix(prefix), entry.key)) == Lines(prefix, PathsOf(entry))
    decreases entry, 0
  {
    PathsOfAre(entry);
    FullJoins(prefix, entry.key);
    match entry.tree
    case Leaf(_) =>
    case Node(kids) =>
      FlattenIs(kids, prefix + [entry.key]);
      LinesUnder(prefix, entry.key, Paths(kids));
      DeeperIsNotProto(prefix, entry.key, Paths(kids));
  }

  lemma DeeperIsNotProto<V>(prefix: seq<string>, key: string, paths: seq<Path<V>>)
    requires PlainPaths(paths)
    ensures NoneIsProto(prefix, Under(key, paths))
  {
    forall i | 0 <= i < |paths| ensures prefix + Under(key, paths)[i].parts != [PROTO] {
      assert |prefix + Under(key, paths)[i].parts| >= 2;
    }
  }

  // -------------------------------------------------------------- nest grows the paths

  function GrowAll<V>(props: Object<V>, paths: seq<Path<V>>): Option<Object<V>>
    requires PlainPaths(paths)
  {
    if paths == [] then Some(props)
    else
      match GrowAll(props, paths[..|paths| - 1])
      case None => None
      case Some(grown) => Grow(grown, paths[|paths| - 1].parts, paths[|paths| - 1].value)
  }

  lemma {:induction false} NestGrows<V>(paths: seq<Path<V>>)
    requires PlainPaths(paths)
    ensures Nest(Lines([], paths)) == GrowAll([], paths)
  {
    if paths == [] {
    } else {
      var n := |paths| - 1;
      NestGrows(paths[..n]);
      assert Lines([], paths)[..n] == Lines([], paths[..n]);
      assert [] + paths[n].parts == paths[n].parts;
      SplitJoin(paths[n].parts);
    }
  }

  lemma {:induction false} GrowMore<V>(props: Object<V>, a: seq<Path<V>>, b: seq<Path<V>>)
    requires PlainPaths(a) && PlainPaths(b) && PlainPaths(a + b)
    ensures GrowAll(props, a + b)
         == match GrowAll(props, a) case None => None case Some(grown) => GrowAll(grown, b)
  {
    if b == [] {
      assert a + b == a;
    } else {
      var init := b[..|b| - 1];
      assert (a + b)[..|a + b| - 1] == a + init;
      GrowMore(props, a, init);
    }
  }

  lemma GrowInto<V>(props: Object<V>, key: string, kids: Object<V>, parts: seq<string>, value: V)
    requires parts != []
    ensures Grow(props + [Entry(key, Node(kids))], [key] + parts, value)
         == match Grow(kids, parts, value)
            case None => None
            case Some(grown) => Some(props + [Entry(key, Node(grown))])
  {
    var before := props + [Entry(key, Node(kids))];
    assert ([key] + parts)[1..] == parts;
    assert IndexOf(before, key) == Some(|props|);
    match Grow(kids, parts, value)
    case None =>
    case Some(grown) => assert before[|props| := Entry(key, Node(grown))] == props + [Entry(key, Node(grown))];
  }

  lemma GrowNew<V>(props: Object<V>, key: string, parts: seq<string>, value: V)
    requires parts != [] && !Inherited(key) && forall j :: 0 <= j < |props| ==> props[j].key != key
    ensures Grow(props, [key] + parts, value)
         == match Grow([], parts, value) case None => None case Some(grown) => Some(props + [Entry(key, Node(grown))])
  {
    IndexIs(props, key);
    var way := [key] + parts;
    assert way[1..] == parts && way[0] == key && |way| > 1;
    assert IndexOf(props, key) == None;
  }

  /** Paths under a new key grow a section of their own at the end. */
  lemma {:induction false} GrowUnder<V>(props: Object<V>, key: string, paths: seq<Path<V>>)
    requires PlainPaths(paths) && PlainPaths(Under(key, paths)) && paths != [] && !Inherited(key)
    requires forall j :: 0 <= j < |props| ==> props[j].key != key
    ensures GrowAll(props, Under(key, paths))
         == match GrowAll([], paths) case None => None case Some(kids) => Some(props + [Entry(key, Node(kids))])
  {
    var n := |paths| - 1;
    var under, last := Under(key, paths), paths[n];
    if n == 0 {
      assert GrowAll(props, under[..0]) == Some(props) && GrowAll([], paths[..0]) == Some([]);
      GrowNew(props, key, last.parts, last.value);
    } else {
      assert under[..n] == Under(key, paths[..n]);
      GrowUnder(props, key, paths[..n]);
      var earlier := GrowAll([], paths[..n]);
      if earlier.Some? {
        GrowInto(props, key, earlier.value, last.parts, last.value);
      }
    }
  }

  lemma {:induction false} HasPaths<V>(props: Object<V>)
    requires Built(props, true) && props != []
    ensures Paths(props) != []
    decreases props
  {
    var last := props[|props| - 1];
    assert BuiltEntry(last, true);
    if last.tree.Node? {
      HasPaths(last.tree.kids);
    }
  }

  lemma LastEntry<V>(props: Object<V>)
    requires WellFormed(props) && Built(props, true) && props != []
    ensures var n := |props| - 1;
            && WellFormed(props[..n]) && Built(props[..n], true)
            && Plain(props[n].key) && (props[n].tree.Node? ==> WellFormed(props[n].tree.kids))
              && BuiltEntry(props[n], true)
            && forall j :: 0 <= j < n ==> props[..n][j].key != props[n].key
  {
    WellFormedPrefix(props, |props| - 1);
    BuiltPrefix(props, true, |props| - 1);
  }

  lemma GrowLast<V>(before: Object<V>, earlier: seq<Path<V>>, last: Entry<V>, later: seq<Path<V>>)
    requires PlainPaths(earlier) && PlainPaths(later)
    requires GrowAll([], earlier) == Some(before) && GrowAll(before, later) == Some(before + [last])
    ensures PlainPaths(earlier + later) && GrowAll([], earlier + later) == Some(before + [last])
  {
    GrowMore([], earlier, later);
  }

  lemma {:induction false} GrowLeaf<V>(props: Object<V>, key: string, value: V)
    requires Plain(key) && key != PROTO && forall j :: 0 <= j < |props| ==> props[j].key != key
    ensures PlainPaths([Path([key], value)])
    ensures GrowAll(props, [Path([key], value)]) == Some(props + [Entry(key, Leaf(value))])
  {
    IndexIs(props, key);
    assert GrowAll(props, [Path([key], value)][..0]) == Some(props);
  }

  lemma {:induction false} GrowSection<V>(props: Object<V>, key: string, kids: Object<V>, paths: seq<Path<V>>)
    requires Plain(key) && !Inherited(key) && forall j :: 0 <= j < |props| ==> props[j].key != key
    requires PlainPaths(paths) && PlainPaths(Under(key, paths)) && paths != [] && GrowAll([], paths) == Some(kids)
    ensures GrowAll(props, Under(key, paths)) == Some(props + [Entry(key, Node(kids))])
  {
    GrowUnder(props, key, paths);
  }

  /** A tree is what its own paths grow. */
  lemma {:induction false} PathsGrowTheTree<V>(props: Object<V>)
    requires WellFormed(props) && Built(props, true)
    ensures PlainPaths(Paths(props)) && GrowAll([], Paths(props)) == Some(props)
    decreases props, 1
  {
    if props == [] {
    } else {
      var before, last := props[..|props| - 1], props[|props| - 1];
      LastEntry(props);
      PathsGrowTheTree(before);
      PathsGrowTheEntry(before, last);
      assert props == before + [last];
      GrowLast(before, Paths(before), last, PathsOf(last));
      assert Paths(props) == Paths(before) + PathsOf(last);
    }
  }

  lemma {:induction false} PathsGrowTheEntry<V>(props: Object<V>, entry: Entry<V>)
    requires Plain(entry.key) && (entry.tree.Node? ==> WellFormed(entry.tree.kids)) && BuiltEntry(entry, true)
    requires forall j :: 0 <= j < |props| ==> props[j].key != entry.key
    ensures PlainPaths(PathsOf(entry)) && GrowAll(props, PathsOf(entry)) == Some(props + [entry])
    decreases entry, 0
  {
    PathsOfAre(entry);
    match entry.tree
    case Leaf(value) =>
      GrowLeaf(props, entry.key, value);
    case Node(kids) =>
      HasPaths(kids);
      PathsGrowTheTree(kids);
      GrowSection(props, entry.key, kids, Paths(kids));
  }

  // ------------------------------------------------------- what nest can and cannot build

  lemma PutKeepsBuilt<V>(props: Object<V>, filled: bool, key: string, value: V)
    requires Built(props, filled)
    ensures Built(Put(props, key, Leaf(value)), filled)
    ensures key != PROTO ==> Put(props, key, Leaf(value)) != []
  {
    IndexIs(props, key);
    var after := Put(props, key, Leaf(value));
    forall i | 0 <= i < |after| ensures BuiltEntry(after[i], filled) {
      if i < |props| && after[i] == props[i] {
        assert BuiltEntry(props[i], filled);
      }
    }
  }

  lemma {:induction false} GrowKeepsBuilt<V>(props: Object<V>, filled: bool, parts: seq<string>, value: V)
    requires Built(props, filled) && parts != [] && Grow(props, parts, value).Some?
    requires filled ==> parts[|parts| - 1] != PROTO
    ensures Built(Grow(props, parts, value).value, filled)
    ensures filled ==> Grow(props, parts, value).value != []
    decreases |parts|
  {
    if |parts| == 1 {
      PutKeepsBuilt(props, filled, parts[0], value);
    } else {
      IndexIs(props, parts[0]);
      var i := IndexOf(props, parts[0]);
      var under := if i.Some? then props[i.value].tree.kids else [];
      assert i.Some? ==> BuiltEntry(props[i.value], filled);
      GrowKeepsBuilt(under, filled, parts[1..], value);
      var entry := Entry(parts[0], Node(Grow(under, parts[1..], value).value));
      assert BuiltEntry(entry, filled);
      var after := Grow(props, parts, value).value;
      forall j | 0 <= j < |after| ensures BuiltEntry(after[j], filled) {
        if j < |props| && i != Some(j) {
          assert BuiltEntry(props[j], filled);
        }
      }
    }
  }

  /** Whatever flat object is nested, no section stands under an inherited name and no leaf is `__proto__`. */
  lemma {:induction false} NestBuilds<V>(flat: Object<V>)
    requires Nest(flat).Some?
    ensures Built(Nest(flat).value, false)
  {
    if flat == [] {
    } else {
      var n := |flat| - 1;
      NestBuilds(flat[..n]);
      GrowKeepsBuilt(Nest(flat[..n]).value, false, Split(flat[n].key), flat[n].tree.value);
    }
  }

  ghost predicate NoneEndsInProto<V>(paths: seq<Path<V>>) {
    forall i :: 0 <= i < |paths| ==> paths[i].parts != [] && paths[i].parts[|paths[i].parts| - 1] != PROTO
  }

  lemma {:induction false} LeavesAreNotProto<V>(props: Object<V>)
    requires WellFormed(props) && Built(props, false)
    ensures NoneEndsInProto(Paths(props))
    decreases props
  {
    if props == [] {
    } else {
      var n := |props| - 1;
      WellFormedPrefix(props, n);
      BuiltPrefix(props, false, n);
      LeavesAreNotProto(props[..n]);
      assert BuiltEntry(props[n], false);
      if props[n].tree.Node? {
        LeavesAreNotProto(props[n].tree.kids);
      }
    }
  }

  lemma {:induction false} GrowAllFills<V>(paths: seq<Path<V>>)
    requires PlainPaths(paths) && NoneEndsInProto(paths) && GrowAll([], paths).Some?
    ensures Built(GrowAll<V>([], paths).value, true)
  {
    if paths == [] {
    } else {
      var n := |paths| - 1;
      GrowAllFills(paths[..n]);
      GrowKeepsBuilt(GrowAll<V>([], paths[..n]).value, true, paths[n].parts, paths[n].value);
    }
  }

  /**
   The round trip, key order on every level included. It holds exactly for the
   trees without an empty section, without a section named like something every
   object inherits, and without a leaf named `__proto__`.
   */
  lemma NestFlattenIff<V>(props: Object<V>)
    requires WellFormed(props)
    ensures Nest(Flatten(props, "")) == Some(props) <==> Built(props, true)
  {
    if Built(props, true) {
      FilledIsBuilt(props);
      FlattenIs(props, []);
      NestGrows(Paths(props));
      PathsGrowTheTree(props);
    }
    if Nest(Flatten(props, "")) == Some(props) {
      NestBuilds(Flatten(props, ""));
      FlattenIs(props, []);
      NestGrows(Paths(props));
      LeavesAreNotProto(props);
      GrowAllFills(Paths(props));
    }
  }

  lemma {:induction false} FilledIsBuilt<V>(props: Object<V>)
    requires Built(props, true)
    ensures Built(props, false)
    decreases props
  {
    forall i | 0 <= i < |props| ensures BuiltEntry(props[i], false) {
      assert BuiltEntry(props[i], true);
      if props[i].tree.Node? {
        FilledIsBuilt(props[i].tree.kids);
      }
    }
  }
}
