/** The merged locale as the file it is written to: exactly when it can be, and what is in it then. */
module LocaleFile {
  import opened Wrappers
  import opened Sorting
  import opened LocaleTree
  import opened LocaleRoundTrip
  import opened LocaleMerge
  import opened LocaleMergeTree

  // -------------------------------------------------------------------- English's own blocks

  function BlockFor<V>(source: Object<V>, combined: Object<V>): string -> Object<V> {
    key => Block(source, ReferenceIn(source), combined, key)
  }

  /** The leaves of this part of English are keys of the whole. */
  ghost predicate KeysOf<V>(source: Object<V>, section: seq<string>, paths: seq<Path<V>>) {
    forall i :: 0 <= i < |paths| ==> paths[i].parts != [] && IsKey(source, Join(section + paths[i].parts))
  }

  lemma {:induction false} PathsContain<V>(kids: Object<V>, i: nat, p: Path<V>)
    requires i < |kids| && p in PathsOf(kids[i])
    ensures p in Paths(kids)
  {
    if i < |kids| - 1 {
      PathsContain(kids[..|kids| - 1], i, p);
    }
  }

  lemma KeysBelow<V>(source: Object<V>, kids: Object<V>, section: seq<string>, i: nat)
    requires KeysOf(source, section, Paths(kids)) && i < |kids|
    ensures kids[i].tree.Leaf? ==> IsKey(source, Join(section + [kids[i].key]))
    ensures kids[i].tree.Node? && PlainPaths(Paths(kids[i].tree.kids)) ==>
              KeysOf(source, section + [kids[i].key], Paths(kids[i].tree.kids))
  {
    match kids[i].tree
    case Leaf(value) =>
      var p := Path([kids[i].key], value);
      PathsContain(kids, i, p);
      var k :| 0 <= k < |Paths(kids)| && Paths(kids)[k] == p;
      assert section + Paths(kids)[k].parts == section + [kids[i].key];
    case Node(sub) =>
      if PlainPaths(Paths(sub)) {
        forall j | 0 <= j < |Paths(sub)| ensures IsKey(source, Join(section + [kids[i].key] + Paths(sub)[j].parts)) {
          var p := Under(kids[i].key, Paths(sub))[j];
          PathsContain(kids, i, p);
          var k :| 0 <= k < |Paths(kids)| && Paths(kids)[k] == p;
          assert section + Paths(kids)[k].parts == section + [kids[i].key] + Paths(sub)[j].parts;
        }
      }
  }

  /** A line written for an English key stands in that key's section. */
  lemma LineInSection<V(!new)>(source: Object<V>, combined: Object<V>, section: seq<string>, key: string, e: Entry<V>)
    requires Flat(source) && Flat(combined) && PlainParts(section) && Plain(key) && key != PROTO
    requires IsKey(source, Join(section + [key])) && e in BlockFor(source, combined)(Join(section + [key]))
    ensures e in combined && LocaleReferenceKey(source, e.key) == Some(Join(section + [key]))
    ensures FormName(NameOf(e.key)) && e.key == Join(section + [NameOf(e.key)])
  {
    LocaleReferencesAre(source);
    BlockIs(source, ReferenceIn(source), combined, Join(section + [key]), e);
    if IsKey(source, e.key) {
      SplitJoin(section + [key]);
    } else {
      FormSharesSection(source, section, key, e.key);
    }
  }

  lemma EnglishBlockInSection<V(!new)>(source: Object<V>, combined: Object<V>, section: seq<string>, key: string)
    requires Flat(source) && Flat(combined) && PlainParts(section) && Plain(key) && key != PROTO
    requires IsKey(source, Join(section + [key]))
    ensures InSection(BlockFor(source, combined)(Join(section + [key])), section)
  {
    var full := Join(section + [key]);
    var block := BlockFor(source, combined)(full);
    LocaleReferencesAre(source);
    BlockInOrder(source, ReferenceIn(source), combined, full);
    forall i, j | 0 <= i < j < |block| ensures block[i].key != block[j].key {
      assert InOrder(source, ReferenceIn(source))(block[i], block[j]);
    }
    forall i | 0 <= i < |block|
      ensures block[i].tree.Leaf? && FormName(NameOf(block[i].key))
              && block[i].key == Join(section + [NameOf(block[i].key)])
    {
      assert block[i] in block;
      LineInSection(source, combined, section, key, block[i]);
    }
  }

  /** Lines written for different keys of a section are different keys. */
  lemma LeavesApart<V(!new)>(source: Object<V>, combined: Object<V>, section: seq<string>, a: string, b: string)
    requires Flat(source) && Flat(combined) && PlainParts(section) && Plain(a) && Plain(b) && a != b && a != PROTO
             && b != PROTO
    requires IsKey(source, Join(section + [a])) && IsKey(source, Join(section + [b]))
    ensures KeysApartIn(BlockFor(source, combined)(Join(section + [a])),
                        BlockFor(source, combined)(Join(section + [b])))
  {
    var x, y := BlockFor(source, combined)(Join(section + [a])), BlockFor(source, combined)(Join(section + [b]));
    KeysApart(section, [a], [b]);
    forall i, j | 0 <= i < |x| && 0 <= j < |y| ensures x[i].key != y[j].key {
      assert x[i] in x && y[j] in y;
      LineInSection(source, combined, section, a, x[i]);
      LineInSection(source, combined, section, b, y[j]);
    }
  }

  // ------------------------------------------------------------- lines that can share a file

  /** No line's key, and a dot, begins another's: no text stands where a section has to. */
  ghost predicate PrefixFree<V(!new)>(flat: Object<V>) {
    forall e, f :: e in flat && f in flat ==> !(e.key + "." <= f.key)
  }

  lemma {:induction false} JoinPrefix(a: seq<string>, b: seq<string>)
    requires a != [] && b != []
    ensures Join(a + b) == Join(a) + "." + Join(b)
  {
    if |a| == 1 {
      assert (a + b)[1..] == b;
    } else {
      JoinPrefix(a[1..], b);
      assert (a + b)[1..] == a[1..] + b;
    }
  }

  lemma {:induction false} BlocksOfIs<V(!new)>(block: string -> Object<V>, lines: Object<V>, e: Entry<V>)
    ensures e in BlocksOf(block, lines) <==> exists i :: 0 <= i < |lines| && e in block(lines[i].key)
  {
    if lines == [] {
    } else {
      var init := lines[..|lines| - 1];
      BlocksOfIs(block, init, e);
      if e in BlocksOf(block, init) {
        var i :| 0 <= i < |init| && e in block(init[i].key);
        assert e in block(lines[i].key);
      }
    }
  }

  lemma {:induction false} ConcatIsBlocks<V>(block: string -> Object<V>, at: nat -> Object<V>, lines: Object<V>, n: nat)
    requires n <= |lines| && forall i :: 0 <= i < n ==> at(i) == block(lines[i].key)
    ensures Concat(at, n) == BlocksOf(block, lines[..n])
  {
    if n == 0 {
    } else {
      ConcatIsBlocks(block, at, lines, n - 1);
      assert lines[..n][..n - 1] == lines[..n - 1];
    }
  }

  lemma MergedAreBlocks<V>(source: Object<V>, combined: Object<V>)
    ensures Merged(source, ReferenceIn(source), combined) == BlocksOf(BlockFor(source, combined), source)
  {
    var at, block := BlockAt(source, ReferenceIn(source), combined), BlockFor(source, combined);
    forall i | 0 <= i < |source| ensures at(i) == block(source[i].key) {
    }
    ConcatIsBlocks(block, at, source, |source|);
    assert source[..|source|] == source;
  }

  /** A section under which something is written has a merged line below it. */
  lemma WrittenBelow<V(!new)>(source: Object<V>, combined: Object<V>, node: Entry<V>, section: seq<string>)
    returns (line: Entry<V>)
    requires Flat(source) && Flat(combined) && PlainParts(section) && node.tree.Node? && Plain(node.key)
    requires WellFormed(node.tree.kids) && Built(node.tree.kids, false)
    requires KeysOf(source, section + [node.key], Paths(node.tree.kids))
    requires Tidy(BlockFor(source, combined), node.tree.kids, section + [node.key])
    requires MergeEntry(BlockFor(source, combined), node, section) != []
    ensures line in Merged(source, ReferenceIn(source), combined)
    ensures Join(section + [node.key]) + "." <= line.key
  {
    var block, inner, kids := BlockFor(source, combined), section + [node.key], node.tree.kids;
    var merged := MergeKids(block, kids, inner);
    MergedTreeIsSound(block, kids, inner);
    MergedTreeFlattens(block, kids, inner);
    HasPaths(merged);
    line := Lines(inner, Paths(merged))[0];
    JoinPrefix(inner, Paths(merged)[0].parts);
    var lines := Lines(inner, Paths(kids));
    BlocksOfIs(block, lines, line);
    var i :| 0 <= i < |lines| && line in block(lines[i].key);
    assert IsKey(source, lines[i].key);
    LocaleReferencesAre(source);
    BlockIs(source, ReferenceIn(source), combined, lines[i].key, line);
    MergedIsExactly(source, ReferenceIn(source), combined, line);
  }

  lemma LeafApartFromSection<V(!new)>(source: Object<V>, combined: Object<V>, section: seq<string>,
                                      leaf: string, line: Entry<V>,
                                      node: string)
    requires Flat(source) && Flat(combined) && PlainParts(section) && Plain(leaf) && leaf != PROTO
    requires IsKey(source, Join(section + [leaf])) && PrefixFree(Merged(source, ReferenceIn(source), combined))
    requires line in Merged(source, ReferenceIn(source), combined) && Join(section + [node]) + "." <= line.key
    ensures KeyAbsent(BlockFor(source, combined)(Join(section + [leaf])), Join(section + [node]))
  {
    var block := BlockFor(source, combined)(Join(section + [leaf]));
    LocaleReferencesAre(source);
    forall i | 0 <= i < |block| ensures block[i].key != Join(section + [node]) {
      assert block[i] in block;
      LineInSection(source, combined, section, leaf, block[i]);
      MergedIsExactly(source, ReferenceIn(source), combined, block[i]);
    }
  }

  /** What a leaf and a section beside it write. */
  lemma LeafAndSectionApart<V(!new)>(source: Object<V>, combined: Object<V>, kids: Object<V>, section: seq<string>,
                                     leaf: nat, node: nat)
    requires Flat(source) && Flat(combined) && WellFormed(kids) && Built(kids, false) && PlainParts(section)
    requires KeysOf(source, section, Paths(kids)) && PrefixFree(Merged(source, ReferenceIn(source), combined))
    requires leaf < |kids| && node < |kids| && kids[leaf].tree.Leaf? && kids[node].tree.Node?
    requires TidyEntry(BlockFor(source, combined), kids[node], section)
    ensures MergeEntry(BlockFor(source, combined), kids[node], section) != [] ==>
              KeyAbsent(BlockFor(source, combined)(Join(section + [kids[leaf].key])), Join(section + [kids[node].key]))
  {
    assert BuiltEntry(kids[leaf], false) && BuiltEntry(kids[node], false) && Plain(kids[leaf].key)
           && Plain(kids[node].key);
    if MergeEntry(BlockFor(source, combined), kids[node], section) != [] {
      KeysBelow(source, kids, section, leaf);
      PathsAre(kids[node].tree.kids);
      KeysBelow(source, kids, section, node);
      var line := WrittenBelow(source, combined, kids[node], section);
      LeafApartFromSection(source, combined, section, kids[leaf].key, line, kids[node].key);
    }
  }

  lemma EnglishNeighboursApart<V(!new)>(source: Object<V>, combined: Object<V>, kids: Object<V>, section: seq<string>,
                                        i: nat, j: nat)
    requires Flat(source) && Flat(combined) && WellFormed(kids) && Built(kids, false) && PlainParts(section)
    requires KeysOf(source, section, Paths(kids)) && PrefixFree(Merged(source, ReferenceIn(source), combined))
             && i < j < |kids|
    requires TidyEntry(BlockFor(source, combined), kids[i], section)
             && TidyEntry(BlockFor(source, combined), kids[j], section)
    ensures NeighboursApart(BlockFor(source, combined), kids[i], kids[j], section)
  {
    var a, b := kids[i], kids[j];
    assert BuiltEntry(a, false) && BuiltEntry(b, false) && a.key != b.key && Plain(a.key) && Plain(b.key);
    if a.tree.Leaf? && b.tree.Leaf? {
      KeysBelow(source, kids, section, i);
      KeysBelow(source, kids, section, j);
      LeavesApart(source, combined, section, a.key, b.key);
    } else if a.tree.Leaf? {
      LeafAndSectionApart(source, combined, kids, section, i, j);
    } else if b.tree.Leaf? {
      LeafAndSectionApart(source, combined, kids, section, j, i);
    }
  }

  lemma {:induction false} EnglishIsTidy<V(!new)>(source: Object<V>, combined: Object<V>, kids: Object<V>,
                                                  section: seq<string>)
    requires Flat(source) && Flat(combined) && WellFormed(kids) && Built(kids, false) && PlainParts(section)
    requires KeysOf(source, section, Paths(kids)) && PrefixFree(Merged(source, ReferenceIn(source), combined))
    ensures Tidy(BlockFor(source, combined), kids, section)
    decreases kids
  {
    forall i | 0 <= i < |kids| ensures TidyEntry(BlockFor(source, combined), kids[i], section) {
      assert BuiltEntry(kids[i], false) && Plain(kids[i].key);
      match kids[i].tree
      case Leaf(_) =>
        KeysBelow(source, kids, section, i);
        EnglishBlockInSection(source, combined, section, kids[i].key);
      case Node(sub) =>
        PathsAre(sub);
        KeysBelow(source, kids, section, i);
        EnglishIsTidy(source, combined, sub, section + [kids[i].key]);
    }
    forall i, j | 0 <= i < j < |kids| ensures NeighboursApart(BlockFor(source, combined), kids[i], kids[j], section) {
      EnglishNeighboursApart(source, combined, kids, section, i, j);
    }
  }

  lemma EnglishKeys<V>(english: Object<V>)
    requires WellFormed(english) && Built(english, false)
    ensures PlainPaths(Paths(english)) && Flatten(english, "") == Lines([], Paths(english))
    ensures KeysOf(Flatten(english, ""), [], Paths(english))
  {
    FlattenIs(english, []);
    var source := Flatten(english, "");
    forall i | 0 <= i < |Paths(english)| ensures IsKey(source, Join([] + Paths(english)[i].parts)) {
      assert source[i].key == Join([] + Paths(english)[i].parts);
      IndexIs(source, source[i].key);
    }
  }

  /** Lines that can share a file nest, and flatten back to themselves. */
  lemma MergedComesBack<V(!new)>(english: Object<V>, combined: Object<V>)
    requires WellFormed(english) && Built(english, false) && Flat(combined)
    requires PrefixFree(Merged(Flatten(english, ""), ReferenceIn(Flatten(english, "")), combined))
    ensures var merged := Merged(Flatten(english, ""), ReferenceIn(Flatten(english, "")), combined);
            Nest(merged).Some? && Flatten(Nest(merged).value, "") == merged
  {
    var source := Flatten(english, "");
    var block := BlockFor(source, combined);
    var tree := MergeKids(block, english, []);
    FlattenIsFlat(english, "");
    EnglishKeys(english);
    EnglishIsTidy(source, combined, english, []);
    MergedTreeIsSound(block, english, []);
    MergedTreeFlattens(block, english, []);
    MergedAreBlocks(source, combined);
    FilledIsBuilt(tree);
    FlattenIs(tree, []);
    NestFlattenIff(tree);
  }

  // ------------------------------------------------------------ lines that cannot share a file

  ghost predicate NoneBelow<V(!new)>(paths: seq<Path<V>>) {
    forall p, q :: p in paths && q in paths ==> !(p.parts < q.parts)
  }

  lemma BelowUnderKey(key: string, a: seq<string>, b: seq<string>)
    ensures [key] + a < [key] + b <==> a < b
  {
    if [key] + a <= [key] + b {
      assert ([key] + a)[1..] == a && ([key] + b)[1..] == b;
      assert ([key] + b)[1..1 + |a|] == ([key] + a)[1..];
      assert b[..|a|] == a;
    }
  }

  lemma HeadOfBelow(a: seq<string>, b: seq<string>)
    ensures a != [] && a < b ==> a[0] == b[0]
  {
  }

  lemma UnderNoneBelow<V(!new)>(key: string, paths: seq<Path<V>>)
    requires NoneBelow(paths)
    ensures NoneBelow(Under(key, paths))
  {
    var under := Under(key, paths);
    forall p, q | p in under && q in under ensures !(p.parts < q.parts) {
      var i :| 0 <= i < |under| && under[i] == p;
      var j :| 0 <= j < |under| && under[j] == q;
      assert paths[i] in paths && paths[j] in paths;
      BelowUnderKey(key, paths[i].parts, paths[j].parts);
    }
  }

  /** Every path starts with a part that `heads` allows. */
  ghost predicate HeadsIn<V(!new)>(paths: seq<Path<V>>, heads: set<string>) {
    forall p :: p in paths ==> p.parts != [] && p.parts[0] in heads
  }

  lemma JoinNoneBelow<V(!new)>(a: seq<Path<V>>, b: seq<Path<V>>, heads: set<string>, key: string)
    requires NoneBelow(a) && NoneBelow(b) && HeadsIn(a, heads) && HeadsIn(b, {key}) && key !in heads
    ensures NoneBelow(a + b) && HeadsIn(a + b, heads + {key})
  {
    forall p, q | p in a + b && q in a + b ensures !(p.parts < q.parts) {
      HeadOfBelow(p.parts, q.parts);
    }
  }

  function KeysIn<V>(props: Object<V>): set<string> {
    set i | 0 <= i < |props| :: props[i].key
  }

  /** In a tree no leaf's path runs through another leaf. */
  lemma {:induction false} PathsNoneBelow<V(!new)>(props: Object<V>)
    requires WellFormed(props)
    ensures NoneBelow(Paths(props)) && HeadsIn(Paths(props), KeysIn(props))
    decreases props, 1
  {
    if props == [] {
    } else {
      var n := |props| - 1;
      WellFormedPrefix(props, n);
      PathsNoneBelow(props[..n]);
      EntryNoneBelow(props[n]);
      LastKeyIsNew(props);
      JoinNoneBelow(Paths(props[..n]), PathsOf(props[n]), KeysIn(props[..n]), props[n].key);
    }
  }

  lemma LastKeyIsNew<V>(props: Object<V>)
    requires WellFormed(props) && props != []
    ensures var n := |props| - 1;
            props[n].key !in KeysIn(props[..n]) && KeysIn(props) == KeysIn(props[..n]) + {props[n].key}
  {
    var n := |props| - 1;
    forall key ensures key in KeysIn(props) <==> key in KeysIn(props[..n]) + {props[n].key} {
      if key in KeysIn(props) {
        var i :| 0 <= i < |props| && props[i].key == key;
        assert i < n ==> props[..n][i].key == key;
      }
      if key in KeysIn(props[..n]) {
        var i :| 0 <= i < n && props[..n][i].key == key;
        assert props[i].key == key;
      }
    }
  }

  lemma {:induction false} EntryNoneBelow<V(!new)>(entry: Entry<V>)
    requires entry.tree.Node? ==> WellFormed(entry.tree.kids)
    ensures NoneBelow(PathsOf(entry)) && HeadsIn(PathsOf(entry), {entry.key})
    decreases entry, 0
  {
    match entry.tree
    case Leaf(_) =>
    case Node(kids) =>
      PathsNoneBelow(kids);
      UnderNoneBelow(entry.key, Paths(kids));
  }

  lemma {:induction false} SplitPrefix(a: string, rest: string)
    ensures Split(a + "." + rest) == Split(a) + Split(rest)
  {
    if a == "" {
      assert a + "." + rest == "." + rest;
    } else {
      SplitPrefix(a[1..], rest);
      assert (a + "." + rest)[1..] == a[1..] + "." + rest;
      if a[0] != '.' {
        assert Split(a + "." + rest) == [[a[0]] + Split(a[1..])[0]] + (Split(a[1..]) + Split(rest))[1..];
      }
    }
  }

  lemma KeyBelowIsPathBelow(a: seq<string>, b: seq<string>)
    requires a != [] && b != [] && PlainParts(a) && PlainParts(b) && Join(a) + "." <= Join(b)
    ensures a < b
  {
    var rest := Join(b)[|Join(a)| + 1..];
    assert Join(b) == Join(a) + "." + rest;
    SplitPrefix(Join(a), rest);
    SplitJoin(a);
    SplitJoin(b);
  }

  /** What a tree flattens to can share a file. */
  lemma FlattenedIsPrefixFree<V(!new)>(props: Object<V>)
    requires WellFormed(props) && Built(props, false)
    ensures PrefixFree(Flatten(props, ""))
  {
    FlattenIs(props, []);
    PathsAre(props);
    PathsNoneBelow(props);
    var paths, flat := Paths(props), Flatten(props, "");
    forall e, f | e in flat && f in flat ensures !(e.key + "." <= f.key) {
      var i :| 0 <= i < |flat| && flat[i] == e;
      var j :| 0 <= j < |flat| && flat[j] == f;
      assert paths[i] in paths && paths[j] in paths;
      assert [] + paths[i].parts == paths[i].parts && [] + paths[j].parts == paths[j].parts;
      if e.key + "." <= f.key {
        KeyBelowIsPathBelow(paths[i].parts, paths[j].parts);
      }
    }
  }

  lemma PutKeepsWellFormed<V>(props: Object<V>, key: string, tree: Tree<V>)
    requires WellFormed(props) && Plain(key) && (tree.Node? ==> WellFormed(tree.kids))
    ensures var at := IndexOf(props, key);
            at.Some? ==> at.value < |props| && WellFormed(props[at.value := Entry(key, tree)])
    ensures IndexOf(props, key).None? ==> WellFormed(props + [Entry(key, tree)])
  {
    IndexIs(props, key);
  }

  lemma {:induction false} GrowKeepsWellFormed<V>(props: Object<V>, parts: seq<string>, value: V)
    requires WellFormed(props) && parts != [] && PlainParts(parts) && Grow(props, parts, value).Some?
    ensures WellFormed(Grow(props, parts, value).value)
    decreases |parts|
  {
    IndexIs(props, parts[0]);
    if |parts| == 1 {
      PutKeepsWellFormed(props, parts[0], Leaf(value));
    } else {
      var at := IndexOf(props, parts[0]);
      var under := if at.Some? then props[at.value].tree.kids else [];
      GrowKeepsWellFormed(under, parts[1..], value);
      PutKeepsWellFormed(props, parts[0], Node(Grow(under, parts[1..], value).value));
    }
  }

  /** Keys that are paths of plain parts. */
  ghost predicate PlainKeys<V>(flat: Object<V>) {
    forall i :: 0 <= i < |flat| ==> PlainParts(Split(flat[i].key))
  }

  lemma {:induction false} NestIsWellFormed<V>(flat: Object<V>)
    requires PlainKeys(flat) && Nest(flat).Some?
    ensures WellFormed(Nest(flat).value)
  {
    if flat == [] {
    } else {
      var n := |flat| - 1;
      NestIsWellFormed(flat[..n]);
      GrowKeepsWellFormed(Nest(flat[..n]).value, Split(flat[n].key), flat[n].tree.value);
    }
  }

  /** Every line the merge writes has a plain path. */
  lemma MergedKeysArePlain<V(!new)>(english: Object<V>, combined: Object<V>)
    requires WellFormed(english) && Built(english, false) && Flat(combined)
    ensures PlainKeys(Merged(Flatten(english, ""), ReferenceIn(Flatten(english, "")), combined))
  {
    var source := Flatten(english, "");
    var merged := Merged(source, ReferenceIn(source), combined);
    FlattenIsFlat(english, "");
    LocaleReferencesAre(source);
    forall i | 0 <= i < |merged| ensures PlainParts(Split(merged[i].key)) {
      assert merged[i] in merged;
      MergedIsExactly(source, ReferenceIn(source), combined, merged[i]);
      ReferencedKeyIsPlain(english, combined, merged[i]);
    }
  }

  /** The path of a leaf: its section, and its name there. */
  lemma PathParts<V>(english: Object<V>, i: nat)
    requires WellFormed(english) && Built(english, false) && i < |Paths(english)|
    ensures var parts := Paths(english)[i].parts;
            parts != [] && PlainParts(Section(parts)) && Plain(Last(parts)) && Last(parts) != PROTO
            && parts == Section(parts) + [Last(parts)]
  {
    PathsAre(english);
    LeavesAreNotProto(english);
  }

  /** No part is a name every object inherits. */
  ghost predicate Own(section: seq<string>) {
    forall m :: 0 <= m < |section| ==> !Inherited(section[m])
  }

  /** The sections on the way to every leaf are objects' own. */
  ghost predicate OwnSections<V>(paths: seq<Path<V>>) {
    forall i :: 0 <= i < |paths| ==> paths[i].parts != [] && Own(Section(paths[i].parts))
  }

  lemma UnderOwnSection<V>(key: string, paths: seq<Path<V>>)
    requires !Inherited(key) && OwnSections(paths)
    ensures OwnSections(Under(key, paths))
  {
    forall i | 0 <= i < |paths| ensures Own(Section(Under(key, paths)[i].parts)) {
      assert Section([key] + paths[i].parts) == [key] + Section(paths[i].parts);
    }
  }

  lemma {:induction false} SectionsAreOwn<V>(props: Object<V>)
    requires Built(props, false)
    ensures OwnSections(Paths(props))
    decreases props
  {
    if props == [] {
    } else {
      var n := |props| - 1;
      BuiltPrefix(props, false, n);
      SectionsAreOwn(props[..n]);
      assert BuiltEntry(props[n], false);
      match props[n].tree
      case Leaf(_) =>
      case Node(kids) =>
        SectionsAreOwn(kids);
        UnderOwnSection(props[n].key, Paths(kids));
    }
  }

  /** An English key is the path of a leaf. */
  lemma EnglishPath<V>(english: Object<V>, key: string) returns (section: seq<string>, name: string)
    requires WellFormed(english) && Built(english, false) && IsKey(Flatten(english, ""), key)
    ensures PlainParts(section) && Own(section) && Plain(name) && name != PROTO && key == Join(section + [name])
  {
    FlattenIs(english, []);
    IndexIs(Flatten(english, ""), key);
    var i := IndexOf(Flatten(english, ""), key).value;
    PathParts(english, i);
    SectionsAreOwn(english);
    var parts := Paths(english)[i].parts;
    section, name := Section(parts), Last(parts);
    assert [] + parts == parts;
  }

  lemma ReferencedKeyIsPlain<V(!new)>(english: Object<V>, combined: Object<V>, e: Entry<V>)
    requires WellFormed(english) && Built(english, false) && Flat(combined) && e in combined
    requires LocaleReferenceKey(Flatten(english, ""), e.key).Some?
    ensures PlainParts(Split(e.key)) && Own(Section(Split(e.key))) && Last(Split(e.key)) != PROTO
  {
    var source := Flatten(english, "");
    var reference := ReferenceIn(source)(e.key).value;
    FlattenIsFlat(english, "");
    LocaleReferencesAre(source);
    var section, name := EnglishPath(english, reference);
    BlockIs(source, ReferenceIn(source), combined, reference, e);
    LineInSection(source, combined, section, name, e);
    SplitJoin(section + [NameOf(e.key)]);
  }

  /**
   Exactly when the merged lines can be written to a file and read back: when no
   line's key, and a dot, begins another's.
   */
  lemma MergedComesBackIff<V(!new)>(english: Object<V>, combined: Object<V>)
    requires WellFormed(english) && Built(english, false) && Flat(combined)
    ensures var merged := Merged(Flatten(english, ""), ReferenceIn(Flatten(english, "")), combined);
            (Nest(merged).Some? && Flatten(Nest(merged).value, "") == merged) <==> PrefixFree(merged)
  {
    var merged := Merged(Flatten(english, ""), ReferenceIn(Flatten(english, "")), combined);
    if PrefixFree(merged) {
      MergedComesBack(english, combined);
    } else if Nest(merged).Some? {
      MergedKeysArePlain(english, combined);
      NestIsWellFormed(merged);
      NestBuilds(merged);
      FlattenedIsPrefixFree(Nest(merged).value);
    }
  }

  /** The lines mergeLocale would write. */
  function MergedLines<V>(english: Object<V>, locale: Object<V>, patch: Object<V>): Object<V> {
    var source := Flatten(english, "");
    Merged(source, ReferenceIn(source), Assign(Flatten(locale, ""), patch))
  }

  /** The file reads back as the merged lines exactly when they can share one. */
  lemma WrittenFileHolds<V(!new)>(english: Object<V>, locale: Object<V>, patch: Object<V>)
    requires WellFormed(english) && Built(english, false) && Flat(patch)
    ensures var written := MergeResult(english, locale, patch);
            (written.Some? && Flatten(written.value, "") == MergedLines(english, locale, patch))
            <==> PrefixFree(MergedLines(english, locale, patch))
  {
    FlattenIsFlat(locale, "");
    AssignStaysFlat(Flatten(locale, ""), patch);
    MergedComesBackIff(english, Assign(Flatten(locale, ""), patch));
  }

  /**
   What those lines are: every line of the locale and of the patch that has a
   reference in English, and no other, the patch's value where both have the
   key - in English's order, each form directly behind its reference.
   */
  lemma MergedLinesAre<V(!new)>(english: Object<V>, locale: Object<V>, patch: Object<V>, e: Entry<V>)
    requires Flat(patch)
    ensures var source, target := Flatten(english, ""), Flatten(locale, "");
            && (e in MergedLines(english, locale, patch)
                <==> LocaleReferenceKey(source, e.key).Some? && (e in patch || (e in target && !IsKey(patch, e.key))))
            && Sorted(MergedLines(english, locale, patch), InOrder(source, ReferenceIn(source)))
  {
    var source, target := Flatten(english, ""), Flatten(locale, "");
    var combined := Assign(target, patch);
    FlattenIsFlat(english, "");
    FlattenIsFlat(locale, "");
    AssignStaysFlat(target, patch);
    LocaleReferencesAre(source);
    PatchWins(target, patch, e);
    MergedIsExactly(source, ReferenceIn(source), combined, e);
    MergedInEnglishOrder(source, ReferenceIn(source), combined);
  }

  /**
   What the writer promises of the file it writes: nothing in it outlived
   English, and written again with no patch it comes out as it is, order and all.
   */
  lemma MergingSettles<V(!new)>(english: Object<V>, locale: Object<V>, patch: Object<V>)
    requires WellFormed(english) && Built(english, false) && Flat(patch)
    ensures var written := MergeResult(english, locale, patch);
            PrefixFree(MergedLines(english, locale, patch)) ==>
              && written.Some?
              && Extra(Flatten(english, ""), Flatten(written.value, "")) == []
              && MergeResult(english, written.value, []) == written
  {
    if PrefixFree(MergedLines(english, locale, patch)) {
      var source, combined := Flatten(english, ""), Assign(Flatten(locale, ""), patch);
      FlattenIsFlat(english, "");
      FlattenIsFlat(locale, "");
      AssignStaysFlat(Flatten(locale, ""), patch);
      LocaleReferencesAre(source);
      MergedComesBack(english, combined);
      MergedHasNoExtra(source, combined);
      MergingAgain(source, ReferenceIn(source), combined);
    }
  }

  // --------------------------------------------------- a patch accepted and not writable

  function TwinSections<V>(x: V, y: V): Object<V> {
    [Entry("time", Node([Entry("x", Leaf(x)), Entry("x_ago", Node([Entry("y", Leaf(y))]))]))]
  }

  function TwoLines<V>(k: string, v: V, l: string, w: V): Object<V> {
    [Entry(k, Leaf(v)), Entry(l, Leaf(w))]
  }

  lemma TwinSource<V>(x: V, y: V)
    ensures Flatten(TwinSections(x, y), "") == TwoLines("time.x", x, "time.x_ago.y", y)
  {
    var inner := [Entry("y", Leaf(y))];
    var kids := [Entry("x", Leaf(x)), Entry("x_ago", Node(inner))];
    OneFlattens(Entry("y", Leaf(y)), "time.x_ago");
    assert kids[..1] == [Entry("x", Leaf(x))];
    assert Full("time", "x") == "time.x" && Full("time", "x_ago") == "time.x_ago";
    assert Full("time.x_ago", "y") == "time.x_ago.y";
    OneFlattens(Entry("x", Leaf(x)), "time");
    AssignNew([Entry("time.x", Leaf(x))], Entry("time.x_ago.y", Leaf(y)));
    assert Flatten(kids, "time") == TwoLines("time.x", x, "time.x_ago.y", y);
    assert TwinSections(x, y)[..0] == [];
    AssignTwo("time.x", x, "time.x_ago.y", y);
  }

  lemma OneFlattens<V>(entry: Entry<V>, prefix: string)
    requires entry.tree.Leaf? && Full(prefix, entry.key) != PROTO
    ensures Flatten([entry], prefix) == [Entry(Full(prefix, entry.key), entry.tree)]
  {
    assert [entry][..0] == [];
  }

  lemma AssignNew<V>(props: Object<V>, entry: Entry<V>)
    requires entry.key != PROTO && forall i :: 0 <= i < |props| ==> props[i].key != entry.key
    ensures Assign(props, [entry]) == props + [entry]
  {
    assert [entry][..0] == [];
    PutNew(props, entry.key, entry.tree);
  }

  lemma AssignTwo<V>(k: string, v: V, l: string, w: V)
    requires k != l && k != PROTO && l != PROTO
    ensures Assign([], TwoLines(k, v, l, w)) == TwoLines(k, v, l, w)
  {
    var lines := TwoLines(k, v, l, w);
    assert lines[..1] == [Entry(k, Leaf(v))];
    AssignNew([], Entry(k, Leaf(v)));
    PutNew([Entry(k, Leaf(v))], l, Leaf(w));
  }

  /** What `x_ago` and its own `y` refer to, wherever `x` stands. */
  lemma TwinReferencesIn<V>(source: Object<V>)
    requires IsKey(source, "time.x") && IsKey(source, "time.x_ago.y") && !IsKey(source, "time.x_ago")
    ensures LocaleReferenceKey(source, "time.x_ago") == Some("time.x")
    ensures LocaleReferenceKey(source, "time.x_ago.y") == Some("time.x_ago.y")
  {
    var key := "time.x_ago";
    assert |key| == 10 && key[6..] == "_ago" && key[..6] == "time.x" && key[9] == 'o' && key[7] == 'a';
    assert CategoryOf(key) == "";
    assert Chop(key, "_ago") == "time.x";
    assert IsInflection(key);
  }

  lemma TwinReferences<V>(x: V, y: V)
    ensures var source := TwoLines("time.x", x, "time.x_ago.y", y);
            && LocaleReferenceKey(source, "time.x_ago") == Some("time.x")
            && LocaleReferenceKey(source, "time.x_ago.y") == Some("time.x_ago.y")
            && !IsKey(source, "time.x_ago") && IsKey(source, "time.x") && IsKey(source, "time.x_ago.y")
  {
    var source := TwoLines("time.x", x, "time.x_ago.y", y);
    IndexIs(source, "time.x_ago");
    IndexIs(source, "time.x");
    IndexIs(source, "time.x_ago.y");
    assert source[0].key == "time.x" && source[1].key == "time.x_ago.y";
    TwinReferencesIn(source);
  }

  /** A form of English's first key, and English's second key. */
  lemma FormAndKeyMerged<V(!new)>(source: Object<V>, ref: string -> Option<string>, lines: Object<V>)
    requires |source| == 2 && |lines| == 2 && source[1].key == lines[1].key != source[0].key
    requires !IsKey(source, lines[0].key) && IsKey(source, lines[1].key)
    requires lines[0].key != source[0].key && lines[0].key != source[1].key && ref(lines[0].key) == Some(source[0].key)
    ensures Merged(source, ref, lines) == lines
  {
    var block := BlockAt(source, ref, lines);
    IndexIs(lines, source[0].key);
    IndexIs(lines, source[1].key);
    assert Kept(lines, source[0].key) == [] && Kept(lines, source[1].key) == [lines[1]];
    FilterTwo(lines, BehindKey(source, ref, source[0].key));
    FilterTwo(lines, BehindKey(source, ref, source[1].key));
    assert block(0) == [lines[0]] && block(1) == [lines[1]];
    assert Concat(block, 0) == [] && Concat(block, 1) == [] + [lines[0]];
    assert Concat(block, 2) == [lines[0]] + [lines[1]];
  }

  lemma FilterTwo<V>(lines: Object<V>, keep: Entry<V> -> bool)
    requires |lines| == 2
    ensures Filter(lines, keep)
         == (if keep(lines[0]) then [lines[0]] else []) + if keep(lines[1]) then [lines[1]] else []
  {
    assert lines[1..][1..] == [];
    assert Filter(lines[1..], keep) == if keep(lines[1]) then [lines[1]] else [];
  }

  lemma GrowIntoText<V>(section: string, name: string, below: string, v: V, w: V)
    requires !Inherited(section) && name != PROTO
    ensures var grown := [Entry(section, Node([Entry(name, Leaf(v))]))];
            Grow([], [section, name], v) == Some(grown) && Grow(grown, [section, name, below], w) == None
  {
    var kids := [Entry(name, Leaf(v))];
    var way, text := [section, name, below], [section, name];
    assert way[1..] == [name, below] && text[1..] == [name];
    PutNew([], name, Leaf(v));
    assert Grow([], text[1..], v) == Some([] + kids);
    assert IndexOf(kids, name) == Some(0);
    assert Grow(kids, way[1..], w) == None;
    assert IndexOf([Entry(section, Node(kids))], section) == Some(0);
    GrowNew([], section, [name], v);
    assert [section] + [name] == text && [] + [Entry(section, Node(kids))] == [Entry(section, Node(kids))];
    assert [] + kids == kids;
  }

  lemma SplitThree(a: string, b: string, c: string)
    requires '.' !in a && '.' !in b && '.' !in c
    ensures Split(a + "." + b) == [a, b] && Split(a + "." + (b + "." + c)) == [a, b, c]
  {
    SplitAt(c, "");
    SplitAt(b, c);
    SplitAt(a, b);
    SplitAt(a, b + "." + c);
  }

  lemma TwinPaths()
    ensures Split("time.x_ago") == ["time", "x_ago"] && Split("time.x_ago.y") == ["time", "x_ago", "y"]
  {
    SplitThree("time", "x_ago", "y");
    assert "time" + "." + "x_ago" == "time.x_ago" && "time" + "." + ("x_ago" + "." + "y") == "time.x_ago.y";
  }

  /** Text first, then a line below it: the walk runs into the text. */
  lemma TextUnderSection<V>(c: V, d: V)
    ensures Nest(TwoLines("time.x_ago", c, "time.x_ago.y", d)) == None
  {
    var lines := TwoLines("time.x_ago", c, "time.x_ago.y", d);
    TwinPaths();
    GrowIntoText("time", "x_ago", "y", c, d);
    assert lines[..1] == [lines[0]];
    var first := lines[..1];
    assert first[..0] == [] && Nest(first[..0]) == Some([]);
  }

  lemma TwinMerged<V(!new)>(x: V, y: V, c: V, d: V)
    ensures var source := TwoLines("time.x", x, "time.x_ago.y", y);
            var lines := TwoLines("time.x_ago", c, "time.x_ago.y", d);
            Merged(source, ReferenceIn(source), lines) == lines
  {
    var source := TwoLines("time.x", x, "time.x_ago.y", y);
    TwinReferences(x, y);
    FormAndKeyMerged(source, ReferenceIn(source), TwoLines("time.x_ago", c, "time.x_ago.y", d));
  }

  lemma ResultOf<V>(english: Object<V>, locale: Object<V>, patch: Object<V>, source: Object<V>, combined: Object<V>,
                    lines: Object<V>)
    requires Flatten(english, "") == source && Assign(Flatten(locale, ""), patch) == combined
    requires Merged(source, ReferenceIn(source), combined) == lines
    ensures MergeResult(english, locale, patch) == Nest(lines)
  {
  }

  /**
   A patch every check accepts, and a file that cannot be written: English has a
   section `x_ago` beside `x`, the locale a text of that name.
   */
  lemma AcceptedButNotWritable<V(!new)>(x: V, y: V, c: V, d: V, reading: Reading<V>)
    requires reading.written(d) && reading.interpolations(d) == reading.interpolations(y)
             && reading.tags(d) == reading.tags(y)
    ensures var english, patch := TwinSections(x, y), [Entry("time.x_ago.y", Leaf(d))];
            var locale := [Entry("time", Node([Entry("x_ago", Leaf(c))]))];
            && Fits(Flatten(english, ""), ReferenceIn(Flatten(english, "")), reading, patch[0])
            && MergeResult(english, locale, patch) == None
  {
    var locale, patch := [Entry("time", Node([Entry("x_ago", Leaf(c))]))], [Entry("time.x_ago.y", Leaf(d))];
    var source, lines := TwoLines("time.x", x, "time.x_ago.y", y), TwoLines("time.x_ago", c, "time.x_ago.y", d);
    TwinSource(x, y);
    TwinLocale(c);
    AssignNew([Entry("time.x_ago", Leaf(c))], patch[0]);
    TwinMerged(x, y, c, d);
    ResultOf(TwinSections(x, y), locale, patch, source, lines, lines);
    TextUnderSection(c, d);
    TwinFits(x, y, d, reading);
  }

  lemma TwinLocale<V>(c: V)
    ensures Flatten([Entry("time", Node([Entry("x_ago", Leaf(c))]))], "") == [Entry("time.x_ago", Leaf(c))]
  {
    var inner := [Entry("x_ago", Leaf(c))];
    var locale := [Entry("time", Node(inner))];
    assert Full("time", "x_ago") == "time.x_ago";
    OneFlattens(inner[0], "time");
    assert locale[..0] == [];
    AssignNew([], Entry("time.x_ago", Leaf(c)));
  }

  lemma TwinFits<V>(x: V, y: V, d: V, reading: Reading<V>)
    requires reading.written(d) && reading.interpolations(d) == reading.interpolations(y)
             && reading.tags(d) == reading.tags(y)
    ensures var source := TwoLines("time.x", x, "time.x_ago.y", y);
            Fits(source, ReferenceIn(source), reading, Entry("time.x_ago.y", Leaf(d)))
  {
    var source := TwoLines("time.x", x, "time.x_ago.y", y);
    TwinReferences(x, y);
    IndexIs(source, "time.x_ago.y");
  }
}
