/**
 Merged lines that cannot all stand in one file: when the file is not written at
 all, and which lines a written one has lost.
 */
module LocaleLoss {
  import opened Wrappers
  import opened Sorting
  import opened LocaleTree
  import opened LocaleRoundTrip
  import opened LocaleMerge
  import opened LocaleMergeTree
  import opened LocaleFile

  // ------------------------------------------------------------------ what stands where

  function Child<V>(props: Object<V>, key: string): Option<Tree<V>> {
    match IndexOf(props, key)
    case None => None
    case Some(i) => if i < |props| then Some(props[i].tree) else None
  }

  /** The text at the end of a way down the tree. */
  function ValueAt<V>(props: Object<V>, parts: seq<string>): Option<V>
    decreases |parts|
  {
    if parts == [] then None
    else
      match Child(props, parts[0])
      case None => None
      case Some(Leaf(value)) => if |parts| == 1 then Some(value) else None
      case Some(Node(kids)) => ValueAt(kids, parts[1..])
  }

  /** Text stands where the way has to go on. */
  predicate Blocked<V>(props: Object<V>, parts: seq<string>)
    decreases |parts|
  {
    && |parts| > 1
    && match Child(props, parts[0])
       case None => false
       case Some(Leaf(_)) => true
       case Some(Node(kids)) => Blocked(kids, parts[1..])
  }

  function Placed<V>(props: Object<V>, key: string, tree: Tree<V>): Object<V> {
    match IndexOf(props, key)
    case Some(i) => if i < |props| then props[i := Entry(key, tree)] else props
    case None => props + [Entry(key, tree)]
  }

  lemma {:induction false} ReplacingKeepsIndices<V>(props: Object<V>, i: nat, tree: Tree<V>, k: string)
    requires i < |props|
    ensures IndexOf(props[i := Entry(props[i].key, tree)], k) == IndexOf(props, k)
  {
    var n := |props| - 1;
    var after := props[i := Entry(props[i].key, tree)];
    if i < n {
      ReplacingKeepsIndices(props[..n], i, tree, k);
      assert after[..n] == props[..n][i := Entry(props[i].key, tree)];
    } else {
      assert after[..n] == props[..n];
    }
  }

  lemma ChildOfPlaced<V>(props: Object<V>, key: string, tree: Tree<V>, k: string)
    ensures Child(Placed(props, key, tree), k) == if k == key then Some(tree) else Child(props, k)
  {
    IndexIs(props, key);
    IndexIs(props, k);
    match IndexOf(props, key)
    case Some(i) => ReplacingKeepsIndices(props, i, tree, k);
    case None => assert (props + [Entry(key, tree)])[..|props|] == props;
  }

  /** The object a way goes on in: the section's own, or a new one. */
  function KidsAt<V>(props: Object<V>, key: string): Object<V> {
    match Child(props, key) case Some(Node(kids)) => kids case _ => []
  }

  lemma GrowIs<V>(props: Object<V>, parts: seq<string>, value: V)
    requires |parts| > 1 && !Inherited(parts[0])
    ensures var child := Child(props, parts[0]);
            Grow(props, parts, value)
            == if child.Some? && child.value.Leaf? then None
               else match Grow(KidsAt(props, parts[0]), parts[1..], value)
                    case None => None
                    case Some(kids) => Some(Placed(props, parts[0], Node(kids)))
  {
    IndexIs(props, parts[0]);
  }

  // ------------------------------------------------------------- one line into the tree

  lemma FirstOfWay<V>(props: Object<V>, parts: seq<string>, n: nat)
    requires 0 < n <= |parts|
    ensures ValueAt(props, parts[..n])
         == match Child(props, parts[0])
            case None => None
            case Some(Leaf(value)) => if n == 1 then Some(value) else None
            case Some(Node(kids)) => ValueAt(kids, parts[1..][..n - 1])
  {
    assert parts[..n][1..] == parts[1..][..n - 1];
  }

  /** Text stands in the way exactly when it is the value of a part of it. */
  lemma {:induction false} BlockedIff<V>(props: Object<V>, parts: seq<string>)
    ensures Blocked(props, parts) <==> exists n :: 0 < n < |parts| && ValueAt(props, parts[..n]).Some?
    decreases |parts|
  {
    if |parts| > 1 {
      FirstOfWay(props, parts, 1);
      match Child(props, parts[0])
      case None =>
        forall n | 0 < n < |parts| ensures ValueAt(props, parts[..n]).None? { FirstOfWay(props, parts, n); }
      case Some(Leaf(_)) =>
      case Some(Node(kids)) =>
        BlockedIff(kids, parts[1..]);
        forall n | 0 < n < |parts|
          ensures ValueAt(props, parts[..n]) == ValueAt(kids, parts[1..][..n - 1])
        {
          FirstOfWay(props, parts, n);
        }
        if Blocked(kids, parts[1..]) {
          var m :| 0 < m < |parts[1..]| && ValueAt(kids, parts[1..][..m]).Some?;
          assert ValueAt(props, parts[..m + 1]).Some?;
        }
    }
  }

  /** nest refuses a line exactly when text stands in its way. */
  lemma {:induction false} GrowRefusedIff<V>(props: Object<V>, parts: seq<string>, value: V)
    requires parts != [] && Own(Section(parts))
    ensures Grow(props, parts, value).None? <==> Blocked(props, parts)
    decreases |parts|
  {
    if |parts| > 1 {
      assert Section(parts)[0] == parts[0];
      assert Section(parts[1..]) == Section(parts)[1..];
      GrowIs(props, parts, value);
      GrowRefusedIff(KidsAt(props, parts[0]), parts[1..], value);
    }
  }

  lemma BelowBehindHead(a: seq<string>, b: seq<string>)
    requires a != [] && b != [] && a[0] == b[0]
    ensures a < b <==> a[1..] < b[1..]
    ensures a == b <==> a[1..] == b[1..]
  {
    assert a == [a[0]] + a[1..] && b == [b[0]] + b[1..];
    BelowUnderKey(a[0], a[1..], b[1..]);
  }

  /** A line that is taken stands at its own place, empties everything below it, and leaves the rest. */
  lemma {:induction false} GrowValueAt<V>(props: Object<V>, parts: seq<string>, value: V, q: seq<string>)
    requires parts != [] && Own(Section(parts)) && Last(parts) != PROTO && Grow(props, parts, value).Some?
    ensures ValueAt(Grow(props, parts, value).value, q)
         == if q == parts then Some(value) else if parts < q then None else ValueAt(props, q)
    decreases |parts|
  {
    var kids := if |parts| == 1 then [] else KidsAt(props, parts[0]);
    if |parts| == 1 {
      assert Grow(props, parts, value).value == Placed(props, parts[0], Leaf(value));
      if q != [] {
        ChildOfPlaced(props, parts[0], Leaf(value), q[0]);
      }
    } else {
      assert Section(parts)[0] == parts[0];
      assert Section(parts[1..]) == Section(parts)[1..];
      GrowIs(props, parts, value);
      if q != [] {
        ChildOfPlaced(props, parts[0], Node(Grow(kids, parts[1..], value).value), q[0]);
        if q[0] == parts[0] {
          BelowBehindHead(parts, q);
          GrowValueAt(kids, parts[1..], value, q[1..]);
        }
      }
    }
  }

  // ------------------------------------------------------------------ all lines into a tree

  /** A later line's way ends on the way to this one. */
  ghost predicate Overwritten<V>(paths: seq<Path<V>>, i: nat)
    requires i < |paths|
  {
    exists j :: i < j < |paths| && paths[j].parts < paths[i].parts
  }

  /** Line i puts v there, and nothing behind it takes it away. */
  ghost predicate Stands<V>(paths: seq<Path<V>>, i: int, q: seq<string>, v: V) {
    0 <= i < |paths| && paths[i] == Path(q, v) && !Overwritten(paths, i)
  }

  /** A text ahead of a line that goes on below it. */
  ghost predicate TextFirst<V>(paths: seq<Path<V>>) {
    exists i, j :: 0 <= i < j < |paths| && paths[i].parts < paths[j].parts
  }

  ghost predicate Growable<V>(paths: seq<Path<V>>) {
    PlainPaths(paths) && DistinctPaths(paths) && NoneEndsInProto(paths) && OwnSections(paths)
  }

  lemma GrowablePrefix<V>(paths: seq<Path<V>>, n: nat)
    requires Growable(paths) && n <= |paths|
    ensures Growable(paths[..n])
  {
  }

  lemma StandsBefore<V>(paths: seq<Path<V>>, i: nat, q: seq<string>, v: V)
    requires i < |paths| - 1
    ensures var n := |paths| - 1;
            Stands(paths, i, q, v) <==> Stands(paths[..n], i, q, v) && !(paths[n].parts < q)
  {
    var n := |paths| - 1;
    if paths[i] == Path(q, v) && Overwritten(paths[..n], i) {
      var j :| i < j < n && paths[..n][j].parts < paths[..n][i].parts;
      assert paths[j].parts < paths[i].parts;
    }
    if paths[i] == Path(q, v) && Overwritten(paths, i) && !(paths[n].parts < q) {
      var j :| i < j < |paths| && paths[j].parts < paths[i].parts;
      assert paths[..n][j].parts < paths[..n][i].parts;
    }
  }

  /** What stands in the tree is what no later line took away. */
  lemma {:induction false} GrownAt<V(!new)>(paths: seq<Path<V>>, q: seq<string>, v: V)
    requires Growable(paths) && GrowAll([], paths).Some?
    ensures ValueAt(GrowAll<V>([], paths).value, q) == Some(v) <==> exists i :: Stands(paths, i, q, v)
  {
    if paths == [] {
    } else {
      var n := |paths| - 1;
      GrowablePrefix(paths, n);
      GrownAt(paths[..n], q, v);
      GrowValueAt(GrowAll<V>([], paths[..n]).value, paths[n].parts, paths[n].value, q);
      LastStands(paths, q, v);
    }
  }

  lemma LastStands<V(!new)>(paths: seq<Path<V>>, q: seq<string>, v: V)
    requires DistinctPaths(paths) && paths != []
    ensures var n := |paths| - 1;
            (exists i :: Stands(paths, i, q, v))
            <==> if q == paths[n].parts then v == paths[n].value
                 else !(paths[n].parts < q) && exists i :: Stands(paths[..n], i, q, v)
  {
    var n := |paths| - 1;
    if i :| Stands(paths, i, q, v) {
      if i < n {
        StandsBefore(paths, i, q, v);
        assert Stands(paths[..n], i, q, v) && paths[i].parts != paths[n].parts;
      }
    }
    if q == paths[n].parts && v == paths[n].value {
      assert Stands(paths, n, q, v);
    }
    if q != paths[n].parts && !(paths[n].parts < q) {
      if i :| Stands(paths[..n], i, q, v) {
        StandsBefore(paths, i, q, v);
      }
    }
  }

  /** A text on the way to p has an heir that no later line took away. */
  lemma Heir<V>(paths: seq<Path<V>>, i: nat, p: seq<string>) returns (k: nat)
    requires i < |paths| && paths[i].parts < p
    ensures k < |paths| && paths[k].parts < p && !Overwritten(paths, k)
    decreases |paths| - i
  {
    if Overwritten(paths, i) {
      var j :| i < j < |paths| && paths[j].parts < paths[i].parts;
      k := Heir(paths, j, p);
    } else {
      k := i;
    }
  }

  lemma TextOnTheWay<V(!new)>(paths: seq<Path<V>>, way: seq<string>, m: nat)
    requires Growable(paths) && GrowAll([], paths).Some? && m < |way|
    requires ValueAt(GrowAll<V>([], paths).value, way[..m]).Some?
    ensures exists i :: 0 <= i < |paths| && paths[i].parts < way
  {
    var v := ValueAt(GrowAll<V>([], paths).value, way[..m]).value;
    GrownAt(paths, way[..m], v);
    var i :| Stands(paths, i, way[..m], v);
    assert paths[i].parts == way[..m];
  }

  lemma EarlierTextBlocks<V(!new)>(paths: seq<Path<V>>, i: nat, way: seq<string>)
    requires Growable(paths) && GrowAll([], paths).Some? && i < |paths| && paths[i].parts < way
    ensures Blocked(GrowAll<V>([], paths).value, way)
  {
    var k := Heir(paths, i, way);
    assert Stands(paths, k, paths[k].parts, paths[k].value);
    GrownAt(paths, paths[k].parts, paths[k].value);
    assert way[..|paths[k].parts|] == paths[k].parts && paths[k].parts != [];
    BlockedIff(GrowAll<V>([], paths).value, way);
  }

  /** A line runs into a text exactly when an earlier line's way is the beginning of its own. */
  lemma BlockedByEarlierIff<V(!new)>(paths: seq<Path<V>>, way: seq<string>)
    requires Growable(paths) && GrowAll([], paths).Some?
    ensures Blocked(GrowAll<V>([], paths).value, way) <==> exists i :: 0 <= i < |paths| && paths[i].parts < way
  {
    var tree := GrowAll<V>([], paths).value;
    BlockedIff(tree, way);
    if Blocked(tree, way) {
      var m :| 0 < m < |way| && ValueAt(tree, way[..m]).Some?;
      TextOnTheWay(paths, way, m);
    }
    if i :| 0 <= i < |paths| && paths[i].parts < way {
      EarlierTextBlocks(paths, i, way);
    }
  }

  /** The lines are refused exactly when some text is ahead of a line that goes on below it. */
  lemma {:induction false} GrownUnlessTextFirst<V(!new)>(paths: seq<Path<V>>)
    requires Growable(paths)
    ensures GrowAll([], paths).None? <==> TextFirst(paths)
  {
    if paths == [] {
    } else {
      var n := |paths| - 1;
      GrowablePrefix(paths, n);
      GrownUnlessTextFirst(paths[..n]);
      TextFirstIff(paths);
      if GrowAll([], paths[..n]).Some? {
        BlockedByEarlierIff(paths[..n], paths[n].parts);
        GrowRefusedIff(GrowAll<V>([], paths[..n]).value, paths[n].parts, paths[n].value);
      }
    }
  }

  lemma TextFirstIff<V>(paths: seq<Path<V>>)
    requires paths != []
    ensures var n := |paths| - 1;
            TextFirst(paths) <==> || TextFirst(paths[..n])
                                  || exists i :: 0 <= i < n && paths[..n][i].parts < paths[n].parts
  {
    var n := |paths| - 1;
    if TextFirst(paths[..n]) {
      var i, j :| 0 <= i < j < n && paths[..n][i].parts < paths[..n][j].parts;
      assert paths[i].parts < paths[j].parts;
    }
    if TextFirst(paths) {
      var i, j :| 0 <= i < j < |paths| && paths[i].parts < paths[j].parts;
      assert j < n ==> paths[..n][i].parts < paths[..n][j].parts;
    }
  }

  // ------------------------------------------------------------------- from lines to paths

  function LinePaths<V>(flat: Object<V>): seq<Path<V>>
    requires AllLeaves(flat)
  {
    seq(|flat|, i requires 0 <= i < |flat| => Path(Split(flat[i].key), flat[i].tree.value))
  }

  lemma LinesOfLinePaths<V(!new)>(flat: Object<V>)
    requires Flat(flat) && PlainKeys(flat)
    ensures PlainPaths(LinePaths(flat)) && DistinctPaths(LinePaths(flat)) && Lines([], LinePaths(flat)) == flat
  {
    var paths := LinePaths(flat);
    forall i | 0 <= i < |flat| ensures [] + paths[i].parts == paths[i].parts && Join(paths[i].parts) == flat[i].key {
      JoinSplit(flat[i].key);
    }
    forall i, j | 0 <= i < j < |flat| ensures paths[i].parts != paths[j].parts {
      assert flat[i].key != flat[j].key;
    }
  }

  lemma BelowIff(a: string, b: string)
    requires PlainParts(Split(a)) && PlainParts(Split(b))
    ensures a + "." <= b <==> Split(a) < Split(b)
  {
    JoinSplit(a);
    JoinSplit(b);
    if Split(a) < Split(b) {
      var rest := Split(b)[|Split(a)|..];
      assert Split(b) == Split(a) + rest;
      JoinPrefix(Split(a), rest);
      assert b == a + "." + Join(rest);
    } else if a + "." <= b {
      KeyBelowIsPathBelow(Split(a), Split(b));
    }
  }

  lemma PathsOfLast<V(!new)>(props: Object<V>, p: Path<V>)
    requires WellFormed(props) && props != [] && p.parts != []
    ensures var n := |props| - 1;
            p in Paths(props) <==> if p.parts[0] == props[n].key then p in PathsOf(props[n]) else p in Paths(props[..n])
  {
    var n := |props| - 1;
    WellFormedPrefix(props, n);
    PathsAre(props[..n]);
    PathsOfAre(props[n]);
    if p in Paths(props[..n]) {
      var i :| 0 <= i < |Paths(props[..n])| && Paths(props[..n])[i] == p;
      assert exists j :: 0 <= j < n && props[..n][j].key == p.parts[0];
    }
  }

  lemma PathsUnder<V(!new)>(key: string, paths: seq<Path<V>>, p: Path<V>)
    requires p.parts != [] && p.parts[0] == key
    ensures p in Under(key, paths) <==> Path(p.parts[1..], p.value) in paths
  {
    var under := Under(key, paths);
    assert p.parts == [key] + p.parts[1..];
    if p in under {
      var i :| 0 <= i < |under| && under[i] == p;
      assert paths[i].parts == ([key] + paths[i].parts)[1..];
      assert paths[i] in paths;
    }
    if Path(p.parts[1..], p.value) in paths {
      var i :| 0 <= i < |paths| && paths[i] == Path(p.parts[1..], p.value);
      assert under[i] == p;
    }
  }

  lemma ChildBefore<V>(props: Object<V>, key: string)
    requires props != [] && key != props[|props| - 1].key
    ensures Child(props, key) == Child(props[..|props| - 1], key)
  {
    IndexIs(props[..|props| - 1], key);
  }

  /** A tree lists exactly what stands in it. */
  lemma {:induction false} PathsAreValues<V(!new)>(props: Object<V>, p: Path<V>)
    requires WellFormed(props)
    ensures p in Paths(props) <==> ValueAt(props, p.parts) == Some(p.value)
    decreases props
  {
    PathsAre(props);
    if props == [] || p.parts == [] {
    } else {
      var n := |props| - 1;
      PathsOfLast(props, p);
      WellFormedPrefix(props, n);
      if p.parts[0] != props[n].key {
        ChildBefore(props, p.parts[0]);
        PathsAreValues(props[..n], p);
      } else if props[n].tree.Node? {
        PathsUnder(props[n].key, Paths(props[n].tree.kids), p);
        PathsAreValues(props[n].tree.kids, Path(p.parts[1..], p.value));
      } else {
        assert |p.parts| == 1 ==> p.parts == [props[n].key];
      }
    }
  }

  lemma LinesAreThePaths<V(!new)>(paths: seq<Path<V>>, e: Entry<V>)
    requires PlainPaths(paths) && PlainParts(Split(e.key)) && e.tree.Leaf?
    ensures e in Lines([], paths) <==> Path(Split(e.key), e.tree.value) in paths
  {
    JoinSplit(e.key);
    var lines := Lines([], paths);
    forall i | 0 <= i < |paths| ensures [] + paths[i].parts == paths[i].parts && Split(lines[i].key) == paths[i].parts {
      SplitJoin(paths[i].parts);
    }
    if e in lines {
      var i :| 0 <= i < |lines| && lines[i] == e;
      assert paths[i] == Path(Split(e.key), e.tree.value);
    }
    if Path(Split(e.key), e.tree.value) in paths {
      var i :| 0 <= i < |paths| && paths[i] == Path(Split(e.key), e.tree.value);
      assert lines[i] == e;
    }
  }

  // ------------------------------------------------------------------- the merged lines

  /** Some line's key, and a dot, begins a later line's. */
  ghost predicate TextAhead<V>(flat: Object<V>) {
    exists i, j :: 0 <= i < j < |flat| && flat[i].key + "." <= flat[j].key
  }

  /** This line stands at i, and no later line's key, and a dot, begins its own. */
  ghost predicate Survives<V>(flat: Object<V>, i: int, e: Entry<V>) {
    0 <= i < |flat| && flat[i] == e && forall j :: i < j < |flat| ==> !(flat[j].key + "." <= e.key)
  }

  lemma MergedAreGrowable<V(!new)>(english: Object<V>, combined: Object<V>)
    requires WellFormed(english) && Built(english, false) && Flat(combined)
    ensures var merged := Merged(Flatten(english, ""), ReferenceIn(Flatten(english, "")), combined);
            Flat(merged) && PlainKeys(merged) && Growable(LinePaths(merged))
            && Lines([], LinePaths(merged)) == merged
  {
    var source := Flatten(english, "");
    var merged := Merged(source, ReferenceIn(source), combined);
    FlattenIsFlat(english, "");
    LocaleReferencesAre(source);
    MergedIsFlat(source, ReferenceIn(source), combined);
    MergedKeysArePlain(english, combined);
    LinesOfLinePaths(merged);
    forall i | 0 <= i < |merged|
      ensures Own(Section(Split(merged[i].key))) && Last(Split(merged[i].key)) != PROTO
    {
      assert merged[i] in merged;
      MergedIsExactly(source, ReferenceIn(source), combined, merged[i]);
      ReferencedKeyIsPlain(english, combined, merged[i]);
    }
  }

  lemma TextAheadIff<V(!new)>(flat: Object<V>)
    requires Flat(flat) && PlainKeys(flat)
    ensures TextAhead(flat) <==> TextFirst(LinePaths(flat))
  {
    var paths := LinePaths(flat);
    forall i, j | 0 <= i < j < |flat| ensures flat[i].key + "." <= flat[j].key <==> paths[i].parts < paths[j].parts {
      BelowIff(flat[i].key, flat[j].key);
    }
  }

  lemma SurvivesIff<V(!new)>(flat: Object<V>, i: nat, e: Entry<V>)
    requires Flat(flat) && PlainKeys(flat) && i < |flat| && flat[i] == e
    ensures Survives(flat, i, e) <==> Stands(LinePaths(flat), i, Split(e.key), e.tree.value)
  {
    var paths := LinePaths(flat);
    forall j | i < j < |flat| ensures flat[j].key + "." <= e.key <==> paths[j].parts < paths[i].parts {
      BelowIff(flat[j].key, e.key);
    }
  }

  lemma StandsIsALine<V(!new)>(flat: Object<V>, i: int, e: Entry<V>)
    requires Flat(flat) && e.tree.Leaf? && Stands(LinePaths(flat), i, Split(e.key), e.tree.value)
    ensures 0 <= i < |flat| && flat[i] == e
  {
    JoinSplit(e.key);
    JoinSplit(flat[i].key);
  }

  /** What a written file reads back as, line by line. */
  lemma NestedHolds<V(!new)>(flat: Object<V>, e: Entry<V>)
    requires Flat(flat) && PlainKeys(flat) && Growable(LinePaths(flat)) && Lines([], LinePaths(flat)) == flat
    requires Nest(flat).Some? && e.tree.Leaf? && PlainParts(Split(e.key))
    ensures e in Flatten(Nest(flat).value, "") <==> exists i :: Survives(flat, i, e)
  {
    var tree, q, v := Nest(flat).value, Split(e.key), e.tree.value;
    NestGrows(LinePaths(flat));
    NestIsWellFormed(flat);
    NestBuilds(flat);
    FlattenIs(tree, []);
    LinesAreThePaths(Paths(tree), e);
    PathsAreValues(tree, Path(q, v));
    GrownAt(LinePaths(flat), q, v);
    if i :| Survives(flat, i, e) {
      SurvivesIff(flat, i, e);
    }
    if i :| Stands(LinePaths(flat), i, q, v) {
      StandsIsALine(flat, i, e);
      SurvivesIff(flat, i, e);
    }
  }

  lemma FlattenedLinesArePlain<V(!new)>(tree: Object<V>, e: Entry<V>)
    requires WellFormed(tree) && Built(tree, false) && e in Flatten(tree, "")
    ensures e.tree.Leaf? && PlainParts(Split(e.key))
  {
    FlattenIs(tree, []);
    PathsAre(tree);
    var i :| 0 <= i < |Paths(tree)| && Lines([], Paths(tree))[i] == e;
    assert [] + Paths(tree)[i].parts == Paths(tree)[i].parts;
    SplitJoin(Paths(tree)[i].parts);
  }

  /**
   What becomes of the merged lines, whatever they are. No file is written exactly
   when a line's key, and a dot, begins a later line's: there is text where that
   line's section has to be. A file that is written has lost exactly the lines
   that a later line's key, and a dot, begins: text has taken their section's place.
   */
  lemma MergedWrittenOrLost<V(!new)>(english: Object<V>, combined: Object<V>, e: Entry<V>)
    requires WellFormed(english) && Built(english, false) && Flat(combined)
    ensures var merged := Merged(Flatten(english, ""), ReferenceIn(Flatten(english, "")), combined);
            && (Nest(merged).None? <==> TextAhead(merged))
            && (Nest(merged).Some? ==>
                  (e in Flatten(Nest(merged).value, "") <==> exists i :: Survives(merged, i, e)))
  {
    var merged := Merged(Flatten(english, ""), ReferenceIn(Flatten(english, "")), combined);
    MergedAreGrowable(english, combined);
    NestGrows(LinePaths(merged));
    GrownUnlessTextFirst(LinePaths(merged));
    TextAheadIff(merged);
    if Nest(merged).Some? {
      NestIsWellFormed(merged);
      NestBuilds(merged);
      if e in Flatten(Nest(merged).value, "") {
        FlattenedLinesArePlain(Nest(merged).value, e);
        NestedHolds(merged, e);
      }
      if i :| Survives(merged, i, e) {
        NestedHolds(merged, e);
      }
    }
  }

  /** The same of a locale and a patch. */
  lemma WrittenOrLost<V(!new)>(english: Object<V>, locale: Object<V>, patch: Object<V>, e: Entry<V>)
    requires WellFormed(english) && Built(english, false) && Flat(patch)
    ensures var merged, written := MergedLines(english, locale, patch), MergeResult(english, locale, patch);
            && (written.None? <==> TextAhead(merged))
            && (written.Some? ==> (e in Flatten(written.value, "") <==> exists i :: Survives(merged, i, e)))
  {
    FlattenIsFlat(locale, "");
    AssignStaysFlat(Flatten(locale, ""), patch);
    MergedWrittenOrLost(english, Assign(Flatten(locale, ""), patch), e);
  }

  lemma AssignNothing<V>(props: Object<V>)
    ensures Assign(props, []) == props
  {
  }

  /** Every line of a written file has its reference in English. */
  lemma WrittenHasReferences<V(!new)>(english: Object<V>, locale: Object<V>, patch: Object<V>, e: Entry<V>)
    requires WellFormed(english) && Built(english, false) && Flat(patch)
    requires MergeResult(english, locale, patch).Some? && e in Flatten(MergeResult(english, locale, patch).value, "")
    ensures LocaleReferenceKey(Flatten(english, ""), e.key).Some?
  {
    WrittenOrLost(english, locale, patch, e);
    var i :| Survives(MergedLines(english, locale, patch), i, e);
    assert e in MergedLines(english, locale, patch);
    MergedLinesAre(english, locale, patch, e);
  }

  /**
   However many lines a written file has lost, it has no leftovers, and merging it
   again with no patch loses nothing more: the file that comes of that holds the
   same lines, and from then on comes out as it is.
   */
  lemma MergingAgainLosesNothing<V(!new)>(english: Object<V>, locale: Object<V>, patch: Object<V>)
    requires WellFormed(english) && Built(english, false) && Flat(patch)
    requires MergeResult(english, locale, patch).Some?
    ensures var written := MergeResult(english, locale, patch).value;
            var again := MergeResult(english, written, []);
            && Extra(Flatten(english, ""), Flatten(written, "")) == []
            && again.Some? && (forall e :: e in Flatten(again.value, "") <==> e in Flatten(written, ""))
            && MergeResult(english, again.value, []) == again
  {
    var source, written := Flatten(english, ""), MergeResult(english, locale, patch).value;
    var lines := MergedLines(english, written, []);
    WrittenIsATree(english, locale, patch);
    FlattenedIsPrefixFree(written);
    FlattenIsFlat(written, "");
    AssignNothing(Flatten(written, ""));
    forall e ensures e in lines <==> e in Flatten(written, "") {
      MergedLinesAre(english, written, [], e);
      if e in Flatten(written, "") {
        WrittenHasReferences(english, locale, patch, e);
      }
    }
    forall e | e in Flatten(written, "") ensures !WithoutReference(ReferenceIn(source))(e) {
      WrittenHasReferences(english, locale, patch, e);
    }
    FilterNone(Flatten(written, ""), WithoutReference(ReferenceIn(source)));
    assert PrefixFree(lines);
    WrittenFileHolds(english, written, []);
    MergingSettles(english, written, []);
  }

  lemma WrittenIsATree<V(!new)>(english: Object<V>, locale: Object<V>, patch: Object<V>)
    requires WellFormed(english) && Built(english, false) && Flat(patch)
    requires MergeResult(english, locale, patch).Some?
    ensures var written := MergeResult(english, locale, patch).value; WellFormed(written) && Built(written, false)
  {
    FlattenIsFlat(locale, "");
    AssignStaysFlat(Flatten(locale, ""), patch);
    MergedAreGrowable(english, Assign(Flatten(locale, ""), patch));
    NestIsWellFormed(MergedLines(english, locale, patch));
    NestBuilds(MergedLines(english, locale, patch));
  }

  // ------------------------------------------------------ a patch accepted, and lost

  /** English with its section `x_ago` ahead of `x`. */
  function SectionAhead<V>(x: V, y: V): Object<V> {
    [Entry("time", Node([Entry("x_ago", Node([Entry("y", Leaf(y))])), Entry("x", Leaf(x))]))]
  }

  lemma AheadSource<V>(x: V, y: V)
    ensures Flatten(SectionAhead(x, y), "") == TwoLines("time.x_ago.y", y, "time.x", x)
  {
    var inner := [Entry("y", Leaf(y))];
    var section, text := Entry("x_ago", Node(inner)), Entry("x", Leaf(x));
    var kids := [section, text];
    OneFlattens(inner[0], "time.x_ago");
    assert Full("time", "x") == "time.x" && Full("time", "x_ago") == "time.x_ago";
    assert Full("time.x_ago", "y") == "time.x_ago.y";
    assert kids[..1] == [section] && [section][..0] == [];
    AssignNew([], Entry("time.x_ago.y", Leaf(y)));
    assert Flatten([section], "time") == [Entry("time.x_ago.y", Leaf(y))];
    PutNew([Entry("time.x_ago.y", Leaf(y))], "time.x", Leaf(x));
    assert Flatten(kids, "time") == TwoLines("time.x_ago.y", y, "time.x", x);
    assert SectionAhead(x, y)[..0] == [];
    AssignTwo("time.x_ago.y", y, "time.x", x);
  }

  lemma AheadIsATree<V>(x: V, y: V)
    ensures WellFormed(SectionAhead(x, y)) && Built(SectionAhead(x, y), false)
  {
    var inner := [Entry("y", Leaf(y))];
    var kids := [Entry("x_ago", Node(inner)), Entry("x", Leaf(x))];
    assert "y"[0] == 'y' && "x"[0] == 'x' && "x_ago"[0] == 'x' && "time"[0] == 't';
    assert WellFormed(inner) && BuiltEntry(inner[0], false);
    assert WellFormed(kids) && BuiltEntry(kids[0], false) && BuiltEntry(kids[1], false);
    assert BuiltEntry(SectionAhead(x, y)[0], false);
  }

  lemma AheadReferences<V>(x: V, y: V)
    ensures var source := TwoLines("time.x_ago.y", y, "time.x", x);
            && LocaleReferenceKey(source, "time.x_ago") == Some("time.x")
            && LocaleReferenceKey(source, "time.x_ago.y") == Some("time.x_ago.y")
            && !IsKey(source, "time.x_ago") && IsKey(source, "time.x") && IsKey(source, "time.x_ago.y")
  {
    var source := TwoLines("time.x_ago.y", y, "time.x", x);
    IndexIs(source, "time.x_ago");
    IndexIs(source, "time.x");
    IndexIs(source, "time.x_ago.y");
    assert source[0].key == "time.x_ago.y" && source[1].key == "time.x";
    TwinReferencesIn(source);
  }

  /** English's first key, and a form of its second. */
  lemma KeyAndFormMerged<V(!new)>(source: Object<V>, ref: string -> Option<string>, lines: Object<V>)
    requires |source| == 2 && |lines| == 2 && source[0].key == lines[1].key != source[1].key
    requires !IsKey(source, lines[0].key) && ref(lines[0].key) == Some(source[1].key)
    requires lines[0].key != source[0].key && lines[0].key != source[1].key
    ensures Merged(source, ref, lines) == [lines[1], lines[0]]
  {
    var block := BlockAt(source, ref, lines);
    IndexIs(lines, source[0].key);
    IndexIs(lines, source[1].key);
    IndexIs(source, lines[1].key);
    assert source[0].key == lines[1].key;
    assert Kept(lines, source[0].key) == [lines[1]] && Kept(lines, source[1].key) == [];
    FilterTwo(lines, BehindKey(source, ref, source[0].key));
    FilterTwo(lines, BehindKey(source, ref, source[1].key));
    assert IsKey(source, lines[1].key);
    assert !BehindKey(source, ref, source[0].key)(lines[0]) && !BehindKey(source, ref, source[0].key)(lines[1]);
    assert BehindKey(source, ref, source[1].key)(lines[0]) && !BehindKey(source, ref, source[1].key)(lines[1]);
    assert block(0) == [lines[1]] + [] && block(1) == [] + [lines[0]];
    assert Concat(block, 0) == [] && Concat(block, 1) == [] + [lines[1]];
    assert Concat(block, 2) == [lines[1]] + [lines[0]];
  }

  lemma AheadMerged<V(!new)>(x: V, y: V, c: V, d: V)
    ensures var source := TwoLines("time.x_ago.y", y, "time.x", x);
            Merged(source, ReferenceIn(source), TwoLines("time.x_ago", c, "time.x_ago.y", d))
            == TwoLines("time.x_ago.y", d, "time.x_ago", c)
  {
    var source := TwoLines("time.x_ago.y", y, "time.x", x);
    AheadReferences(x, y);
    assert "time.x_ago" != "time.x" && "time.x_ago.y" != "time.x" && "time.x_ago" != "time.x_ago.y";
    KeyAndFormMerged(source, ReferenceIn(source), TwoLines("time.x_ago", c, "time.x_ago.y", d));
  }

  lemma LinesOf<V>(english: Object<V>, locale: Object<V>, patch: Object<V>, source: Object<V>, combined: Object<V>)
    requires Flatten(english, "") == source && Assign(Flatten(locale, ""), patch) == combined
    ensures MergedLines(english, locale, patch) == Merged(source, ReferenceIn(source), combined)
  {
  }

  lemma AheadFits<V>(x: V, y: V, d: V, reading: Reading<V>)
    requires reading.written(d) && reading.interpolations(d) == reading.interpolations(y)
             && reading.tags(d) == reading.tags(y)
    ensures var source := TwoLines("time.x_ago.y", y, "time.x", x);
            Fits(source, ReferenceIn(source), reading, Entry("time.x_ago.y", Leaf(d)))
  {
    var source := TwoLines("time.x_ago.y", y, "time.x", x);
    AheadReferences(x, y);
    IndexIs(source, "time.x_ago.y");
    assert source[0].key == "time.x_ago.y";
  }

  lemma LaterTextTakesTheSection<V(!new)>(d: V, c: V)
    ensures var lines := TwoLines("time.x_ago.y", d, "time.x_ago", c);
            !TextAhead(lines) && forall i :: !Survives(lines, i, lines[0])
  {
    var lines := TwoLines("time.x_ago.y", d, "time.x_ago", c);
    assert "time.x_ago" + "." <= "time.x_ago.y";
    assert |lines[0].key| > |lines[1].key|;
    forall i ensures !Survives(lines, i, lines[0]) {
      if i == 0 { assert lines[1].key + "." <= lines[0].key; }
    }
  }

  /**
   A patch every check accepts, a file that is written, and the patch's own
   translation not in it: English has its section `x_ago` ahead of `x`, the locale a
   text of that name, and the text is written over the section.
   */
  lemma AcceptedAndLost<V(!new)>(x: V, y: V, c: V, d: V, reading: Reading<V>)
    requires reading.written(d) && reading.interpolations(d) == reading.interpolations(y)
             && reading.tags(d) == reading.tags(y)
    ensures var english, patch := SectionAhead(x, y), [Entry("time.x_ago.y", Leaf(d))];
            var locale := [Entry("time", Node([Entry("x_ago", Leaf(c))]))];
            && Fits(Flatten(english, ""), ReferenceIn(Flatten(english, "")), reading, patch[0])
            && MergeResult(english, locale, patch).Some?
            && patch[0] !in Flatten(MergeResult(english, locale, patch).value, "")
  {
    var english, patch := SectionAhead(x, y), [Entry("time.x_ago.y", Leaf(d))];
    var locale := [Entry("time", Node([Entry("x_ago", Leaf(c))]))];
    AheadSource(x, y);
    AheadIsATree(x, y);
    TwinLocale(c);
    AssignNew([Entry("time.x_ago", Leaf(c))], patch[0]);
    LinesOf(english, locale, patch, TwoLines("time.x_ago.y", y, "time.x", x),
            TwoLines("time.x_ago", c, "time.x_ago.y", d));
    AheadMerged(x, y, c, d);
    AheadFits(x, y, d, reading);
    LaterTextTakesTheSection(d, c);
    WrittenOrLost(english, locale, patch, patch[0]);
  }
}
