/**
 Locale files: nested objects, their dotted-key form, and the way back.

 An object is its own properties in the order they are listed; a flat object is
 one whose properties are all leaves.
 */
module LocaleTree {
  import opened Wrappers
  import opened Text

  datatype Tree<V> = Leaf(value: V) | Node(kids: seq<Entry<V>>)

  datatype Entry<V> = Entry(key: string, tree: Tree<V>)

  type Object<V> = seq<Entry<V>>

  // -------------------------------------------------------------- dotted keys

  /** String.split("."). */
  function Split(s: string): (parts: seq<string>)
    ensures parts != []
  {
    if s == "" then [""]
    else if s[0] == '.' then [""] + Split(s[1..])
    else
      var rest := Split(s[1..]);
      [[s[0]] + rest[0]] + rest[1..]
  }

  function Join(parts: seq<string>): string
    requires parts != []
  {
    if |parts| == 1 then parts[0] else parts[0] + "." + Join(parts[1..])
  }

  /** The dotted key of a property below `prefix`; the empty prefix is no prefix. */
  function Full(prefix: string, key: string): string {
    if prefix == "" then key else prefix + "." + key
  }

  /**
   A key that can be read back from a dotted path; objects list keys like array indices
   apart, so they are not modelled.
   */
  predicate Plain(key: string) {
    key != "" && '.' !in key && !IsDigits(key)
  }

  // ---------------------------------------------------------------- own properties


  function IndexOf<V>(props: Object<V>, key: string): Option<nat> {
    if props == [] then None
    else
      var n := |props| - 1;
      if props[n].key == key then Some(n) else IndexOf(props[..n], key)
  }

  /** What an empty object already answers to. */
  const PROTO := "__proto__"

  predicate Inherited(key: string) {
    key in {PROTO, "constructor", "hasOwnProperty", "isPrototypeOf", "propertyIsEnumerable", "toLocaleString",
            "toString", "valueOf", "__defineGetter__", "__defineSetter__", "__lookupGetter__", "__lookupSetter__"}
  }

  /** props[key] = a plain value: in place when it is there, at the end when new; `__proto__` takes no plain value. */
  function Put<V>(props: Object<V>, key: string, tree: Tree<V>): Object<V> {
    if key == PROTO then props
    else
      match IndexOf(props, key)
      case Some(i) => if i < |props| then props[i := Entry(key, tree)] else props
      case None => props + [Entry(key, tree)]
  }

  /** Object.assign. */
  function Assign<V>(props: Object<V>, other: Object<V>): Object<V> {
    if other == [] then props
    else Put(Assign(props, other[..|other| - 1]), other[|other| - 1].key, other[|other| - 1].tree)
  }

  // -------------------------------------------------------------- flatten and nest

  function Flatten<V>(props: Object<V>, prefix: string): Object<V> {
    if props == [] then []
    else
      var entries, last := Flatten(props[..|props| - 1], prefix), props[|props| - 1];
      var full := Full(prefix, last.key);
      match last.tree
      case Leaf(_) => Put(entries, full, last.tree)
      case Node(kids) => Assign(entries, Flatten(kids, full))
  }

  /**
   One assignment of nest: down the parts, creating what is missing, then the
   leaf. None when the walk leaves the tree, through an inherited property or
   into a plain value.
   */
  function Grow<V>(props: Object<V>, parts: seq<string>, value: V): Option<Object<V>>
    requires parts != []
    decreases |parts|
  {
    if |parts| == 1 then Some(Put(props, parts[0], Leaf(value)))
    else
      match IndexOf(props, parts[0])
      case Some(i) =>
        if i >= |props| || props[i].tree.Leaf? then None
        else
          (match Grow(props[i].tree.kids, parts[1..], value)
           case None => None
           case Some(kids) => Some(props[i := Entry(parts[0], Node(kids))]))
      case None =>
        if Inherited(parts[0]) then None
        else
          match Grow([], parts[1..], value)
          case None => None
          case Some(kids) => Some(props + [Entry(parts[0], Node(kids))])
  }

  /** A flat object's leaves, grown into a tree in the order they are listed. */
  function Nest<V>(flat: Object<V>): Option<Object<V>> {
    if flat == [] then Some([])
    else
      NestOn(Nest(flat[..|flat| - 1]), flat[|flat| - 1])
  }

  /** One line more; what is no text cannot be nested, and nothing follows a failure. */
  function NestOn<V>(nested: Option<Object<V>>, line: Entry<V>): Option<Object<V>> {
    if nested.Some? && line.tree.Leaf? then Grow(nested.value, Split(line.key), line.tree.value) else None
  }

  lemma NestNext<V>(flat: Object<V>, i: nat)
    requires i < |flat|
    ensures Nest(flat[..i + 1]) == NestOn(Nest(flat[..i]), flat[i])
  {
    assert flat[..i + 1][..i] == flat[..i];
  }

  /** nest, as the loop it is. */
  method NestLoop<V>(flat: Object<V>) returns (nested: Option<Object<V>>)
    ensures nested == Nest(flat)
  {
    nested := Some([]);
    for i := 0 to |flat|
      invariant nested == Nest(flat[..i])
    {
      NestNext(flat, i);
      nested := NestOn(nested, flat[i]);
    }
    assert flat[..|flat|] == flat;
  }

  // ----------------------------------------------------------- which trees are meant

  /** Distinct plain keys on every level. */
  ghost predicate WellFormed<V>(props: Object<V>)
    decreases props
  {
    && (forall i, j :: 0 <= i < j < |props| ==> props[i].key != props[j].key)
    && (forall i :: 0 <= i < |props| ==> Plain(props[i].key))
    && (forall i :: 0 <= i < |props| && props[i].tree.Node? ==> WellFormed(props[i].tree.kids))
  }

  /** What nest can build: no section under an inherited name, no `__proto__` leaf - and, `filled`, no empty section. */
  ghost predicate Built<V>(props: Object<V>, filled: bool)
    decreases props
  {
    forall i :: 0 <= i < |props| ==> BuiltEntry(props[i], filled)
  }

  ghost predicate BuiltEntry<V>(entry: Entry<V>, filled: bool)
    decreases entry
  {
    match entry.tree
    case Leaf(_) => entry.key != PROTO
    case Node(kids) => !Inherited(entry.key) && (filled ==> kids != []) && Built(kids, filled)
  }

  // ---------------------------------------------------------------- paths and their keys

  lemma {:induction false} SplitAt(a: string, rest: string)
    requires '.' !in a
    ensures Split(a) == [a]
    ensures Split(a + "." + rest) == [a] + Split(rest)
  {
    if a == "" {
      assert a + "." + rest == "." + rest;
    } else {
      SplitAt(a[1..], rest);
      assert (a + "." + rest)[1..] == a[1..] + "." + rest;
      assert [a[0]] + a[1..] == a;
    }
  }

  ghost predicate PlainParts(parts: seq<string>) {
    forall i :: 0 <= i < |parts| ==> Plain(parts[i])
  }

  /** A joined path reads back as its parts. */
  lemma {:induction false} SplitJoin(parts: seq<string>)
    requires parts != [] && PlainParts(parts)
    ensures Split(Join(parts)) == parts && Join(parts) != ""
  {
    if |parts| == 1 {
      SplitAt(parts[0], "");
    } else {
      SplitJoin(parts[1..]);
      SplitAt(parts[0], Join(parts[1..]));
    }
  }

  lemma {:induction false} JoinMore(parts: seq<string>, key: string)
    requires parts != []
    ensures Join(parts + [key]) == Join(parts) + "." + key
  {
    if |parts| > 1 {
      JoinMore(parts[1..], key);
      assert (parts + [key])[1..] == parts[1..] + [key];
      calc {
        Join(parts + [key]);
        parts[0] + "." + (Join(parts[1..]) + "." + key);
        Join(parts) + "." + key;
      }
    } else {
      assert (parts + [key])[1..] == [key];
    }
  }

  function Prefix(parts: seq<string>): string {
    if parts == [] then "" else Join(parts)
  }

  lemma FullJoins(parts: seq<string>, key: string)
    requires PlainParts(parts)
    ensures Full(Prefix(parts), key) == Join(parts + [key])
  {
    if parts != [] {
      SplitJoin(parts);
      JoinMore(parts, key);
    }
  }

  /** A leaf and the way to it. */
  datatype Path<V> = Path(parts: seq<string>, value: V)

  function Under<V>(key: string, paths: seq<Path<V>>): seq<Path<V>> {
    seq(|paths|, i requires 0 <= i < |paths| => Path([key] + paths[i].parts, paths[i].value))
  }

  /** The leaves of a tree, in the order it lists them. */
  function Paths<V>(props: Object<V>): seq<Path<V>> {
    if props == [] then []
    else Paths(props[..|props| - 1]) + PathsOf(props[|props| - 1])
  }

  function PathsOf<V>(entry: Entry<V>): seq<Path<V>> {
    match entry.tree
    case Leaf(value) => [Path([entry.key], value)]
    case Node(kids) => Under(entry.key, Paths(kids))
  }

  ghost predicate PlainPaths<V>(paths: seq<Path<V>>) {
    forall i :: 0 <= i < |paths| ==> paths[i].parts != [] && PlainParts(paths[i].parts)
  }

  ghost predicate DistinctPaths<V>(paths: seq<Path<V>>) {
    forall i, j :: 0 <= i < j < |paths| ==> paths[i].parts != paths[j].parts
  }

  /** Paths that start with one of an object's keys. */
  ghost predicate StartWithin<V>(paths: seq<Path<V>>, props: Object<V>) {
    forall i :: 0 <= i < |paths| ==>
      paths[i].parts != [] && exists j :: 0 <= j < |props| && props[j].key == paths[i].parts[0]
  }

  lemma WellFormedPrefix<V>(props: Object<V>, n: nat)
    requires WellFormed(props) && n <= |props|
    ensures WellFormed(props[..n])
  {
    assert forall i :: 0 <= i < n ==> props[..n][i] == props[i];
  }

  lemma BuiltPrefix<V>(props: Object<V>, filled: bool, n: nat)
    requires Built(props, filled) && n <= |props|
    ensures Built(props[..n], filled)
  {
  }

  lemma UnderIsPlain<V>(key: string, paths: seq<Path<V>>)
    requires Plain(key) && PlainPaths(paths) && DistinctPaths(paths)
    ensures PlainPaths(Under(key, paths)) && DistinctPaths(Under(key, paths))
  {
    forall i, j | 0 <= i < j < |paths| ensures Under(key, paths)[i].parts != Under(key, paths)[j].parts {
      assert ([key] + paths[i].parts)[1..] == paths[i].parts;
      assert ([key] + paths[j].parts)[1..] == paths[j].parts;
    }
  }

  lemma JoinedApart<V>(a: seq<Path<V>>, b: seq<Path<V>>, props: Object<V>, key: string)
    requires DistinctPaths(a) && DistinctPaths(b) && StartWithin(a, props)
    requires forall i :: 0 <= i < |b| ==> b[i].parts != [] && b[i].parts[0] == key
    requires forall j :: 0 <= j < |props| ==> props[j].key != key
    ensures DistinctPaths(a + b)
  {
  }

  /** The paths of a well-formed tree are plain, distinct and start with its keys. */
  lemma {:induction false} PathsAre<V>(props: Object<V>)
    requires WellFormed(props)
    ensures PlainPaths(Paths(props)) && DistinctPaths(Paths(props)) && StartWithin(Paths(props), props)
    decreases props, 1
  {
    if props == [] {
    } else {
      var n := |props| - 1;
      WellFormedPrefix(props, n);
      PathsAre(props[..n]);
      PathsOfAre(props[n]);
      JoinedApart(Paths(props[..n]), PathsOf(props[n]), props[..n], props[n].key);
      StartMore(Paths(props[..n]), PathsOf(props[n]), props);
    }
  }

  lemma StartMore<V>(a: seq<Path<V>>, b: seq<Path<V>>, props: Object<V>)
    requires props != [] && StartWithin(a, props[..|props| - 1])
    requires forall i :: 0 <= i < |b| ==> b[i].parts != [] && b[i].parts[0] == props[|props| - 1].key
    ensures StartWithin(a + b, props)
  {
    forall i | 0 <= i < |a + b|
      ensures (a + b)[i].parts != [] && exists j :: 0 <= j < |props| && props[j].key == (a + b)[i].parts[0]
    {
      if i < |a| {
        var j :| 0 <= j < |props| - 1 && props[..|props| - 1][j].key == a[i].parts[0];
        assert props[j].key == (a + b)[i].parts[0];
      } else {
        assert props[|props| - 1].key == (a + b)[i].parts[0];
      }
    }
  }

  lemma {:induction false} PathsOfAre<V>(entry: Entry<V>)
    requires Plain(entry.key) && (entry.tree.Node? ==> WellFormed(entry.tree.kids))
    ensures PlainPaths(PathsOf(entry)) && DistinctPaths(PathsOf(entry))
    ensures forall i :: 0 <= i < |PathsOf(entry)| ==> PathsOf(entry)[i].parts[0] == entry.key
    decreases entry, 0
  {
    if entry.tree.Node? {
      PathsAre(entry.tree.kids);
      UnderIsPlain(entry.key, Paths(entry.tree.kids));
    }
  }
}
