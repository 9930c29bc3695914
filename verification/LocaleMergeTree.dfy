/** The merged locale as the nested file it is written to: no leftovers, and merging again changes nothing. */
module LocaleMergeTree {
  import opened Wrappers
  import opened LocaleTree
  import opened LocaleRoundTrip
  import opened LocaleMerge

  // ----------------------------------------------------- a form stands in its reference's section

  lemma JoinBehindChar(c: char, rest: seq<string>)
    requires rest != []
    ensures Join([[c] + rest[0]] + rest[1..]) == [c] + Join(rest)
  {
    var parts := [[c] + rest[0]] + rest[1..];
    assert parts[1..] == rest[1..];
    if |rest| > 1 {
      assert Join(parts) == [c] + (rest[0] + "." + Join(rest[1..]));
    }
  }

  lemma JoinBehindDot(rest: seq<string>)
    requires rest != []
    ensures Join([""] + rest) == "." + Join(rest)
  {
    assert ([""] + rest)[1..] == rest;
  }

  lemma {:induction false} JoinSplit(s: string)
    ensures Join(Split(s)) == s
    ensures forall i :: 0 <= i < |Split(s)| ==> '.' !in Split(s)[i]
  {
    if s == "" {
    } else {
      var rest := Split(s[1..]);
      JoinSplit(s[1..]);
      assert s == [s[0]] + s[1..];
      if s[0] == '.' {
        JoinBehindDot(rest);
      } else {
        JoinBehindChar(s[0], rest);
      }
    }
  }

  function Last(parts: seq<string>): string
    requires parts != []
  {
    parts[|parts| - 1]
  }

  function Section(parts: seq<string>): seq<string>
    requires parts != []
  {
    parts[..|parts| - 1]
  }

  function Lengthened(parts: seq<string>, t: string): seq<string>
    requires parts != []
  {
    Section(parts) + [Last(parts) + t]
  }

  lemma LengthenedBehindChar(rest: seq<string>, c: char, t: string)
    requires rest != []
    ensures var longer := Lengthened(rest, t);
            [[c] + longer[0]] + longer[1..] == Lengthened([[c] + rest[0]] + rest[1..], t)
  {
    var head := [[c] + rest[0]] + rest[1..];
    if |rest| == 1 {
      assert [c] + (rest[0] + t) == ([c] + rest[0]) + t;
    } else {
      assert Section(head) == [[c] + rest[0]] + Section(rest)[1..] && Last(head) == Last(rest);
    }
  }

  lemma LengthenedBehindDot(rest: seq<string>, t: string)
    requires rest != []
    ensures [""] + Lengthened(rest, t) == Lengthened([""] + rest, t)
  {
  }

  /** Text without a dot lengthens the last part only. */
  lemma {:induction false} SplitLonger(s: string, t: string)
    requires '.' !in t
    ensures Split(s + t) == Lengthened(Split(s), t)
  {
    if s == "" {
      SplitAt(t, "");
      assert s + t == t;
    } else {
      SplitLonger(s[1..], t);
      assert (s + t)[1..] == s[1..] + t && (s + t)[0] == s[0];
      if s[0] == '.' {
        LengthenedBehindDot(Split(s[1..]), t);
      } else {
        LengthenedBehindChar(Split(s[1..]), s[0], t);
      }
    }
  }

  /** The name a dotted key has within its section. */
  function NameOf(key: string): string {
    Last(Split(key))
  }

  /** A name as a locale form has it: behind a reference's, so plain and never `__proto__`. */
  ghost predicate FormName(name: string) {
    Plain(name) && name != PROTO
  }

  lemma SuffixedName(name: string, suffix: string)
    requires '.' !in name + suffix && suffix != ""
    requires 'a' <= suffix[|suffix| - 1] <= 'z'
    ensures FormName(name + suffix)
  {
    var whole := name + suffix;
    assert whole[|whole| - 1] == suffix[|suffix| - 1];
  }

  /** Two keys that differ behind a common stem are in one section. */
  lemma SameStemSameSection(section: seq<string>, key: string, stem: string, x: string, y: string)
    requires PlainParts(section) && Plain(key) && Join(section + [key]) == stem + y
    requires '.' !in x && '.' !in y && x != "" && 'a' <= x[|x| - 1] <= 'z'
    ensures FormName(NameOf(stem + x)) && stem + x == Join(section + [NameOf(stem + x)])
  {
    var full := section + [key];
    SplitJoin(full);
    SplitLonger(stem, x);
    SplitLonger(stem, y);
    assert Section(full) == section;
    JoinSplit(stem + x);
    assert Split(stem + x) == section + [NameOf(stem + x)];
    assert '.' !in Split(stem + x)[|section|];
    SuffixedName(Last(Split(stem)), x);
  }

  lemma Chopped(s: string, suffix: string)
    requires EndsWith(s, suffix)
    ensures s == Chop(s, suffix) + suffix
  {
  }

  lemma BehindTheStemOf(plain: string, c: string)
    requires '.' !in c && c != "" && 'a' <= c[|c| - 1] <= 'z'
    ensures var key, stem := plain + c, Chop(plain, "_ago");
            var x := key[|stem|..];
            key == stem + x && '.' !in x && x != "" && 'a' <= x[|x| - 1] <= 'z'
  {
    var key, stem := plain + c, Chop(plain, "_ago");
    if EndsWith(plain, "_ago") {
      Chopped(plain, "_ago");
      assert key == stem + ("_ago" + c);
      assert key[|stem|..] == "_ago" + c;
    } else {
      assert key[|stem|..] == c;
    }
  }

  /** What a counted form carries behind its stem: a letter in the end, and no dot. */
  lemma BehindTheStem(key: string)
    requires CategoryOf(key) != ""
    ensures var x := key[|Stem(key)|..];
            key == Stem(key) + x && '.' !in x && x != "" && 'a' <= x[|x| - 1] <= 'z'
  {
    CategoryIsOneOf(key);
    CategoriesAreLettered(CategoryOf(key));
    Chopped(key, CategoryOf(key));
    BehindTheStemOf(WithoutCategory(key), CategoryOf(key));
  }

  const CATEGORIES := {"_zero", "_one", "_two", "_few", "_many", "_other"}

  /** Behind its last letter a key goes on with nothing, and nothing in it opens another section. */
  predicate Lettered(suffix: string) {
    '.' !in suffix && suffix != "" && 'a' <= suffix[|suffix| - 1] <= 'z'
  }

  lemma CategoriesAreLettered(c: string)
    requires c in CATEGORIES
    ensures Lettered(c)
  {
  }

  lemma CategoryIsOneOf(key: string)
    requires CategoryOf(key) != ""
    ensures CategoryOf(key) in CATEGORIES && EndsWith(key, CategoryOf(key))
  {
  }

  lemma AgoFormSharesSection(section: seq<string>, key: string, form: string)
    requires PlainParts(section) && Plain(key)
    requires EndsWith(form, "_ago") && Chop(form, "_ago") == Join(section + [key])
    ensures FormName(NameOf(form)) && form == Join(section + [NameOf(form)])
  {
    var stem := Chop(form, "_ago");
    Chopped(form, "_ago");
    assert stem + "" == stem;
    SameStemSameSection(section, key, stem, "_ago", "");
  }

  lemma CountedFormSharesSection(section: seq<string>, key: string, form: string, rest: string)
    requires PlainParts(section) && Plain(key) && CategoryOf(form) != "" && '.' !in rest
    requires Stem(form) + rest == Join(section + [key])
    ensures FormName(NameOf(form)) && form == Join(section + [NameOf(form)])
  {
    BehindTheStem(form);
    SameStemSameSection(section, key, Stem(form), form[|Stem(form)|..], rest);
  }

  lemma ReferenceIs<V(!new)>(source: Object<V>, form: string)
    requires !IsKey(source, form) && LocaleReferenceKey(source, form).Some?
    ensures var to := LocaleReferenceKey(source, form).value;
            || (CategoryOf(form) != "" && (to == Stem(form) + "_other" || to == Stem(form) + ""))
            || (EndsWith(form, "_ago") && to == Chop(form, "_ago"))
  {
    assert Stem(form) + "" == Stem(form);
  }

  /** A key English does not have stands in the section of its reference, under a plain name. */
  lemma FormSharesSection<V(!new)>(source: Object<V>, section: seq<string>, key: string, form: string)
    requires PlainParts(section) && Plain(key) && !IsKey(source, form)
    requires LocaleReferenceKey(source, form) == Some(Join(section + [key]))
    ensures FormName(NameOf(form)) && form == Join(section + [NameOf(form)])
  {
    ReferenceIs(source, form);
    var to := Join(section + [key]);
    if EndsWith(form, "_ago") && to == Chop(form, "_ago") {
      AgoFormSharesSection(section, key, form);
    } else {
      CountedFormSharesSection(section, key, form, if to == Stem(form) + "_other" then "_other" else "");
    }
  }

  // ------------------------------------------------------------------ the merged tree

  function Named<V>(block: Object<V>): Object<V> {
    seq(|block|, i requires 0 <= i < |block| => Entry(NameOf(block[i].key), block[i].tree))
  }

  /** English's own tree, each leaf replaced by what the merge writes for its key. */
  function MergeKids<V>(block: string -> Object<V>, kids: Object<V>, section: seq<string>): Object<V>
    decreases kids, 1
  {
    if kids == [] then []
    else MergeKids(block, kids[..|kids| - 1], section) + MergeEntry(block, kids[|kids| - 1], section)
  }

  function MergeEntry<V>(block: string -> Object<V>, entry: Entry<V>, section: seq<string>): Object<V>
    decreases entry, 0
  {
    match entry.tree
    case Leaf(_) => Named(block(Join(section + [entry.key])))
    case Node(kids) =>
      var merged := MergeKids(block, kids, section + [entry.key]);
      if merged == [] then [] else [Entry(entry.key, Node(merged))]
  }

  /** Leaves of one section, each under its own plain name. */
  ghost predicate InSection<V>(block: Object<V>, section: seq<string>) {
    && DistinctKeys(block) && AllLeaves(block)
    && forall i :: 0 <= i < |block| ==>
         FormName(NameOf(block[i].key)) && block[i].key == Join(section + [NameOf(block[i].key)])
  }

  ghost predicate KeyAbsent<V>(block: Object<V>, key: string) {
    forall i :: 0 <= i < |block| ==> block[i].key != key
  }

  ghost predicate KeysApartIn<V>(a: Object<V>, b: Object<V>) {
    forall i :: 0 <= i < |a| ==> KeyAbsent(b, a[i].key)
  }

  /** What two neighbours of English write does not collide. */
  ghost predicate NeighboursApart<V>(block: string -> Object<V>, a: Entry<V>, b: Entry<V>, section: seq<string>) {
    var keyA, keyB := Join(section + [a.key]), Join(section + [b.key]);
    && (a.tree.Leaf? && b.tree.Leaf? ==> KeysApartIn(block(keyA), block(keyB)))
    && (a.tree.Leaf? && b.tree.Node? && MergeEntry(block, b, section) != [] ==> KeyAbsent(block(keyA), keyB))
    && (a.tree.Node? && b.tree.Leaf? && MergeEntry(block, a, section) != [] ==> KeyAbsent(block(keyB), keyA))
  }

  ghost predicate Tidy<V>(block: string -> Object<V>, kids: Object<V>, section: seq<string>)
    decreases kids
  {
    && (forall i :: 0 <= i < |kids| ==> TidyEntry(block, kids[i], section))
    && (forall i, j :: 0 <= i < j < |kids| ==> NeighboursApart(block, kids[i], kids[j], section))
  }

  ghost predicate TidyEntry<V>(block: string -> Object<V>, entry: Entry<V>, section: seq<string>)
    decreases entry
  {
    match entry.tree
    case Leaf(_) => InSection(block(Join(section + [entry.key])), section)
    case Node(kids) => Tidy(block, kids, section + [entry.key])
  }

  lemma TidyPrefix<V>(block: string -> Object<V>, kids: Object<V>, section: seq<string>, n: nat)
    requires Tidy(block, kids, section) && n <= |kids|
    ensures Tidy(block, kids[..n], section)
  {
  }

  lemma NamedIs<V>(block: Object<V>, section: seq<string>)
    requires InSection(block, section)
    ensures WellFormed(Named(block)) && Built(Named(block), true)
  {
    var named := Named(block);
    forall i, j | 0 <= i < j < |named| ensures named[i].key != named[j].key {
      assert block[i].key != block[j].key;
    }
    assert forall i :: 0 <= i < |named| ==> BuiltEntry(named[i], true);
  }

  /** Two neighbours write different names. */
  lemma NeighboursNamedApart<V>(block: string -> Object<V>, a: Entry<V>, b: Entry<V>, section: seq<string>)
    requires TidyEntry(block, a, section) && TidyEntry(block, b, section)
    requires NeighboursApart(block, a, b, section) && a.key != b.key
    ensures forall x, y :: x in MergeEntry(block, a, section) && y in MergeEntry(block, b, section) ==> x.key != y.key
  {
  }

  /** The keys the first n kids write. */
  lemma {:induction false} WrittenBy<V(!new)>(block: string -> Object<V>, kids: Object<V>, section: seq<string>,
                                       x: Entry<V>)
    requires x in MergeKids(block, kids, section)
    ensures exists i :: 0 <= i < |kids| && x in MergeEntry(block, kids[i], section)
    decreases |kids|
  {
    var n := |kids| - 1;
    if x in MergeKids(block, kids[..n], section) {
      WrittenBy(block, kids[..n], section, x);
      var i :| 0 <= i < n && x in MergeEntry(block, kids[..n][i], section);
      assert kids[i] == kids[..n][i];
    }
  }

  lemma JoinTrees<V(!new)>(a: Object<V>, b: Object<V>)
    requires WellFormed(a) && WellFormed(b) && Built(a, true) && Built(b, true)
    requires forall x, y :: x in a && y in b ==> x.key != y.key
    ensures WellFormed(a + b) && Built(a + b, true)
  {
    forall i, j | 0 <= i < |a| && 0 <= j < |b| ensures a[i].key != b[j].key {
      assert a[i] in a && b[j] in b;
    }
    forall i | 0 <= i < |a + b| ensures BuiltEntry((a + b)[i], true) {
      assert i < |a| ==> BuiltEntry(a[i], true);
      assert i >= |a| ==> BuiltEntry(b[i - |a|], true);
    }
  }

  /** The merged tree is one nest can build, its keys distinct on every level. */
  lemma {:induction false} MergedTreeIsSound<V(!new)>(block: string -> Object<V>, kids: Object<V>, section: seq<string>)
    requires WellFormed(kids) && Built(kids, false) && Tidy(block, kids, section)
    ensures WellFormed(MergeKids(block, kids, section)) && Built(MergeKids(block, kids, section), true)
    decreases kids, 1
  {
    if kids == [] {
    } else {
      var n := |kids| - 1;
      WellFormedPrefix(kids, n);
      BuiltPrefix(kids, false, n);
      TidyPrefix(block, kids, section, n);
      MergedTreeIsSound(block, kids[..n], section);
      assert BuiltEntry(kids[n], false) && TidyEntry(block, kids[n], section);
      MergedEntryIsSound(block, kids[n], section);
      LastIsApart(block, kids, section);
      JoinTrees(MergeKids(block, kids[..n], section), MergeEntry(block, kids[n], section));
    }
  }

  lemma LastIsApart<V(!new)>(block: string -> Object<V>, kids: Object<V>, section: seq<string>)
    requires WellFormed(kids) && Tidy(block, kids, section) && kids != []
    ensures var n := |kids| - 1;
            forall x, y :: x in MergeKids(block, kids[..n], section) && y in MergeEntry(block, kids[n], section) ==>
              x.key != y.key
  {
    var n := |kids| - 1;
    forall x, y | x in MergeKids(block, kids[..n], section) && y in MergeEntry(block, kids[n], section)
      ensures x.key != y.key
    {
      WrittenBy(block, kids[..n], section, x);
      var i :| 0 <= i < n && x in MergeEntry(block, kids[..n][i], section);
      assert TidyEntry(block, kids[i], section) && TidyEntry(block, kids[n], section);
      assert NeighboursApart(block, kids[i], kids[n], section);
      NeighboursNamedApart(block, kids[i], kids[n], section);
    }
  }

  lemma {:induction false} MergedEntryIsSound<V(!new)>(block: string -> Object<V>, entry: Entry<V>,
                                                section: seq<string>)
    requires Plain(entry.key) && (entry.tree.Node? ==> WellFormed(entry.tree.kids)) && BuiltEntry(entry, false)
    requires TidyEntry(block, entry, section)
    ensures WellFormed(MergeEntry(block, entry, section)) && Built(MergeEntry(block, entry, section), true)
    decreases entry, 0
  {
    match entry.tree
    case Leaf(_) => NamedIs(block(Join(section + [entry.key])), section);
    case Node(kids) =>
      MergedTreeIsSound(block, kids, section + [entry.key]);
      var merged := MergeKids(block, kids, section + [entry.key]);
      if merged != [] {
        assert BuiltEntry(Entry(entry.key, Node(merged)), true);
      }
  }

  // ------------------------------------------------------- what the merged tree flattens to

  /** What is written for these English lines, one after another. */
  function BlocksOf<V>(block: string -> Object<V>, lines: Object<V>): Object<V> {
    if lines == [] then [] else BlocksOf(block, lines[..|lines| - 1]) + block(lines[|lines| - 1].key)
  }

  lemma {:induction false} BlocksOfAppend<V>(block: string -> Object<V>, a: Object<V>, b: Object<V>)
    ensures BlocksOf(block, a + b) == BlocksOf(block, a) + BlocksOf(block, b)
  {
    if b == [] {
      assert a + b == a;
    } else {
      assert (a + b)[..|a + b| - 1] == a + b[..|b| - 1];
      BlocksOfAppend(block, a, b[..|b| - 1]);
    }
  }

  lemma {:induction false} PathsAppend<V>(a: Object<V>, b: Object<V>)
    ensures Paths(a + b) == Paths(a) + Paths(b)
  {
    if b == [] {
      assert a + b == a;
    } else {
      assert (a + b)[..|a + b| - 1] == a + b[..|b| - 1];
      PathsAppend(a, b[..|b| - 1]);
    }
  }

  lemma LinesAppend<V>(section: seq<string>, a: seq<Path<V>>, b: seq<Path<V>>)
    requires PlainPaths(a) && PlainPaths(b) && PlainPaths(a + b)
    ensures Lines(section, a + b) == Lines(section, a) + Lines(section, b)
  {
  }

  lemma {:induction false} LeafPaths<V>(leaves: Object<V>)
    requires AllLeaves(leaves)
    ensures |Paths(leaves)| == |leaves|
    ensures forall i :: 0 <= i < |leaves| ==> Paths(leaves)[i] == Path([leaves[i].key], leaves[i].tree.value)
  {
    if leaves == [] {
    } else {
      LeafPaths(leaves[..|leaves| - 1]);
    }
  }

  /** Named leaves, flattened in their section, are the block they came of. */
  lemma NamedFlattens<V>(block: Object<V>, section: seq<string>)
    requires InSection(block, section)
    ensures PlainPaths(Paths(Named(block))) && Lines(section, Paths(Named(block))) == block
  {
    LeafPaths(Named(block));
    forall i | 0 <= i < |block|
      ensures Entry(Join(section + Paths(Named(block))[i].parts), Leaf(Paths(Named(block))[i].value)) == block[i] {
      assert Paths(Named(block))[i] == Path([NameOf(block[i].key)], block[i].tree.value);
    }
  }

  lemma OnePath<V>(entry: Entry<V>)
    ensures Paths([entry]) == PathsOf(entry)
  {
    assert [entry][..0] == [];
    assert Paths([entry]) == Paths([entry][..0]) + PathsOf(entry);
  }

  /** The merged tree flattens to the blocks of English's lines, in English's order. */
  lemma {:induction false} MergedTreeFlattens<V(!new)>(block: string -> Object<V>, kids: Object<V>,
                                                section: seq<string>)
    requires WellFormed(kids) && Built(kids, false) && Tidy(block, kids, section) && PlainParts(section)
    requires WellFormed(MergeKids(block, kids, section))
    ensures PlainPaths(Paths(kids)) && PlainPaths(Paths(MergeKids(block, kids, section)))
    ensures Lines(section, Paths(MergeKids(block, kids, section))) == BlocksOf(block, Lines(section, Paths(kids)))
    decreases kids, 1
  {
    PathsAre(kids);
    PathsAre(MergeKids(block, kids, section));
    if kids == [] {
    } else {
      var n := |kids| - 1;
      WellFormedPrefix(kids, n);
      BuiltPrefix(kids, false, n);
      TidyPrefix(block, kids, section, n);
      MergedTreeIsSound(block, kids[..n], section);
      MergedTreeFlattens(block, kids[..n], section);
      assert BuiltEntry(kids[n], false) && TidyEntry(block, kids[n], section);
      MergedEntryFlattens(block, kids[n], section);
      BlocksJoin(block, section, Paths(kids[..n]), PathsOf(kids[n]),
                 MergeKids(block, kids[..n], section), MergeEntry(block, kids[n], section));
    }
  }

  lemma BlocksJoin<V>(block: string -> Object<V>, section: seq<string>, a: seq<Path<V>>, b: seq<Path<V>>,
                      x: Object<V>, y: Object<V>)
    requires PlainPaths(a) && PlainPaths(b) && PlainPaths(Paths(x)) && PlainPaths(Paths(y))
    requires Lines(section, Paths(x)) == BlocksOf(block, Lines(section, a))
    requires Lines(section, Paths(y)) == BlocksOf(block, Lines(section, b))
    ensures PlainPaths(a + b) && PlainPaths(Paths(x + y))
    ensures Lines(section, Paths(x + y)) == BlocksOf(block, Lines(section, a + b))
  {
    PathsAppend(x, y);
    LinesAppend(section, Paths(x), Paths(y));
    LinesAppend(section, a, b);
    BlocksOfAppend(block, Lines(section, a), Lines(section, b));
  }

  lemma {:induction false} MergedEntryFlattens<V(!new)>(block: string -> Object<V>, entry: Entry<V>,
                                                 section: seq<string>)
    requires Plain(entry.key) && (entry.tree.Node? ==> WellFormed(entry.tree.kids)) && BuiltEntry(entry, false)
    requires TidyEntry(block, entry, section) && PlainParts(section)
    ensures PlainPaths(PathsOf(entry)) && PlainPaths(Paths(MergeEntry(block, entry, section)))
    ensures Lines(section, Paths(MergeEntry(block, entry, section))) == BlocksOf(block, Lines(section, PathsOf(entry)))
    decreases entry, 0
  {
    PathsOfAre(entry);
    match entry.tree
    case Leaf(_) =>
      NamedFlattens(block(Join(section + [entry.key])), section);
      assert Lines(section, PathsOf(entry))[..0] == [];
    case Node(kids) =>
      var inner := section + [entry.key];
      MergedTreeIsSound(block, kids, inner);
      MergedTreeFlattens(block, kids, inner);
      LinesUnder(section, entry.key, Paths(kids));
      var merged := MergeKids(block, kids, inner);
      PathsAre(merged);
      LinesUnder(section, entry.key, Paths(merged));
      if merged == [] {
        assert MergeEntry(block, entry, section) == [];
      } else {
        OnePath(Entry(entry.key, Node(merged)));
      }
  }
}
