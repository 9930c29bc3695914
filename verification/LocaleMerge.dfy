/** A patch of translations written into a locale, in English's key order. */
module LocaleMerge {
  import opened Wrappers
  import opened Sorting
  import opened LocaleTree
  import opened LocaleRoundTrip

  // ---------------------------------------------------------------- reference keys

  const COUNTED_FAMILIES :=
    ["time.seconds", "time.minutes", "time.hours", "time.days",
     "statistics.failed_in_period", "test.details.route_lost",
     "notification.outage_summary", "notification.recovered_summary"]

  predicate EndsWith(s: string, suffix: string) {
    |suffix| <= |s| && s[|s| - |suffix|..] == suffix
  }

  function Chop(s: string, suffix: string): string {
    if EndsWith(s, suffix) then s[..|s| - |suffix|] else s
  }

  /** The plural category a key ends in, if any. */
  function CategoryOf(key: string): string {
    if EndsWith(key, "_zero") then "_zero"
    else if EndsWith(key, "_one") then "_one"
    else if EndsWith(key, "_two") then "_two"
    else if EndsWith(key, "_few") then "_few"
    else if EndsWith(key, "_many") then "_many"
    else if EndsWith(key, "_other") then "_other"
    else ""
  }

  function WithoutCategory(key: string): string {
    Chop(key, CategoryOf(key))
  }

  /** What is left of a key without its category and its "ago". */
  function Stem(key: string): string {
    Chop(WithoutCategory(key), "_ago")
  }

  /** AGO_INFLECTION: a duration behind the word "ago". */
  predicate IsInflection(key: string) {
    && "time." <= key && EndsWith(key, "_ago") && |key| > |"time."| + |"_ago"|
    && forall i :: 5 <= i < |key| - 4 ==> 'a' <= key[i] <= 'z'
  }

  predicate IsKey<V>(flat: Object<V>, key: string) {
    IndexOf(flat, key).Some?
  }

  /** The counted family's English form. */
  function CountedReference<V>(source: Object<V>, key: string): Option<string> {
    var base := Stem(key);
    if CategoryOf(key) != "" && base in COUNTED_FAMILIES
      && (EndsWith(WithoutCategory(key), "_ago") ==> "time." <= base) then
      if IsKey(source, base + "_other") then Some(base + "_other")
      else if IsKey(source, base) then Some(base)
      else None
    else None
  }

  /** localeReferenceKey: the English key that defines a localised form's placeholders. */
  function LocaleReferenceKey<V>(source: Object<V>, key: string): Option<string> {
    if IsKey(source, key) then Some(key)
    else if CountedReference(source, key).Some? then CountedReference(source, key)
    else if IsInflection(key) && IsKey(source, Chop(key, "_ago")) then Some(Chop(key, "_ago"))
    else None
  }

  function ReferenceIn<V>(source: Object<V>): string -> Option<string> {
    key => LocaleReferenceKey(source, key)
  }

  /** What merging needs of the references: English keys, each its own. */
  ghost predicate References<V>(source: Object<V>, ref: string -> Option<string>) {
    && (forall key :: IsKey(source, key) ==> ref(key) == Some(key))
    && (forall key :: ref(key).Some? ==> IsKey(source, ref(key).value))
  }

  lemma LocaleReferencesAre<V(!new)>(source: Object<V>)
    ensures References(source, ReferenceIn(source))
  {
  }

  // ------------------------------------------------------------------ flat objects

  ghost predicate DistinctKeys<V>(flat: Object<V>) {
    forall i, j :: 0 <= i < j < |flat| ==> flat[i].key != flat[j].key
  }

  ghost predicate AllLeaves<V>(flat: Object<V>) {
    forall i :: 0 <= i < |flat| ==> flat[i].tree.Leaf?
  }

  /** The values are there to be read: flat, each key once, none of them `__proto__`. */
  ghost predicate Flat<V>(flat: Object<V>) {
    DistinctKeys(flat) && AllLeaves(flat) && forall i :: 0 <= i < |flat| ==> flat[i].key != PROTO
  }

  lemma PutStaysFlat<V(!new)>(flat: Object<V>, key: string, tree: Tree<V>)
    requires Flat(flat) && tree.Leaf?
    ensures Flat(Put(flat, key, tree))
  {
    IndexIs(flat, key);
  }

  lemma {:induction false} AssignStaysFlat<V(!new)>(flat: Object<V>, other: Object<V>)
    requires Flat(flat) && AllLeaves(other)
    ensures Flat(Assign(flat, other))
  {
    if other == [] {
    } else {
      AssignStaysFlat(flat, other[..|other| - 1]);
      PutStaysFlat(Assign(flat, other[..|other| - 1]), other[|other| - 1].key, other[|other| - 1].tree);
    }
  }

  /** flatten answers a flat object, whatever it is handed. */
  lemma {:induction false} FlattenIsFlat<V(!new)>(props: Object<V>, prefix: string)
    ensures Flat(Flatten(props, prefix))
    decreases props
  {
    if props == [] {
    } else {
      var n := |props| - 1;
      FlattenIsFlat(props[..n], prefix);
      match props[n].tree
      case Leaf(_) => PutStaysFlat(Flatten(props[..n], prefix), Full(prefix, props[n].key), props[n].tree);
      case Node(kids) =>
        FlattenIsFlat(kids, Full(prefix, props[n].key));
        AssignStaysFlat(Flatten(props[..n], prefix), Flatten(kids, Full(prefix, props[n].key)));
    }
  }

  lemma KeyOfEntry<V(!new)>(flat: Object<V>, i: nat)
    requires DistinctKeys(flat) && i < |flat|
    ensures IndexOf(flat, flat[i].key) == Some(i)
  {
    IndexIs(flat, flat[i].key);
  }

  lemma PutAt<V(!new)>(flat: Object<V>, key: string, tree: Tree<V>, e: Entry<V>)
    requires Flat(flat) && key != PROTO
    ensures e in Put(flat, key, tree) <==> e == Entry(key, tree) || (e in flat && e.key != key)
  {
    IndexIs(flat, key);
    var after := Put(flat, key, tree);
    var at := IndexOf(flat, key);
    if at.Some? {
      assert after[at.value] == Entry(key, tree);
      if e in flat && e.key != key {
        var k :| 0 <= k < |flat| && flat[k] == e;
        assert after[k] == e;
      }
    }
  }

  lemma KeysOfAppended<V(!new)>(init: Object<V>, last: Entry<V>, key: string)
    ensures IsKey(init + [last], key) <==> last.key == key || IsKey(init, key)
  {
    assert (init + [last])[..|init|] == init;
  }

  lemma LastIsNew<V(!new)>(init: Object<V>, last: Entry<V>, e: Entry<V>)
    requires Flat(init + [last])
    ensures Flat(init) && last.key != PROTO && last.tree.Leaf? && (e in init ==> e.key != last.key)
  {
    var patch := init + [last];
    assert forall i :: 0 <= i < |init| ==> patch[i] == init[i];
    assert patch[|init|] == last;
    if e in init {
      var k :| 0 <= k < |init| && init[k] == e;
      assert patch[k].key != patch[|init|].key;
    }
  }

  /** {...target, ...patch}: the patch's values win, what it does not name stays. */
  lemma {:induction false} PatchWins<V(!new)>(target: Object<V>, patch: Object<V>, e: Entry<V>)
    requires Flat(target) && Flat(patch)
    ensures e in Assign(target, patch) <==> e in patch || (e in target && !IsKey(patch, e.key))
  {
    if patch == [] {
    } else {
      var init, last := patch[..|patch| - 1], patch[|patch| - 1];
      assert patch == init + [last];
      LastIsNew(init, last, e);
      PatchWins(target, init, e);
      AssignStaysFlat(target, init);
      PutAt(Assign(target, init), last.key, last.tree, e);
      KeysOfAppended(init, last, e.key);
    }
  }

  // ---------------------------------------------------------------------- the merge

  /** A form English does not have, standing behind `key`. */
  function BehindKey<V>(source: Object<V>, ref: string -> Option<string>, key: string): Entry<V> -> bool {
    (e: Entry<V>) => !IsKey(source, e.key) && ref(e.key) == Some(key)
  }

  function Kept<V>(combined: Object<V>, key: string): Object<V> {
    match IndexOf(combined, key)
    case Some(i) => if i < |combined| then [combined[i]] else []
    case None => []
  }

  /** What is written for one English key: its own value, if any, and its forms behind it. */
  function Block<V>(source: Object<V>, ref: string -> Option<string>, combined: Object<V>, key: string): Object<V> {
    Kept(combined, key) + Filter(combined, BehindKey(source, ref, key))
  }

  function BlockAt<V>(source: Object<V>, ref: string -> Option<string>, combined: Object<V>): nat -> Object<V> {
    (i: nat) => if i < |source| then Block(source, ref, combined, source[i].key) else []
  }

  function Merged<V>(source: Object<V>, ref: string -> Option<string>, combined: Object<V>): Object<V> {
    Concat(BlockAt(source, ref, combined), |source|)
  }

  lemma BlockIs<V(!new)>(source: Object<V>, ref: string -> Option<string>, combined: Object<V>, key: string,
                  e: Entry<V>)
    requires Flat(combined) && References(source, ref) && IsKey(source, key)
    ensures e in Block(source, ref, combined, key) <==> e in combined && ref(e.key) == Some(key)
  {
    FilterIs(combined, BehindKey(source, ref, key));
    IndexIs(combined, key);
    if e in combined && e.key == key {
      var k :| 0 <= k < |combined| && combined[k] == e;
      KeyOfEntry(combined, k);
    }
  }

  lemma BlockAtIs<V(!new)>(source: Object<V>, ref: string -> Option<string>, combined: Object<V>, i: nat, e: Entry<V>)
    requires Flat(combined) && DistinctKeys(source) && References(source, ref) && i < |source|
    ensures e in BlockAt(source, ref, combined)(i) <==> e in combined && ref(e.key) == Some(source[i].key)
  {
    KeyOfEntry(source, i);
    BlockIs(source, ref, combined, source[i].key, e);
  }

  /** The merge keeps exactly the keys that have a reference in English, with the values they came with. */
  lemma MergedIsExactly<V(!new)>(source: Object<V>, ref: string -> Option<string>, combined: Object<V>, e: Entry<V>)
    requires Flat(combined) && DistinctKeys(source) && References(source, ref)
    ensures e in Merged(source, ref, combined) <==> e in combined && ref(e.key).Some?
  {
    ConcatIs(BlockAt(source, ref, combined), |source|, e);
    forall i | 0 <= i < |source|
      ensures e in BlockAt(source, ref, combined)(i) <==> e in combined && ref(e.key) == Some(source[i].key)
    {
      BlockAtIs(source, ref, combined, i, e);
    }
    if ref(e.key).Some? {
      IndexIs(source, ref(e.key).value);
    }
  }

  // ----------------------------------------------------------------------- its order

  /** Where a key stands: by its reference in English's order, behind it when it is not the reference itself. */
  function Rank<V>(source: Object<V>, ref: string -> Option<string>, key: string): int {
    match ref(key)
    case None => -1
    case Some(r) => 2 * IndexOf(source, r).GetOr(0) + if r == key then 0 else 1
  }

  /** Different keys, in English's order, a form never ahead of its reference. */
  function InOrder<V>(source: Object<V>, ref: string -> Option<string>): (Entry<V>, Entry<V>) -> bool {
    (a: Entry<V>, b: Entry<V>) => a.key != b.key && Rank(source, ref, a.key) <= Rank(source, ref, b.key)
  }

  function KeysDiffer<V>(): (Entry<V>, Entry<V>) -> bool {
    (a: Entry<V>, b: Entry<V>) => a.key != b.key
  }

  /** The forms behind a key: each once, each of another name than the key. */
  lemma BehindAre<V(!new)>(source: Object<V>, ref: string -> Option<string>, combined: Object<V>, key: string)
    requires Flat(combined) && References(source, ref) && IsKey(source, key)
    ensures var behind := Filter(combined, BehindKey(source, ref, key));
            && Sorted(behind, KeysDiffer())
            && forall e :: e in behind ==> e.key != key && ref(e.key) == Some(key)
  {
    assert Sorted(combined, KeysDiffer<V>());
    FilterKeepsSorted(combined, BehindKey(source, ref, key), KeysDiffer<V>());
    FilterIs(combined, BehindKey(source, ref, key));
  }

  lemma BlockInOrder<V(!new)>(source: Object<V>, ref: string -> Option<string>, combined: Object<V>, key: string)
    requires Flat(combined) && References(source, ref) && IsKey(source, key)
    ensures Sorted(Block(source, ref, combined, key), InOrder(source, ref))
  {
    var kept, behind, block :=
      Kept(combined, key), Filter(combined, BehindKey(source, ref, key)), Block(source, ref, combined, key);
    BehindAre(source, ref, combined, key);
    IndexIs(combined, key);
    forall i, j | 0 <= i < j < |block| ensures InOrder(source, ref)(block[i], block[j]) {
      assert block[j] == behind[j - |kept|] && block[j] in behind;
      if i >= |kept| {
        assert block[i] == behind[i - |kept|] && block[i] in behind;
        assert KeysDiffer<V>()(behind[i - |kept|], behind[j - |kept|]);
      }
    }
  }

  lemma BlocksInOrder<V(!new)>(source: Object<V>, ref: string -> Option<string>, combined: Object<V>,
                               i: nat, j: nat, a: Entry<V>, b: Entry<V>)
    requires Flat(combined) && DistinctKeys(source) && References(source, ref) && i < j < |source|
    requires a in BlockAt(source, ref, combined)(i) && b in BlockAt(source, ref, combined)(j)
    ensures InOrder(source, ref)(a, b)
  {
    BlockAtIs(source, ref, combined, i, a);
    BlockAtIs(source, ref, combined, j, b);
    KeyOfEntry(source, i);
    KeyOfEntry(source, j);
  }

  /** Each key once, English's order throughout, every other form directly behind its reference. */
  lemma MergedInEnglishOrder<V(!new)>(source: Object<V>, ref: string -> Option<string>, combined: Object<V>)
    requires Flat(combined) && DistinctKeys(source) && References(source, ref)
    ensures Sorted(Merged(source, ref, combined), InOrder(source, ref))
  {
    var block := BlockAt(source, ref, combined);
    forall i | 0 <= i < |source| ensures Sorted(block(i), InOrder(source, ref)) {
      KeyOfEntry(source, i);
      BlockInOrder(source, ref, combined, source[i].key);
    }
    forall i, j, a, b | 0 <= i < j < |source| && a in block(i) && b in block(j) ensures InOrder(source, ref)(a, b) {
      BlocksInOrder(source, ref, combined, i, j, a, b);
    }
    ConcatSorts(block, |source|, InOrder(source, ref));
  }

  lemma MergedIsFlat<V(!new)>(source: Object<V>, ref: string -> Option<string>, combined: Object<V>)
    requires Flat(combined) && DistinctKeys(source) && References(source, ref)
    ensures Flat(Merged(source, ref, combined))
  {
    var merged := Merged(source, ref, combined);
    MergedInEnglishOrder(source, ref, combined);
    forall i, j | 0 <= i < j < |merged| ensures merged[i].key != merged[j].key {
      assert InOrder(source, ref)(merged[i], merged[j]);
    }
    forall i | 0 <= i < |merged| ensures merged[i].tree.Leaf? && merged[i].key != PROTO {
      assert merged[i] in merged;
      MergedIsExactly(source, ref, combined, merged[i]);
    }
  }

  // -------------------------------------------------------------------- merging again

  lemma FilterOfBlock<V(!new)>(source: Object<V>, ref: string -> Option<string>, combined: Object<V>, at: string,
                        key: string)
    requires Flat(combined) && References(source, ref) && IsKey(source, at)
    ensures Filter(Block(source, ref, combined, at), BehindKey(source, ref, key))
         == if at == key then Filter(combined, BehindKey(source, ref, key)) else []
  {
    var behind, keep := Filter(combined, BehindKey(source, ref, at)), BehindKey(source, ref, key);
    FilterAppends(Kept(combined, at), behind, keep);
    IndexIs(combined, at);
    FilterNone(Kept(combined, at), keep);
    FilterIs(combined, BehindKey(source, ref, at));
    if at == key {
      FilterTwice(combined, keep, keep);
    } else {
      FilterNone(behind, keep);
    }
  }

  lemma FilterOfMerged<V(!new)>(source: Object<V>, ref: string -> Option<string>, combined: Object<V>, m: nat)
    requires Flat(combined) && DistinctKeys(source) && References(source, ref) && m < |source|
    ensures Filter(Merged(source, ref, combined), BehindKey(source, ref, source[m].key))
         == Filter(combined, BehindKey(source, ref, source[m].key))
  {
    var keep := BehindKey(source, ref, source[m].key);
    forall i | 0 <= i < |source|
      ensures Filter(BlockAt(source, ref, combined)(i), keep) == if i == m then Filter(combined, keep) else []
    {
      KeyOfEntry(source, i);
      FilterOfBlock(source, ref, combined, source[i].key, source[m].key);
    }
    ConcatFilter(BlockAt(source, ref, combined), |source|, keep, m, Filter(combined, keep));
  }

  lemma KeptIs<V(!new)>(flat: Object<V>, key: string)
    requires Flat(flat)
    ensures forall e :: e in flat && e.key == key ==> Kept(flat, key) == [e]
    ensures (forall e :: e in flat ==> e.key != key) ==> Kept(flat, key) == []
    ensures Kept(flat, key) == [] || (Kept(flat, key)[0] in flat && Kept(flat, key)[0].key == key)
  {
    IndexIs(flat, key);
  }

  lemma SameKept<V(!new)>(a: Object<V>, b: Object<V>, key: string)
    requires Flat(a) && Flat(b) && forall e: Entry<V> :: e.key == key ==> (e in a <==> e in b)
    ensures Kept(a, key) == Kept(b, key)
  {
    KeptIs(a, key);
    KeptIs(b, key);
  }

  lemma SameBlock<V(!new)>(source: Object<V>, ref: string -> Option<string>, combined: Object<V>, m: nat)
    requires Flat(combined) && DistinctKeys(source) && References(source, ref) && m < |source|
    ensures Block(source, ref, Merged(source, ref, combined), source[m].key)
            == Block(source, ref, combined, source[m].key)
  {
    var merged, key := Merged(source, ref, combined), source[m].key;
    MergedIsFlat(source, ref, combined);
    FilterOfMerged(source, ref, combined, m);
    KeyOfEntry(source, m);
    forall e: Entry<V> | e.key == key ensures e in merged <==> e in combined {
      MergedIsExactly(source, ref, combined, e);
    }
    SameKept(merged, combined, key);
  }

  /** A merged locale merged again is itself. */
  lemma MergingAgain<V(!new)>(source: Object<V>, ref: string -> Option<string>, combined: Object<V>)
    requires Flat(combined) && DistinctKeys(source) && References(source, ref)
    ensures Merged(source, ref, Merged(source, ref, combined)) == Merged(source, ref, combined)
  {
    var merged := Merged(source, ref, combined);
    forall i | 0 <= i < |source| ensures BlockAt(source, ref, merged)(i) == BlockAt(source, ref, combined)(i) {
      SameBlock(source, ref, combined, i);
    }
    ConcatSame(BlockAt(source, ref, merged), BlockAt(source, ref, combined), |source|);
  }

  // --------------------------------------------------------------------------- gaps

  function WithoutReference<V>(ref: string -> Option<string>): Entry<V> -> bool {
    (e: Entry<V>) => ref(e.key).None?
  }

  /** localeGaps' `extra`: what outlived the English it was translated from. */
  function Extra<V>(source: Object<V>, target: Object<V>): Object<V> {
    Filter(target, WithoutReference(ReferenceIn(source)))
  }

  lemma MergedHasNoExtra<V(!new)>(source: Object<V>, combined: Object<V>)
    requires Flat(combined) && DistinctKeys(source)
    ensures Extra(source, Merged(source, ReferenceIn(source), combined)) == []
  {
    var merged := Merged(source, ReferenceIn(source), combined);
    LocaleReferencesAre(source);
    forall e | e in merged ensures ReferenceIn(source)(e.key).Some? {
      MergedIsExactly(source, ReferenceIn(source), combined, e);
    }
    FilterNone(merged, WithoutReference(ReferenceIn(source)));
  }

  // ----------------------------------------------------------------- the writer itself

  /** How a translation is read: whether it is text with something in it, its placeholders, its tags. */
  datatype Reading<!V> = Reading(written: V -> bool, interpolations: V -> string, tags: V -> string)

  datatype Outcome<V> =
    | Written(locale: Option<Object<V>>)
    | UnknownKeys(lines: Object<V>)
    | Unwritten(key: string)
    | InterpolationMismatch(key: string)
    | TagMismatch(key: string)

  function ValueOf<V>(flat: Object<V>, key: string): Option<V> {
    match IndexOf(flat, key)
    case Some(i) => if i < |flat| && flat[i].tree.Leaf? then Some(flat[i].tree.value) else None
    case None => None
  }

  /** Every translation has a reference, text, and its reference's placeholders and tags. */
  ghost predicate Fits<V>(source: Object<V>, ref: string -> Option<string>, reading: Reading<V>, line: Entry<V>) {
    var reference := ref(line.key);
    && reference.Some? && line.tree.Leaf? && ValueOf(source, reference.value).Some?
    && reading.written(line.tree.value)
    && reading.interpolations(line.tree.value) == reading.interpolations(ValueOf(source, reference.value).value)
    && reading.tags(line.tree.value) == reading.tags(ValueOf(source, reference.value).value)
  }

  /** What is wrong with one translation. */
  method JudgeLine<V>(source: Object<V>, ref: string -> Option<string>, line: Entry<V>, reading: Reading<V>)
    returns (refusal: Option<Outcome<V>>)
    requires Flat(source) && References(source, ref) && line.tree.Leaf? && ref(line.key).Some?
    ensures refusal.None? <==> Fits(source, ref, reading, line)
    ensures refusal.Some? ==> !refusal.value.Written? && !refusal.value.UnknownKeys?
  {
    var key, value := line.key, line.tree.value;
    ReferenceInSource(source, ref, key);
    var reference := ValueOf(source, ref(key).value).value;
    if !reading.written(value) { return Some(Unwritten(key)); }
    if reading.interpolations(value) != reading.interpolations(reference) { return Some(InterpolationMismatch(key)); }
    if reading.tags(value) != reading.tags(reference) { return Some(TagMismatch(key)); }
    return None;
  }

  /** The patch's checks, in the order mergeLocale makes them: every key first, then line by line. */
  method Judge<V(!new)>(source: Object<V>, ref: string -> Option<string>, patch: Object<V>, reading: Reading<V>)
    returns (refusal: Option<Outcome<V>>)
    requires Flat(source) && References(source, ref) && Flat(patch)
    ensures refusal.None? <==> forall line :: line in patch ==> Fits(source, ref, reading, line)
    ensures refusal.Some? ==> !refusal.value.Written?
    ensures refusal.Some? && refusal.value.UnknownKeys? ==> refusal.value.lines == Filter(patch, WithoutReference(ref))
    ensures (exists line :: line in patch && ref(line.key).None?) ==> refusal.Some? && refusal.value.UnknownKeys?
  {
    var unknown := Filter(patch, WithoutReference(ref));
    FilterIs(patch, WithoutReference(ref));
    if |unknown| > 0 {
      assert unknown[0] in unknown && !Fits(source, ref, reading, unknown[0]);
      return Some(UnknownKeys(unknown));
    }
    for i := 0 to |patch|
      invariant forall j :: 0 <= j < i ==> Fits(source, ref, reading, patch[j])
    {
      assert patch[i] in patch && patch[i] !in unknown;
      refusal := JudgeLine(source, ref, patch[i], reading);
      if refusal.Some? { return; }
    }
    return None;
  }

  lemma ReferenceInSource<V>(source: Object<V>, ref: string -> Option<string>, key: string)
    requires Flat(source) && References(source, ref) && ref(key).Some?
    ensures ValueOf(source, ref(key).value).Some?
  {
    IndexIs(source, ref(key).value);
  }

  lemma EarlierRefersEarlier<V(!new)>(source: Object<V>, ref: string -> Option<string>, combined: Object<V>, n: nat,
                               e: Entry<V>)
    requires Flat(combined) && DistinctKeys(source) && References(source, ref) && n < |source|
    requires e in Concat(BlockAt(source, ref, combined), n)
    ensures exists i :: 0 <= i < n && ref(e.key) == Some(source[i].key)
  {
    ConcatIs(BlockAt(source, ref, combined), n, e);
    var i :| 0 <= i < n && e in BlockAt(source, ref, combined)(i);
    BlockAtIs(source, ref, combined, i, e);
  }

  /** The forms English does not have. */
  function FormOf<V>(source: Object<V>, ref: string -> Option<string>): Entry<V> -> bool {
    (e: Entry<V>) => !IsKey(source, e.key) && ref(e.key).Some?
  }

  lemma OwnKeyIsNew<V(!new)>(source: Object<V>, ref: string -> Option<string>, combined: Object<V>, n: nat,
                      tree: Tree<V>)
    requires Flat(combined) && DistinctKeys(source) && References(source, ref) && n < |source| && source[n].key != PROTO
    ensures var earlier := Concat(BlockAt(source, ref, combined), n);
            Put(earlier, source[n].key, tree) == earlier + [Entry(source[n].key, tree)]
  {
    var earlier := Concat(BlockAt(source, ref, combined), n);
    KeyOfEntry(source, n);
    forall j | 0 <= j < |earlier| ensures earlier[j].key != source[n].key {
      assert earlier[j] in earlier;
      EarlierRefersEarlier(source, ref, combined, n, earlier[j]);
    }
    PutNew(earlier, source[n].key, tree);
  }

  lemma FormIsNew<V(!new)>(source: Object<V>, ref: string -> Option<string>, combined: Object<V>, n: nat,
                    forms: Object<V>, j: nat)
    requires Flat(combined) && DistinctKeys(source) && References(source, ref) && n < |source| && j < |forms|
    requires Sorted(forms, KeysDiffer()) && forms[j].key != PROTO && BehindKey(source, ref, source[n].key)(forms[j])
    ensures var keep := BehindKey(source, ref, source[n].key);
            var written := Concat(BlockAt(source, ref, combined), n)
                           + Kept(combined, source[n].key) + Filter(forms[..j], keep);
            Put(written, forms[j].key, forms[j].tree) == written + [forms[j]]
  {
    var keep := BehindKey(source, ref, source[n].key);
    var earlier := Concat(BlockAt(source, ref, combined), n);
    var behind := Filter(forms[..j], keep);
    KeyOfEntry(source, n);
    IndexIs(combined, source[n].key);
    FilterIs(forms[..j], keep);
    forall e | e in earlier ensures e.key != forms[j].key {
      EarlierRefersEarlier(source, ref, combined, n, e);
    }
    forall e | e in behind ensures e.key != forms[j].key {
      var k :| 0 <= k < j && forms[..j][k] == e;
      assert KeysDiffer<V>()(forms[k], forms[j]);
    }
    var written := earlier + Kept(combined, source[n].key) + behind;
    forall k | 0 <= k < |written| ensures written[k].key != forms[j].key {
      assert written[k] in earlier || written[k] in Kept(combined, source[n].key) || written[k] in behind;
    }
    PutNew(written, forms[j].key, forms[j].tree);
  }

  lemma OneMoreForm<V(!new)>(forms: Object<V>, j: nat, keep: Entry<V> -> bool)
    requires j < |forms|
    ensures Filter(forms[..j + 1], keep) == Filter(forms[..j], keep) + if keep(forms[j]) then [forms[j]] else []
  {
    assert forms[..j + 1] == forms[..j] + [forms[j]];
    FilterAppends(forms[..j], [forms[j]], keep);
  }

  /** The inner loop: the forms behind one English key. */
  method WriteForms<V(!new)>(source: Object<V>, ref: string -> Option<string>, combined: Object<V>, n: nat,
                      forms: Object<V>, before: Object<V>)
    returns (merged: Object<V>)
    requires Flat(combined) && DistinctKeys(source) && References(source, ref) && n < |source|
    requires forms == Filter(combined, FormOf(source, ref))
    requires before == Concat(BlockAt(source, ref, combined), n) + Kept(combined, source[n].key)
    ensures merged == before + Filter(forms, BehindKey(source, ref, source[n].key))
  {
    var key := source[n].key;
    ghost var keep := BehindKey(source, ref, key);
    merged := before;
    FormsAre(source, ref, combined);
    assert Sorted(forms, KeysDiffer<V>());
    for j := 0 to |forms|
      invariant merged == before + Filter(forms[..j], keep)
    {
      OneMoreForm(forms, j, keep);
      assert forms[j] in forms;
      if ref(forms[j].key) == Some(key) {
        FormIsNew(source, ref, combined, n, forms, j);
        merged := Put(merged, forms[j].key, forms[j].tree);
      }
    }
    assert forms[..|forms|] == forms;
  }

  lemma FormsAre<V(!new)>(source: Object<V>, ref: string -> Option<string>, combined: Object<V>)
    requires Flat(combined)
    ensures Flat(Filter(combined, FormOf(source, ref)))
    ensures forall e :: e in Filter(combined, FormOf(source, ref)) ==> !IsKey(source, e.key)
  {
    FilterIs(combined, FormOf(source, ref));
    FilterIsFlat(combined, FormOf(source, ref));
  }

  lemma FormsBehind<V(!new)>(source: Object<V>, ref: string -> Option<string>, combined: Object<V>, n: nat)
    requires n < |source|
    ensures BlockAt(source, ref, combined)(n)
         == Kept(combined, source[n].key)
            + Filter(Filter(combined, FormOf(source, ref)), BehindKey(source, ref, source[n].key))
  {
    FilterTwice(combined, FormOf(source, ref), BehindKey(source, ref, source[n].key));
  }

  /** An English key's own value, from the patch or the locale. */
  method WriteOwn<V(!new)>(source: Object<V>, ref: string -> Option<string>, combined: Object<V>, n: nat,
                    before: Object<V>)
    returns (merged: Object<V>)
    requires Flat(source) && References(source, ref) && Flat(combined) && n < |source|
    requires before == Concat(BlockAt(source, ref, combined), n)
    ensures merged == before + Kept(combined, source[n].key)
  {
    var key := source[n].key;
    var at := IndexOf(combined, key);
    IndexIs(combined, key);
    if at.None? { return before; }
    OwnKeyIsNew(source, ref, combined, n, combined[at.value].tree);
    merged := Put(before, key, combined[at.value].tree);
  }

  /** One turn of the merging loop: an English key's own value, and the forms behind it. */
  method WriteKey<V(!new)>(source: Object<V>, ref: string -> Option<string>, combined: Object<V>, n: nat,
                           forms: Object<V>, before: Object<V>)
    returns (merged: Object<V>)
    requires Flat(source) && References(source, ref) && Flat(combined) && n < |source|
    requires forms == Filter(combined, FormOf(source, ref)) && before == Concat(BlockAt(source, ref, combined), n)
    ensures merged == Concat(BlockAt(source, ref, combined), n + 1)
  {
    var own := WriteOwn(source, ref, combined, n, before);
    merged := WriteForms(source, ref, combined, n, forms, own);
    FormsBehind(source, ref, combined, n);
    Regrouped(before, Kept(combined, source[n].key), Filter(forms, BehindKey(source, ref, source[n].key)));
  }

  /** The merging loop. */
  method MergeFlat<V(!new)>(source: Object<V>, ref: string -> Option<string>, combined: Object<V>)
    returns (merged: Object<V>)
    requires Flat(source) && References(source, ref) && Flat(combined)
    ensures merged == Merged(source, ref, combined)
  {
    var forms := Filter(combined, FormOf(source, ref));
    merged := [];
    for n := 0 to |source|
      invariant merged == Concat(BlockAt(source, ref, combined), n)
    {
      merged := WriteKey(source, ref, combined, n, forms, merged);
    }
  }

  lemma FilterIsFlat<V(!new)>(flat: Object<V>, keep: Entry<V> -> bool)
    requires Flat(flat)
    ensures Flat(Filter(flat, keep))
  {
    var kept := Filter(flat, keep);
    assert Sorted(flat, KeysDiffer<V>());
    FilterKeepsSorted(flat, keep, KeysDiffer<V>());
    FilterIs(flat, keep);
    forall i, j | 0 <= i < j < |kept| ensures kept[i].key != kept[j].key {
      assert KeysDiffer<V>()(kept[i], kept[j]);
    }
    forall i | 0 <= i < |kept| ensures kept[i].tree.Leaf? && kept[i].key != PROTO {
      assert kept[i] in kept;
    }
  }

  /** What mergeLocale writes when the patch is accepted. */
  function MergeResult<V>(english: Object<V>, locale: Object<V>, patch: Object<V>): Option<Object<V>> {
    var source := Flatten(english, "");
    Nest(Merged(source, ReferenceIn(source), Assign(Flatten(locale, ""), patch)))
  }

  /** mergeLocale. */
  method MergeLocale<V(!new)>(english: Object<V>, locale: Object<V>, patch: Object<V>, reading: Reading<V>)
    returns (outcome: Outcome<V>)
    requires Flat(patch)
    ensures outcome.Written? <==>
              forall line :: line in patch ==>
                Fits(Flatten(english, ""), ReferenceIn(Flatten(english, "")), reading, line)
    ensures outcome.Written? ==> outcome.locale == MergeResult(english, locale, patch)
    ensures outcome.UnknownKeys? ==> outcome.lines == Filter(patch, WithoutReference(ReferenceIn(Flatten(english, ""))))
  {
    var source, target := Flatten(english, ""), Flatten(locale, "");
    FlattenIsFlat(english, "");
    FlattenIsFlat(locale, "");
    LocaleReferencesAre(source);
    var refusal := Judge(source, ReferenceIn(source), patch, reading);
    if refusal.Some? { return refusal.value; }
    var combined := Assign(target, patch);
    AssignStaysFlat(target, patch);
    var merged := MergeFlat(source, ReferenceIn(source), combined);
    var nested := NestLoop(merged);
    return Written(nested);
  }
}
