/** Which English line a localised form answers to, told by how such forms are put together. */
module LocaleForms {
  import opened Wrappers
  import opened LocaleTree
  import opened LocaleMerge

  predicate IsCategory(category: string) {
    || category == "_zero" || category == "_one" || category == "_two" || category == "_few" || category == "_many"
    || category == "_other"
  }

  predicate IsDuration(base: string) {
    base == "time.seconds" || base == "time.minutes" || base == "time.hours" || base == "time.days"
  }

  /** A message that counts something. */
  predicate Counts(base: string) {
    || IsDuration(base) || base == "statistics.failed_in_period" || base == "test.details.route_lost"
    || base == "notification.outage_summary" || base == "notification.recovered_summary"
  }

  /** A counted message in one of the plural categories, a duration also behind the word "ago". */
  ghost predicate PluralOf(key: string, base: string) {
    && Counts(base)
    && exists category :: IsCategory(category)
                          && (key == base + category || (IsDuration(base) && key == base + "_ago" + category))
  }

  /** A duration behind the word "ago", in a language that inflects it there. */
  ghost predicate InflectionOf(key: string, base: string) {
    && key == base + "_ago"
    && exists unit :: base == "time." + unit && unit != "" && forall i :: 0 <= i < |unit| ==> 'a' <= unit[i] <= 'z'
  }

  // ------------------------------------------------------------------ forms taken apart

  lemma EndsInIts(key: string, suffix: string)
    requires EndsWith(key, suffix) && |suffix| >= 2
    ensures |key| >= 2 && key[|key| - 1] == suffix[|suffix| - 1] && key[|key| - 2] == suffix[|suffix| - 2]
  {
    assert key[|key| - |suffix|..][|suffix| - 1] == key[|key| - 1];
    assert key[|key| - |suffix|..][|suffix| - 2] == key[|key| - 2];
  }

  /** No category is the end of another. */
  lemma OneCategory(key: string, category: string)
    requires IsCategory(category) && EndsWith(key, category)
    ensures CategoryOf(key) == category
  {
    EndsInIts(key, category);
    EndsInIts(key, CategoryOf(key));
  }

  lemma CategoryIs(key: string)
    ensures CategoryOf(key) != "" ==> IsCategory(CategoryOf(key)) && EndsWith(key, CategoryOf(key))
  {
    if EndsWith(key, "_zero") {
    } else if EndsWith(key, "_one") {
    } else if EndsWith(key, "_two") {
    } else if EndsWith(key, "_few") {
    } else if EndsWith(key, "_many") {
    }
  }

  lemma Appended(front: string, suffix: string)
    ensures EndsWith(front + suffix, suffix) && Chop(front + suffix, suffix) == front
  {
    assert (front + suffix)[|front|..] == suffix && (front + suffix)[..|front|] == front;
  }

  lemma Chopped(key: string, suffix: string)
    requires EndsWith(key, suffix)
    ensures key == Chop(key, suffix) + suffix
  {
  }

  lemma CountsPlainly(base: string)
    requires Counts(base)
    ensures !EndsWith(base, "_ago") && base in COUNTED_FAMILIES && ("time." <= base <==> IsDuration(base))
  {
    if EndsWith(base, "_ago") {
      EndsInIts(base, "_ago");
      assert false;
    }
    assert base in COUNTED_FAMILIES;
    assert "time.seconds"[4] == '.' && "statistics.failed_in_period"[0] == 's' && "test.details.route_lost"[1] == 'e'
           && "notification.outage_summary"[0] == 'n';
  }

  lemma FamiliesCount(base: string)
    requires base in COUNTED_FAMILIES
    ensures Counts(base)
  {
  }

  lemma PluralTakenApart(key: string, base: string)
    requires PluralOf(key, base)
    ensures CategoryOf(key) != "" && Stem(key) == base && base in COUNTED_FAMILIES
    ensures EndsWith(WithoutCategory(key), "_ago") ==> "time." <= base
  {
    var category :| IsCategory(category)
                    && (key == base + category || (IsDuration(base) && key == base + "_ago" + category));
    CountsPlainly(base);
    var plain := if key == base + category then base else base + "_ago";
    assert key == plain + category;
    Appended(plain, category);
    OneCategory(key, category);
    Appended(base, "_ago");
  }

  lemma PluralPutTogether(key: string)
    requires CategoryOf(key) != "" && Stem(key) in COUNTED_FAMILIES
    requires EndsWith(WithoutCategory(key), "_ago") ==> "time." <= Stem(key)
    ensures PluralOf(key, Stem(key))
  {
    var category, plain, base := CategoryOf(key), WithoutCategory(key), Stem(key);
    CategoryIs(key);
    Chopped(key, category);
    FamiliesCount(base);
    CountsPlainly(base);
    if EndsWith(plain, "_ago") { Chopped(plain, "_ago"); }
    assert IsCategory(category) && (key == base + category || (IsDuration(base) && key == base + "_ago" + category));
  }

  lemma InflectionTakenApart(key: string, base: string)
    requires InflectionOf(key, base)
    ensures IsInflection(key) && base == Chop(key, "_ago")
  {
    var unit :| base == "time." + unit && unit != "" && forall i :: 0 <= i < |unit| ==> 'a' <= unit[i] <= 'z';
    Appended(base, "_ago");
    assert key == "time." + unit + "_ago";
    assert forall i :: 5 <= i < |key| - 4 ==> key[i] == unit[i - 5];
  }

  lemma InflectionPutTogether(key: string)
    requires IsInflection(key)
    ensures InflectionOf(key, Chop(key, "_ago"))
  {
    Chopped(key, "_ago");
    var base := Chop(key, "_ago");
    var unit := base[5..];
    assert base == "time." + unit && forall i :: 0 <= i < |unit| ==> unit[i] == key[i + 5];
  }

  lemma InflectionIff(key: string, base: string)
    ensures InflectionOf(key, base) <==> IsInflection(key) && base == Chop(key, "_ago")
  {
    if InflectionOf(key, base) { InflectionTakenApart(key, base); }
    if IsInflection(key) { InflectionPutTogether(key); }
  }

  /** A plural form ends in its category, so it is no inflection. */
  lemma PluralsAreNotInflected(key: string, base: string)
    requires PluralOf(key, base)
    ensures !IsInflection(key)
  {
    PluralTakenApart(key, base);
    CategoryIs(key);
    EndsInIts(key, CategoryOf(key));
    if EndsWith(key, "_ago") {
      EndsInIts(key, "_ago");
      assert false;
    }
  }

  // ------------------------------------------------------------------------- what it means

  ghost predicate AnswersTo<V>(source: Object<V>, key: string, to: string) {
    if IsKey(source, key) then to == key
    else
      || (exists base :: PluralOf(key, base)
                         && (if IsKey(source, base + "_other") then to == base + "_other"
                             else IsKey(source, base) && to == base))
      || (InflectionOf(key, to) && IsKey(source, to))
  }

  /**
   A line answers to the English line of its own key; else a plural to its message's
   general form, or to the message itself where English has only that; else an
   inflected duration to the duration - and nothing else answers to anything.
   */
  lemma ReferenceIff<V>(source: Object<V>, key: string, to: string)
    ensures LocaleReferenceKey(source, key) == Some(to) <==> AnswersTo(source, key, to)
  {
    if !IsKey(source, key) {
      if base :| PluralOf(key, base) {
        PluralTakenApart(key, base);
        PluralsAreNotInflected(key, base);
        InflectionIff(key, to);
        OnlyOneBase(key, base);
      } else {
        if CategoryOf(key) != "" && Stem(key) in COUNTED_FAMILIES
           && (EndsWith(WithoutCategory(key), "_ago") ==> "time." <= Stem(key)) {
          PluralPutTogether(key);
          assert false;
        }
        InflectionIff(key, to);
      }
    }
  }

  lemma OnlyOneBase(key: string, base: string)
    requires PluralOf(key, base)
    ensures forall other :: PluralOf(key, other) ==> other == base
  {
    PluralTakenApart(key, base);
    forall other | PluralOf(key, other) ensures other == base { PluralTakenApart(key, other); }
  }
}
