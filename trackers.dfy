/** The experience tracker generator: for each category of the experience
    table, the skills with some experience, longest first, each with its
    duration phrase and at most three sources. */
module Trackers {
  import opened Duration
  import opened StableSort

  /** One skill's entry in the experience table: its month total and the
      engagements that contributed to it. */
  datatype SkillData = SkillData(months: int, sources: seq<string>)

  /** A category's skill -> data dictionary, as its (key, value) pairs in
      insertion order. */
  type SkillTable = seq<(string, SkillData)>

  /** The category -> skills dictionary, as its (key, value) pairs in
      insertion order. */
  type ExperienceData = seq<(string, SkillTable)>

  /** One line of a tracker. */
  datatype Experience = Experience(name: string, totalMonths: int, display: string, sources: seq<string>)

  /** One category of the tracker view. */
  datatype Tracker = Tracker(category: string, experiences: seq<Experience>)

  /** The sort key of a table entry. */
  function MonthsOf(item: (string, SkillData)): int {
    item.1.months
  }

  /** The sort key of a tracker line. */
  function TotalMonthsOf(e: Experience): int {
    e.totalMonths
  }

  /** The slice sources[:3]: the first three sources, or all of them when there are fewer. */
  function TopSources(sources: seq<string>): (r: seq<string>)
    ensures |r| <= 3 && |r| <= |sources|
    ensures |r| == 3 || |r| == |sources|
    ensures forall i :: 0 <= i < |r| ==> r[i] == sources[i]
  {
    if |sources| <= 3 then sources else sources[..3]
  }

  /** The tracker line for one table entry with some experience. */
  function ToExperience(item: (string, SkillData)): Experience
    requires item.1.months > 0
  {
    Experience(item.0, item.1.months, FormatDuration(item.1.months), TopSources(item.1.sources))
  }

  /** The tracker lines for the entries of t with a positive month count, in the order of t. */
  function Emitted(t: SkillTable): seq<Experience> {
    if t == [] then []
    else (if t[0].1.months > 0 then [ToExperience(t[0])] else []) + Emitted(t[1..])
  }

  /** A category's tracker lines: its skills sorted by descending months, stably,
      without those at zero months. */
  function CategoryExperiences(skills: SkillTable): seq<Experience> {
    Emitted(SortDesc(skills, MonthsOf))
  }

  /** The tracker view of the whole table: one tracker per category that has
      a line, in table order. */
  function TrackersOf(data: ExperienceData): (r: seq<Tracker>)
    ensures |r| <= |data|
    ensures forall i :: 0 <= i < |r| ==> r[i].experiences != []
  {
    if data == [] then []
    else
      var last := data[|data| - 1];
      var experiences := CategoryExperiences(last.1);
      TrackersOf(data[..|data| - 1]) + (if experiences != [] then [Tracker(last.0, experiences)] else [])
  }

  /** Builds the tracker view category by category, appending each category's
      lines and keeping only the categories that received one. */
  method GenerateExperienceTrackers(data: ExperienceData) returns (trackers: seq<Tracker>)
    ensures trackers == TrackersOf(data)
  {
    trackers := [];
    var i := 0;
    while i < |data|
      invariant 0 <= i <= |data|
      invariant trackers == TrackersOf(data[..i])
    {
      var (category, experiences) := data[i];
      var categoryExperiences: seq<Experience> := [];
      var sortedExperiences := SortDesc(experiences, MonthsOf);
      var j := 0;
      while j < |sortedExperiences|
        invariant 0 <= j <= |sortedExperiences|
        invariant categoryExperiences == Emitted(sortedExperiences[..j])
      {
        var (name, skillData) := sortedExperiences[j];
        if skillData.months > 0 {
          categoryExperiences := categoryExperiences + [
            Experience(name, skillData.months, FormatDuration(skillData.months), TopSources(skillData.sources))
          ];
        }
        EmittedAppend(sortedExperiences[..j], [sortedExperiences[j]]);
        assert sortedExperiences[..j + 1] == sortedExperiences[..j] + [sortedExperiences[j]];
        j := j + 1;
      }
      assert sortedExperiences[..j] == sortedExperiences;
      if categoryExperiences != [] {
        trackers := trackers + [Tracker(category, categoryExperiences)];
      }
      assert data[..i + 1][..i] == data[..i];
      i := i + 1;
    }
    assert data[..i] == data;
  }

  // ---------------------------------------------------------------------
  // Emitted
  // ---------------------------------------------------------------------

  lemma {:induction false} EmittedAppend(a: SkillTable, b: SkillTable)
    ensures Emitted(a + b) == Emitted(a) + Emitted(b)
    decreases |a|
  {
    if a != [] {
      EmittedAppend(a[1..], b);
      var head := if a[0].1.months > 0 then [ToExperience(a[0])] else [];
      assert (a + b)[0] == a[0] && (a + b)[1..] == a[1..] + b;
      assert Emitted(a + b) == head + Emitted(a[1..] + b);
      assert Emitted(a) == head + Emitted(a[1..]);
    } else {
      assert a + b == b;
    }
  }

  /** The lines are exactly the entries with a positive month count. */
  lemma {:induction false} EmittedMembers(t: SkillTable, e: Experience)
    ensures e in Emitted(t) <==> exists item :: item in t && item.1.months > 0 && e == ToExperience(item)
    decreases |t|
  {
    if t != [] {
      EmittedMembers(t[1..], e);
      assert t == [t[0]] + t[1..];
    }
  }

  /** When every entry has some experience, each entry has its line, in place. */
  lemma {:induction false} EmittedAllPositive(t: SkillTable)
    requires forall i :: 0 <= i < |t| ==> t[i].1.months > 0
    ensures |Emitted(t)| == |t|
    ensures forall i :: 0 <= i < |t| ==> Emitted(t)[i] == ToExperience(t[i])
    decreases |t|
  {
    if t != [] {
      EmittedAllPositive(t[1..]);
    }
  }

  lemma {:induction false} EmittedBounded(t: SkillTable, bound: int)
    requires forall i :: 0 <= i < |t| ==> MonthsOf(t[i]) <= bound
    ensures forall i :: 0 <= i < |Emitted(t)| ==> Emitted(t)[i].totalMonths <= bound
    decreases |t|
  {
    if t != [] {
      EmittedBounded(t[1..], bound);
    }
  }

  lemma {:induction false} EmittedSorted(t: SkillTable)
    requires NonIncreasing(t, MonthsOf)
    ensures NonIncreasing(Emitted(t), TotalMonthsOf)
    decreases |t|
  {
    if t != [] {
      EmittedSorted(t[1..]);
      if t[0].1.months > 0 {
        EmittedBounded(t[1..], t[0].1.months);
        var rest := Emitted(t[1..]);
        assert forall i :: 0 < i < |rest| + 1 ==> ([ToExperience(t[0])] + rest)[i] == rest[i - 1];
      }
    }
  }

  lemma {:induction false} EmittedWithKey(t: SkillTable, k: int)
    ensures WithKey(Emitted(t), TotalMonthsOf, k) == if k > 0 then Emitted(WithKey(t, MonthsOf, k)) else []
    decreases |t|
  {
    if t != [] {
      EmittedWithKey(t[1..], k);
      var head := if t[0].1.months > 0 then [ToExperience(t[0])] else [];
      WithKeyAppend(head, Emitted(t[1..]), TotalMonthsOf, k);
      if k > 0 {
        var w := if MonthsOf(t[0]) == k then [t[0]] else [];
        EmittedAppend(w, WithKey(t[1..], MonthsOf, k));
      }
    }
  }

  lemma {:induction false} WithKeyAppend<T>(a: seq<T>, b: seq<T>, key: T -> int, k: int)
    ensures WithKey(a + b, key, k) == WithKey(a, key, k) + WithKey(b, key, k)
    decreases |a|
  {
    if a != [] {
      WithKeyAppend(a[1..], b, key, k);
      assert (a + b)[1..] == a[1..] + b;
    } else {
      assert a + b == b;
    }
  }

  // ---------------------------------------------------------------------
  // One category
  // ---------------------------------------------------------------------

  /** A category's lines run from the longest experience to the shortest. */
  lemma CategoryExperiencesSorted(skills: SkillTable)
    ensures NonIncreasing(CategoryExperiences(skills), TotalMonthsOf)
  {
    SortDescSortedPermutation(skills, MonthsOf);
    EmittedSorted(SortDesc(skills, MonthsOf));
  }

  /** Ties keep their table order: the lines with k months are, in order, the
      lines of the table entries with k months, and there are none for k <= 0. */
  lemma CategoryExperiencesStable(skills: SkillTable, k: int)
    ensures WithKey(CategoryExperiences(skills), TotalMonthsOf, k)
         == if k > 0 then Emitted(WithKey(skills, MonthsOf, k)) else []
  {
    EmittedWithKey(SortDesc(skills, MonthsOf), k);
    SortDescStable(skills, MonthsOf, k);
  }

  /** Every line is a table entry of the category with a positive month count,
      carrying its duration phrase and its first three sources; and every such
      entry has its line. */
  lemma CategoryExperiencesMembers(skills: SkillTable)
    ensures forall e :: e in CategoryExperiences(skills) ==>
      exists item :: item in skills && item.1.months > 0 && e == ToExperience(item)
    ensures forall item :: item in skills && item.1.months > 0 ==> ToExperience(item) in CategoryExperiences(skills)
    ensures forall e :: e in CategoryExperiences(skills) ==>
      e.totalMonths > 0 && e.display == FormatDuration(e.totalMonths)
  {
    var sorted := SortDesc(skills, MonthsOf);
    SortDescElements(skills, MonthsOf);
    forall e | e in CategoryExperiences(skills)
      ensures exists item :: item in skills && item.1.months > 0 && e == ToExperience(item)
    {
      EmittedMembers(sorted, e);
    }
    forall item | item in skills && item.1.months > 0
      ensures ToExperience(item) in CategoryExperiences(skills)
    {
      EmittedMembers(sorted, ToExperience(item));
    }
  }

  /** A category has lines exactly when one of its skills has a positive month count. */
  lemma CategoryExperiencesEmpty(skills: SkillTable)
    ensures CategoryExperiences(skills) != [] <==> HasExperience(skills)
  {
    CategoryExperiencesMembers(skills);
    if HasExperience(skills) {
      var i :| 0 <= i < |skills| && skills[i].1.months > 0;
      assert skills[i] in skills;
    }
    if CategoryExperiences(skills) != [] {
      var e := CategoryExperiences(skills)[0];
      assert e in CategoryExperiences(skills);
      var item :| item in skills && item.1.months > 0 && e == ToExperience(item);
      var i :| 0 <= i < |skills| && skills[i] == item;
    }
  }

  predicate HasExperience(skills: SkillTable) {
    exists i :: 0 <= i < |skills| && skills[i].1.months > 0
  }

  // ---------------------------------------------------------------------
  // The whole table
  // ---------------------------------------------------------------------

  /** The categories of the table with at least one skill above zero months, in table order. */
  function CategoriesWithExperience(data: ExperienceData): ExperienceData {
    if data == [] then []
    else
      var last := data[|data| - 1];
      CategoriesWithExperience(data[..|data| - 1]) + (if HasExperience(last.1) then [last] else [])
  }

  /** The trackers are, in table order, exactly the categories with some experience,
      each holding that category's lines, and no tracker is empty. */
  lemma {:induction false} TrackersOfCategories(data: ExperienceData)
    ensures |TrackersOf(data)| == |CategoriesWithExperience(data)|
    ensures forall i :: 0 <= i < |TrackersOf(data)| ==>
      TrackersOf(data)[i].category == CategoriesWithExperience(data)[i].0 &&
      TrackersOf(data)[i].experiences == CategoryExperiences(CategoriesWithExperience(data)[i].1)
    ensures forall i :: 0 <= i < |TrackersOf(data)| ==> TrackersOf(data)[i].experiences != []
    decreases |data|
  {
    if data != [] {
      TrackersOfCategories(data[..|data| - 1]);
      CategoryExperiencesEmpty(data[|data| - 1].1);
    }
  }
}
