/** The skills converter: flattens the tracker view into at most twelve
    skills, one per name, each with a progress-bar score, highest first. */
module Skills {
  import opened StableSort
  import opened Trackers

  /** One entry of the skills view. */
  datatype Skill = Skill(name: string, proficiency: int, proficiencyLabel: string)

  /** The most skills the view accepts. */
  const MaxSkills: nat := 12

  function Min(a: int, b: int): int {
    if a <= b then a else b
  }

  function Max(a: int, b: int): int {
    if a >= b then a else b
  }

  /** The progress-bar score: four points a month, clamped to [10, 100]. */
  function Proficiency(months: int): (p: int)
    ensures 10 <= p <= 100
    ensures 3 <= months <= 25 ==> p == months * 4
    ensures months <= 2 ==> p == 10
    ensures months >= 25 ==> p == 100
  {
    Min(100, Max(10, months * 4))
  }

  /** The skill for one tracker line: its name, score and duration phrase. */
  function ToSkill(e: Experience): Skill {
    Skill(e.name, Proficiency(e.totalMonths), e.display)
  }

  /** The sort key of a skill. */
  function ProficiencyOf(s: Skill): int {
    s.proficiency
  }

  function NameOf(s: Skill): string {
    s.name
  }

  /** The names already in a skills list. */
  function NameSet(skills: seq<Skill>): set<string> {
    set s | s in skills :: s.name
  }

  /** All tracker lines, category after category. */
  function Flatten(trackers: seq<Tracker>): seq<Experience> {
    if trackers == [] then []
    else Flatten(trackers[..|trackers| - 1]) + trackers[|trackers| - 1].experiences
  }

  /** One step of the walk: a line is passed over when its name is already
      accepted or twelve skills are, and otherwise when it has less than one
      month; else its skill is accepted. */
  function AcceptStep(skills: seq<Skill>, e: Experience): seq<Skill> {
    if e.name in NameSet(skills) || |skills| >= MaxSkills then skills
    else if e.totalMonths < 1 then skills
    else skills + [ToSkill(e)]
  }

  /** The skills accepted from the lines es, taken in order. */
  function Accepted(es: seq<Experience>): (r: seq<Skill>)
    ensures |r| <= MaxSkills
  {
    if es == [] then [] else AcceptStep(Accepted(es[..|es| - 1]), es[|es| - 1])
  }

  lemma FlattenStep(trackers: seq<Tracker>, i: nat)
    requires i < |trackers|
    ensures Flatten(trackers[..i + 1]) == Flatten(trackers[..i]) + trackers[i].experiences[..|trackers[i].experiences|]
  {
    assert trackers[..i + 1][..i] == trackers[..i];
    assert trackers[i].experiences[..|trackers[i].experiences|] == trackers[i].experiences;
  }

  lemma AcceptedExtendNone(done: seq<Experience>, es: seq<Experience>)
    ensures Accepted(done + es[..0]) == Accepted(done)
  {
    assert done + es[..0] == done;
  }

  /** Accepting the next line of es after done and the lines before it. */
  lemma AcceptedExtend(done: seq<Experience>, es: seq<Experience>, j: nat)
    requires j < |es|
    ensures Accepted(done + es[..j + 1]) == AcceptStep(Accepted(done + es[..j]), es[j])
  {
    TakeOneMore(es, j);
    AppendAssoc(done, es[..j], [es[j]]);
    AcceptedSnoc(done + es[..j], es[j]);
  }

  /** Accepting one more line. */
  lemma AcceptedSnoc(es: seq<Experience>, e: Experience)
    ensures Accepted(es + [e]) == AcceptStep(Accepted(es), e)
  {
    assert (es + [e])[..|es|] == es;
  }

  /** The skills view of the trackers: the accepted skills by descending score, stably. */
  function SkillsOf(trackers: seq<Tracker>): seq<Skill> {
    SortDesc(Accepted(Flatten(trackers)), ProficiencyOf)
  }

  /** Walks the tracker lines with the set of names seen so far, then sorts
      the accepted skills by descending score. */
  method ConvertToSkillsFormat(trackers: seq<Tracker>) returns (skills: seq<Skill>)
    ensures skills == SkillsOf(trackers)
  {
    skills := [];
    var seenNames: set<string> := {};
    var i := 0;
    while i < |trackers|
      invariant 0 <= i <= |trackers|
      invariant skills == Accepted(Flatten(trackers[..i]))
      invariant seenNames == NameSet(skills)
    {
      var experiences := trackers[i].experiences;
      ghost var done := Flatten(trackers[..i]);
      var j := 0;
      AcceptedExtendNone(done, experiences);
      while j < |experiences|
        invariant 0 <= j <= |experiences|
        invariant skills == Accepted(done + experiences[..j])
        invariant seenNames == NameSet(skills)
      {
        var exp := experiences[j];
        AcceptedExtend(done, experiences, j);
        if exp.name in seenNames || |skills| >= 12 {
          // duplicate, or the view is full: skip
        } else if exp.totalMonths < 1 {
          // less than a month: skip
        } else {
          var proficiency := Min(100, Max(10, exp.totalMonths * 4));
          NameSetSnoc(skills, Skill(exp.name, proficiency, exp.display));
          skills := skills + [Skill(exp.name, proficiency, exp.display)];
          seenNames := seenNames + {exp.name};
        }
        j := j + 1;
      }
      FlattenStep(trackers, i);
      i := i + 1;
    }
    assert trackers[..i] == trackers;
    skills := SortDesc(skills, ProficiencyOf);
  }

  // ---------------------------------------------------------------------
  // A reference definition: the first occurrence of every name, then the cap
  // ---------------------------------------------------------------------

  /** The names of the lines of es with at least one month. */
  function QualifiedNames(es: seq<Experience>): set<string> {
    set e | e in es && e.totalMonths >= 1 :: e.name
  }

  /** The lines of es with at least one month whose name no earlier such line has, in order. */
  function FirstOccurrences(es: seq<Experience>): seq<Experience> {
    if es == [] then []
    else
      var prefix := es[..|es| - 1];
      var e := es[|es| - 1];
      FirstOccurrences(prefix) + (if e.totalMonths >= 1 && e.name !in QualifiedNames(prefix) then [e] else [])
  }

  /** The first n elements of s, or all of s when it is shorter. */
  function Take<T>(s: seq<T>, n: nat): (r: seq<T>)
    ensures |r| == Min(n, |s|)
    ensures forall i :: 0 <= i < |r| ==> r[i] == s[i]
  {
    if |s| <= n then s else s[..n]
  }

  function ToSkills(es: seq<Experience>): (r: seq<Skill>)
    ensures |r| == |es|
    ensures forall i :: 0 <= i < |es| ==> r[i] == ToSkill(es[i])
  {
    if es == [] then [] else ToSkills(es[..|es| - 1]) + [ToSkill(es[|es| - 1])]
  }

  lemma QualifiedNamesSnoc(p: seq<Experience>, e: Experience)
    ensures QualifiedNames(p + [e]) == QualifiedNames(p) + (if e.totalMonths >= 1 then {e.name} else {})
  {
    var es := p + [e];
    forall x | x in es ensures x in p || x == e {
      var i :| 0 <= i < |es| && es[i] == x;
      if i < |p| { assert p[i] == x; }
    }
    assert forall x :: x in p ==> x in es;
    assert e in es;
  }

  lemma {:induction false} FirstOccurrencesNames(es: seq<Experience>)
    ensures NameSet(ToSkills(FirstOccurrences(es))) == QualifiedNames(es)
    decreases |es|
  {
    if es != [] {
      var prefix, e := es[..|es| - 1], es[|es| - 1];
      FirstOccurrencesNames(prefix);
      assert es == prefix + [e];
      QualifiedNamesSnoc(prefix, e);
      var before := FirstOccurrences(prefix);
      var after := FirstOccurrences(es);
      if e.totalMonths >= 1 && e.name !in QualifiedNames(prefix) {
        assert after == before + [e];
        NameSetSnoc(ToSkills(before), ToSkill(e));
        assert ToSkills(after) == ToSkills(before) + [ToSkill(e)];
      } else {
        assert after == before;
      }
    }
  }

  /** The reference definition keeps one line per qualifying name. */
  lemma {:induction false} FirstOccurrencesCount(es: seq<Experience>)
    ensures |FirstOccurrences(es)| == |QualifiedNames(es)|
    decreases |es|
  {
    if es != [] {
      var prefix, e := es[..|es| - 1], es[|es| - 1];
      FirstOccurrencesCount(prefix);
      assert es == prefix + [e];
      QualifiedNamesSnoc(prefix, e);
      if e.totalMonths >= 1 && e.name !in QualifiedNames(prefix) {
        assert FirstOccurrences(es) == FirstOccurrences(prefix) + [e];
        assert QualifiedNames(es) == QualifiedNames(prefix) + {e.name};
      } else {
        assert FirstOccurrences(es) == FirstOccurrences(prefix);
        assert QualifiedNames(es) == QualifiedNames(prefix);
      }
    }
  }

  lemma NameSetSnoc(skills: seq<Skill>, s: Skill)
    ensures NameSet(skills + [s]) == NameSet(skills) + {s.name}
  {
    var all := skills + [s];
    forall x | x in all ensures x in skills || x == s {
      var i :| 0 <= i < |all| && all[i] == x;
      if i < |skills| { assert skills[i] == x; }
    }
    assert forall x :: x in skills ==> x in all;
    assert s in all;
  }

  /** The fold with the seen-names set and the cap is the first occurrence of
      every qualifying name, cut to the first twelve. */
  lemma {:induction false} AcceptedIsCappedFirstOccurrences(es: seq<Experience>)
    ensures Accepted(es) == ToSkills(Take(FirstOccurrences(es), MaxSkills))
    decreases |es|
  {
    if es != [] {
      var prefix, e := es[..|es| - 1], es[|es| - 1];
      AcceptedIsCappedFirstOccurrences(prefix);
      var before := FirstOccurrences(prefix);
      var skills := Accepted(prefix);
      if |before| >= MaxSkills {
        assert |skills| >= MaxSkills;
        assert Take(FirstOccurrences(es), MaxSkills) == Take(before, MaxSkills);
      } else {
        assert Take(before, MaxSkills) == before;
        FirstOccurrencesNames(prefix);
        assert NameSet(skills) == QualifiedNames(prefix);
        if e.totalMonths >= 1 && e.name !in QualifiedNames(prefix) {
          assert FirstOccurrences(es) == before + [e];
          assert ToSkills(before + [e]) == ToSkills(before) + [ToSkill(e)];
        }
      }
    }
  }

  // ---------------------------------------------------------------------
  // Properties of the reference definition
  // ---------------------------------------------------------------------

  /** Every kept line has at least a month, and its name has no earlier qualifying line. */
  lemma {:induction false} FirstOccurrencesQualify(es: seq<Experience>)
    ensures forall x :: x in FirstOccurrences(es) ==> x in es && x.totalMonths >= 1
    ensures DistinctBy(ToSkills(FirstOccurrences(es)), NameOf)
    decreases |es|
  {
    if es != [] {
      var prefix, e := es[..|es| - 1], es[|es| - 1];
      FirstOccurrencesQualify(prefix);
      assert es == prefix + [e];
      var before := FirstOccurrences(prefix);
      if e.totalMonths >= 1 && e.name !in QualifiedNames(prefix) {
        var r := ToSkills(before + [e]);
        assert r == ToSkills(before) + [ToSkill(e)];
        forall i | 0 <= i < |before| ensures r[i].name != e.name {
          assert before[i] in before;
          assert before[i].name in QualifiedNames(prefix);
        }
      }
    }
  }

  /** Lines that all have a month or more and all have different names are all kept. */
  lemma {:induction false} FirstOccurrencesOfDistinct(es: seq<Experience>)
    requires forall i :: 0 <= i < |es| ==> es[i].totalMonths >= 1
    requires forall i, j :: 0 <= i < j < |es| ==> es[i].name != es[j].name
    ensures FirstOccurrences(es) == es
    decreases |es|
  {
    if es != [] {
      var prefix, e := es[..|es| - 1], es[|es| - 1];
      assert forall i :: 0 <= i < |prefix| ==> prefix[i] == es[i];
      FirstOccurrencesOfDistinct(prefix);
      assert e.name !in QualifiedNames(prefix) by {
        forall x | x in prefix ensures x.name != e.name {
          var i :| 0 <= i < |prefix| && prefix[i] == x;
          assert es[i].name != es[|es| - 1].name;
        }
      }
      assert e.totalMonths >= 1 by { assert es[|es| - 1].totalMonths >= 1; }
      assert FirstOccurrences(es) == FirstOccurrences(prefix) + [e];
      ButLastThenLast(es);
    }
  }

  lemma TakeOneMore<T>(s: seq<T>, j: nat)
    requires j < |s|
    ensures s[..j + 1] == s[..j] + [s[j]]
  {
  }

  lemma AppendAssoc<T>(a: seq<T>, b: seq<T>, c: seq<T>)
    ensures a + (b + c) == (a + b) + c
  {
  }

  lemma ButLastThenLast<T>(s: seq<T>)
    requires s != []
    ensures s[..|s| - 1] + [s[|s| - 1]] == s
  {
  }

  // ---------------------------------------------------------------------
  // The skills view
  // ---------------------------------------------------------------------

  /** The accepted skills: at most twelve, no name twice. */
  lemma AcceptedBounds(es: seq<Experience>)
    ensures |Accepted(es)| == Min(MaxSkills, |FirstOccurrences(es)|)
    ensures |Accepted(es)| == Min(MaxSkills, |QualifiedNames(es)|)
    ensures DistinctBy(Accepted(es), NameOf)
  {
    AcceptedIsCappedFirstOccurrences(es);
    FirstOccurrencesCount(es);
    FirstOccurrencesQualify(es);
    var accepted := Accepted(es);
    var all := ToSkills(FirstOccurrences(es));
    forall i, j | 0 <= i < j < |accepted| ensures accepted[i].name != accepted[j].name {
      assert accepted[i] == all[i] && accepted[j] == all[j];
    }
  }

  /** At most twelve skills (fewer only when fewer names qualify), no name
      twice, every score in [10, 100]. */
  lemma SkillsOfBounds(trackers: seq<Tracker>)
    ensures |SkillsOf(trackers)| <= MaxSkills
    ensures |SkillsOf(trackers)| == Min(MaxSkills, |FirstOccurrences(Flatten(trackers))|)
    ensures |SkillsOf(trackers)| == Min(MaxSkills, |QualifiedNames(Flatten(trackers))|)
    ensures DistinctBy(SkillsOf(trackers), NameOf)
    ensures forall s :: s in SkillsOf(trackers) ==> 10 <= s.proficiency <= 100
  {
    var accepted := Accepted(Flatten(trackers));
    AcceptedBounds(Flatten(trackers));
    SortDescSortedPermutation(accepted, ProficiencyOf);
    SortDescDistinct(accepted, ProficiencyOf, NameOf);
    SkillsOfOrigin(trackers);
  }

  /** Highest score first; ties keep the order in which the skills were accepted;
      the view is a permutation of the accepted skills. */
  lemma SkillsOfOrder(trackers: seq<Tracker>)
    ensures NonIncreasing(SkillsOf(trackers), ProficiencyOf)
    ensures multiset(SkillsOf(trackers)) == multiset(Accepted(Flatten(trackers)))
    ensures forall k :: WithKey(SkillsOf(trackers), ProficiencyOf, k) == WithKey(Accepted(Flatten(trackers)), ProficiencyOf, k)
  {
    var accepted := Accepted(Flatten(trackers));
    SortDescSortedPermutation(accepted, ProficiencyOf);
    forall k ensures WithKey(SkillsOf(trackers), ProficiencyOf, k) == WithKey(accepted, ProficiencyOf, k) {
      SortDescStable(accepted, ProficiencyOf, k);
    }
  }

  /** Every skill is made from a line kept by the reference definition: the
      first line with its name and at least one month. */
  lemma SkillsOfOrigin(trackers: seq<Tracker>)
    ensures forall s :: s in SkillsOf(trackers) ==>
      exists e :: e in FirstOccurrences(Flatten(trackers)) && s == ToSkill(e)
  {
    var es := Flatten(trackers);
    var accepted := Accepted(es);
    var firsts := FirstOccurrences(es);
    AcceptedIsCappedFirstOccurrences(es);
    SortDescElements(accepted, ProficiencyOf);
    forall s | s in SkillsOf(trackers)
      ensures exists e :: e in firsts && s == ToSkill(e)
    {
      assert s in accepted;
      var i :| 0 <= i < |accepted| && accepted[i] == s;
      assert firsts[i] in firsts;
    }
  }

  /** When at most twelve names qualify, every one of them has its skill. */
  lemma SkillsOfComplete(trackers: seq<Tracker>)
    requires |QualifiedNames(Flatten(trackers))| <= MaxSkills
    ensures NameSet(SkillsOf(trackers)) == QualifiedNames(Flatten(trackers))
  {
    var es := Flatten(trackers);
    FirstOccurrencesCount(es);
    var accepted := Accepted(es);
    AcceptedIsCappedFirstOccurrences(es);
    FirstOccurrencesNames(es);
    SortDescElements(accepted, ProficiencyOf);
    assert accepted == ToSkills(FirstOccurrences(es));
    assert forall s :: s in SkillsOf(trackers) <==> s in accepted;
    assert NameSet(SkillsOf(trackers)) == NameSet(accepted);
  }
}
