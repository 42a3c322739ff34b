/** The hand-maintained experience table and what the pipeline derives from it. */
module RealisticData {
  import opened Duration
  import opened StableSort
  import opened Trackers
  import opened Skills

  /** The table of the portfolio: category -> skill -> months and sources,
      in the order the entries are written. */
  function RealisticExperience(): ExperienceData {
    [
      ("Programming Languages", ProgrammingLanguages()),
      ("Engineering Areas", EngineeringAreas())
    ]
  }

  function ProgrammingLanguages(): SkillTable {
    [
      ("Python", SkillData(1 + 4 + 3 + 2, [
        "Neucom AI (1 month)",
        "TTM Technologies (4 months)",
        "Real-Time Orderbook Analysis (3 months)",
        "LPC-Based Stock Prediction (2 months)"])),
      ("Verilog/SystemVerilog", SkillData(8 + 8 + 3, [
        "Qynosys, Inc. (8 months)",
        "Microchip Technology (8 months)",
        "Real-Time Orderbook Analysis (3 months)"])),
      ("C++", SkillData(8 + 3 + 2 + 2, [
        "Qynosys, Inc. (8 months)",
        "Real-Time Orderbook Analysis (3 months)",
        "Embedded Sentry (2 months)",
        "Hydroponic Control System (2 months)"])),
      ("C#", SkillData(1, [
        "Parallax AV Design (1 month)"])),
      ("VHDL", SkillData(1, [
        "Vending Machine Controller (1 month)"]))
    ]
  }

  function EngineeringAreas(): SkillTable {
    [
      ("Systems Programming", SkillData(8 + 4 + 3, [
        "Qynosys EW Systems (8 months)",
        "TTM Technologies (4 months)",
        "Real-Time Orderbook Analysis (3 months)"])),
      ("Research Engineering", SkillData(1 + 9 + 3 + 2, [
        "NYU Processor Design Team (9 months)",
        "Real-Time Orderbook Analysis (3 months)",
        "LPC-Based Stock Prediction (2 months)",
        "Neucom AI (1 month)"])),
      ("Embedded Systems", SkillData(8 + 2 + 2, [
        "Microchip Technology (8 months)",
        "Embedded Sentry (2 months)",
        "Hydroponic Control System (2 months)"])),
      ("Electrical Engineering", SkillData(8 + 3, [
        "Microchip Technology (8 months)",
        "Rio Tinto (3 months)"])),
      ("Financial Technology", SkillData(3 + 2, [
        "Real-Time Orderbook Analysis (3 months)",
        "LPC-Based Stock Prediction (2 months)"])),
      ("Machine Learning/AI", SkillData(1 + 3 + 2, [
        "Neucom AI (1 month)",
        "Real-Time Orderbook Analysis (3 months)",
        "LPC-Based Stock Prediction (2 months)"]))
    ]
  }

  /** The skill names of a table, in order. */
  function TableNames(t: SkillTable): (names: seq<string>)
    ensures |names| == |t| && forall i :: 0 <= i < |t| ==> names[i] == t[i].0
  {
    seq(|t|, i requires 0 <= i < |t| => t[i].0)
  }

  /** The month totals of a table, in order. */
  function TableMonths(t: SkillTable): (months: seq<int>)
    ensures |months| == |t| && forall i :: 0 <= i < |t| ==> months[i] == t[i].1.months
  {
    seq(|t|, i requires 0 <= i < |t| => t[i].1.months)
  }

  /** The names of a sequence of tracker lines. */
  function LineNames(lines: seq<Experience>): (names: seq<string>)
    ensures |names| == |lines| && forall i :: 0 <= i < |lines| ==> names[i] == lines[i].name
  {
    seq(|lines|, i requires 0 <= i < |lines| => lines[i].name)
  }

  /** The month totals of a sequence of tracker lines. */
  function LineMonths(lines: seq<Experience>): (months: seq<int>)
    ensures |months| == |lines| && forall i :: 0 <= i < |lines| ==> months[i] == lines[i].totalMonths
  {
    seq(|lines|, i requires 0 <= i < |lines| => lines[i].totalMonths)
  }

  /** What the sums of the programming languages come to. */
  lemma ProgrammingLanguagesTable()
    ensures TableNames(ProgrammingLanguages()) == ["Python", "Verilog/SystemVerilog", "C++", "C#", "VHDL"]
    ensures TableMonths(ProgrammingLanguages()) == [10, 19, 15, 1, 1]
    ensures |ProgrammingLanguages()[0].1.sources| == 4 && |ProgrammingLanguages()[1].1.sources| == 3
  {
  }

  /** What the sums of the engineering areas come to. */
  lemma EngineeringAreasTable()
    ensures TableNames(EngineeringAreas()) == ["Systems Programming", "Research Engineering", "Embedded Systems",
                                               "Electrical Engineering", "Financial Technology", "Machine Learning/AI"]
    ensures TableMonths(EngineeringAreas()) == [15, 15, 12, 11, 5, 6]
  {
  }

  /** Sorting the programming languages' months: C# keeps its place ahead of
      VHDL at one month each. */
  lemma SortLanguages(t: SkillTable)
    requires TableMonths(t) == [10, 19, 15, 1, 1]
    ensures SortDesc(t, MonthsOf) == [t[1], t[2], t[0], t[3], t[4]]
  {
    var python, verilog, cpp, csharp, vhdl := t[0], t[1], t[2], t[3], t[4];
    assert t == [python, verilog, cpp, csharp, vhdl];
    assert [vhdl][1..] == [] && SortDesc([vhdl], MonthsOf) == [vhdl];
    assert [csharp, vhdl][1..] == [vhdl];
    assert SortDesc([csharp, vhdl], MonthsOf) == [csharp, vhdl];
    assert [cpp, csharp, vhdl][1..] == [csharp, vhdl];
    assert SortDesc([cpp, csharp, vhdl], MonthsOf) == [cpp, csharp, vhdl];
    assert [verilog, cpp, csharp, vhdl][1..] == [cpp, csharp, vhdl];
    assert SortDesc([verilog, cpp, csharp, vhdl], MonthsOf) == [verilog, cpp, csharp, vhdl];
    assert t[1..] == [verilog, cpp, csharp, vhdl];
    assert Insert(python, [csharp, vhdl], MonthsOf) == [python, csharp, vhdl];
    assert Insert(python, [cpp, csharp, vhdl], MonthsOf) == [cpp, python, csharp, vhdl];
    assert Insert(python, [verilog, cpp, csharp, vhdl], MonthsOf) == [verilog, cpp, python, csharp, vhdl];
  }

  /** Sorting the engineering areas' months: Systems Programming keeps its
      place ahead of Research Engineering at fifteen months each. */
  lemma SortAreas(t: SkillTable)
    requires TableMonths(t) == [15, 15, 12, 11, 5, 6]
    ensures SortDesc(t, MonthsOf) == [t[0], t[1], t[2], t[3], t[5], t[4]]
  {
    var sys, research, embedded, electrical, fintech, ml := t[0], t[1], t[2], t[3], t[4], t[5];
    assert t == [sys, research, embedded, electrical, fintech, ml];
    assert [ml][1..] == [] && SortDesc([ml], MonthsOf) == [ml];
    assert [fintech, ml][1..] == [ml];
    assert Insert(fintech, [ml], MonthsOf) == [ml, fintech];
    assert SortDesc([fintech, ml], MonthsOf) == [ml, fintech];
    assert [electrical, fintech, ml][1..] == [fintech, ml];
    assert SortDesc([electrical, fintech, ml], MonthsOf) == [electrical, ml, fintech];
    assert [embedded, electrical, fintech, ml][1..] == [electrical, fintech, ml];
    assert SortDesc([embedded, electrical, fintech, ml], MonthsOf) == [embedded, electrical, ml, fintech];
    assert [research, embedded, electrical, fintech, ml][1..] == [embedded, electrical, fintech, ml];
    assert SortDesc([research, embedded, electrical, fintech, ml], MonthsOf) == [research, embedded, electrical, ml, fintech];
    assert t[1..] == [research, embedded, electrical, fintech, ml];
  }

  /** When every entry has some experience, the lines carry the entries' names and months. */
  lemma EmittedNamesAndMonths(t: SkillTable)
    requires forall i :: 0 <= i < |t| ==> t[i].1.months > 0
    ensures LineNames(Emitted(t)) == TableNames(t)
    ensures LineMonths(Emitted(t)) == TableMonths(t)
  {
    EmittedAllPositive(t);
  }

  /** The tracker lines of a table shaped like the programming languages. */
  lemma LanguagesLines(t: SkillTable)
    requires TableNames(t) == ["Python", "Verilog/SystemVerilog", "C++", "C#", "VHDL"]
    requires TableMonths(t) == [10, 19, 15, 1, 1]
    requires |t[0].1.sources| == 4 && |t[1].1.sources| == 3
    ensures var lines := CategoryExperiences(t);
      && LineNames(lines) == ["Verilog/SystemVerilog", "C++", "Python", "C#", "VHDL"]
      && LineMonths(lines) == [19, 15, 10, 1, 1]
      && lines[0].display == "1 year 7 months"
      && lines[1].display == "1 year 3 months"
      && lines[2].display == "10 months"
      && lines[3].display == "1 month"
      && lines[0].sources == t[1].1.sources
      && lines[2].sources == t[0].1.sources[..3]
  {
    SortLanguages(t);
    var sorted := [t[1], t[2], t[0], t[3], t[4]];
    assert TableNames(sorted) == ["Verilog/SystemVerilog", "C++", "Python", "C#", "VHDL"];
    assert TableMonths(sorted) == [19, 15, 10, 1, 1];
    EmittedNamesAndMonths(sorted);
    EmittedAllPositive(sorted);
    FormatDurationOneYearSevenMonths();
    FormatDurationMonthExamples();
    assert FormatDuration(10) == "10 months";
    assert FormatDuration(15) == "1 year 3 months";
  }

  /** The tracker lines of a table shaped like the engineering areas. */
  lemma AreasLines(t: SkillTable)
    requires TableNames(t) == ["Systems Programming", "Research Engineering", "Embedded Systems",
                               "Electrical Engineering", "Financial Technology", "Machine Learning/AI"]
    requires TableMonths(t) == [15, 15, 12, 11, 5, 6]
    ensures var lines := CategoryExperiences(t);
      && LineNames(lines) == ["Systems Programming", "Research Engineering", "Embedded Systems",
                              "Electrical Engineering", "Machine Learning/AI", "Financial Technology"]
      && LineMonths(lines) == [15, 15, 12, 11, 6, 5]
      && lines[0].display == "1 year 3 months"
      && lines[2].display == "1 year"
      && lines[3].display == "11 months"
  {
    SortAreas(t);
    var sorted := [t[0], t[1], t[2], t[3], t[5], t[4]];
    assert TableNames(sorted) == ["Systems Programming", "Research Engineering", "Embedded Systems",
                                  "Electrical Engineering", "Machine Learning/AI", "Financial Technology"];
    assert TableMonths(sorted) == [15, 15, 12, 11, 6, 5];
    EmittedNamesAndMonths(sorted);
    EmittedAllPositive(sorted);
    FormatDurationYearExamples();
    FormatDurationMonthExamples();
    assert FormatDuration(15) == "1 year 3 months";
  }

  /** The programming languages' tracker lines, with Verilog/SystemVerilog's
      19 months shown as "1 year 7 months" and Python's four sources cut to three. */
  lemma ProgrammingLanguagesLines()
    ensures var lines := CategoryExperiences(ProgrammingLanguages());
      && LineNames(lines) == ["Verilog/SystemVerilog", "C++", "Python", "C#", "VHDL"]
      && LineMonths(lines) == [19, 15, 10, 1, 1]
      && lines[0].display == "1 year 7 months"
      && lines[1].display == "1 year 3 months"
      && lines[2].display == "10 months"
      && lines[3].display == "1 month"
      && lines[0].sources == ProgrammingLanguages()[1].1.sources
      && lines[2].sources == ProgrammingLanguages()[0].1.sources[..3]
  {
    ProgrammingLanguagesTable();
    LanguagesLines(ProgrammingLanguages());
  }

  /** The engineering areas' tracker lines, longest first; Machine Learning/AI
      overtakes Financial Technology. */
  lemma EngineeringAreasLines()
    ensures var lines := CategoryExperiences(EngineeringAreas());
      && LineNames(lines) == ["Systems Programming", "Research Engineering", "Embedded Systems",
                              "Electrical Engineering", "Machine Learning/AI", "Financial Technology"]
      && LineMonths(lines) == [15, 15, 12, 11, 6, 5]
      && lines[0].display == "1 year 3 months"
      && lines[2].display == "1 year"
      && lines[3].display == "11 months"
  {
    EngineeringAreasTable();
    AreasLines(EngineeringAreas());
  }

  /** A table of two categories that both have lines gives two trackers, in order. */
  lemma TrackersOfTwo(first: (string, SkillTable), second: (string, SkillTable))
    requires CategoryExperiences(first.1) != [] && CategoryExperiences(second.1) != []
    ensures TrackersOf([first, second]) == [Tracker(first.0, CategoryExperiences(first.1)),
                                            Tracker(second.0, CategoryExperiences(second.1))]
  {
    assert [first][..0] == [];
    assert TrackersOf([first]) == [Tracker(first.0, CategoryExperiences(first.1))];
    assert [first, second][..1] == [first];
  }

  /** The tracker view of the table keeps both categories, in table order. */
  lemma RealisticTrackers()
    ensures TrackersOf(RealisticExperience()) == [
      Tracker("Programming Languages", CategoryExperiences(ProgrammingLanguages())),
      Tracker("Engineering Areas", CategoryExperiences(EngineeringAreas()))]
  {
    ProgrammingLanguagesLines();
    EngineeringAreasLines();
    TrackersOfTwo(("Programming Languages", ProgrammingLanguages()), ("Engineering Areas", EngineeringAreas()));
  }

  // ---------------------------------------------------------------------
  // The skills view of the table
  // ---------------------------------------------------------------------

  /** Flattening two trackers puts the second one's lines after the first one's. */
  lemma FlattenTwo(trackers: seq<Tracker>)
    requires |trackers| == 2
    ensures Flatten(trackers) == trackers[0].experiences + trackers[1].experiences
  {
    var first := trackers[..1];
    assert first[..0] == [] && trackers[..1] == first;
    assert Flatten(first) == Flatten(first[..0]) + first[0].experiences;
    assert Flatten(first) == trackers[0].experiences;
  }

  /** The tracker lines, category after category. */
  lemma RealisticLines()
    ensures var es := Flatten(TrackersOf(RealisticExperience()));
      && LineNames(es) == ["Verilog/SystemVerilog", "C++", "Python", "C#", "VHDL",
                           "Systems Programming", "Research Engineering", "Embedded Systems",
                           "Electrical Engineering", "Machine Learning/AI", "Financial Technology"]
      && LineMonths(es) == [19, 15, 10, 1, 1, 15, 15, 12, 11, 6, 5]
      && es[0].display == "1 year 7 months"
  {
    RealisticTrackers();
    FlattenTwo(TrackersOf(RealisticExperience()));
    ProgrammingLanguagesLines();
    EngineeringAreasLines();
    ConcatLines(CategoryExperiences(ProgrammingLanguages()), CategoryExperiences(EngineeringAreas()));
  }

  /** The two categories' lines, one after the other. */
  lemma ConcatLines(a: seq<Experience>, b: seq<Experience>)
    requires LineNames(a) == ["Verilog/SystemVerilog", "C++", "Python", "C#", "VHDL"]
    requires LineMonths(a) == [19, 15, 10, 1, 1]
    requires LineNames(b) == ["Systems Programming", "Research Engineering", "Embedded Systems",
                              "Electrical Engineering", "Machine Learning/AI", "Financial Technology"]
    requires LineMonths(b) == [15, 15, 12, 11, 6, 5]
    ensures LineNames(a + b) == ["Verilog/SystemVerilog", "C++", "Python", "C#", "VHDL",
                                 "Systems Programming", "Research Engineering", "Embedded Systems",
                                 "Electrical Engineering", "Machine Learning/AI", "Financial Technology"]
    ensures LineMonths(a + b) == [19, 15, 10, 1, 1, 15, 15, 12, 11, 6, 5]
  {
    assert LineNames(a + b) == LineNames(a) + LineNames(b);
    assert LineMonths(a + b) == LineMonths(a) + LineMonths(b);
  }

  /** Eleven lines with distinct names and at least a month each are all accepted. */
  lemma AllLinesAccepted(es: seq<Experience>)
    requires LineNames(es) == ["Verilog/SystemVerilog", "C++", "Python", "C#", "VHDL",
                               "Systems Programming", "Research Engineering", "Embedded Systems",
                               "Electrical Engineering", "Machine Learning/AI", "Financial Technology"]
    requires LineMonths(es) == [19, 15, 10, 1, 1, 15, 15, 12, 11, 6, 5]
    ensures Accepted(es) == ToSkills(es)
  {
    var names := LineNames(es);
    assert forall i, j :: 0 <= i < j < |names| ==> names[i] != names[j];
    assert forall i :: 0 <= i < |es| ==> es[i].totalMonths == LineMonths(es)[i] >= 1;
    FirstOccurrencesOfDistinct(es);
    AcceptedIsCappedFirstOccurrences(es);
  }

  /** The skills view as it reads on the page: each skill's name with its score. */
  function Ranking(s: seq<Skill>): (r: seq<(string, int)>)
    ensures |r| == |s| && forall i :: 0 <= i < |s| ==> r[i] == (s[i].name, s[i].proficiency)
  {
    seq(|s|, i requires 0 <= i < |s| => (s[i].name, s[i].proficiency))
  }

  /** The scores of a sequence of skills. */
  function Scores(s: seq<Skill>): (r: seq<int>)
    ensures |r| == |s| && forall i :: 0 <= i < |s| ==> r[i] == s[i].proficiency
  {
    seq(|s|, i requires 0 <= i < |s| => s[i].proficiency)
  }
  /** The last six skills (scores 60, 60, 48, 44, 24, 20) are already in order. */
  lemma SortLastSix(s: seq<Skill>)
    requires Scores(s) == [76, 60, 40, 10, 10, 60, 60, 48, 44, 24, 20]
    ensures SortDesc(s[5..], ProficiencyOf) == [s[5], s[6], s[7], s[8], s[9], s[10]]
  {
    var k := ProficiencyOf;
    assert s[11..] == [];
    SortDescSuffix(s, 10, k);
    assert SortDesc(s[10..], k) == [s[10]];
    SortDescSuffix(s, 9, k);
    assert SortDesc(s[9..], k) == [s[9], s[10]];
    SortDescSuffix(s, 8, k);
    assert SortDesc(s[8..], k) == [s[8], s[9], s[10]];
    SortDescSuffix(s, 7, k);
    assert SortDesc(s[7..], k) == [s[7], s[8], s[9], s[10]];
    SortDescSuffix(s, 6, k);
    assert SortDesc(s[6..], k) == [s[6], s[7], s[8], s[9], s[10]];
    SortDescSuffix(s, 5, k);
  }
  /** The two ten-point skills go behind the six above them, in their own order. */
  lemma SortLastEight(s: seq<Skill>)
    requires Scores(s) == [76, 60, 40, 10, 10, 60, 60, 48, 44, 24, 20]
    ensures SortDesc(s[3..], ProficiencyOf) == [s[5], s[6], s[7], s[8], s[9], s[10], s[3], s[4]]
  {
    var k := ProficiencyOf;
    var larger := [s[5], s[6], s[7], s[8], s[9], s[10]];
    SortLastSix(s);
    SortDescSuffix(s, 4, k);
    InsertPastLarger(s[4], larger, [], k);
    assert larger + [] == larger;
    assert SortDesc(s[4..], k) == larger + [s[4]];
    SortDescSuffix(s, 3, k);
    InsertPastLarger(s[3], larger, [s[4]], k);
    assert Insert(s[3], [s[4]], k) == [s[3], s[4]];
  }
  /** The forty-point skill goes between 44 and 24. */
  lemma SortLastNine(s: seq<Skill>)
    requires Scores(s) == [76, 60, 40, 10, 10, 60, 60, 48, 44, 24, 20]
    ensures SortDesc(s[2..], ProficiencyOf) == [s[5], s[6], s[7], s[8], s[2], s[9], s[10], s[3], s[4]]
  {
    var k := ProficiencyOf;
    var high, low := [s[5], s[6], s[7], s[8]], [s[9], s[10], s[3], s[4]];
    SortLastEight(s);
    assert SortDesc(s[3..], k) == high + low;
    SortDescSuffix(s, 2, k);
    InsertPastLarger(s[2], high, low, k);
    assert Insert(s[2], low, k) == [s[2]] + low;
  }

  lemma InsertFront<T>(x: T, t: seq<T>, key: T -> int)
    requires t == [] || key(x) >= key(t[0])
    ensures Insert(x, t, key) == [x] + t
  {
  }

  /** The second skill (60) stays ahead of the later ones at 60. */
  lemma SortLastTen(s: seq<Skill>)
    requires Scores(s) == [76, 60, 40, 10, 10, 60, 60, 48, 44, 24, 20]
    ensures SortDesc(s[1..], ProficiencyOf) == [s[1], s[5], s[6], s[7], s[8], s[2], s[9], s[10], s[3], s[4]]
  {
    var k := ProficiencyOf;
    SortLastNine(s);
    var fromTwo := SortDesc(s[2..], k);
    SortDescSuffix(s, 1, k);
    InsertFront(s[1], fromTwo, k);
  }

  /** The order the stable sort gives the eleven scores as flattened. */
  lemma SortEleven(s: seq<Skill>)
    requires Scores(s) == [76, 60, 40, 10, 10, 60, 60, 48, 44, 24, 20]
    ensures SortDesc(s, ProficiencyOf) == [s[0], s[1], s[5], s[6], s[7], s[8], s[2], s[9], s[10], s[3], s[4]]
  {
    var k := ProficiencyOf;
    SortLastTen(s);
    var fromOne := SortDesc(s[1..], k);
    SortDescSuffix(s, 0, k);
    InsertFront(s[0], fromOne, k);
    assert s[0..] == s;
  }

  /** The skills view of the table: all eleven lines become skills, highest
      score first, the three at sixty in the order they were flattened. */
  lemma RealisticSkills()
    ensures var skills := SkillsOf(TrackersOf(RealisticExperience()));
      && Ranking(skills) == [("Verilog/SystemVerilog", 76), ("C++", 60), ("Systems Programming", 60),
                             ("Research Engineering", 60), ("Embedded Systems", 48),
                             ("Electrical Engineering", 44), ("Python", 40), ("Machine Learning/AI", 24),
                             ("Financial Technology", 20), ("C#", 10), ("VHDL", 10)]
      && skills[0] == Skill("Verilog/SystemVerilog", 76, "1 year 7 months")
  {
    var es := Flatten(TrackersOf(RealisticExperience()));
    RealisticLines();
    AllLinesAccepted(es);
    SkillsOfLines(es);
  }

  /** The eleven lines' skills, sorted by score. */
  lemma SkillsOfLines(es: seq<Experience>)
    requires LineNames(es) == ["Verilog/SystemVerilog", "C++", "Python", "C#", "VHDL",
                               "Systems Programming", "Research Engineering", "Embedded Systems",
                               "Electrical Engineering", "Machine Learning/AI", "Financial Technology"]
    requires LineMonths(es) == [19, 15, 10, 1, 1, 15, 15, 12, 11, 6, 5]
    requires es[0].display == "1 year 7 months"
    ensures var skills := SortDesc(ToSkills(es), ProficiencyOf);
      && Ranking(skills) == [("Verilog/SystemVerilog", 76), ("C++", 60), ("Systems Programming", 60),
                             ("Research Engineering", 60), ("Embedded Systems", 48),
                             ("Electrical Engineering", 44), ("Python", 40), ("Machine Learning/AI", 24),
                             ("Financial Technology", 20), ("C#", 10), ("VHDL", 10)]
      && skills[0] == Skill("Verilog/SystemVerilog", 76, "1 year 7 months")
  {
    var s := ToSkills(es);
    RealisticSkillScores(es);
    SortEleven(s);
    var sorted := [s[0], s[1], s[5], s[6], s[7], s[8], s[2], s[9], s[10], s[3], s[4]];
    assert Scores(sorted) == [s[0].proficiency, s[1].proficiency, s[5].proficiency, s[6].proficiency,
                              s[7].proficiency, s[8].proficiency, s[2].proficiency, s[9].proficiency,
                              s[10].proficiency, s[3].proficiency, s[4].proficiency];
  }

  /** Four points a month, clamped: one month scores ten. */
  lemma RealisticSkillScores(es: seq<Experience>)
    requires LineMonths(es) == [19, 15, 10, 1, 1, 15, 15, 12, 11, 6, 5]
    ensures Scores(ToSkills(es)) == [76, 60, 40, 10, 10, 60, 60, 48, 44, 24, 20]
  {
  }
}
