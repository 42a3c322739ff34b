# Realistic experience calculator, modelled in Dafny

`calculate_experience.py` builds two views of a hand-maintained experience
table for a portfolio page. The table maps category → skill → (months, sources).

- **Experience trackers.** There is one tracker per category. It lists the
  category's skills with some experience, longest first. Each line has a
  duration phrase such as "1 year 7 months" and at most three sources.
- **Skills.** The tracker lines are flattened into at most twelve skills, one
  per name. Each skill has a progress-bar score of four points a month,
  clamped to [10, 100]. The skills are sorted by score, highest first.

This project models those two pipelines, the duration formatter they share,
and the literal table. It proves what each of them promises.

Modules:

- `Duration` (`duration.dfy`) models `format_duration` as the function
  `FormatDuration`. The f-string rendering of a non-negative integer becomes
  `NatToString`. An independent grammar, `ParseDuration`, reads a phrase back.
  The round trip is proved in both directions.
- `StableSort` (`stable_sort.dfy`) models Python's `sorted(..., reverse=True)`
  and `list.sort(..., reverse=True)` by their result. `SortDesc` is a
  descending insertion sort. It is proved to give a non-increasing
  permutation that keeps the order of equal keys. It is also proved to be the
  only sequence with those properties.
- `Trackers` (`trackers.dfy`) models `generate_experience_trackers`. The
  method `GenerateExperienceTrackers` keeps the source's nested loops. It is
  proved equal to the specification function `TrackersOf`. Lemmas about
  `TrackersOf` state the ordering, filtering, truncation and category rules.
- `Skills` (`skills.dfy`) models `convert_to_skills_format`. The method
  `ConvertToSkillsFormat` keeps the loop with its seen-names set, the cap and
  the final sort. It is proved equal to `SkillsOf`. The accepting fold is
  proved equal to a reference definition: the first qualifying line of every
  name, cut to twelve.
- `RealisticData` (`realistic_data.dfy`) holds `get_realistic_experience` as
  a constant. It computes what the two pipelines make of it.

Python dictionaries keep insertion order, and that order decides the category
order and the tie-breaking. So every dictionary is a sequence of
(key, value) pairs in insertion order. The JSON-like records become the
datatypes `SkillData`, `Experience`, `Tracker` and `Skill`.

## Model

| member | source | states |
|---|---|---|
| Duration.FormatDuration | calculate_experience.py:5-16 | The definition of `format_duration`: under 12 months the count and "month"/"months"; otherwise the whole years and "year"/"years", then the remaining months when there are any. It has no contract of its own; its properties are the rows for FormatDurationRoundTrip, ParseDurationSound, FormatDurationInjective and the example lemmas |
| Duration.FormatDurationRoundTrip | calculate_experience.py:5-16 | The phrase for any month count parses back as y whole years and r months with y * 12 + r equal to the count and r < 12 (y = count / 12, r = count % 12) |
| Duration.ParseDurationSound | calculate_experience.py:5-16 | Every phrase the grammar accepts (a lone month count under 12, a lone year count of at least one, or years then 0 < months < 12, each unit singular exactly when its number is 1) is exactly the formatted phrase of years * 12 + months |
| Duration.FormatDurationInjective | calculate_experience.py:5-16 | Two month counts with the same phrase are equal |
| Duration.NumeralValueOfNatToString | calculate_experience.py:8 | The decimal rendering of a count, as the f-string writes it, reads back as that count |
| Duration.NatToStringOfNumeralValue | calculate_experience.py:8 | Every canonical digit string (digits only, no leading zero unless it is "0") is the rendering of its value, so renderings and counts are in one-to-one correspondence |
| Duration.FormatDurationMonthExamples | calculate_experience.py:7-8 | 0 months gives "0 months", 1 gives "1 month", 11 gives "11 months" |
| Duration.FormatDurationYearExamples | calculate_experience.py:10-14 | 12 months gives "1 year" and 24 gives "2 years" |
| Duration.FormatDurationOneYearOneMonth | calculate_experience.py:10-16 | 13 months gives "1 year 1 month" |
| Duration.FormatDurationOneYearSevenMonths | calculate_experience.py:10-16 | 19 months gives "1 year 7 months" |
| Duration.FormatDurationTwoYearsOneMonth | calculate_experience.py:10-16 | 25 months gives "2 years 1 month" |
| StableSort.SortDesc | calculate_experience.py:129-131 | The definition of the stable descending sort used here and at line 174: each element is inserted after every element whose key is at least its own. It has no contract of its own; its properties are the rows for SortDescSortedPermutation, SortDescStable, SortDescCharacterized, SortDescElements and SortDescDistinct |
| StableSort.SortDescSortedPermutation | calculate_experience.py:129-131 | The sorted sequence is non-increasing in the key and is a permutation of the input |
| StableSort.SortDescStable | calculate_experience.py:129-131 | For every key value, the elements with that key appear in the same relative order as in the input |
| StableSort.SortDescCharacterized | calculate_experience.py:129-131 | Any non-increasing sequence that keeps every key's elements in input order is the sorted sequence, so the sort result is unique |
| StableSort.SortDescElements | calculate_experience.py:174 | An element is in the sorted sequence exactly when it is in the input |
| StableSort.SortDescDistinct | calculate_experience.py:174 | Sorting keeps a sequence free of repeated names |
| Trackers.ToExperience | calculate_experience.py:135-140 | The definition of one tracker line: the skill's name, its months, the `FormatDuration` phrase of those months and the first three sources. Its properties are stated by CategoryExperiencesMembers |
| Trackers.Emitted | calculate_experience.py:133-140 | The definition of the inner loop: the lines of the entries with a positive month count, in the order given. Its properties are the rows for EmittedMembers and CategoryExperiencesStable |
| Trackers.CategoryExperiences | calculate_experience.py:128-140 | The definition of one category's lines: Emitted of the entries sorted by descending months. Its properties are the rows for CategoryExperiencesSorted, CategoryExperiencesStable, CategoryExperiencesMembers and CategoryExperiencesEmpty |
| Trackers.TrackersOf | calculate_experience.py:122-143 | There are at most as many trackers as categories, and none of them is empty; TrackersOfCategories states which categories they are |
| Trackers.TopSources | calculate_experience.py:139 | The kept sources are the first three, or all of them when there are fewer |
| Trackers.GenerateExperienceTrackers | calculate_experience.py:116-145 | The nested loops that append lines and non-empty trackers produce exactly `TrackersOf` of the table |
| Trackers.CategoryExperiencesSorted | calculate_experience.py:128-131 | A category's lines are in non-increasing order of total months |
| Trackers.CategoryExperiencesStable | calculate_experience.py:129-134 | The lines with k months are, in order, the table's entries with k months; there are none for k <= 0 |
| Trackers.CategoryExperiencesMembers | calculate_experience.py:133-140 | Every line comes from an entry of the category with a positive month count and carries its name, months, duration phrase and first three sources; every such entry has its line |
| Trackers.EmittedMembers | calculate_experience.py:133-140 | A line is emitted exactly when some entry has a positive month count and that line is built from it |
| Trackers.CategoryExperiencesEmpty | calculate_experience.py:134-143 | A category has lines exactly when one of its skills has a positive month count |
| Trackers.TrackersOfCategories | calculate_experience.py:122-143 | The trackers are, in table order, exactly the categories with some experience, each holding that category's lines, and no tracker is empty |
| Skills.Flatten | calculate_experience.py:152-153 | The definition of the walk order: every tracker's lines, tracker after tracker. Used by Accepted and SkillsOf |
| Skills.ToSkill | calculate_experience.py:163-169 | The definition of one skill: the line's name, the Proficiency of its months and its duration phrase as label. Its properties are the rows for Proficiency and SkillsOfOrigin |
| Skills.AcceptStep | calculate_experience.py:155-171 | The definition of one loop step: a line is passed over when its name is already accepted or twelve skills are, then when it has less than a month; otherwise its skill is appended. Its properties are the rows for Accepted and AcceptedIsCappedFirstOccurrences |
| Skills.Accepted | calculate_experience.py:150-171 | At most twelve skills are ever accepted; AcceptedIsCappedFirstOccurrences and AcceptedBounds state which ones |
| Skills.SkillsOf | calculate_experience.py:147-176 | The definition of the skills view: the accepted skills sorted by descending score, stably. Its properties are the rows for SkillsOfBounds, SkillsOfOrder, SkillsOfOrigin and SkillsOfComplete |
| Skills.Proficiency | calculate_experience.py:163 | The score lies in [10, 100]; it is 4 * months for 3 to 25 months, 10 at two months or fewer, and 100 from 25 months on |
| Skills.ConvertToSkillsFormat | calculate_experience.py:147-176 | The loop with the seen-names set, the cap of twelve and the final in-place sort produces exactly `SkillsOf` of the trackers |
| Skills.AcceptedIsCappedFirstOccurrences | calculate_experience.py:150-171 | The fold with the seen-names set and the cap accepts the skills of the first line of every qualifying name, in tracker order, cut to the first twelve |
| Skills.FirstOccurrencesQualify | calculate_experience.py:155-159 | Every kept line is a tracker line with at least one month, and no two kept lines share a name |
| Skills.FirstOccurrencesOfDistinct | calculate_experience.py:155-159 | When every line has a month or more and no name repeats, every line is kept |
| Skills.FirstOccurrencesCount | calculate_experience.py:150-159 | The reference definition keeps exactly as many lines as there are names with at least one month, one per name |
| Skills.AcceptedBounds | calculate_experience.py:152-171 | The accepted list has min(12, number of qualifying names) entries and no repeated name |
| Skills.SkillsOfBounds | calculate_experience.py:155-174 | The skills view has min(12, number of qualifying names) entries, so at most twelve; no name repeats; every score is in [10, 100] |
| Skills.SkillsOfOrder | calculate_experience.py:174 | The view is in non-increasing score order and is a permutation of the accepted skills; equal scores keep their acceptance order |
| Skills.SkillsOfOrigin | calculate_experience.py:159-168 | Every skill is built from the first qualifying line with its name: same name, the clamped score of its months, and its duration phrase as label |
| Skills.SkillsOfComplete | calculate_experience.py:152-171 | When at most twelve names qualify, every qualifying name has its skill |
| RealisticData.RealisticExperience | calculate_experience.py:22-112 | The literal table of `get_realistic_experience`, with the two categories in the order they are written. Its contents are stated by the rows for ProgrammingLanguagesTable and EngineeringAreasTable |
| RealisticData.ProgrammingLanguagesTable | calculate_experience.py:23-62 | The programming-language sums come to Python 10, Verilog/SystemVerilog 19, C++ 15, C# 1 and VHDL 1 months |
| RealisticData.EngineeringAreasTable | calculate_experience.py:63-110 | The engineering-area sums come to 15, 15, 12, 11, 5 and 6 months, in table order |
| RealisticData.ProgrammingLanguagesLines | calculate_experience.py:116-145 | The languages tracker lists Verilog/SystemVerilog ("1 year 7 months"), C++, Python (four sources cut to three), C# and VHDL, in that order |
| RealisticData.EngineeringAreasLines | calculate_experience.py:116-145 | The areas tracker lists Systems Programming ahead of Research Engineering at 15 months each, then Embedded Systems ("1 year"), Electrical Engineering, Machine Learning/AI and Financial Technology |
| RealisticData.RealisticTrackers | calculate_experience.py:116-145 | Both categories of the table become trackers, in table order |
| RealisticData.RealisticSkills | calculate_experience.py:147-176 | All eleven lines become skills; the view runs Verilog/SystemVerilog 76, C++ 60, Systems Programming 60, Research Engineering 60, Embedded Systems 48, Electrical Engineering 44, Python 40, Machine Learning/AI 24, Financial Technology 20, C# 10, VHDL 10 |

## Left out

- `main` (calculate_experience.py:178-211) is left out. It reads and rewrites `portfolio.json` through `json.load` and `json.dump`, and it prints summaries. All of that is file I/O and serialisation.
- The `json`, `datetime`/`UTC` and `defaultdict` imports (calculate_experience.py:1-3) only serve `main` or are unused.
- `generate_experience_trackers` takes no argument and always reads `get_realistic_experience()`. The model passes the table as a parameter. `RealisticData.RealisticTrackers` covers the call on the real table.
- Python's sorting algorithm (Timsort) is library code. The model describes it by its result: the unique stable descending order.
- The in-place `skills.sort` (calculate_experience.py:174) is modelled as reassigning the `skills` sequence. No aliasing of the list can be observed in this code.
- Python dictionaries cannot repeat a key. The pair sequences do not require unique keys, so the model covers a slightly larger set of inputs.
- Duration.FormatDuration: defined on non-negative counts only. The source calls it only with positive month totals (calculate_experience.py:134), so a negative count never reaches it.
- Month totals are unbounded integers, like Python's. There is no overflow to model.
- Strings are sequences of characters, and every literal in the table is ASCII. Unicode handling and the JSON field names are not modelled; the fields become datatype members.
- Whether the hand-entered month figures are true is outside the model. Only the arithmetic and formatting built on them are checked.
- Skills with zero or negative months are skipped, because the code tests `months > 0` (calculate_experience.py:134). The model follows the code.
