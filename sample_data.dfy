/**
  The sample-data generator of the eCFR service. Every `Math.random()` call
  is one value of the draw stream `rnd`, consumed in the order the service
  makes its calls; each method takes the position `at` of its first draw
  and returns the position `next` after its last one.
 */
module SampleData {
  import opened JsValue
  import opened Cfr

  /** The values `Math.random()` can return. */
  ghost predicate IsDrawStream(rnd: nat -> real) {
    forall k :: 0.0 <= rnd(k) < 1.0
  }

  /** `Math.floor(r * n)`: a uniform choice among `0 .. n - 1`. */
  function DrawBelow(r: real, n: nat): (k: nat)
    requires 0.0 <= r < 1.0 && n > 0
    ensures k < n
  {
    assert r * n as real < n as real by {
      assert (1.0 - r) * n as real > 0.0;
    }
    (r * n as real).Floor
  }

  // ---------------------------------------------------------------------
  // Names and content
  // ---------------------------------------------------------------------

  /** `getPartName`: the five named parts, otherwise "<title name> - Part <n>". */
  function PartName(title: TitleInfo, partNumber: int): string {
    if partNumber == 1 then "General Provisions"
    else if partNumber == 10 then "General Provisions and Definitions"
    else if partNumber == 20 then "Implementation Standards"
    else if partNumber == 30 then "Administrative Procedures"
    else if partNumber == 40 then "Compliance and Enforcement"
    else title.name + " - Part " + IntToString(partNumber)
  }

  /** Every part number the generator produces has a name of its own, independent of the title. */
  lemma GeneratedPartNamesAreFixed(title: TitleInfo, other: TitleInfo, k: int)
    requires 1 <= k <= 4
    ensures PartName(title, 10 * k) == PartName(other, 10 * k)
  {
    if k == 1 {
      assert 10 * k == 10;
    } else if k == 2 {
      assert 10 * k == 20;
    } else if k == 3 {
      assert 10 * k == 30;
    } else {
      assert 10 * k == 40;
    }
  }

  /** The template of a title that has none of its own: a fixed lead, the title's name and a fixed tail. */
  const GenericLead: string := "Federal regulations for "
  const GenericTail: string := " establish standards, procedures, and requirements for regulated entities. Compliance requires documentation, reporting, and regular inspections."

  function GenericTemplate(name: string): string {
    GenericLead + name + GenericTail
  }

  /**
    `getContentTemplate`: the template stored for the title's name, or the
    generic one. The table of templates is data and is the parameter `templates`.
   */
  function ContentTemplate(templates: map<string, string>, name: string): (t: string)
    ensures t != []
    ensures name in templates && templates[name] != [] ==> t == templates[name]
    ensures name !in templates || templates[name] == [] ==> t == GenericTemplate(name)
  {
    if name in templates && templates[name] != [] then templates[name]
    else GenericTemplate(name)
  }

  /** The ten specific requirements a section's content draws from. */
  const Requirements: seq<string> := [
    "Detailed record-keeping requirements include maintaining all supporting documentation for a minimum of seven years.",
    "Regular reporting obligations require submission of quarterly compliance reports and annual certification statements.",
    "Inspection procedures include announced and unannounced visits by authorized federal representatives.",
    "Training requirements mandate annual certification for all personnel involved in regulated activities.",
    "Quality assurance programs must include internal audits, corrective action procedures, and management review.",
    "Public notification procedures require timely disclosure of material changes affecting regulated activities.",
    "Financial assurance requirements include bonding, insurance, or other acceptable forms of security.",
    "Environmental monitoring includes regular sampling, analysis, and reporting of specified parameters.",
    "Emergency response procedures must address potential incidents and include notification requirements.",
    "Appeal procedures allow for administrative review of adverse decisions with specified timeframes."
  ]

  /** The number of requirements; the draws choose among this many. */
  const RequirementCount: nat := 10

  /** `Math.floor(Math.random() * requirements.length)` for the draw at position `k`. */
  function RequirementIndex(rnd: nat -> real, k: nat): (i: nat)
    requires IsDrawStream(rnd)
    ensures i < RequirementCount
  {
    DrawBelow(rnd(k), RequirementCount)
  }

  /**
    The entries of `table` (the requirements) picked by `n` draws starting at
    `from`, duplicates included.
   */
  function Picks(table: seq<string>, rnd: nat -> real, from: nat, n: nat): (ps: seq<string>)
    requires |table| == RequirementCount && IsDrawStream(rnd)
    ensures |ps| == n
    ensures forall k :: 0 <= k < n ==> ps[k] == table[RequirementIndex(rnd, from + k)]
  {
    if n == 0 then [] else Picks(table, rnd, from, n - 1) + [table[RequirementIndex(rnd, from + n - 1)]]
  }

  /** Keeps the first occurrence of each element, in order. */
  function Dedup(xs: seq<string>): seq<string> {
    if xs == [] then []
    else
      var d := Dedup(xs[..|xs| - 1]);
      if xs[|xs| - 1] in d then d else d + [xs[|xs| - 1]]
  }

  predicate NoDuplicates(xs: seq<string>) {
    forall i, j :: 0 <= i < j < |xs| ==> xs[i] != xs[j]
  }

  /** Dedup keeps every element exactly once, adds nothing, and keeps the first one in front. */
  lemma {:induction false} DedupProperties(xs: seq<string>)
    ensures NoDuplicates(Dedup(xs))
    ensures forall x :: x in Dedup(xs) <==> x in xs
    ensures |Dedup(xs)| <= |xs|
    ensures xs != [] ==> |Dedup(xs)| >= 1 && Dedup(xs)[0] == xs[0]
    decreases |xs|
  {
    if xs != [] {
      var init := xs[..|xs| - 1];
      DedupProperties(init);
      assert xs == init + [xs[|xs| - 1]];
      forall x
        ensures x in Dedup(xs) <==> x in xs
      {
        assert x in xs <==> x in init || x == xs[|xs| - 1];
      }
      if init == [] {
        assert Dedup(xs) == [xs[0]];
      } else {
        assert init[0] == xs[0];
      }
    }
  }

  /** `selectedRequirements.join(" ")` */
  function Join(parts: seq<string>, sep: string): string {
    if parts == [] then []
    else if |parts| == 1 then parts[0]
    else parts[0] + sep + Join(parts[1..], sep)
  }

  // ---------------------------------------------------------------------
  // Dates
  // ---------------------------------------------------------------------

  /** 2023-01-01T00:00:00Z and 2024-12-31T00:00:00Z in milliseconds since the epoch. */
  const StartMs: int := 1672531200000
  const EndMs: int := 1735603200000

  /** `getRandomUpdateDate`: a time between the two dates; `new Date` drops the fraction of a millisecond. */
  function RandomUpdateDate(r: real): (ms: int)
    requires 0.0 <= r < 1.0
    ensures StartMs <= ms < EndMs
  {
    StartMs + DrawBelow(r, EndMs - StartMs)
  }

  // ---------------------------------------------------------------------
  // Generators
  // ---------------------------------------------------------------------

  /**
    The loop of `getSpecificContent`: 2 or 3 draws of a requirement, each
    kept unless it was already selected.
   */
  method SelectRequirements(table: seq<string>, rnd: nat -> real, at: nat) returns (selected: seq<string>, next: nat)
    requires |table| == RequirementCount && IsDrawStream(rnd)
    ensures var count := DrawBelow(rnd(at), 2) + 2;
      next == at + 1 + count && selected == Dedup(Picks(table, rnd, at + 1, count))
    ensures IsSelection(table, selected)
  {
    var count := DrawBelow(rnd(at), 2) + 2;
    selected := DrawRequirements(table, rnd, at + 1, count);
    SelectionProperties(table, rnd, at + 1, count);
    assert IsSelection(table, selected);
    next := at + 1 + count;
  }

  /** `count` draws from `from` on, each pick appended unless already selected. */
  method DrawRequirements(table: seq<string>, rnd: nat -> real, from: nat, count: nat) returns (selected: seq<string>)
    requires |table| == RequirementCount && IsDrawStream(rnd)
    ensures selected == Dedup(Picks(table, rnd, from, count))
  {
    selected := [];
    var i := 0;
    while i < count
      invariant 0 <= i <= count
      invariant selected == Dedup(Picks(table, rnd, from, i))
    {
      var randomIndex := RequirementIndex(rnd, from + i);
      DedupPicksStep(table, rnd, from, i);
      if table[randomIndex] !in selected {
        selected := selected + [table[randomIndex]];
      }
      i := i + 1;
    }
  }

  /** One more draw keeps its pick unless an earlier draw picked the same entry. */
  lemma DedupPicksStep(table: seq<string>, rnd: nat -> real, from: nat, i: nat)
    requires |table| == RequirementCount && IsDrawStream(rnd)
    ensures var d := Dedup(Picks(table, rnd, from, i));
      var x := table[RequirementIndex(rnd, from + i)];
      Dedup(Picks(table, rnd, from, i + 1)) == if x in d then d else d + [x]
  {
    var ps := Picks(table, rnd, from, i + 1);
    assert ps[..i] == Picks(table, rnd, from, i);
  }

  /** A selection of requirements: 1 to 3 distinct entries of the table. */
  predicate IsSelection(table: seq<string>, selected: seq<string>) {
    && 1 <= |selected| <= 3
    && NoDuplicates(selected)
    && forall s :: s in selected ==> s in table
  }

  /** What 1 to 3 draws select is a selection. */
  lemma SelectionProperties(table: seq<string>, rnd: nat -> real, from: nat, count: nat)
    requires |table| == RequirementCount && IsDrawStream(rnd) && 1 <= count <= 3
    ensures IsSelection(table, Dedup(Picks(table, rnd, from, count)))
  {
    var ps := Picks(table, rnd, from, count);
    DedupProperties(ps);
    forall s | s in Dedup(ps)
      ensures s in table
    {
      var k :| 0 <= k < |ps| && ps[k] == s;
    }
  }

  /**
    `getSpecificContent`: the selected requirements joined by single spaces.
    The table is the parameter `requirements`; the source's own table is
    `Requirements` (see `RequirementsHasTenEntries`).
   */
  method GetSpecificContent(requirements: seq<string>, rnd: nat -> real, at: nat) returns (content: string, next: nat)
    requires |requirements| == RequirementCount && IsDrawStream(rnd)
    ensures var count := DrawBelow(rnd(at), 2) + 2;
      next == at + 1 + count && content == Join(Dedup(Picks(requirements, rnd, at + 1, count)), " ")
    ensures IsSelection(requirements, Dedup(Picks(requirements, rnd, at + 1, DrawBelow(rnd(at), 2) + 2)))
  {
    var selected;
    selected, next := SelectRequirements(requirements, rnd, at);
    content := Join(selected, " ");
  }

  /** The source's table of requirements meets the generators' precondition. */
  lemma RequirementsHasTenEntries()
    ensures |Requirements| == RequirementCount
  {
  }

  /** The number the generator gives the i-th section (from 1) of part p: "p.i". */
  function SectionNumber(partNumber: int, i: int): string {
    IntToString(partNumber) + "." + IntToString(i)
  }

  /** Two positions of the same part get distinct section numbers. */
  lemma SectionNumbersDistinct(partNumber: int, i: int, j: int)
    requires i != j
    ensures SectionNumber(partNumber, i) != SectionNumber(partNumber, j)
  {
    var prefix := IntToString(partNumber) + ".";
    if SectionNumber(partNumber, i) == SectionNumber(partNumber, j) {
      assert SectionNumber(partNumber, i)[|prefix|..] == IntToString(i);
      assert SectionNumber(partNumber, j)[|prefix|..] == IntToString(j);
      IntToStringInjective(i, j);
    }
  }

  /** The numbering the generator gives a part's sections: "p.1" to "p.m", with m between 2 and 5. */
  predicate SectionsNumbered(partNumber: int, sections: seq<SectionData>) {
    && 2 <= |sections| <= 5
    && forall i :: 0 <= i < |sections| ==> sections[i].number == SectionNumber(partNumber, i + 1)
  }

  /**
    What the generator puts in a section: the title's template, a space and a
    selection of 1 to 3 distinct requirements joined by spaces, and a date in range.
   */
  ghost predicate SectionFilled(template: string, requirements: seq<string>, section: SectionData) {
    && section.content.Some?
    && (exists sel :: IsSelection(requirements, sel) && section.content.value == template + " " + Join(sel, " "))
    && section.lastUpdated.Some?
    && StartMs <= section.lastUpdated.value < EndMs
  }

  ghost predicate SectionsFilled(template: string, requirements: seq<string>, sections: seq<SectionData>) {
    forall i :: 0 <= i < |sections| ==> SectionFilled(template, requirements, sections[i])
  }

  /** Sections numbered by the generator have pairwise distinct numbers. */
  lemma NumberedSectionsDistinct(partNumber: int, sections: seq<SectionData>, i: nat, j: nat)
    requires SectionsNumbered(partNumber, sections)
    requires i < j < |sections|
    ensures sections[i].number != sections[j].number
  {
    SectionNumbersDistinct(partNumber, i + 1, j + 1);
  }

  /**
    One section as `generateSectionsForPart` builds it: the specific content
    takes the draws from `at` on, and the date the draw after them.
   */
  method GenerateSection(partNumber: int, i: int, template: string, requirements: seq<string>, rnd: nat -> real, at: nat)
    returns (section: SectionData, next: nat)
    requires |requirements| == RequirementCount && IsDrawStream(rnd)
    ensures var count := DrawBelow(rnd(at), 2) + 2;
      && next == at + 2 + count
      && section == SectionData(SectionNumber(partNumber, i),
                                Some(template + " " + Join(Dedup(Picks(requirements, rnd, at + 1, count)), " ")),
                                Some(RandomUpdateDate(rnd(at + 1 + count))))
    ensures SectionFilled(template, requirements, section)
  {
    var specific;
    specific, next := GetSpecificContent(requirements, rnd, at);
    var content := template + " " + specific;
    var lastUpdated := RandomUpdateDate(rnd(next));
    next := next + 1;
    section := SectionData(SectionNumber(partNumber, i), Some(content), Some(lastUpdated));
    ghost var sel := Dedup(Picks(requirements, rnd, at + 1, DrawBelow(rnd(at), 2) + 2));
    assert IsSelection(requirements, sel) && content == template + " " + Join(sel, " ");
  }

  /** Appending section "p.(n + 1)" to sections "p.1" to "p.n" keeps the numbering. */
  lemma AppendNumbered(partNumber: int, sections: seq<SectionData>, section: SectionData)
    requires forall k :: 0 <= k < |sections| ==> sections[k].number == SectionNumber(partNumber, k + 1)
    requires section.number == SectionNumber(partNumber, |sections| + 1)
    ensures var r := sections + [section];
      forall k :: 0 <= k < |r| ==> r[k].number == SectionNumber(partNumber, k + 1)
  {
    var r := sections + [section];
    forall k | 0 <= k < |r|
      ensures r[k].number == SectionNumber(partNumber, k + 1)
    {
      if k < |sections| {
        assert r[k] == sections[k];
      }
    }
  }

  /** Appending a filled section to filled sections keeps them filled. */
  lemma AppendFilled(template: string, requirements: seq<string>, sections: seq<SectionData>, section: SectionData)
    requires SectionsFilled(template, requirements, sections) && SectionFilled(template, requirements, section)
    ensures SectionsFilled(template, requirements, sections + [section])
  {
    var r := sections + [section];
    forall k | 0 <= k < |r|
      ensures SectionFilled(template, requirements, r[k])
    {
      if k < |sections| {
        assert r[k] == sections[k];
      }
    }
  }

  /** The loop of `generateSectionsForPart`: sections "p.1" to "p.count", drawn one after the other. */
  method GenerateSections(partNumber: int, sectionCount: nat, template: string, requirements: seq<string>, rnd: nat -> real, at: nat)
    returns (sections: seq<SectionData>, next: nat)
    requires |requirements| == RequirementCount && IsDrawStream(rnd)
    ensures |sections| == sectionCount
    ensures forall k :: 0 <= k < |sections| ==> sections[k].number == SectionNumber(partNumber, k + 1)
    ensures SectionsFilled(template, requirements, sections)
    ensures next >= at + 3 * sectionCount
  {
    sections := [];
    next := at;
    var i := 1;
    while i <= sectionCount
      invariant 1 <= i <= sectionCount + 1
      invariant |sections| == i - 1
      invariant forall k :: 0 <= k < |sections| ==> sections[k].number == SectionNumber(partNumber, k + 1)
      invariant SectionsFilled(template, requirements, sections)
      invariant next >= at + 3 * (i - 1)
    {
      var section;
      section, next := GenerateSection(partNumber, i, template, requirements, rnd, next);
      AppendNumbered(partNumber, sections, section);
      AppendFilled(template, requirements, sections, section);
      sections := sections + [section];
      i := i + 1;
    }
  }

  /** `generateSectionsForPart`: 2 to 5 sections, each with generated content and a random date. */
  method GenerateSectionsForPart(title: TitleInfo, partNumber: int, templates: map<string, string>, requirements: seq<string>,
                                 rnd: nat -> real, at: nat)
    returns (sections: seq<SectionData>, next: nat)
    requires |requirements| == RequirementCount && IsDrawStream(rnd)
    ensures |sections| == DrawBelow(rnd(at), 4) + 2
    ensures SectionsNumbered(partNumber, sections)
    ensures SectionsFilled(ContentTemplate(templates, title.name), requirements, sections)
    ensures next > at
  {
    var sectionCount := DrawBelow(rnd(at), 4) + 2;
    sections, next := GenerateSections(partNumber, sectionCount, ContentTemplate(templates, title.name), requirements, rnd, at + 1);
  }

  /** What the generator promises of the part at position j: its number is 10(j + 1), and its sections are numbered and filled. */
  ghost predicate PartGenerated(title: TitleInfo, template: string, requirements: seq<string>, j: int, part: PartData) {
    && part.number == 10 * (j + 1)
    && part.name == PartName(title, 10 * (j + 1))
    && SectionsNumbered(part.number, part.sections)
    && SectionsFilled(template, requirements, part.sections)
  }

  ghost predicate PartsGenerated(title: TitleInfo, template: string, requirements: seq<string>, parts: seq<PartData>) {
    forall j :: 0 <= j < |parts| ==> PartGenerated(title, template, requirements, j, parts[j])
  }

  /** The loop of `generatePartsForTitle`: parts 10, 20, ..., 10 * count. */
  method GenerateParts(title: TitleInfo, partCount: nat, templates: map<string, string>, requirements: seq<string>,
                       rnd: nat -> real, at: nat)
    returns (parts: seq<PartData>, next: nat)
    requires |requirements| == RequirementCount && IsDrawStream(rnd)
    ensures |parts| == partCount
    ensures PartsGenerated(title, ContentTemplate(templates, title.name), requirements, parts)
    ensures next >= at
  {
    var template := ContentTemplate(templates, title.name);
    parts := [];
    next := at;
    var i := 1;
    while i <= partCount
      invariant 1 <= i <= partCount + 1
      invariant |parts| == i - 1
      invariant PartsGenerated(title, template, requirements, parts)
      invariant next >= at
    {
      var partNumber := i * 10;
      var sections;
      sections, next := GenerateSectionsForPart(title, partNumber, templates, requirements, rnd, next);
      var part := PartData(partNumber, PartName(title, partNumber), sections);
      PartsGeneratedAppend(title, template, requirements, parts, part);
      parts := parts + [part];
      i := i + 1;
    }
  }

  /** Appending part 10(n + 1), generated, to n generated parts keeps them generated. */
  lemma PartsGeneratedAppend(title: TitleInfo, template: string, requirements: seq<string>, parts: seq<PartData>, part: PartData)
    requires PartsGenerated(title, template, requirements, parts)
    requires part.number == 10 * (|parts| + 1) && part.name == PartName(title, part.number)
    requires SectionsNumbered(part.number, part.sections) && SectionsFilled(template, requirements, part.sections)
    ensures PartsGenerated(title, template, requirements, parts + [part])
  {
    assert PartGenerated(title, template, requirements, |parts|, part);
  }

  /** `generatePartsForTitle`: parts 10, 20, ..., 10k with k between 2 and 4. */
  method GeneratePartsForTitle(title: TitleInfo, templates: map<string, string>, requirements: seq<string>, rnd: nat -> real, at: nat)
    returns (parts: seq<PartData>, next: nat)
    requires |requirements| == RequirementCount && IsDrawStream(rnd)
    ensures |parts| == DrawBelow(rnd(at), 3) + 2
    ensures 2 <= |parts| <= 4
    ensures PartsGenerated(title, ContentTemplate(templates, title.name), requirements, parts)
    ensures next > at
  {
    var partCount := DrawBelow(rnd(at), 3) + 2;
    parts, next := GenerateParts(title, partCount, templates, requirements, rnd, at + 1);
  }

  /** What `getSampleCFRData` promises of the title generated from table entry `info`. */
  ghost predicate TitleGenerated(info: TitleInfo, templates: map<string, string>, requirements: seq<string>, title: TitleData) {
    && title.number == info.number
    && title.name == info.name
    && title.agency == info.agency
    && title.shortName == info.shortName
    && 2 <= |title.parts| <= 4
    && PartsGenerated(info, ContentTemplate(templates, info.name), requirements, title.parts)
  }

  /** Appending the title generated from the next table entry keeps the titles generated. */
  lemma TitlesGeneratedAppend(titles: seq<TitleInfo>, templates: map<string, string>, requirements: seq<string>,
                              data: seq<TitleData>, title: TitleData)
    requires |data| < |titles|
    requires forall k :: 0 <= k < |data| ==> TitleGenerated(titles[k], templates, requirements, data[k])
    requires TitleGenerated(titles[|data|], templates, requirements, title)
    ensures var r := data + [title];
      forall k :: 0 <= k < |r| ==> TitleGenerated(titles[k], templates, requirements, r[k])
  {
    var r := data + [title];
    forall k | 0 <= k < |r|
      ensures TitleGenerated(titles[k], templates, requirements, r[k])
    {
      if k < |data| {
        assert r[k] == data[k];
      }
    }
  }

  /** `getSampleCFRData`: one generated title for each entry of the title table, in order. */
  method GetSampleCfrData(titles: seq<TitleInfo>, templates: map<string, string>, requirements: seq<string>,
                          rnd: nat -> real, at: nat)
    returns (data: seq<TitleData>, next: nat)
    requires |requirements| == RequirementCount && IsDrawStream(rnd)
    ensures |data| == |titles|
    ensures forall i :: 0 <= i < |data| ==> TitleGenerated(titles[i], templates, requirements, data[i])
    ensures next >= at
  {
    data := [];
    next := at;
    var i := 0;
    while i < |titles|
      invariant 0 <= i <= |titles|
      invariant |data| == i
      invariant forall k :: 0 <= k < i ==> TitleGenerated(titles[k], templates, requirements, data[k])
      invariant next >= at
    {
      var parts;
      parts, next := GeneratePartsForTitle(titles[i], templates, requirements, rnd, next);
      var title := TitleData(titles[i].number, titles[i].name, titles[i].agency, titles[i].shortName, parts);
      TitlesGeneratedAppend(titles, templates, requirements, data, title);
      data := data + [title];
      i := i + 1;
    }
  }
}
