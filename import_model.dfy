/**
  What the importer does to the store, as functions on a snapshot of the
  store's tables and of the importer's two counters. The store is three
  tables in insertion order: an agency's id, like a regulation's, is its
  position plus one (the store numbers rows from 1 and never deletes any).

  A store call either succeeds or throws. Which calls throw is given by
  `Env.faults`, so every error path of the importer can be followed.
 */
module ImportModel {
  import opened JsValue
  import opened Cfr
  import opened TextMetrics
  import SampleData

  // ---------------------------------------------------------------------
  // Title tables
  // ---------------------------------------------------------------------

  /** The title numbers both tables have an entry for. */
  predicate InTables(n: int) {
    n in {1, 7, 14, 17, 21, 29, 40, 49}
  }

  /** `getTitleName`: the table entry, or "Title <n>". */
  function TitleName(n: int): string {
    match n
    case 1 => "General Provisions"
    case 7 => "Agriculture"
    case 14 => "Aeronautics and Space"
    case 17 => "Commodity and Securities Exchanges"
    case 21 => "Food and Drugs"
    case 29 => "Labor"
    case 40 => "Protection of Environment"
    case 49 => "Transportation"
    case _ => "Title " + IntToString(n)
  }

  /** `getShortName`: the table entry, or "T<n>". */
  function ShortName(n: int): string {
    match n
    case 1 => "GEN"
    case 7 => "USDA"
    case 14 => "FAA"
    case 17 => "SEC"
    case 21 => "FDA"
    case 29 => "DOL"
    case 40 => "EPA"
    case 49 => "DOT"
    case _ => "T" + IntToString(n)
  }

  /** A fallback name never looks like a table entry: "Title ..." and "T..." against the fixed names. */
  lemma FallbackShapes(n: int)
    ensures InTables(n) <==> TitleName(n)[1] != 'i'
    ensures InTables(n) <==> ShortName(n)[0] != 'T'
  {
    TitleFallbackShape(n);
    ShortFallbackShape(n);
  }

  lemma TitleFallbackShape(n: int)
    ensures InTables(n) <==> TitleName(n)[1] != 'i'
    ensures !InTables(n) <==> TitleName(n) == "Title " + IntToString(n)
  {
    if !InTables(n) {
      var t := TitleName(n);
      assert t == "Title " + IntToString(n);
      assert t[1] == 'i';
    }
  }

  lemma ShortFallbackShape(n: int)
    ensures InTables(n) <==> ShortName(n)[0] != 'T'
    ensures !InTables(n) <==> ShortName(n) == "T" + IntToString(n)
  {
    if !InTables(n) {
      var t := ShortName(n);
      assert t == "T" + IntToString(n);
      assert t[0] == 'T';
    }
  }

  /** No two titles share a name: the fallback never collides with the table or with another fallback. */
  lemma TitleNameInjective(m: int, n: int)
    requires TitleName(m) == TitleName(n)
    ensures m == n
  {
    FallbackShapes(m);
    FallbackShapes(n);
    if !InTables(m) && !InTables(n) {
      assert TitleName(m)[6..] == IntToString(m) && TitleName(n)[6..] == IntToString(n);
      IntToStringInjective(m, n);
    }
  }

  /** No two titles share a short name, so the short name identifies an agency's title. */
  lemma ShortNameInjective(m: int, n: int)
    requires ShortName(m) == ShortName(n)
    ensures m == n
  {
    FallbackShapes(m);
    FallbackShapes(n);
    if !InTables(m) && !InTables(n) {
      assert ShortName(m)[1..] == IntToString(m) && ShortName(n)[1..] == IntToString(n);
      IntToStringInjective(m, n);
    }
  }

  // ---------------------------------------------------------------------
  // The store's rows
  // ---------------------------------------------------------------------

  datatype Agency = Agency(name: string, shortName: string, titleNumber: int, description: string)

  /** The four columns a regulation is looked up by. */
  datatype Locator = Locator(agencyId: nat, titleNumber: int, partNumber: int, sectionNumber: string)

  /** A regulation row; `lastUpdated` is in milliseconds since the epoch. */
  datatype Regulation = Regulation(loc: Locator, content: string, wordCount: nat, checksum: string, lastUpdated: int)

  datatype ChangeType = Created | Modified

  /** A history row: a snapshot of a regulation's content, word count and checksum. */
  datatype HistoryEntry = HistoryEntry(regulationId: nat, content: string, wordCount: nat, checksum: string, changeType: ChangeType)

  /** The two shapes of error the importer records: `{title, error}` and `{part, error}`. */
  datatype ImportError = TitleError(title: int, message: string) | PartError(part: string, message: string)

  /** The store calls the importer makes, each of which may throw. */
  datatype StoreOp =
    | AgencyUpsert(titleNumber: int)
    | RegulationQuery(loc: Locator)
    | RegulationInsert(loc: Locator)
    | HistoryInsert(loc: Locator)
    | RegulationUpdate(loc: Locator)

  /** The checksum digest and the store calls that throw, with their error messages. */
  datatype Env = Env(digest: string -> string, faults: StoreOp -> Option<string>)

  ghost predicate NoFaults(env: Env) {
    forall op :: env.faults(op) == None
  }

  datatype ImportState = ImportState(
    agencies: seq<Agency>,
    regulations: seq<Regulation>,
    history: seq<HistoryEntry>,
    importedCount: nat,
    errors: seq<ImportError>)

  /** The state after some store calls, and the message of the call that threw, if one did. */
  datatype Step = Step(st: ImportState, failure: Option<string>)

  /** `findOne` on the four locator columns: the first row at that locator. */
  function Lookup(regs: seq<Regulation>, loc: Locator): (r: Option<nat>)
    ensures r.Some? ==> r.value < |regs| && regs[r.value].loc == loc
    ensures r.Some? ==> forall k :: 0 <= k < r.value ==> regs[k].loc != loc
    ensures r.None? ==> forall k :: 0 <= k < |regs| ==> regs[k].loc != loc
  {
    if regs == [] then None
    else if regs[0].loc == loc then Some(0)
    else match Lookup(regs[1..], loc)
      case None => None
      case Some(i) => Some(i + 1)
  }

  /** Appending a row at another locator does not change where a locator is found. */
  lemma LookupAppendOther(regs: seq<Regulation>, r: Regulation, loc: Locator)
    requires r.loc != loc
    ensures Lookup(regs + [r], loc) == Lookup(regs, loc)
  {
    var a := Lookup(regs + [r], loc);
    var b := Lookup(regs, loc);
    if b.Some? {
      assert (regs + [r])[b.value] == regs[b.value];
    }
  }

  /** Appending the first row at a locator makes it the one found there. */
  lemma LookupAppendNew(regs: seq<Regulation>, r: Regulation)
    requires Lookup(regs, r.loc).None?
    ensures Lookup(regs + [r], r.loc) == Some(|regs|)
  {
    var xs := regs + [r];
    assert xs[|regs|] == r;
    forall k | 0 <= k < |regs|
      ensures xs[k].loc != r.loc
    {
      assert xs[k] == regs[k];
    }
  }

  /** Where a locator is found depends only on the locators of the rows. */
  lemma LookupSameLocators(xs: seq<Regulation>, ys: seq<Regulation>, loc: Locator)
    requires |xs| == |ys| && forall k :: 0 <= k < |xs| ==> xs[k].loc == ys[k].loc
    ensures Lookup(xs, loc) == Lookup(ys, loc)
  {
  }

  /** Overwriting a row without moving it does not change where any locator is found. */
  lemma LookupUpdate(regs: seq<Regulation>, i: nat, r: Regulation, loc: Locator)
    requires i < |regs| && r.loc == regs[i].loc
    ensures Lookup(regs[i := r], loc) == Lookup(regs, loc)
  {
    LookupSameLocators(regs[i := r], regs, loc);
  }

  /** The first agency for a title number. */
  function AgencyIndex(agencies: seq<Agency>, titleNumber: int): (r: Option<nat>)
    ensures r.Some? ==> r.value < |agencies| && agencies[r.value].titleNumber == titleNumber
    ensures r.None? ==> forall k :: 0 <= k < |agencies| ==> agencies[k].titleNumber != titleNumber
  {
    if agencies == [] then None
    else if agencies[0].titleNumber == titleNumber then Some(0)
    else match AgencyIndex(agencies[1..], titleNumber)
      case None => None
      case Some(i) => Some(i + 1)
  }

  datatype AgencyRef = AgencyRef(agencies: seq<Agency>, id: nat)

  /** The defaults `processTitle` gives a new agency. */
  function NewAgency(title: TitleData): Agency {
    Agency(title.name, ShortName(title.number), title.number, "Federal regulations for " + title.name)
  }

  /** `Agency.findOrCreate` on the title number, with the agency's id. */
  function FindOrCreateAgency(agencies: seq<Agency>, title: TitleData): (r: AgencyRef)
    ensures 1 <= r.id <= |r.agencies|
    ensures r.agencies[r.id - 1].titleNumber == title.number
    ensures |agencies| <= |r.agencies| <= |agencies| + 1 && r.agencies[..|agencies|] == agencies
    ensures |r.agencies| == |agencies| + 1 <==> AgencyIndex(agencies, title.number).None?
    ensures AgencyIndex(agencies, title.number).Some? ==>
      r.agencies == agencies && r.id == AgencyIndex(agencies, title.number).value + 1
    ensures AgencyIndex(agencies, title.number).None? ==>
      var created := r.agencies[|agencies|];
      && created.name == title.name
      && created.shortName == ShortName(title.number)
      && created.description == "Federal regulations for " + title.name
  {
    match AgencyIndex(agencies, title.number)
    case Some(i) => AgencyRef(agencies, i + 1)
    case None => AgencyRef(agencies + [NewAgency(title)], |agencies| + 1)
  }


  // ---------------------------------------------------------------------
  // processPart, one section at a time
  // ---------------------------------------------------------------------

  /** What `processPart` derives from a section before it touches the store. */
  datatype Snapshot = Snapshot(content: string, wordCount: nat, checksum: string)

  function TakeSnapshot(digest: string -> string, raw: Option<string>): Snapshot {
    var content := ExtractText(raw);
    Snapshot(content, CountWords(content), GenerateChecksum(digest, Some(content)))
  }

  /** A snapshot's word count and checksum are those of its content. */
  predicate SnapshotValid(digest: string -> string, content: string, wordCount: nat, checksum: string) {
    wordCount == CountWords(content) && checksum == digest(content)
  }

  /** The three values `processPart` stores all come from one normalised text. */
  lemma SnapshotOfExtractedText(digest: string -> string, raw: Option<string>)
    ensures var s := TakeSnapshot(digest, raw);
      && s.content == ExtractText(raw) && IsNormalized(s.content)
      && SnapshotValid(digest, s.content, s.wordCount, s.checksum)
      && (!Truthy(raw) ==> s == Snapshot([], 0, digest([])))
  {
  }

  function SectionLocator(agencyId: nat, titleNumber: int, partNumber: int, section: SectionData): Locator {
    Locator(agencyId, titleNumber, partNumber, section.number)
  }

  function Counted(st: ImportState): ImportState {
    st.(importedCount := st.importedCount + 1)
  }

  /** The `else` branch: insert the regulation, then its `created` history entry. */
  function CreateAt(env: Env, st: ImportState, loc: Locator, snap: Snapshot, lastUpdated: int): Step {
    if env.faults(RegulationInsert(loc)).Some? then Step(st, env.faults(RegulationInsert(loc)))
    else
      var inserted := st.(regulations := st.regulations + [Regulation(loc, snap.content, snap.wordCount, snap.checksum, lastUpdated)]);
      if env.faults(HistoryInsert(loc)).Some? then Step(inserted, env.faults(HistoryInsert(loc)))
      else Step(Counted(inserted.(history := st.history + [HistoryEntry(|st.regulations| + 1, snap.content, snap.wordCount, snap.checksum, Created)])), None)
  }

  /** The changed-checksum branch: record the old snapshot as `modified`, then overwrite row i. */
  function ReviseAt(env: Env, st: ImportState, i: nat, snap: Snapshot, lastUpdated: int): Step
    requires i < |st.regulations|
  {
    var current := st.regulations[i];
    if env.faults(HistoryInsert(current.loc)).Some? then Step(st, env.faults(HistoryInsert(current.loc)))
    else
      var recorded := st.(history := st.history + [HistoryEntry(i + 1, current.content, current.wordCount, current.checksum, Modified)]);
      if env.faults(RegulationUpdate(current.loc)).Some? then Step(recorded, env.faults(RegulationUpdate(current.loc)))
      else Step(Counted(recorded.(regulations := st.regulations[i := current.(content := snap.content, wordCount := snap.wordCount,
                                                                             checksum := snap.checksum, lastUpdated := lastUpdated)])), None)
  }

  /** One pass of the section loop at a locator: look it up, then create, leave alone, or revise. */
  function ReconcileAt(env: Env, st: ImportState, loc: Locator, snap: Snapshot, lastUpdated: int): Step {
    if env.faults(RegulationQuery(loc)).Some? then Step(st, env.faults(RegulationQuery(loc)))
    else match Lookup(st.regulations, loc)
      case None => CreateAt(env, st, loc, snap, lastUpdated)
      case Some(i) =>
        if st.regulations[i].checksum == snap.checksum then Step(Counted(st), None)
        else ReviseAt(env, st, i, snap, lastUpdated)
  }

  /** One iteration of the section loop of `processPart`; the date is `section.lastUpdated || new Date()`. */
  function ReconcileSection(env: Env, st: ImportState, agencyId: nat, titleNumber: int, partNumber: int,
                            section: SectionData, now: int): Step
  {
    ReconcileAt(env, st, SectionLocator(agencyId, titleNumber, partNumber, section),
                TakeSnapshot(env.digest, section.content), section.lastUpdated.GetOr(now))
  }

  /** The section loop of `processPart`, stopped by the first store call that throws. */
  function ReconcileSections(env: Env, st: ImportState, agencyId: nat, titleNumber: int, partNumber: int,
                             sections: seq<SectionData>, now: int): Step
  {
    if sections == [] then Step(st, None)
    else
      var before := ReconcileSections(env, st, agencyId, titleNumber, partNumber, sections[..|sections| - 1], now);
      if before.failure.Some? then before
      else ReconcileSection(env, before.st, agencyId, titleNumber, partNumber, sections[|sections| - 1], now)
  }

  /** One more section extends the loop by one pass, unless an earlier pass threw. */
  lemma ReconcileSectionsSnoc(env: Env, st: ImportState, agencyId: nat, titleNumber: int, partNumber: int,
                              sections: seq<SectionData>, i: nat, now: int)
    requires i < |sections|
    ensures var before := ReconcileSections(env, st, agencyId, titleNumber, partNumber, sections[..i], now);
      ReconcileSections(env, st, agencyId, titleNumber, partNumber, sections[..i + 1], now)
        == if before.failure.Some? then before
           else ReconcileSection(env, before.st, agencyId, titleNumber, partNumber, sections[i], now)
  {
    assert sections[..i + 1][..i] == sections[..i];
  }

  /** The error a failed part is recorded under: "<title>.<part>". */
  function PartLabel(titleNumber: int, partNumber: int): string {
    IntToString(titleNumber) + "." + IntToString(partNumber)
  }

  /** `processPart`: the section loop inside a try whose catch records one error for the part. */
  function ProcessPartSpec(env: Env, st: ImportState, agencyId: nat, titleNumber: int, part: PartData, now: int): ImportState {
    var s := ReconcileSections(env, st, agencyId, titleNumber, part.number, part.sections, now);
    if s.failure.Some? then s.st.(errors := s.st.errors + [PartError(PartLabel(titleNumber, part.number), s.failure.value)])
    else s.st
  }

  function ProcessPartsSpec(env: Env, st: ImportState, agencyId: nat, titleNumber: int, parts: seq<PartData>, now: int): ImportState {
    if parts == [] then st
    else ProcessPartSpec(env, ProcessPartsSpec(env, st, agencyId, titleNumber, parts[..|parts| - 1], now),
                         agencyId, titleNumber, parts[|parts| - 1], now)
  }

  /** One more part extends the part loop by one `processPart`. */
  lemma ProcessPartsSnoc(env: Env, st: ImportState, agencyId: nat, titleNumber: int, parts: seq<PartData>, k: nat, now: int)
    requires k < |parts|
    ensures ProcessPartsSpec(env, st, agencyId, titleNumber, parts[..k + 1], now)
         == ProcessPartSpec(env, ProcessPartsSpec(env, st, agencyId, titleNumber, parts[..k], now), agencyId, titleNumber, parts[k], now)
  {
    assert parts[..k + 1][..k] == parts[..k];
  }

  /** `parts.slice(0, 3)` */
  function FirstParts(parts: seq<PartData>): (r: seq<PartData>)
    ensures |r| == if |parts| < 3 then |parts| else 3
    ensures r == parts[..|r|]
  {
    if |parts| <= 3 then parts else parts[..3]
  }

  /** `processTitle`: find or create the agency, then process the first three parts; a throw records one title error. */
  function ProcessTitleSpec(env: Env, st: ImportState, title: TitleData, now: int): ImportState {
    if env.faults(AgencyUpsert(title.number)).Some? then
      st.(errors := st.errors + [TitleError(title.number, env.faults(AgencyUpsert(title.number)).value)])
    else
      var ref := FindOrCreateAgency(st.agencies, title);
      ProcessPartsSpec(env, st.(agencies := ref.agencies), ref.id, title.number, FirstParts(title.parts), now)
  }

  /** The title loop of `importData`. */
  function ImportTitlesSpec(env: Env, st: ImportState, titles: seq<TitleData>, now: int): ImportState {
    if titles == [] then st
    else ProcessTitleSpec(env, ImportTitlesSpec(env, st, titles[..|titles| - 1], now), titles[|titles| - 1], now)
  }

  // ---------------------------------------------------------------------
  // The three outcomes of a section
  // ---------------------------------------------------------------------

  /** A new locator gets one new regulation and one `created` history entry, both holding the same snapshot. */
  lemma UnknownLocatorCreates(env: Env, st: ImportState, loc: Locator, snap: Snapshot, lastUpdated: int)
    requires NoFaults(env) && Lookup(st.regulations, loc).None?
    ensures var s := ReconcileAt(env, st, loc, snap, lastUpdated);
      var n := |st.regulations|;
      && s.failure == None
      && s.st.regulations == st.regulations + [Regulation(loc, snap.content, snap.wordCount, snap.checksum, lastUpdated)]
      && s.st.history == st.history + [HistoryEntry(n + 1, snap.content, snap.wordCount, snap.checksum, Created)]
      && Lookup(s.st.regulations, loc) == Some(n)
      && s.st.importedCount == st.importedCount + 1
      && s.st.agencies == st.agencies && s.st.errors == st.errors
  {
    assert env.faults(RegulationQuery(loc)) == None;
    assert env.faults(RegulationInsert(loc)) == None && env.faults(HistoryInsert(loc)) == None;
    LookupAppendNew(st.regulations, Regulation(loc, snap.content, snap.wordCount, snap.checksum, lastUpdated));
  }

  /** An unchanged checksum writes nothing: no history entry, no field of the regulation, not even its date. */
  lemma SameChecksumWritesNothing(env: Env, st: ImportState, loc: Locator, snap: Snapshot, lastUpdated: int)
    requires env.faults(RegulationQuery(loc)).None?
    requires Lookup(st.regulations, loc).Some? && st.regulations[Lookup(st.regulations, loc).value].checksum == snap.checksum
    ensures ReconcileAt(env, st, loc, snap, lastUpdated) == Step(st.(importedCount := st.importedCount + 1), None)
  {
  }

  /** A changed checksum appends one `modified` entry holding the old snapshot, then overwrites the same row with the new one. */
  lemma ChangedChecksumSnapshotsOld(env: Env, st: ImportState, loc: Locator, snap: Snapshot, lastUpdated: int)
    requires NoFaults(env)
    requires Lookup(st.regulations, loc).Some? && st.regulations[Lookup(st.regulations, loc).value].checksum != snap.checksum
    ensures var i := Lookup(st.regulations, loc).value;
      var previous := st.regulations[i];
      var s := ReconcileAt(env, st, loc, snap, lastUpdated);
      && s.failure == None
      && s.st.history == st.history + [HistoryEntry(i + 1, previous.content, previous.wordCount, previous.checksum, Modified)]
      && s.st.regulations == st.regulations[i := Regulation(loc, snap.content, snap.wordCount, snap.checksum, lastUpdated)]
      && s.st.importedCount == st.importedCount + 1
  {
    var i := Lookup(st.regulations, loc).value;
    assert env.faults(RegulationQuery(loc)) == None;
    assert env.faults(HistoryInsert(loc)) == None && env.faults(RegulationUpdate(loc)) == None;
  }

  /**
    The history entry and the update are two store calls: when the update
    throws, the `modified` entry is already written and the regulation still
    holds its old content.
   */
  lemma FailedUpdateLeavesSnapshot(env: Env, st: ImportState, loc: Locator, snap: Snapshot, lastUpdated: int)
    requires env.faults(RegulationQuery(loc)).None? && env.faults(HistoryInsert(loc)).None? && env.faults(RegulationUpdate(loc)).Some?
    requires Lookup(st.regulations, loc).Some? && st.regulations[Lookup(st.regulations, loc).value].checksum != snap.checksum
    ensures var s := ReconcileAt(env, st, loc, snap, lastUpdated);
      && s.failure.Some?
      && s.st.regulations == st.regulations
      && |s.st.history| == |st.history| + 1 && s.st.history[|st.history|].changeType == Modified
      && s.st.importedCount == st.importedCount
  {
  }

  /** A section is counted exactly when all its store calls succeed; nothing but the store and the count changes. */
  lemma StepBookkeeping(env: Env, st: ImportState, loc: Locator, snap: Snapshot, lastUpdated: int)
    ensures var s := ReconcileAt(env, st, loc, snap, lastUpdated);
      && s.st.importedCount == (if s.failure.None? then st.importedCount + 1 else st.importedCount)
      && s.st.errors == st.errors && s.st.agencies == st.agencies
      && |st.regulations| <= |s.st.regulations| <= |st.regulations| + 1
      && (forall i :: 0 <= i < |st.regulations| ==> s.st.regulations[i].loc == st.regulations[i].loc)
      && |st.history| <= |s.st.history| <= |st.history| + 1 && s.st.history[..|st.history|] == st.history
  {
    var s := ReconcileAt(env, st, loc, snap, lastUpdated);
    assert s.st.history[..|st.history|] == st.history;
  }

  // ---------------------------------------------------------------------
  // Counting and failure in the section loop
  // ---------------------------------------------------------------------

  /** Once a section fails, the loop processes no further section. */
  lemma {:induction false} FailureIsFinal(env: Env, st: ImportState, agencyId: nat, titleNumber: int, partNumber: int,
                                         sections: seq<SectionData>, n: nat, now: int)
    requires n <= |sections|
    requires ReconcileSections(env, st, agencyId, titleNumber, partNumber, sections[..n], now).failure.Some?
    ensures ReconcileSections(env, st, agencyId, titleNumber, partNumber, sections, now)
         == ReconcileSections(env, st, agencyId, titleNumber, partNumber, sections[..n], now)
    decreases |sections| - n
  {
    if n < |sections| {
      assert sections[..n + 1][..n] == sections[..n];
      FailureIsFinal(env, st, agencyId, titleNumber, partNumber, sections, n + 1, now);
    } else {
      assert sections[..n] == sections;
    }
  }

  /** Each section completed adds exactly one to `importedCount`; the failing section and those after it add nothing. */
  lemma {:induction false} CountsCompletedSections(env: Env, st: ImportState, agencyId: nat, titleNumber: int, partNumber: int,
                                                  sections: seq<SectionData>, now: int)
    ensures var s := ReconcileSections(env, st, agencyId, titleNumber, partNumber, sections, now);
      && (s.failure.None? ==> s.st.importedCount == st.importedCount + |sections|)
      && (s.failure.Some? ==> st.importedCount <= s.st.importedCount < st.importedCount + |sections|)
      && s.st.errors == st.errors && s.st.agencies == st.agencies
  {
    if sections != [] {
      var before := ReconcileSections(env, st, agencyId, titleNumber, partNumber, sections[..|sections| - 1], now);
      CountsCompletedSections(env, st, agencyId, titleNumber, partNumber, sections[..|sections| - 1], now);
      if before.failure.None? {
        var last := sections[|sections| - 1];
        StepBookkeeping(env, before.st, SectionLocator(agencyId, titleNumber, partNumber, last),
                        TakeSnapshot(env.digest, last.content), last.lastUpdated.GetOr(now));
      }
    }
  }

  /** A part records at most one error, named "<title>.<part>", exactly when one of its sections failed. */
  lemma PartRecordsOneError(env: Env, st: ImportState, agencyId: nat, titleNumber: int, part: PartData, now: int)
    ensures var after := ProcessPartSpec(env, st, agencyId, titleNumber, part, now);
      var s := ReconcileSections(env, st, agencyId, titleNumber, part.number, part.sections, now);
      && (s.failure.None? ==> after.errors == st.errors)
      && (s.failure.Some? ==> after.errors == st.errors + [PartError(PartLabel(titleNumber, part.number), s.failure.value)])
  {
    CountsCompletedSections(env, st, agencyId, titleNumber, part.number, part.sections, now);
  }

  /** Recorded errors never steer the section loop: its course does not depend on the error list. */
  lemma {:induction false} ErrorsDoNotSteer(env: Env, st: ImportState, e: seq<ImportError>, agencyId: nat, titleNumber: int,
                                           partNumber: int, sections: seq<SectionData>, now: int)
    ensures var s := ReconcileSections(env, st, agencyId, titleNumber, partNumber, sections, now);
      ReconcileSections(env, st.(errors := e), agencyId, titleNumber, partNumber, sections, now) == Step(s.st.(errors := e), s.failure)
  {
    if sections != [] {
      var before := ReconcileSections(env, st, agencyId, titleNumber, partNumber, sections[..|sections| - 1], now);
      ErrorsDoNotSteer(env, st, e, agencyId, titleNumber, partNumber, sections[..|sections| - 1], now);
      if before.failure.None? {
        var last := sections[|sections| - 1];
        StepBookkeeping(env, before.st, SectionLocator(agencyId, titleNumber, partNumber, last),
                        TakeSnapshot(env.digest, last.content), last.lastUpdated.GetOr(now));
        ErrorsDoNotSteerStep(env, before.st, e, SectionLocator(agencyId, titleNumber, partNumber, last),
                             TakeSnapshot(env.digest, last.content), last.lastUpdated.GetOr(now));
      }
    }
  }

  lemma ErrorsDoNotSteerStep(env: Env, st: ImportState, e: seq<ImportError>, loc: Locator, snap: Snapshot, lastUpdated: int)
    ensures var s := ReconcileAt(env, st, loc, snap, lastUpdated);
      ReconcileAt(env, st.(errors := e), loc, snap, lastUpdated) == Step(s.st.(errors := e), s.failure)
  {
  }

  /** Whether an earlier part failed makes no difference to the store after later parts, only to the error list. */
  lemma {:induction false} FailedPartsDoNotStopLaterParts(env: Env, st: ImportState, e: seq<ImportError>, agencyId: nat,
                                                          titleNumber: int, parts: seq<PartData>, now: int)
    ensures ProcessPartsSpec(env, st.(errors := e), agencyId, titleNumber, parts, now).(errors := [])
         == ProcessPartsSpec(env, st, agencyId, titleNumber, parts, now).(errors := [])
  {
    if parts != [] {
      var init := parts[..|parts| - 1];
      var last := parts[|parts| - 1];
      var a := ProcessPartsSpec(env, st.(errors := e), agencyId, titleNumber, init, now);
      var b := ProcessPartsSpec(env, st, agencyId, titleNumber, init, now);
      FailedPartsDoNotStopLaterParts(env, st, e, agencyId, titleNumber, init, now);
      assert a == b.(errors := a.errors);
      ErrorsDoNotSteer(env, b, a.errors, agencyId, titleNumber, last.number, last.sections, now);
    }
  }

  /** Parts after the third have no effect on a title. */
  lemma OnlyFirstThreeParts(env: Env, st: ImportState, title: TitleData, extra: seq<PartData>, now: int)
    requires |title.parts| >= 3
    ensures ProcessTitleSpec(env, st, title.(parts := title.parts + extra), now) == ProcessTitleSpec(env, st, title, now)
  {
    assert FirstParts(title.parts + extra) == FirstParts(title.parts);
  }

  // ---------------------------------------------------------------------
  // The store's invariant
  // ---------------------------------------------------------------------

  /**
    What every import leaves true of the store: each regulation holds
    normalised text with its own word count and checksum, no two regulations
    share a locator, each belongs to an existing agency, no two agencies
    share a title, and each history entry is a consistent snapshot of an
    existing regulation.
   */
  predicate Consistent(digest: string -> string, st: ImportState) {
    && (forall i :: 0 <= i < |st.regulations| ==> RegulationValid(digest, st.regulations[i], |st.agencies|))
    && LocatorsDistinct(st.regulations)
    && TitlesDistinct(st.agencies)
    && (forall k :: 0 <= k < |st.history| ==> HistoryValid(digest, st.history[k], |st.regulations|))
  }

  /** A regulation holds normalised text with its own word count and checksum, and belongs to an existing agency. */
  predicate RegulationValid(digest: string -> string, r: Regulation, agencyCount: nat) {
    && IsNormalized(r.content)
    && SnapshotValid(digest, r.content, r.wordCount, r.checksum)
    && 1 <= r.loc.agencyId <= agencyCount
  }

  predicate LocatorsDistinct(regs: seq<Regulation>) {
    forall i, j :: 0 <= i < j < |regs| ==> regs[i].loc != regs[j].loc
  }

  predicate TitlesDistinct(agencies: seq<Agency>) {
    forall i, j :: 0 <= i < j < |agencies| ==> agencies[i].titleNumber != agencies[j].titleNumber
  }

  /** A history entry is a consistent snapshot of an existing regulation. */
  predicate HistoryValid(digest: string -> string, h: HistoryEntry, regulationCount: nat) {
    && 1 <= h.regulationId <= regulationCount
    && SnapshotValid(digest, h.content, h.wordCount, h.checksum)
  }

  lemma EmptyIsConsistent(digest: string -> string)
    ensures Consistent(digest, ImportState([], [], [], 0, []))
  {
  }

  lemma CreateKeepsConsistent(env: Env, st: ImportState, loc: Locator, snap: Snapshot, lastUpdated: int)
    requires Consistent(env.digest, st) && 1 <= loc.agencyId <= |st.agencies| && Lookup(st.regulations, loc).None?
    requires IsNormalized(snap.content) && SnapshotValid(env.digest, snap.content, snap.wordCount, snap.checksum)
    ensures Consistent(env.digest, CreateAt(env, st, loc, snap, lastUpdated).st)
  {
    if env.faults(RegulationInsert(loc)).None? {
      var r := Regulation(loc, snap.content, snap.wordCount, snap.checksum, lastUpdated);
      assert RegulationValid(env.digest, r, |st.agencies|);
      var regs := st.regulations + [r];
      forall i, j | 0 <= i < j < |regs|
        ensures regs[i].loc != regs[j].loc
      {
        assert regs[i] == st.regulations[i];
        if j < |st.regulations| {
          assert regs[j] == st.regulations[j];
        }
      }
      HistoryStaysValid(env.digest, st.history, |st.regulations|, |regs|);
      var inserted := st.(regulations := regs);
      assert Consistent(env.digest, inserted);
      if env.faults(HistoryInsert(loc)).None? {
        var h := HistoryEntry(|st.regulations| + 1, snap.content, snap.wordCount, snap.checksum, Created);
        HistoryAppendValid(env.digest, st.history, h, |regs|);
      }
    }
  }

  lemma HistoryStaysValid(digest: string -> string, history: seq<HistoryEntry>, before: nat, after: nat)
    requires before <= after
    requires forall k :: 0 <= k < |history| ==> HistoryValid(digest, history[k], before)
    ensures forall k :: 0 <= k < |history| ==> HistoryValid(digest, history[k], after)
  {
  }

  lemma HistoryAppendValid(digest: string -> string, history: seq<HistoryEntry>, h: HistoryEntry, count: nat)
    requires forall k :: 0 <= k < |history| ==> HistoryValid(digest, history[k], count)
    requires HistoryValid(digest, h, count)
    ensures forall k :: 0 <= k < |history + [h]| ==> HistoryValid(digest, (history + [h])[k], count)
  {
  }

  lemma ReviseKeepsConsistent(env: Env, st: ImportState, i: nat, snap: Snapshot, lastUpdated: int)
    requires Consistent(env.digest, st) && i < |st.regulations|
    requires IsNormalized(snap.content) && SnapshotValid(env.digest, snap.content, snap.wordCount, snap.checksum)
    ensures Consistent(env.digest, ReviseAt(env, st, i, snap, lastUpdated).st)
  {
    var current := st.regulations[i];
    if env.faults(HistoryInsert(current.loc)).None? {
      assert RegulationValid(env.digest, current, |st.agencies|);
      var h := HistoryEntry(i + 1, current.content, current.wordCount, current.checksum, Modified);
      HistoryAppendValid(env.digest, st.history, h, |st.regulations|);
      var recorded := st.(history := st.history + [h]);
      assert Consistent(env.digest, recorded);
      if env.faults(RegulationUpdate(current.loc)).None? {
        var revised := current.(content := snap.content, wordCount := snap.wordCount, checksum := snap.checksum, lastUpdated := lastUpdated);
        assert RegulationValid(env.digest, revised, |st.agencies|);
        var regs := st.regulations[i := revised];
        assert forall k :: 0 <= k < |regs| ==> regs[k].loc == st.regulations[k].loc;
        assert LocatorsDistinct(regs);
        assert Consistent(env.digest, recorded.(regulations := regs));
      }
    }
  }

  lemma SectionKeepsConsistent(env: Env, st: ImportState, agencyId: nat, titleNumber: int, partNumber: int, section: SectionData, now: int)
    requires Consistent(env.digest, st) && 1 <= agencyId <= |st.agencies|
    ensures Consistent(env.digest, ReconcileSection(env, st, agencyId, titleNumber, partNumber, section, now).st)
  {
    var loc := SectionLocator(agencyId, titleNumber, partNumber, section);
    var snap := TakeSnapshot(env.digest, section.content);
    SnapshotOfExtractedText(env.digest, section.content);
    if env.faults(RegulationQuery(loc)).None? {
      match Lookup(st.regulations, loc)
      case None => CreateKeepsConsistent(env, st, loc, snap, section.lastUpdated.GetOr(now));
      case Some(i) =>
        if st.regulations[i].checksum != snap.checksum {
          ReviseKeepsConsistent(env, st, i, snap, section.lastUpdated.GetOr(now));
        }
    }
  }

  lemma {:induction false} SectionsKeepConsistent(env: Env, st: ImportState, agencyId: nat, titleNumber: int, partNumber: int,
                                                 sections: seq<SectionData>, now: int)
    requires Consistent(env.digest, st) && 1 <= agencyId <= |st.agencies|
    ensures var s := ReconcileSections(env, st, agencyId, titleNumber, partNumber, sections, now);
      Consistent(env.digest, s.st) && s.st.agencies == st.agencies
  {
    if sections != [] {
      var before := ReconcileSections(env, st, agencyId, titleNumber, partNumber, sections[..|sections| - 1], now);
      SectionsKeepConsistent(env, st, agencyId, titleNumber, partNumber, sections[..|sections| - 1], now);
      if before.failure.None? {
        var last := sections[|sections| - 1];
        SectionKeepsConsistent(env, before.st, agencyId, titleNumber, partNumber, last, now);
        StepBookkeeping(env, before.st, SectionLocator(agencyId, titleNumber, partNumber, last),
                        TakeSnapshot(env.digest, last.content), last.lastUpdated.GetOr(now));
      }
    }
  }

  lemma {:induction false} PartsKeepConsistent(env: Env, st: ImportState, agencyId: nat, titleNumber: int, parts: seq<PartData>, now: int)
    requires Consistent(env.digest, st) && 1 <= agencyId <= |st.agencies|
    ensures var after := ProcessPartsSpec(env, st, agencyId, titleNumber, parts, now);
      Consistent(env.digest, after) && after.agencies == st.agencies
  {
    if parts != [] {
      var before := ProcessPartsSpec(env, st, agencyId, titleNumber, parts[..|parts| - 1], now);
      PartsKeepConsistent(env, st, agencyId, titleNumber, parts[..|parts| - 1], now);
      SectionsKeepConsistent(env, before, agencyId, titleNumber, parts[|parts| - 1].number, parts[|parts| - 1].sections, now);
    }
  }

  lemma TitleKeepsConsistent(env: Env, st: ImportState, title: TitleData, now: int)
    requires Consistent(env.digest, st)
    ensures Consistent(env.digest, ProcessTitleSpec(env, st, title, now))
  {
    if env.faults(AgencyUpsert(title.number)).None? {
      var ref := FindOrCreateAgency(st.agencies, title);
      var st1 := st.(agencies := ref.agencies);
      forall i, j | 0 <= i < j < |ref.agencies|
        ensures ref.agencies[i].titleNumber != ref.agencies[j].titleNumber
      {
        assert ref.agencies[i] == st.agencies[i];
        if j < |st.agencies| {
          assert ref.agencies[j] == st.agencies[j];
        }
      }
      assert Consistent(env.digest, st1);
      PartsKeepConsistent(env, st1, ref.id, title.number, FirstParts(title.parts), now);
    }
  }

  /** Importing any titles into a consistent store leaves it consistent. */
  lemma {:induction false} ImportKeepsConsistent(env: Env, st: ImportState, titles: seq<TitleData>, now: int)
    requires Consistent(env.digest, st)
    ensures Consistent(env.digest, ImportTitlesSpec(env, st, titles, now))
  {
    if titles != [] {
      ImportKeepsConsistent(env, st, titles[..|titles| - 1], now);
      TitleKeepsConsistent(env, ImportTitlesSpec(env, st, titles[..|titles| - 1], now), titles[|titles| - 1], now);
    }
  }

  // ---------------------------------------------------------------------
  // Nothing is ever lost
  // ---------------------------------------------------------------------

  /**
    `after` only adds to `before`: no agency or regulation disappears or
    moves to another locator, the history and the error list are only
    appended to, and the count never goes down.
   */
  predicate Extends(before: ImportState, after: ImportState) {
    && |before.agencies| <= |after.agencies| && after.agencies[..|before.agencies|] == before.agencies
    && |before.regulations| <= |after.regulations|
    && (forall i :: 0 <= i < |before.regulations| ==> after.regulations[i].loc == before.regulations[i].loc)
    && |before.history| <= |after.history| && after.history[..|before.history|] == before.history
    && |before.errors| <= |after.errors| && after.errors[..|before.errors|] == before.errors
    && before.importedCount <= after.importedCount
  }

  lemma ExtendsReflexive(a: ImportState)
    ensures Extends(a, a)
  {
    assert a.agencies[..|a.agencies|] == a.agencies;
    assert a.history[..|a.history|] == a.history;
    assert a.errors[..|a.errors|] == a.errors;
  }

  lemma ExtendsTransitive(a: ImportState, b: ImportState, c: ImportState)
    requires Extends(a, b) && Extends(b, c)
    ensures Extends(a, c)
  {
    assert c.agencies[..|a.agencies|] == c.agencies[..|b.agencies|][..|a.agencies|];
    assert c.history[..|a.history|] == c.history[..|b.history|][..|a.history|];
    assert c.errors[..|a.errors|] == c.errors[..|b.errors|][..|a.errors|];
  }

  lemma {:induction false} SectionsExtend(env: Env, st: ImportState, agencyId: nat, titleNumber: int, partNumber: int,
                                         sections: seq<SectionData>, now: int)
    ensures Extends(st, ReconcileSections(env, st, agencyId, titleNumber, partNumber, sections, now).st)
  {
    if sections == [] {
      ExtendsReflexive(st);
    } else {
      var before := ReconcileSections(env, st, agencyId, titleNumber, partNumber, sections[..|sections| - 1], now);
      SectionsExtend(env, st, agencyId, titleNumber, partNumber, sections[..|sections| - 1], now);
      if before.failure.None? {
        var last := sections[|sections| - 1];
        StepBookkeeping(env, before.st, SectionLocator(agencyId, titleNumber, partNumber, last),
                        TakeSnapshot(env.digest, last.content), last.lastUpdated.GetOr(now));
        var after := ReconcileSections(env, st, agencyId, titleNumber, partNumber, sections, now).st;
        assert after.agencies[..|before.st.agencies|] == before.st.agencies;
        assert after.errors[..|before.st.errors|] == before.st.errors;
        ExtendsTransitive(st, before.st, after);
      }
    }
  }

  lemma PartExtends(env: Env, st: ImportState, agencyId: nat, titleNumber: int, part: PartData, now: int)
    ensures Extends(st, ProcessPartSpec(env, st, agencyId, titleNumber, part, now))
  {
    var s := ReconcileSections(env, st, agencyId, titleNumber, part.number, part.sections, now);
    SectionsExtend(env, st, agencyId, titleNumber, part.number, part.sections, now);
    if s.failure.Some? {
      var after := ProcessPartSpec(env, st, agencyId, titleNumber, part, now);
      ExtendsReflexive(s.st);
      assert after.errors[..|s.st.errors|] == s.st.errors;
      ExtendsTransitive(st, s.st, after);
    }
  }

  lemma {:induction false} PartsExtend(env: Env, st: ImportState, agencyId: nat, titleNumber: int, parts: seq<PartData>, now: int)
    ensures Extends(st, ProcessPartsSpec(env, st, agencyId, titleNumber, parts, now))
  {
    if parts == [] {
      ExtendsReflexive(st);
    } else {
      var before := ProcessPartsSpec(env, st, agencyId, titleNumber, parts[..|parts| - 1], now);
      PartsExtend(env, st, agencyId, titleNumber, parts[..|parts| - 1], now);
      PartExtends(env, before, agencyId, titleNumber, parts[|parts| - 1], now);
      ExtendsTransitive(st, before, ProcessPartsSpec(env, st, agencyId, titleNumber, parts, now));
    }
  }

  lemma TitleExtends(env: Env, st: ImportState, title: TitleData, now: int)
    ensures Extends(st, ProcessTitleSpec(env, st, title, now))
  {
    var after := ProcessTitleSpec(env, st, title, now);
    ExtendsReflexive(st);
    if env.faults(AgencyUpsert(title.number)).Some? {
      assert after.errors[..|st.errors|] == st.errors;
    } else {
      var ref := FindOrCreateAgency(st.agencies, title);
      var st1 := st.(agencies := ref.agencies);
      assert Extends(st, st1);
      PartsExtend(env, st1, ref.id, title.number, FirstParts(title.parts), now);
      ExtendsTransitive(st, st1, after);
    }
  }

  /** An import never deletes: every agency, regulation locator, history entry and error survives it. */
  lemma {:induction false} ImportExtends(env: Env, st: ImportState, titles: seq<TitleData>, now: int)
    ensures Extends(st, ImportTitlesSpec(env, st, titles, now))
  {
    if titles == [] {
      ExtendsReflexive(st);
    } else {
      var before := ImportTitlesSpec(env, st, titles[..|titles| - 1], now);
      ImportExtends(env, st, titles[..|titles| - 1], now);
      TitleExtends(env, before, titles[|titles| - 1], now);
      ExtendsTransitive(st, before, ImportTitlesSpec(env, st, titles, now));
    }
  }

  // ---------------------------------------------------------------------
  // Re-importing the same part
  // ---------------------------------------------------------------------

  predicate DistinctNumbers(sections: seq<SectionData>) {
    forall i, j :: 0 <= i < j < |sections| ==> sections[i].number != sections[j].number
  }

  /** The regulation found at `loc` holds the checksum `sum`. */
  predicate Holds(regs: seq<Regulation>, loc: Locator, sum: string) {
    Lookup(regs, loc).Some? && regs[Lookup(regs, loc).value].checksum == sum
  }

  /** A clean pass at a locator leaves it holding the snapshot's checksum and every other locator as it was. */
  lemma StepHolds(env: Env, st: ImportState, loc: Locator, snap: Snapshot, lastUpdated: int)
    requires NoFaults(env)
    ensures var s := ReconcileAt(env, st, loc, snap, lastUpdated);
      && s.failure == None
      && Holds(s.st.regulations, loc, snap.checksum)
      && forall loc2, sum :: loc2 != loc && Holds(st.regulations, loc2, sum) ==> Holds(s.st.regulations, loc2, sum)
  {
    var s := ReconcileAt(env, st, loc, snap, lastUpdated);
    assert env.faults(RegulationQuery(loc)) == None;
    match Lookup(st.regulations, loc)
    case None =>
      UnknownLocatorCreates(env, st, loc, snap, lastUpdated);
      var r := Regulation(loc, snap.content, snap.wordCount, snap.checksum, lastUpdated);
      forall loc2, sum | loc2 != loc && Holds(st.regulations, loc2, sum)
        ensures Holds(s.st.regulations, loc2, sum)
      {
        LookupAppendOther(st.regulations, r, loc2);
      }
    case Some(i) =>
      if st.regulations[i].checksum != snap.checksum {
        ChangedChecksumSnapshotsOld(env, st, loc, snap, lastUpdated);
        var r := Regulation(loc, snap.content, snap.wordCount, snap.checksum, lastUpdated);
        forall loc2, sum | loc2 != loc && Holds(st.regulations, loc2, sum)
          ensures Holds(s.st.regulations, loc2, sum)
        {
          LookupUpdate(st.regulations, i, r, loc2);
        }
        LookupUpdate(st.regulations, i, r, loc);
      }
  }

  function SectionChecksum(env: Env, section: SectionData): string {
    TakeSnapshot(env.digest, section.content).checksum
  }

  /** After a clean pass over sections with distinct numbers, each section's locator holds that section's checksum. */
  lemma {:induction false} SectionsHold(env: Env, st: ImportState, agencyId: nat, titleNumber: int, partNumber: int,
                                       sections: seq<SectionData>, now: int)
    requires NoFaults(env) && DistinctNumbers(sections)
    ensures var s := ReconcileSections(env, st, agencyId, titleNumber, partNumber, sections, now);
      && s.failure == None
      && forall k :: 0 <= k < |sections| ==>
           Holds(s.st.regulations, SectionLocator(agencyId, titleNumber, partNumber, sections[k]), SectionChecksum(env, sections[k]))
  {
    if sections != [] {
      var n := |sections| - 1;
      var init := sections[..n];
      var last := sections[n];
      var before := ReconcileSections(env, st, agencyId, titleNumber, partNumber, init, now);
      SectionsHold(env, st, agencyId, titleNumber, partNumber, init, now);
      var loc := SectionLocator(agencyId, titleNumber, partNumber, last);
      StepHolds(env, before.st, loc, TakeSnapshot(env.digest, last.content), last.lastUpdated.GetOr(now));
      forall k | 0 <= k < n
        ensures Holds(ReconcileSections(env, st, agencyId, titleNumber, partNumber, sections, now).st.regulations,
                      SectionLocator(agencyId, titleNumber, partNumber, sections[k]), SectionChecksum(env, sections[k]))
      {
        assert init[k] == sections[k];
        assert SectionLocator(agencyId, titleNumber, partNumber, sections[k]) != loc;
      }
    }
  }

  /** When every section's locator already holds its checksum, a clean pass only counts. */
  lemma {:induction false} HeldSectionsAreQuiet(env: Env, st: ImportState, agencyId: nat, titleNumber: int, partNumber: int,
                                               sections: seq<SectionData>, now: int)
    requires NoFaults(env)
    requires forall k :: 0 <= k < |sections| ==>
      Holds(st.regulations, SectionLocator(agencyId, titleNumber, partNumber, sections[k]), SectionChecksum(env, sections[k]))
    ensures ReconcileSections(env, st, agencyId, titleNumber, partNumber, sections, now)
         == Step(st.(importedCount := st.importedCount + |sections|), None)
  {
    if sections != [] {
      var n := |sections| - 1;
      forall k | 0 <= k < n
        ensures Holds(st.regulations, SectionLocator(agencyId, titleNumber, partNumber, sections[..n][k]), SectionChecksum(env, sections[..n][k]))
      {
        assert sections[..n][k] == sections[k];
      }
      HeldSectionsAreQuiet(env, st, agencyId, titleNumber, partNumber, sections[..n], now);
      var loc := SectionLocator(agencyId, titleNumber, partNumber, sections[n]);
      assert env.faults(RegulationQuery(loc)) == None;
      SameChecksumWritesNothing(env, st.(importedCount := st.importedCount + n), loc,
                                TakeSnapshot(env.digest, sections[n].content), sections[n].lastUpdated.GetOr(now));
    }
  }

  /**
    Importing the same part twice in a row, with no store failure, changes
    nothing the second time except the count: no regulation is written and no
    history entry is added.
   */
  lemma ReimportIsQuiet(env: Env, st: ImportState, agencyId: nat, titleNumber: int, part: PartData, now: int, later: int)
    requires NoFaults(env) && DistinctNumbers(part.sections)
    ensures var once := ProcessPartSpec(env, st, agencyId, titleNumber, part, now);
      ProcessPartSpec(env, once, agencyId, titleNumber, part, later) == once.(importedCount := once.importedCount + |part.sections|)
  {
    var once := ReconcileSections(env, st, agencyId, titleNumber, part.number, part.sections, now);
    SectionsHold(env, st, agencyId, titleNumber, part.number, part.sections, now);
    HeldSectionsAreQuiet(env, once.st, agencyId, titleNumber, part.number, part.sections, later);
  }

  /** The generator numbers a part's sections distinctly, so a generated part re-imports quietly. */
  lemma GeneratedPartReimportsQuietly(env: Env, st: ImportState, agencyId: nat, titleNumber: int, part: PartData, now: int, later: int)
    requires NoFaults(env) && SampleData.SectionsNumbered(part.number, part.sections)
    ensures var once := ProcessPartSpec(env, st, agencyId, titleNumber, part, now);
      ProcessPartSpec(env, once, agencyId, titleNumber, part, later) == once.(importedCount := once.importedCount + |part.sections|)
  {
    forall i, j | 0 <= i < j < |part.sections|
      ensures part.sections[i].number != part.sections[j].number
    {
      SampleData.NumberedSectionsDistinct(part.number, part.sections, i, j);
    }
    ReimportIsQuiet(env, st, agencyId, titleNumber, part, now, later);
  }
}
