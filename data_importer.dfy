/**
  The importer itself: an object with a running count of imported sections
  and a list of errors, working against a store of agencies, regulations,
  history rows and metrics that it updates in place. Each method is proved
  against the functional specification of the same step in `ImportModel`
  and `Metrics`, whose properties are proved there.
 */
module DataImporter {
  import opened JsValue
  import opened Cfr
  import opened TextMetrics
  import opened ImportModel
  import opened Metrics

  /**
    The database behind the importer. Row ids are positions plus one. Each
    call the importer makes may throw; `faults` says which do, and with what
    message.
   */
  class Store {
    var agencies: seq<Agency>
    var regulations: seq<Regulation>
    var history: seq<HistoryEntry>
    var metrics: map<nat, seq<Metric>>
    const faults: StoreOp -> Option<string>

    constructor (faults: StoreOp -> Option<string>)
      ensures agencies == [] && regulations == [] && history == [] && metrics == map[]
      ensures this.faults == faults
    {
      agencies := [];
      regulations := [];
      history := [];
      metrics := map[];
      this.faults := faults;
    }

    /** `Agency.findOrCreate` keyed on the title number; returns the agency's id. */
    method FindOrCreateAgency(title: TitleData) returns (id: nat, failure: Option<string>)
      modifies this
      ensures failure == faults(AgencyUpsert(title.number))
      ensures failure.Some? ==> agencies == old(agencies)
      ensures failure.None? ==>
        var r := ImportModel.FindOrCreateAgency(old(agencies), title);
        agencies == r.agencies && id == r.id
      ensures regulations == old(regulations) && history == old(history) && metrics == old(metrics)
    {
      failure := faults(AgencyUpsert(title.number));
      id := 0;
      if failure.None? {
        var r := ImportModel.FindOrCreateAgency(agencies, title);
        agencies := r.agencies;
        id := r.id;
      }
    }

    /** `Regulation.findOne` on the four locator columns: the index of the first row there, if any. */
    method FindOne(loc: Locator) returns (found: Option<nat>, failure: Option<string>)
      ensures failure == faults(RegulationQuery(loc))
      ensures failure.None? ==> found == Lookup(regulations, loc)
      ensures found.Some? ==> found.value < |regulations| && regulations[found.value].loc == loc
      ensures found.Some? ==> forall k :: 0 <= k < found.value ==> regulations[k].loc != loc
      ensures failure.None? && found.None? ==> forall k :: 0 <= k < |regulations| ==> regulations[k].loc != loc
    {
      failure := faults(RegulationQuery(loc));
      found := None;
      if failure.Some? {
        return;
      }
      var i := 0;
      while i < |regulations|
        invariant 0 <= i <= |regulations|
        invariant forall k :: 0 <= k < i ==> regulations[k].loc != loc
      {
        if regulations[i].loc == loc {
          found := Some(i);
          LookupFirst(regulations, loc, i);
          return;
        }
        i := i + 1;
      }
      LookupFirst(regulations, loc, |regulations|);
    }

    /** `Regulation.create`: appends the row and returns its id. */
    method InsertRegulation(r: Regulation) returns (id: nat, failure: Option<string>)
      modifies this
      ensures failure == faults(RegulationInsert(r.loc))
      ensures failure.Some? ==> regulations == old(regulations)
      ensures failure.None? ==> regulations == old(regulations) + [r] && id == |regulations|
      ensures agencies == old(agencies) && history == old(history) && metrics == old(metrics)
    {
      failure := faults(RegulationInsert(r.loc));
      id := 0;
      if failure.None? {
        regulations := regulations + [r];
        id := |regulations|;
      }
    }

    /** `RegulationHistory.create` for the regulation at `loc`. */
    method InsertHistory(entry: HistoryEntry, loc: Locator) returns (failure: Option<string>)
      modifies this
      ensures failure == faults(HistoryInsert(loc))
      ensures history == if failure.Some? then old(history) else old(history) + [entry]
      ensures agencies == old(agencies) && regulations == old(regulations) && metrics == old(metrics)
    {
      failure := faults(HistoryInsert(loc));
      if failure.None? {
        history := history + [entry];
      }
    }

    /** `existingRegulation.update`: overwrites the content, counts, checksum and date of row `i`. */
    method UpdateRegulation(i: nat, content: string, wordCount: nat, checksum: string, lastUpdated: int)
      returns (failure: Option<string>)
      requires i < |regulations|
      modifies this
      ensures failure == faults(RegulationUpdate(old(regulations[i].loc)))
      ensures regulations == if failure.Some? then old(regulations)
        else old(regulations[i := regulations[i].(content := content, wordCount := wordCount,
                                                  checksum := checksum, lastUpdated := lastUpdated)])
      ensures agencies == old(agencies) && history == old(history) && metrics == old(metrics)
    {
      var current := regulations[i];
      failure := faults(RegulationUpdate(current.loc));
      if failure.None? {
        regulations := regulations[i := current.(content := content, wordCount := wordCount,
                                                 checksum := checksum, lastUpdated := lastUpdated)];
      }
    }

    /** `AnalysisMetric.destroy` for one agency. */
    method DestroyMetrics(agencyId: nat)
      modifies this
      ensures metrics == old(metrics) - {agencyId}
      ensures agencies == old(agencies) && regulations == old(regulations) && history == old(history)
    {
      metrics := metrics - {agencyId};
    }

    /** `AnalysisMetric.create` for one agency: the row joins that agency's metrics. */
    method CreateMetric(agencyId: nat, m: Metric)
      modifies this
      ensures metrics == old(metrics)[agencyId := (if agencyId in old(metrics) then old(metrics)[agencyId] else []) + [m]]
      ensures agencies == old(agencies) && regulations == old(regulations) && history == old(history)
    {
      var existing := if agencyId in metrics then metrics[agencyId] else [];
      metrics := metrics[agencyId := existing + [m]];
    }
  }

  /** A scan that stops at the first match finds what `Lookup` finds. */
  lemma LookupFirst(regs: seq<Regulation>, loc: Locator, i: nat)
    requires i <= |regs|
    requires forall k :: 0 <= k < i ==> regs[k].loc != loc
    requires i < |regs| ==> regs[i].loc == loc
    ensures Lookup(regs, loc) == if i < |regs| then Some(i) else None
  {
    match Lookup(regs, loc)
    case None =>
    case Some(j) =>
  }

  /** `RobustDataImporter`: the count of imported sections and the errors caught so far. */
  class Importer {
    var importedCount: nat
    var errors: seq<ImportError>
    const store: Store
    const digest: string -> string

    constructor (store: Store, digest: string -> string)
      ensures importedCount == 0 && errors == []
      ensures this.store == store && this.digest == digest
    {
      importedCount := 0;
      errors := [];
      this.store := store;
      this.digest := digest;
    }

    /** The importer's counters together with the tables it writes. */
    ghost function State(): ImportState
      reads this, store
    {
      ImportState(store.agencies, store.regulations, store.history, importedCount, errors)
    }

    function Environment(): Env {
      Env(digest, store.faults)
    }

    /**
      The body of the section loop of `processPart`: extract, count and
      checksum the content, then create, leave alone, or revise the row at
      the section's locator; `failure` is the message of the call that threw.
     */
    method ProcessSection(agencyId: nat, titleNumber: int, partNumber: int, section: SectionData, now: int)
      returns (failure: Option<string>)
      modifies this, store
      ensures Step(State(), failure) == ReconcileSection(Environment(), old(State()), agencyId, titleNumber, partNumber, section, now)
      ensures store.metrics == old(store.metrics)
    {
      ghost var st0 := State();
      var content := ExtractText(section.content);
      var wordCount := CountWords(content);
      var checksum := GenerateChecksum(digest, Some(content));
      var loc := SectionLocator(agencyId, titleNumber, partNumber, section);
      var lastUpdated := section.lastUpdated.GetOr(now);
      var existing;
      existing, failure := store.FindOne(loc);
      if failure.Some? {
        return;
      }
      match existing {
        case Some(i) =>
          if store.regulations[i].checksum != checksum {
            failure := ReviseRegulation(i, Snapshot(content, wordCount, checksum), lastUpdated);
          } else {
            importedCount := importedCount + 1;
          }
        case None =>
          failure := CreateRegulation(loc, Snapshot(content, wordCount, checksum), lastUpdated);
      }
    }

    /** The created branch: insert the regulation, then its `created` history entry, then count the section. */
    method CreateRegulation(loc: Locator, snap: Snapshot, lastUpdated: int) returns (failure: Option<string>)
      modifies this, store
      ensures Step(State(), failure) == CreateAt(Environment(), old(State()), loc, snap, lastUpdated)
      ensures store.metrics == old(store.metrics)
    {
      var id;
      id, failure := store.InsertRegulation(Regulation(loc, snap.content, snap.wordCount, snap.checksum, lastUpdated));
      if failure.Some? {
        return;
      }
      failure := store.InsertHistory(HistoryEntry(id, snap.content, snap.wordCount, snap.checksum, Created), loc);
      if failure.Some? {
        return;
      }
      importedCount := importedCount + 1;
    }

    /** The modified branch: record the old snapshot as `modified`, overwrite row `i`, then count the section. */
    method ReviseRegulation(i: nat, snap: Snapshot, lastUpdated: int) returns (failure: Option<string>)
      requires i < |store.regulations|
      modifies this, store
      ensures Step(State(), failure) == ReviseAt(Environment(), old(State()), i, snap, lastUpdated)
      ensures store.metrics == old(store.metrics)
    {
      var current := store.regulations[i];
      failure := store.InsertHistory(HistoryEntry(i + 1, current.content, current.wordCount, current.checksum, Modified), current.loc);
      if failure.Some? {
        return;
      }
      failure := store.UpdateRegulation(i, snap.content, snap.wordCount, snap.checksum, lastUpdated);
      if failure.Some? {
        return;
      }
      importedCount := importedCount + 1;
    }

    /** `processPart`: the section loop, stopped by the first throw, which is recorded as one part error. */
    method ProcessPart(agencyId: nat, titleNumber: int, part: PartData, now: int)
      modifies this, store
      ensures State() == ProcessPartSpec(Environment(), old(State()), agencyId, titleNumber, part, now)
      ensures store.metrics == old(store.metrics)
    {
      ghost var st0 := State();
      var failure: Option<string> := None;
      var i := 0;
      while i < |part.sections| && failure.None?
        invariant 0 <= i <= |part.sections|
        invariant Step(State(), failure) == ReconcileSections(Environment(), st0, agencyId, titleNumber, part.number, part.sections[..i], now)
        invariant store.metrics == old(store.metrics)
      {
        ReconcileSectionsSnoc(Environment(), st0, agencyId, titleNumber, part.number, part.sections, i, now);
        failure := ProcessSection(agencyId, titleNumber, part.number, part.sections[i], now);
        i := i + 1;
      }
      if failure.Some? {
        FailureIsFinal(Environment(), st0, agencyId, titleNumber, part.number, part.sections, i, now);
        errors := errors + [PartError(PartLabel(titleNumber, part.number), failure.value)];
      } else {
        assert part.sections[..i] == part.sections;
      }
    }

    /** `processTitle`: find or create the agency, then process at most three parts; a throw is one title error. */
    method ProcessTitle(title: TitleData, now: int)
      modifies this, store
      ensures State() == ProcessTitleSpec(Environment(), old(State()), title, now)
      ensures store.metrics == old(store.metrics)
    {
      var id, failure := store.FindOrCreateAgency(title);
      if failure.Some? {
        errors := errors + [TitleError(title.number, failure.value)];
        return;
      }
      var parts := FirstParts(title.parts);
      ghost var st0 := State();
      var k := 0;
      while k < |parts|
        invariant 0 <= k <= |parts|
        invariant State() == ProcessPartsSpec(Environment(), st0, id, title.number, parts[..k], now)
        invariant store.metrics == old(store.metrics)
      {
        ProcessPartsSnoc(Environment(), st0, id, title.number, parts, k, now);
        ProcessPart(id, title.number, parts[k], now);
        k := k + 1;
      }
      assert parts[..k] == parts;
    }

    /** Clear an agency's old metrics, then create the new ones one by one. */
    method ReplaceMetrics(agencyId: nat, ms: seq<Metric>)
      requires |ms| > 0
      modifies store
      ensures store.metrics == old(store.metrics)[agencyId := ms]
      ensures store.agencies == old(store.agencies) && store.regulations == old(store.regulations)
      ensures store.history == old(store.history)
    {
      store.DestroyMetrics(agencyId);
      var k := 0;
      while k < |ms|
        invariant 0 <= k <= |ms|
        invariant store.metrics == if k == 0 then old(store.metrics) - {agencyId} else old(store.metrics)[agencyId := ms[..k]]
        invariant store.agencies == old(store.agencies) && store.regulations == old(store.regulations)
        invariant store.history == old(store.history)
      {
        store.CreateMetric(agencyId, ms[k]);
        assert ms[..k + 1] == (if k == 0 then [] else ms[..k]) + [ms[k]];
        k := k + 1;
      }
      assert ms[..k] == ms;
    }

    /**
      `calculateMetrics`: for every agency that owns regulations, drop its
      stored metrics and store the six computed ones; leave the others alone.
     */
    method CalculateMetrics(now: int)
      modifies store
      ensures store.metrics == RefreshMetrics(old(store.metrics), |store.agencies|, store.regulations, now)
      ensures store.agencies == old(store.agencies) && store.regulations == old(store.regulations)
      ensures store.history == old(store.history)
    {
      ghost var computed := Computed(store.regulations, now);
      var id := 1;
      while id <= |store.agencies|
        invariant 1 <= id <= |store.agencies| + 1
        invariant store.metrics == Overwrite(old(store.metrics), id - 1, computed)
        invariant store.agencies == old(store.agencies) && store.regulations == old(store.regulations)
        invariant store.history == old(store.history)
      {
        var own := AgencyRegulations(store.regulations, id);
        if |own| > 0 {
          var ms := AgencyMetrics(own, now);
          assert computed(id) == Some(ms);
          ReplaceMetrics(id, ms);
        } else {
          assert computed(id) == None;
        }
        id := id + 1;
      }
    }

    /** `importData` once the titles are at hand: process every title in order, then calculate the metrics. */
    method ImportData(titles: seq<TitleData>, now: int)
      modifies this, store
      ensures State() == ImportTitlesSpec(Environment(), old(State()), titles, now)
      ensures store.metrics == RefreshMetrics(old(store.metrics), |store.agencies|, store.regulations, now)
    {
      ghost var st0 := State();
      var t := 0;
      while t < |titles|
        invariant 0 <= t <= |titles|
        invariant State() == ImportTitlesSpec(Environment(), st0, titles[..t], now)
        invariant store.metrics == old(store.metrics)
      {
        assert titles[..t + 1][..t] == titles[..t];
        ProcessTitle(titles[t], now);
        t := t + 1;
      }
      assert titles[..t] == titles;
      CalculateMetrics(now);
    }
  }
}
