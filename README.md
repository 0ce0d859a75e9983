# Federal regulations analyzer — a Dafny model of its core

This project models the core of the federal-regulations-analyzer backend and proves properties of that model. The core has three parts.

- **The text metrics of the eCFR service.** These are word counting, the HTML-to-text normaliser, the content checksum and the complexity score. The sample-data generator is included too; its draws of `Math.random()` arrive as a stream `rnd` passed in as a parameter.
- **The data importer.** A `RobustDataImporter` object keeps a running `importedCount` and an `errors` list. It walks titles, then parts, then sections. For each section it reconciles a store of agencies, regulations and history rows:
  - at a new locator it creates a regulation;
  - when the checksum is unchanged it does nothing;
  - when the checksum has changed it snapshots the old version, then overwrites it.

  It then recomputes six metrics per agency, including a deregulation opportunity score.
- **The analysis endpoint's classification rules.** These are the word-count bucket of the complexity distribution, the labels, title, preview and agency fallback of each deregulation opportunity, and the `overall_avg_words` summary.

The modules follow the program's structure:

| file | module | models |
|---|---|---|
| `js_value.dfy` | `JsValue` | JavaScript values the source relies on: `null`/falsy strings, NaN, `Math.round`, number-to-string |
| `text_metrics.dfy` | `TextMetrics` | `countWords`, `extractTextContent`, `generateChecksum`, `calculateComplexityScore` |
| `cfr.dfy` | `Cfr` | the title / part / section data handed to the importer |
| `sample_data.dfy` | `SampleData` | `getSampleCFRData`, `generatePartsForTitle`, `getPartName`, `generateSectionsForPart`, `getContentTemplate`, `getSpecificContent`, `getRandomUpdateDate` |
| `import_model.dfy` | `ImportModel` | `getTitleName`, `getShortName`, and the functional specification of `processPart` / `processTitle` / the title loop of `importData` |
| `metrics.dfy` | `Metrics` | `calculateMetrics` and `calculateDeregulationScore` |
| `data_importer.dfy` | `DataImporter` | the importer object (`Importer`) and its store (`Store`), as classes whose methods are proved against `ImportModel` and `Metrics` |
| `analysis.dfy` | `Analysis` | the complexity-distribution `CASE`, the opportunity mapping, the word-count summary |

Design choices:

- **Failing store calls.** Any store call can throw. The model gives the store a fault oracle, `faults: StoreOp -> Option<string>`, which names the calls that throw and their messages. The importer's `try`/`catch` structure is modelled exactly: a throw inside a part abandons the rest of that part and records one `{part, error}`, and a throw from `Agency.findOrCreate` records one `{title, error}`.
- **Checksums.** A checksum is an MD5 digest, modelled as a function parameter `digest`.
- **Ids.** Row ids are table positions plus one.
- **JavaScript numbers.** A number that can be NaN is a `Num`. The source can produce NaN in three places: `0 / 0` for white-space-only text, an average over an empty list, and `Math.min`/`Math.max` applied to NaN.

## Model

| member | source | states |
|---|---|---|
| JsValue.Round1Num | federal-regulations-analyzer/backend/src/services/ecfrService.js:345 | `Math.round(x * 10) / 10` keeps NaN as NaN and otherwise lies within 0.05 of `x` |
| JsValue.RoundOfInteger | federal-regulations-analyzer/backend/src/services/dataImporter.js:305 | `Math.round` leaves a whole number unchanged |
| JsValue.RoundWithin | federal-regulations-analyzer/backend/src/services/dataImporter.js:305 | `Math.round` of a number between two integers stays between them |
| JsValue.RoundMonotone | federal-regulations-analyzer/backend/src/services/dataImporter.js:305 | `Math.round` never reverses the order of two numbers |
| JsValue.Round1Within | federal-regulations-analyzer/backend/src/services/ecfrService.js:345 | rounding to one decimal keeps a number between two multiples of 0.1 |
| JsValue.Round1Monotone | federal-regulations-analyzer/backend/src/services/ecfrService.js:345 | rounding to one decimal never reverses the order of two numbers |
| JsValue.IntToStringInjective | federal-regulations-analyzer/backend/src/services/ecfrService.js:127 | distinct integers render as distinct decimal strings in a template literal |
| JsValue.ParseNatToString | federal-regulations-analyzer/backend/src/services/ecfrService.js:127 | reading back the decimal rendering of a natural number gives the number |
| JsValue.NatToStringInjective | federal-regulations-analyzer/backend/src/services/ecfrService.js:127 | distinct natural numbers render as distinct decimal strings |
| TextMetrics.CountWords | federal-regulations-analyzer/backend/src/services/ecfrService.js:310-313 | the non-empty pieces of `split(/\s+/)` are exactly the maximal runs of non-white-space, and empty text has none |
| TextMetrics.SplitNonEmptyPieces | federal-regulations-analyzer/backend/src/services/ecfrService.js:312 | the non-empty pieces left by splitting on white-space runs are as many as the runs of other characters |
| TextMetrics.RunCountZero | federal-regulations-analyzer/backend/src/services/ecfrService.js:310-313 | a text has no run of a character class exactly when no character outside a leading run belongs to it |
| TextMetrics.NoWordsIffAllSpace | federal-regulations-analyzer/backend/src/services/ecfrService.js:310-313 | the count is zero if and only if every character is JavaScript white space, which includes empty text |
| TextMetrics.WordInRun | federal-regulations-analyzer/backend/src/services/ecfrService.js:310-313 | a word met inside a run of non-white-space starts no new run |
| TextMetrics.WordThenSpaceRuns | federal-regulations-analyzer/backend/src/services/ecfrService.js:310-313 | a word followed by a space and more text adds exactly one word to the count of the rest |
| TextMetrics.OneWordRun | federal-regulations-analyzer/backend/src/services/ecfrService.js:310-313 | a non-empty text without white space is one word |
| TextMetrics.SampleSentenceWordCount | federal-regulations-analyzer/backend/src/services/ecfrService.js:310-313 | "Entities shall maintain records pursuant to 40 CFR 60 for seven years." counts as 12 words |
| TextMetrics.StripTagsKeepsNoCloser | federal-regulations-analyzer/backend/src/services/ecfrService.js:301 | text without a `>` has no tag to remove |
| TextMetrics.StripTagsRemovesTags | federal-regulations-analyzer/backend/src/services/ecfrService.js:301 | after the tag replacement no `<` is followed anywhere later by a `>` |
| TextMetrics.ReplaceAllAbsent | federal-regulations-analyzer/backend/src/services/ecfrService.js:300-305 | a global replacement changes nothing when a character of the pattern does not occur in the text |
| TextMetrics.CollapseSpacesSingleSpaced | federal-regulations-analyzer/backend/src/services/ecfrService.js:306 | after `replace(/\s+/g, " ")` every white space is a single `' '` and no two are adjacent |
| TextMetrics.Trim | federal-regulations-analyzer/backend/src/services/ecfrService.js:307 | `trim()` returns a slice of its input with only white space before and after it, and the slice neither starts nor ends with white space |
| TextMetrics.ExtractText | federal-regulations-analyzer/backend/src/services/ecfrService.js:298-308 | null, undefined and `""` give `""`; every output is trimmed and single-spaced |
| TextMetrics.TrimKeepsWords | federal-regulations-analyzer/backend/src/services/ecfrService.js:307 | trimming changes no word count |
| TextMetrics.ExtractTextKeepsWords | federal-regulations-analyzer/backend/src/services/ecfrService.js:298-308 | normalising keeps the words of the tag-stripped, entity-decoded text: their count is unchanged |
| TextMetrics.ExtractPlainText | federal-regulations-analyzer/backend/src/services/ecfrService.js:298-308 | on non-empty text with no `>` and no white space once decoded, the result is the entity decoding alone |
| TextMetrics.AmpersandDecodedLast | federal-regulations-analyzer/backend/src/services/ecfrService.js:302-305 | `&amp;lt;` becomes `&lt;` and not `<`, because `&amp;` is decoded last and in a single pass |
| TextMetrics.EncodedTagSurvives | federal-regulations-analyzer/backend/src/services/ecfrService.js:301-305 | `&lt;b&gt;` becomes the text `<b>`, because entities are decoded after tags are removed |
| TextMetrics.NormalizedHasWords | federal-regulations-analyzer/backend/src/services/ecfrService.js:298-313 | a normalised text has at least one word if and only if it is non-empty |
| TextMetrics.ChecksumDependsOnlyOnText | federal-regulations-analyzer/backend/src/services/ecfrService.js:315-320 | two contents with the same text (`content \|\| ""`) get the same checksum, and every falsy content gets the checksum of `""` |
| TextMetrics.SentenceCount | federal-regulations-analyzer/backend/src/services/ecfrService.js:326 | `split(/[.!?]+/).length - 1` is the number of maximal runs of terminators |
| TextMetrics.TermAt | federal-regulations-analyzer/backend/src/services/ecfrService.js:329-333 | a match at `i` is one of the seven signal words, compared without ASCII case, and lies within the text |
| TextMetrics.FirstTermAtNeedsBoundary | federal-regulations-analyzer/backend/src/services/ecfrService.js:331 | no signal word matches where `\b` does not hold |
| TextMetrics.NoTermInsideMatch | federal-regulations-analyzer/backend/src/services/ecfrService.js:329-333 | for any list of lower-case words, including the seven signal words, no word starts strictly inside a match |
| TextMetrics.TermsFromCountsPositions | federal-regulations-analyzer/backend/src/services/ecfrService.js:329-333 | for any list of lower-case words, the global match count equals the number of positions where one occurs as a whole word |
| TextMetrics.TermCountCountsPositions | federal-regulations-analyzer/backend/src/services/ecfrService.js:329-333 | the number of signal-word matches in a text is the number of positions where one occurs as a whole word |
| TextMetrics.ScoreFromCounts | federal-regulations-analyzer/backend/src/services/ecfrService.js:327-345 | for a positive word count the weighted, capped and rounded score lies in [0, 100] |
| TextMetrics.ComplexityScore | federal-regulations-analyzer/backend/src/services/ecfrService.js:322-346 | empty text scores 0; the score is NaN exactly for non-empty text with no word; otherwise it lies in [0, 100] |
| TextMetrics.ScoreMonotoneInTerms | federal-regulations-analyzer/backend/src/services/ecfrService.js:329-345 | with the other counts fixed, more signal words never lower the score |
| TextMetrics.ExtractedTextHasScore | federal-regulations-analyzer/backend/src/services/ecfrService.js:298-346 | the score of any extracted text is a number, never NaN |
| SampleData.DrawBelow | federal-regulations-analyzer/backend/src/services/ecfrService.js:94 | `Math.floor(Math.random() * n)` is one of `0 .. n - 1` |
| SampleData.RequirementIndex | federal-regulations-analyzer/backend/src/services/ecfrService.js:278-280 | each draw of a requirement is an index into the ten requirements |
| SampleData.GeneratedPartNamesAreFixed | federal-regulations-analyzer/backend/src/services/ecfrService.js:109-119 | parts 10, 20, 30 and 40 take their names from the fixed table, whatever the title |
| SampleData.ContentTemplate | federal-regulations-analyzer/backend/src/services/ecfrService.js:149-257 | never empty; a non-empty stored template for the title's name, otherwise the generic sentence built from the name |
| SampleData.DedupProperties | federal-regulations-analyzer/backend/src/services/ecfrService.js:278-284 | keeping only the first occurrence of each pick leaves no duplicates, the same members, at most as many, and the first pick first |
| SampleData.SelectRequirements | federal-regulations-analyzer/backend/src/services/ecfrService.js:273-284 | 2 or 3 draws yield 1 to 3 distinct requirements from the table, and the draws consumed are counted |
| SampleData.DrawRequirements | federal-regulations-analyzer/backend/src/services/ecfrService.js:277-284 | the loop appends each pick unless it is already selected: its result is the picks without repeats, in the order first drawn |
| SampleData.DedupPicksStep | federal-regulations-analyzer/backend/src/services/ecfrService.js:281-283 | one more draw adds its pick exactly when that pick was not selected before |
| SampleData.SelectionProperties | federal-regulations-analyzer/backend/src/services/ecfrService.js:273-284 | 1 to 3 draws select 1 to 3 distinct entries of the table |
| SampleData.GetSpecificContent | federal-regulations-analyzer/backend/src/services/ecfrService.js:259-287 | the deduplicated picks of 2 or 3 draws joined by single spaces, a selection of 1 to 3 distinct requirements, with the draws consumed counted |
| SampleData.RandomUpdateDate | federal-regulations-analyzer/backend/src/services/ecfrService.js:289-295 | a whole millisecond in [2023-01-01, 2024-12-31) |
| SampleData.SectionNumbersDistinct | federal-regulations-analyzer/backend/src/services/ecfrService.js:127 | within a part, distinct positions give distinct section numbers `"p.i"` |
| SampleData.NumberedSectionsDistinct | federal-regulations-analyzer/backend/src/services/ecfrService.js:121-136 | generated sections of one part have pairwise distinct numbers |
| SampleData.GenerateSection | federal-regulations-analyzer/backend/src/services/ecfrService.js:127-147 | section `"p.i"` whose content is the title's template, a space and the requirements selected by the next draws joined by spaces, dated by the draw after them |
| SampleData.GenerateSections | federal-regulations-analyzer/backend/src/services/ecfrService.js:124-135 | exactly `count` sections numbered `"p.1"` to `"p.count"`, each the template followed by a selection of requirements and dated in range |
| SampleData.GenerateSectionsForPart | federal-regulations-analyzer/backend/src/services/ecfrService.js:121-136 | 2 to 5 sections, numbered and filled |
| SampleData.GenerateParts | federal-regulations-analyzer/backend/src/services/ecfrService.js:95-106 | parts numbered 10, 20, ..., 10·count, each named by `getPartName`, with numbered and filled sections |
| SampleData.GeneratePartsForTitle | federal-regulations-analyzer/backend/src/services/ecfrService.js:92-107 | 2 to 4 parts, numbered 10, 20, ... |
| SampleData.GetSampleCfrData | federal-regulations-analyzer/backend/src/services/ecfrService.js:77-90 | one generated title per table entry, in order, with its number, name, agency and short name |
| ImportModel.FallbackShapes | federal-regulations-analyzer/backend/src/services/dataImporter.js:111-123 | a title number is in the name tables if and only if its names are not the `"Title n"` / `"Tn"` fallbacks |
| ImportModel.TitleFallbackShape | federal-regulations-analyzer/backend/src/services/dataImporter.js:111-123 | a title number is outside the name table if and only if its title name is exactly the fallback `"Title " + n` |
| ImportModel.ShortFallbackShape | federal-regulations-analyzer/backend/src/services/dataImporter.js:245-257 | a title number is outside the name table if and only if its short name is exactly the fallback `"T" + n` |
| ImportModel.TitleNameInjective | federal-regulations-analyzer/backend/src/services/dataImporter.js:111-123 | no two title numbers share a title name |
| ImportModel.ShortNameInjective | federal-regulations-analyzer/backend/src/services/dataImporter.js:245-257 | no two title numbers share a short name |
| ImportModel.Lookup | federal-regulations-analyzer/backend/src/services/dataImporter.js:171-178 | `findOne` on the four locator columns gives the first row at that locator, or none when no row is there |
| ImportModel.LookupAppendNew | federal-regulations-analyzer/backend/src/services/dataImporter.js:206-215 | after a regulation is created at a new locator, `findOne` at that locator finds it |
| ImportModel.FindOrCreateAgency | federal-regulations-analyzer/backend/src/services/dataImporter.js:132-140 | the agency with the title's number: a found agency leaves the table unchanged and its id is its position plus one; otherwise one agency is appended, named after the title, with `getShortName`'s short name and the description `"Federal regulations for " + name` |
| ImportModel.SnapshotOfExtractedText | federal-regulations-analyzer/backend/src/services/dataImporter.js:166-168 | content, word count and checksum all come from one normalised text |
| ImportModel.UnknownLocatorCreates | federal-regulations-analyzer/backend/src/services/dataImporter.js:205-224 | a new locator gets exactly one new regulation and one `created` history entry, both holding the same snapshot |
| ImportModel.SameChecksumWritesNothing | federal-regulations-analyzer/backend/src/services/dataImporter.js:180-182 | an equal checksum writes no history entry and changes no regulation field, including `lastUpdated`; it only counts |
| ImportModel.ChangedChecksumSnapshotsOld | federal-regulations-analyzer/backend/src/services/dataImporter.js:182-198 | a changed checksum appends one `modified` entry with the OLD snapshot, then the same row holds the new snapshot and `section.lastUpdated \|\| now` |
| ImportModel.FailedUpdateLeavesSnapshot | federal-regulations-analyzer/backend/src/services/dataImporter.js:182-198 | when the update throws, the `modified` entry is already written and the row is unchanged |
| ImportModel.StepBookkeeping | federal-regulations-analyzer/backend/src/services/dataImporter.js:231 | a section is counted exactly when all of its store calls succeed |
| ImportModel.FailureIsFinal | federal-regulations-analyzer/backend/src/services/dataImporter.js:164-233 | after a section throws, no later section of the part is processed |
| ImportModel.CountsCompletedSections | federal-regulations-analyzer/backend/src/services/dataImporter.js:231 | `importedCount` grows by one for each section completed, whether created, updated or unchanged |
| ImportModel.PartRecordsOneError | federal-regulations-analyzer/backend/src/services/dataImporter.js:233-242 | a part records exactly one error, labelled `"title.part"`, if and only if one of its sections threw |
| ImportModel.ErrorsDoNotSteer | federal-regulations-analyzer/backend/src/services/dataImporter.js:164-242 | the error list does not affect how the section loop runs |
| ImportModel.ErrorsDoNotSteerStep | federal-regulations-analyzer/backend/src/services/dataImporter.js:164-242 | the errors recorded so far do not change what one section does |
| ImportModel.FailedPartsDoNotStopLaterParts | federal-regulations-analyzer/backend/src/services/dataImporter.js:145-148 | the errors recorded for earlier parts do not change what later parts do: apart from the error list, the state after them is the same whatever errors were recorded; a failed part's own writes before its throw still stand |
| ImportModel.OnlyFirstThreeParts | federal-regulations-analyzer/backend/src/services/dataImporter.js:143 | parts after the third have no effect |
| ImportModel.EmptyIsConsistent | federal-regulations-analyzer/backend/src/services/dataImporter.js:10-16 | the empty store satisfies the store invariant |
| ImportModel.CreateKeepsConsistent | federal-regulations-analyzer/backend/src/services/dataImporter.js:205-224 | creating keeps the invariant: normalised contents with matching counts and checksums, unique locators and title numbers, valid ids |
| ImportModel.ReviseKeepsConsistent | federal-regulations-analyzer/backend/src/services/dataImporter.js:182-198 | revising keeps the invariant |
| ImportModel.SectionKeepsConsistent | federal-regulations-analyzer/backend/src/services/dataImporter.js:164-232 | one section keeps the invariant, whatever store call throws |
| ImportModel.SectionsKeepConsistent | federal-regulations-analyzer/backend/src/services/dataImporter.js:164-232 | the section loop keeps the invariant and leaves agencies alone |
| ImportModel.PartsKeepConsistent | federal-regulations-analyzer/backend/src/services/dataImporter.js:145-148 | the part loop keeps the invariant |
| ImportModel.TitleKeepsConsistent | federal-regulations-analyzer/backend/src/services/dataImporter.js:125-160 | a title keeps the invariant, including unique agency title numbers |
| ImportModel.ImportKeepsConsistent | federal-regulations-analyzer/backend/src/services/dataImporter.js:38-41 | importing any titles into a consistent store leaves it consistent |
| ImportModel.ExtendsTransitive | federal-regulations-analyzer/backend/src/services/dataImporter.js:38-41 | "nothing is deleted" composes across steps |
| ImportModel.SectionsExtend | federal-regulations-analyzer/backend/src/services/dataImporter.js:164-232 | the section loop deletes nothing and never moves a regulation to another locator |
| ImportModel.PartExtends | federal-regulations-analyzer/backend/src/services/dataImporter.js:162-243 | a part deletes nothing |
| ImportModel.PartsExtend | federal-regulations-analyzer/backend/src/services/dataImporter.js:145-148 | the part loop deletes nothing |
| ImportModel.TitleExtends | federal-regulations-analyzer/backend/src/services/dataImporter.js:125-160 | a title deletes nothing |
| ImportModel.ImportExtends | federal-regulations-analyzer/backend/src/services/dataImporter.js:38-41 | an import never deletes an agency, regulation, history entry or error, and never lowers the count |
| ImportModel.StepHolds | federal-regulations-analyzer/backend/src/services/dataImporter.js:171-231 | a clean pass leaves the locator holding the new checksum and every other locator as it was |
| ImportModel.SectionsHold | federal-regulations-analyzer/backend/src/services/dataImporter.js:164-232 | after a clean pass over distinctly numbered sections, each locator holds its section's checksum |
| ImportModel.HeldSectionsAreQuiet | federal-regulations-analyzer/backend/src/services/dataImporter.js:180-182 | when every locator already holds its checksum, a clean pass only counts |
| ImportModel.ReimportIsQuiet | federal-regulations-analyzer/backend/src/services/dataImporter.js:162-243 | when no store call throws and the part's section numbers are distinct, importing the same part twice writes nothing the second time, whatever the clock says, and only counts |
| ImportModel.GeneratedPartReimportsQuietly | federal-regulations-analyzer/backend/src/services/dataImporter.js:162-243 | a generated part re-imports quietly, because its section numbers are distinct |
| Metrics.AgencyRegulations | federal-regulations-analyzer/backend/src/services/dataImporter.js:262-267 | `agency.Regulations` holds each regulation with that agency id as often as the table does, and no other |
| Metrics.TotalWordsWithin | federal-regulations-analyzer/backend/src/services/dataImporter.js:271-274 | the total lies between the count times the smallest and the count times the largest word count |
| Metrics.AverageWords | federal-regulations-analyzer/backend/src/services/dataImporter.js:275 | the average is NaN exactly for an empty list |
| Metrics.AverageWordsWithin | federal-regulations-analyzer/backend/src/services/dataImporter.js:271-275 | the average word count lies between the smallest and the largest |
| Metrics.RecentCount | federal-regulations-analyzer/backend/src/services/dataImporter.js:285-290 | the number of regulations updated after one year before `now`: zero exactly when none was, all exactly when all were |
| Metrics.UpdateFrequency | federal-regulations-analyzer/backend/src/services/dataImporter.js:285-291 | a percentage in [0, 100]: 100 exactly when all are recent, 0 exactly when none is, NaN for an empty list |
| Metrics.PercentOf | federal-regulations-analyzer/backend/src/services/dataImporter.js:291 | `k / n * 100` for `0 <= k <= n` lies in [0, 100]; it is 100 exactly when `k = n` and 0 exactly when `k = 0` |
| Metrics.NumSum | federal-regulations-analyzer/backend/src/services/dataImporter.js:281-282 | a sum of numbers is NaN exactly when one of them is |
| Metrics.NumSumWithin | federal-regulations-analyzer/backend/src/services/dataImporter.js:281-282 | a sum of scores in [0, 100] lies in [0, 100·count] |
| Metrics.AverageComplexity | federal-regulations-analyzer/backend/src/services/dataImporter.js:278-282 | the average is NaN exactly for an empty list or when some content scores NaN |
| Metrics.AverageComplexityInRange | federal-regulations-analyzer/backend/src/services/dataImporter.js:278-282 | for normalised contents the average complexity is a number in [0, 100] |
| Metrics.DeregulationScore | federal-regulations-analyzer/backend/src/services/dataImporter.js:348-357 | the clamped weighted score lies in [10, 100] |
| Metrics.DeregulationMonotoneInComplexity | federal-regulations-analyzer/backend/src/services/dataImporter.js:349-355 | higher average complexity never lowers the score |
| Metrics.DeregulationMonotoneInWords | federal-regulations-analyzer/backend/src/services/dataImporter.js:341-355 | longer regulations never lower the score |
| Metrics.DeregulationAntitoneInFrequency | federal-regulations-analyzer/backend/src/services/dataImporter.js:351-355 | more frequent updates never raise the score |
| Metrics.DeregulationExtremes | federal-regulations-analyzer/backend/src/services/dataImporter.js:348-357 | the bounds are reached: 100 at the worst inputs, 10 at the best |
| Metrics.CalculateDeregulationScore | federal-regulations-analyzer/backend/src/services/dataImporter.js:340-358 | the score is NaN exactly when the list is empty or an input is NaN, and otherwise lies in [10, 100] |
| Metrics.RoundNum | federal-regulations-analyzer/backend/src/services/dataImporter.js:305 | `Math.round` keeps NaN; otherwise the result is a whole number within 0.5 of its input, halves rounding up |
| Metrics.WordsMetricWithin | federal-regulations-analyzer/backend/src/services/dataImporter.js:303-306 | the stored average word count is a whole number between the smallest and the largest word count |
| Metrics.ScoreMetricsInRange | federal-regulations-analyzer/backend/src/services/dataImporter.js:307-318 | for normalised contents the stored complexity lies in [0, 100] and the stored deregulation score in [10, 100] |
| Metrics.FrequencyMetricInRange | federal-regulations-analyzer/backend/src/services/dataImporter.js:311-314 | the stored update frequency of a non-empty list lies in [0, 100] |
| Metrics.AgencyMetricsInRange | federal-regulations-analyzer/backend/src/services/dataImporter.js:301-320 | exactly six metrics; `total_words` is the sum and `regulation_count` the length, none is NaN, and each lies in its range |
| Metrics.OverwriteEffect | federal-regulations-analyzer/backend/src/services/dataImporter.js:266-337 | visiting the agencies in turn, each computed list replaces that agency's metrics and every other entry stays |
| Metrics.RefreshMetricsEffect | federal-regulations-analyzer/backend/src/services/dataImporter.js:266-337 | an agency with regulations ends with exactly its six metrics; any other agency keeps what it had |
| Metrics.NoneOwned | federal-regulations-analyzer/backend/src/services/dataImporter.js:262-269 | an agency no regulation points to has an empty `Regulations` list |
| Metrics.SkipsAgenciesWithoutRegulations | federal-regulations-analyzer/backend/src/services/dataImporter.js:269 | the stored metrics of an agency without regulations are left exactly as they were |
| Metrics.WordCountsWithinTotal | federal-regulations-analyzer/backend/src/services/dataImporter.js:271-274 | no word count exceeds the total |
| Metrics.OwnedContentIsNormalized | federal-regulations-analyzer/backend/src/services/dataImporter.js:166-168 | in a store the importer keeps consistent, every agency's regulations hold normalised text |
| Metrics.RefreshedMetricsAreNumbers | federal-regulations-analyzer/backend/src/services/dataImporter.js:259-338 | after a consistent import, every agency with regulations has six metrics, none NaN, each in its range |
| DataImporter.Store.FindOne | federal-regulations-analyzer/backend/src/services/dataImporter.js:171-178 | the scan returns the first row at the locator, or none when no row is there, and throws as the store does |
| DataImporter.Store.FindOrCreateAgency | federal-regulations-analyzer/backend/src/services/dataImporter.js:132-140 | `findOrCreate` on the title number; only the agency table changes |
| DataImporter.Store.InsertRegulation | federal-regulations-analyzer/backend/src/services/dataImporter.js:206-215 | the row is appended and its id returned, unless the call throws |
| DataImporter.Store.InsertHistory | federal-regulations-analyzer/backend/src/services/dataImporter.js:183-189 | the history row is appended, unless the call throws |
| DataImporter.Store.UpdateRegulation | federal-regulations-analyzer/backend/src/services/dataImporter.js:192-197 | only the content, word count, checksum and date of that row change, unless the call throws |
| DataImporter.Store.DestroyMetrics | federal-regulations-analyzer/backend/src/services/dataImporter.js:323 | the agency's metrics are removed |
| DataImporter.Store.CreateMetric | federal-regulations-analyzer/backend/src/services/dataImporter.js:325-331 | one metric row joins the agency's metrics |
| DataImporter.LookupFirst | federal-regulations-analyzer/backend/src/services/dataImporter.js:171-178 | a scan that stops at the first match finds what `findOne` finds |
| DataImporter.Importer.constructor | federal-regulations-analyzer/backend/src/services/dataImporter.js:10-16 | a new importer has counted nothing and recorded no error |
| DataImporter.Importer.ProcessSection | federal-regulations-analyzer/backend/src/services/dataImporter.js:165-231 | one pass of the section loop changes the store and the count exactly as `ImportModel.ReconcileSection` says |
| DataImporter.Importer.CreateRegulation | federal-regulations-analyzer/backend/src/services/dataImporter.js:205-224 | creating a regulation and its `created` history row changes the store as `ImportModel.CreateAt` says |
| DataImporter.Importer.ReviseRegulation | federal-regulations-analyzer/backend/src/services/dataImporter.js:182-198 | the `modified` history row, then the update, change the store as `ImportModel.ReviseAt` says |
| DataImporter.Importer.ProcessPart | federal-regulations-analyzer/backend/src/services/dataImporter.js:162-243 | the loop stops at the first throw and records it as one part error, matching `ImportModel.ProcessPartSpec` |
| DataImporter.Importer.ProcessTitle | federal-regulations-analyzer/backend/src/services/dataImporter.js:125-160 | find or create the agency, then at most three parts, matching `ImportModel.ProcessTitleSpec` |
| DataImporter.Importer.ReplaceMetrics | federal-regulations-analyzer/backend/src/services/dataImporter.js:322-331 | destroy, then create one by one: the agency ends with exactly the new list |
| DataImporter.Importer.CalculateMetrics | federal-regulations-analyzer/backend/src/services/dataImporter.js:259-338 | the metrics table becomes `Metrics.RefreshMetrics` of the old one, and no other table changes |
| DataImporter.Importer.ImportData | federal-regulations-analyzer/backend/src/services/dataImporter.js:38-43 | every title is processed in order, as `ImportModel.ImportTitlesSpec` says, and then the metrics are refreshed |
| Analysis.BucketMonotone | federal-regulations-analyzer/backend/src/controllers/analysisController.js:57-62 | more words never give a lower distribution bucket |
| Analysis.BucketCount | federal-regulations-analyzer/backend/src/controllers/analysisController.js:55-73 | a group's `COUNT(*)` never exceeds the number of regulations |
| Analysis.BucketsPartition | federal-regulations-analyzer/backend/src/controllers/analysisController.js:55-73 | the four groups together count every regulation with a positive word count exactly once |
| Analysis.MissingWordCountIsZero | federal-regulations-analyzer/backend/src/controllers/analysisController.js:97 | a NULL or zero word count is 0, labelled Low/Low, with Medium potential and zero savings |
| Analysis.ImpactFollowsComplexity | federal-regulations-analyzer/backend/src/controllers/analysisController.js:98-110 | impact is High if and only if complexity is Very High, Low if and only if complexity is Low, and Medium otherwise |
| Analysis.SelectedRowsAreNeverLow | federal-regulations-analyzer/backend/src/controllers/analysisController.js:91-110 | rows the query keeps (150 words or more) are never labelled Low |
| Analysis.LabelsMonotone | federal-regulations-analyzer/backend/src/controllers/analysisController.js:101-110 | more words never lower the complexity or the impact label |
| Analysis.PotentialHighAbove175 | federal-regulations-analyzer/backend/src/controllers/analysisController.js:126 | the simplification potential is High if and only if the word count is strictly above 175 |
| Analysis.BoundaryAt175 | federal-regulations-analyzer/backend/src/controllers/analysisController.js:104-126 | at exactly 175 words the complexity is High but the potential is Medium |
| Analysis.SavingsRange | federal-regulations-analyzer/backend/src/controllers/analysisController.js:123-125 | the top of the savings range is five times its bottom, and both are non-negative for a non-negative count |
| Analysis.PreviewShape | federal-regulations-analyzer/backend/src/controllers/analysisController.js:127-129 | content gives its first 100 characters (all of them if shorter) followed by `"..."`; the fixed text appears if and only if there is no content |
| Analysis.AgencyFallback | federal-regulations-analyzer/backend/src/controllers/analysisController.js:119 | short name, else agency name, else `"Unknown Agency"`; never empty |
| Analysis.TitleNamesSection | federal-regulations-analyzer/backend/src/controllers/analysisController.js:113-115 | the title starts with `"Part p"` and continues with `", Section s"` if and only if the section number is truthy |
| Analysis.DistributionAndOpportunityLabels | federal-regulations-analyzer/backend/src/controllers/analysisController.js:57-110 | from 175 words up the two classifications agree; from 150 to 174 the distribution says High and the opportunity says Medium |
| Analysis.FormatRow | federal-regulations-analyzer/backend/src/controllers/analysisController.js:201-208 | the agency is the short name if truthy, else the name; the average is rounded to the nearest whole number; each NULL column becomes 0 |
| Analysis.FormattedAverageBetweenExtremes | federal-regulations-analyzer/backend/src/controllers/analysisController.js:184-189 | when the query's `MIN <= AVG <= MAX`, the formatted row keeps `min_word_count <= avg_word_count <= max_word_count` |
| Analysis.WordCountSummary | federal-regulations-analyzer/backend/src/controllers/analysisController.js:219-228 | counts the agencies; the overall average is NaN if and only if there are no agencies |
| Analysis.SumOfAveragesWithin | federal-regulations-analyzer/backend/src/controllers/analysisController.js:223-226 | the sum of the averages lies between the count times the smallest and the count times the largest |
| Analysis.OverallAverageWithin | federal-regulations-analyzer/backend/src/controllers/analysisController.js:223-228 | `overall_avg_words` lies between the smallest and the largest per-agency average |
| Analysis.UniformAverages | federal-regulations-analyzer/backend/src/controllers/analysisController.js:223-228 | when every agency has the same average, that is the overall average |
| Analysis.TotalCoversEachAgency | federal-regulations-analyzer/backend/src/controllers/analysisController.js:219-222 | with non-negative counts, `total_regulations` is at least each agency's count |

## Where the code and its specification differ

The model follows the code in each case.

- **Word count of a sample sentence.** A description of the service counts "Entities shall maintain records pursuant to 40 CFR 60 for seven years." as 11 words. `countWords` splits on white space, so it counts the 12 space-separated pieces of that sentence. `TextMetrics.SampleSentenceWordCount` proves that `TextMetrics.CountWords` gives 12.
- **Range of the complexity score.** The description says the score is clamped to [0, 100]. The code applies only `Math.min(100, …)`. The lower bound still holds, because every term is non-negative. For non-empty text with no word, the code divides 0 by 0 and returns NaN. `TextMetrics.ComplexityScore` states all three cases.
- **Numeric tokens.** The same description lists 40, 60 and 7 as numeric tokens. `/\d+/g` matches only digit runs, so "seven" is not one.

## Left out

- **The network path is left out.** This covers `initializeClient` and `getFederalRegisterCFR` (ecfrService.js:17-74), `getRealCFRData`, and the choice in `importData` between real and sample data. They call endpoints this model cannot see. `DataImporter.Importer.ImportData` takes the titles as an input instead.
- **`convertFRDataToCFR` is left out.** It belongs to the real-API path. As written it assigns to a `const` (dataImporter.js:100), so it throws on any non-empty result, and `getRealCFRData` then falls back to sample data.
- **MD5 is left out.** It is a library call, so the digest is the parameter `digest`. The model keeps that the checksum is deterministic and treats a falsy content as `""`. It does not model hex encoding or collision behaviour.
- **Tables are parameters.** The content-template table (ecfrService.js:149-257) is passed as `templates`, the list of CFR titles as `titles`, and the ten requirements (ecfrService.js:261-272) as `requirements`. All three are data, not logic. `SampleData.Requirements` holds the source's ten requirements, and `SampleData.RequirementsHasTenEntries` shows they meet the generators' precondition.
- **Randomness and time are parameters.** `Math.random` is a stream `rnd` of values in [0, 1). `Date.now()` and `new Date()` are the single parameter `now`. The source reads the clock at each use.
- **Floating point is modelled with exact reals.** IEEE rounding error is not modelled. `Math.round` is floor(x + 0.5).
- **Analysis.ToOpportunity:** keeps `estimated_savings` as its two integers. The `$` prefix and the `toLocaleString` digit grouping are locale formatting.
- **The SQL queries are left out.** The rows a query returns are inputs. This covers the `WHERE word_count >= 150 ORDER BY word_count DESC LIMIT 15` selection, `GROUP BY`, and SQL `AVG`. `Analysis.BucketCount` models the per-group `COUNT(*)` of the distribution query.
- **The ORM is modelled as tables.**
  - The store is a set of tables (sequences), not a map from locators to regulations, and a row's id is its position plus one. Rows are never deleted, so this matches an auto-increment key.
  - `findOrCreate` is one atomic call.
  - The schema, the snake_case column names and the missing `AnalysisMetric` export are not modelled.
- **DataImporter.Importer.CalculateMetrics:** metric store calls never throw here. In the source they are not caught and abort the whole import.
- **Regulations always carry a date and a word count.** The importer always writes `lastUpdated` and `wordCount`, so the `reg.lastUpdated &&` test and `reg.wordCount || 0` in `calculateMetrics` are always true and always the count.
- **`await` is modelled as sequential calls.** Calls run one after another, with no interleaving.
- **Plumbing is left out.** This covers `delay`, logging, `logSummary`, `startTime`, the Express routes, the other endpoints of the analysis controller, `agenciesController.js`, and the older copies under `controllers/`.
- **Text handling is limited.**
  - Strings are sequences of UTF-16 code units.
  - The `\b` and `\w` of the signal-word and reference patterns are ASCII-only, as in JavaScript without the `u` flag.
  - `\s` is the JavaScript white-space set listed in `TextMetrics.IsSpace`.
