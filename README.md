# ghmap core, modelled in Dafny

ghmap turns raw GitHub event records into higher-level *actions* and then
*activities*. This project models the three pieces of decision logic in
that pipeline and proves properties about them:

- **The rule engine** (`ActionMapping`, from `ghmap/mapping/action_mapper.py`).
  A mapping document lists named rules in document order. Each rule has
  `event` conditions (a `type` discriminator plus path/condition pairs)
  and `attributes` that say how to build the output record.
  - Dotted-path field access, the recursive condition matcher, field
    projection (including the list-extraction form) and the
    first-match-wins classifier with its `strict`/`flexible` fallback are
    functions.
  - The loops of `_extract_field`, `_extract_fields`,
    `_extract_attributes` and `map` are methods, each proved equal to the
    specification function.
  - Records are JSON values (`Json.Value`). Python's dynamic type errors
    are raised as `Err(TypeError)` in the same evaluation order, and an
    absent rule key is `Err(KeyError)`.
  - The regular-expression engine is a parameter of the mapper.
- **The preprocessing filter** (`EventProcessing`, from
  `ghmap/preprocess/event_processor.py`). It is a class `EventProcessor`
  whose fields `processedIds` and `pendingEvents` are updated by every
  call.
  - Three exclusion filters run first: by actor, by repository and by
    organisation.
  - The redundancy filter then drops a `PullRequestReviewEvent` in two
    cases:
    - a same-actor, same-repository review comment lies within 2 seconds,
      scanning outward from the review until the first event outside the
      window;
    - the review repeats the review that was emitted just before it.
  - Each method is proved against a specification function. Lemmas about
    that function state its subsequence, identifier and carry-over
    properties.
  - Timestamps are integer milliseconds since the Unix epoch.
- **Mapping-version periods** (`MappingVersions`, from `ghmap/cli.py`).
  - Mapping file names carry a platform and an effective date.
  - The events are cut into half-open periods between consecutive version
    dates.
  - Each period is mapped with the latest mapping files whose date is at
    or before the period's midpoint.
  - Times are integer microseconds from `0001-01-01T00:00:00` UTC, so
    `datetime.min` is `0` and `datetime.max` is `315537897599999999`.
    Integer division by 2 is modelled as `timedelta`'s
    round-half-to-even.
  - Date parsing is a parameter (`parseDate`).
  - `SplitEventsByMappingVersions` reads event dates as the code does, so
    an integer `created_at` raises `AttributeError` (see "## Findings");
    `SplitEventsByMappingVersionsCorrected` reads it as Unix milliseconds.

`Basics` (options, results, association lists, order-preserving filters),
`Text` (`str.split`/`join`, `replace` with the empty string, ASCII
`lower`, `in` on strings) and `Json` (values, `dict.get`, truthiness,
Python equality) hold the vocabulary that the three modules share.

Two behaviours of the code are modelled as written and documented by
lemmas:

- **The redundancy filter leaks across calls.** A review dropped in one
  call is not recorded in `processed_ids`. If it sits among the last
  three combined events, it is carried into the next call. There the
  review it repeated is no longer the last output, so the filter emits it
  (`EventProcessor.CarryOverExample`, `ReviewPairSecondCall`). Splitting
  an event list into batches can therefore let through a review that a
  single call drops.
- **The window is measured from the anchor.** Both scans compare each
  neighbour with the review itself, not with the neighbour next to it.
  So a long run of close events is cut off by distance from the anchor
  alone.

## Model

| member | source | states |
|---|---|---|
| ActionMapping.NewActionMapper | ghmap/mapping/action_mapper.py:21-26 | No contract; the constructor as a value: the event-type and date keys default to `type` and `created_at` when the mapping's parameters omit them. |
| ActionMapping.ExtractField | ghmap/mapping/action_mapper.py:126-137 | The path walk returns `FieldAt(record, keys)`: a list met on the way is returned, a missing or null key gives null, a scalar with keys left raises. |
| ActionMapping.FieldAtAppend | ghmap/mapping/action_mapper.py:131-137 | Walking `p + q` is walking `p`, then going on with `q` unless the walk stopped early at a list, a null or an error. |
| ActionMapping.FieldAtMissingKey | ghmap/mapping/action_mapper.py:134-136 | Once a key along the path is missing or null, the result is null whatever keys follow. |
| ActionMapping.FieldAtReachesList | ghmap/mapping/action_mapper.py:132-133 | Once the path reaches a list, that list is the result and the remaining keys are ignored. |
| ActionMapping.MatchEntriesAll | ghmap/mapping/action_mapper.py:55-58 | The dict scan succeeds iff every expected entry whose key the event dict has matches. |
| ActionMapping.MatchDict | ghmap/mapping/action_mapper.py:54-58 | A dict condition matches iff every expected entry present in the event dict matches. An empty condition matches anything. A key test on a null, boolean or integer raises. |
| ActionMapping.MatchPositionsAll | ghmap/mapping/action_mapper.py:61-64 | The zipped scan succeeds iff every position up to the shorter length matches. |
| ActionMapping.MatchList | ghmap/mapping/action_mapper.py:60-64 | A list condition fails on a null or empty event value. Against a non-empty list it matches iff every position up to the shorter length matches. |
| ActionMapping.MatchSelf | ghmap/mapping/action_mapper.py:52-73 | A condition without regex strings or empty lists, and with distinct dict keys, is matched by an event value equal to it. |
| ActionMapping.MatchCondition | ghmap/mapping/action_mapper.py:52-73 | No contract; the definition of `_match_condition`: a dict is matched through `MatchEntries`, a list through `MatchPositions` when the event value is truthy, an anchored `^…$` string by the regex parameter (a non-string event value raises `TypeError`), anything else by Python equality. Its properties are `MatchDict`, `MatchList` and `MatchSelf`. |
| ActionMapping.ProjectValue | ghmap/mapping/action_mapper.py:97-109 | A nested mapping projects to a dict and a list form to a list. |
| ActionMapping.ProjectPrefix | ghmap/mapping/action_mapper.py:96-110 | After `n` entries, the output has exactly the keys of the first `n` mapping entries. |
| ActionMapping.ExtractFields | ghmap/mapping/action_mapper.py:94-110 | The key-by-key loop returns `ProjectFields(record, fields)` and stops at the first entry that raises. |
| ActionMapping.ExtractValue | ghmap/mapping/action_mapper.py:98-109 | One entry's value is `ProjectValue`: recursion for a dict, list extraction for a list, a path lookup otherwise. |
| ActionMapping.ProjectKeys | ghmap/mapping/action_mapper.py:96-110 | With distinct mapping keys, the output's keys are the mapping's keys in the same order. |
| ActionMapping.ProjectPrefixErr | ghmap/mapping/action_mapper.py:97-109 | An error raised by an entry is the error of the whole projection. |
| ActionMapping.ProjectOk | ghmap/mapping/action_mapper.py:96-110 | The projection succeeds iff every entry's value can be computed. |
| ActionMapping.ProjectLookup | ghmap/mapping/action_mapper.py:97-109 | With distinct keys, each output key holds the projection of that key's mapping value. |
| ActionMapping.RowSpec | ghmap/mapping/action_mapper.py:118-124 | A list-extraction row has exactly the row mapping's keys. Each key holds `item.get(last segment)`. |
| ActionMapping.ProjectRowsSpec | ghmap/mapping/action_mapper.py:118-124 | One row per base item, in order. The rows exist iff every item is a dict. |
| ActionMapping.ListExtraction | ghmap/mapping/action_mapper.py:112-124 | A non-list base value gives `[]`. Otherwise it gives one dict per item, keyed by the first row mapping's keys, each holding `item.get(last segment)`. It succeeds iff every item is a dict. |
| ActionMapping.ProjectList | ghmap/mapping/action_mapper.py:112-124 | No contract; the definition of `_extract_list`. An empty list form raises `IndexError`. Its meaning is stated by `ListExtraction` and `ProjectRowsSpec`. |
| ActionMapping.ExtractAttributes | ghmap/mapping/action_mapper.py:75-92 | Building `mapped_action` step by step returns `MappedAction`. |
| ActionMapping.MappedActionShape | ghmap/mapping/action_mapper.py:79-92 | The output is a dict whose first key is `action` and whose `details` is the projected details. `action` is the rule name unless common fields override it. Without common fields those are its only keys. |
| ActionMapping.MappedActionPlain | ghmap/mapping/action_mapper.py:79-90 | Without common fields, the output is exactly `{'action': name, 'details': projection}`, or the projection's error. |
| ActionMapping.Classify | ghmap/mapping/action_mapper.py:156-172 | A chosen rule index is a valid rule position. |
| ActionMapping.ConditionsHoldAll | ghmap/mapping/action_mapper.py:161-166 | The conditions hold iff each non-`type` condition's path value matches. |
| ActionMapping.RuleMatchesSpec | ghmap/mapping/action_mapper.py:159-166 | A rule applies iff the event type equals its `type` and every other condition holds. A different type never evaluates the conditions. |
| ActionMapping.ClassifySome | ghmap/mapping/action_mapper.py:156-172 | The first match wins: rule `k` is chosen iff the type can be read, rule `k` applies, and every earlier rule was evaluated without error and does not apply. |
| ActionMapping.ClassifyNone | ghmap/mapping/action_mapper.py:158-173 | No rule is chosen iff the type can be read and every rule was evaluated without error and does not apply. |
| ActionMapping.MapEvent | ghmap/mapping/action_mapper.py:153-191 | The inner rule loop with `break`/`else` computes `MapRecord`. The fallback flag is set iff the `else` branch is taken under `flexible`. |
| ActionMapping.MapRecord | ghmap/mapping/action_mapper.py:153-191 | No contract; the definition of one iteration of `map`: the first matching rule's attributes, otherwise the strict error, the flexible `UnknownAction` fallback or `InvalidMappingStrategy`. Its properties are `MapRecordFlag`, `StrategyOnMatched` and `StrategyOnUnmatched`. |
| ActionMapping.NextOutcome | ghmap/mapping/action_mapper.py:150-191 | The loop body on event `i` is the `i`-th outcome. |
| ActionMapping.Map | ghmap/mapping/action_mapper.py:139-193 | `map` returns the actions of `MapAll` or its error. The warning is issued at most once, and exactly when some event fell back. |
| ActionMapping.OutcomeAt | ghmap/mapping/action_mapper.py:150-191 | Outcome `k` is the mapping of event `k`. |
| ActionMapping.OutcomesAll | ghmap/mapping/action_mapper.py:150-191 | Every outcome is the mapping of the event at the same position. |
| ActionMapping.AccumulateStep | ghmap/mapping/action_mapper.py:171-189 | A successful event appends its action and ORs its fallback flag into the warning flag. |
| ActionMapping.AccumulateErr | ghmap/mapping/action_mapper.py:175-191 | Once `map` has raised, later events change nothing. |
| ActionMapping.AccumulateOk | ghmap/mapping/action_mapper.py:147-193 | The fold succeeds iff every outcome does. It then holds one action per outcome, in order, and warns iff some outcome fell back. |
| ActionMapping.AccumulateFirstError | ghmap/mapping/action_mapper.py:175-191 | A failed fold raises the error of the first failing outcome. |
| ActionMapping.MapRecordFlag | ghmap/mapping/action_mapper.py:179-183 | An event falls back iff it matched no rule and the strategy is `flexible`. |
| ActionMapping.MapAllOk | ghmap/mapping/action_mapper.py:147-193 | `map` succeeds iff every event can be mapped. It then gives one action per event, in input order. |
| ActionMapping.MapAllWarned | ghmap/mapping/action_mapper.py:179-182 | The warning is issued iff the strategy is `flexible` and some event matched no rule. |
| ActionMapping.MapAllFirstError | ghmap/mapping/action_mapper.py:175-191 | A failed `map` raises the error of the first event that cannot be mapped. |
| ActionMapping.StrategyOnMatched | ghmap/mapping/action_mapper.py:158-172 | The strategy does not affect a matched event, and such an event never falls back. |
| ActionMapping.StrategyOnUnmatched | ghmap/mapping/action_mapper.py:173-191 | For an unmatched event: `strict` raises `UnknownAction`; an unknown strategy raises `Invalid mapping_strategy`; `flexible` maps it with the `UnknownAction` rule, or raises `KeyError` without one. |
| ActionMapping.MapAllStrategyIrrelevant | ghmap/mapping/action_mapper.py:158-191 | When every event matches a rule, all strategies give the same result. |
| ActionMapping.MapAllNotFlexible | ghmap/mapping/action_mapper.py:175-191 | Under any strategy but `flexible`, a successful `map` matched every event and issued no warning. |
| ActionMapping.MapAllFlexible | ghmap/mapping/action_mapper.py:158-189 | Under `flexible`, action `k` is the output of the first matching rule, or the `UnknownAction` fallback. |
| ActionMapping.StarClassify | ghmap/mapping/action_mapper.py:158-167 | A `WatchEvent` is classified under a one-rule `Star` mapping. |
| ActionMapping.StarAttributes | ghmap/mapping/action_mapper.py:79-92 | The `Star` rule builds `{"action": "Star", "details": {"repo": "r"}}`. |
| ActionMapping.StarExample | ghmap/mapping/action_mapper.py:139-193 | Mapping that `WatchEvent` under `flexible` gives the `Star` action and no warning. |
| EventProcessing.IsWithinTimeWindow | ghmap/preprocess/event_processor.py:33-39 | No contract; the definition: the timestamps differ by at most 2000 ms. Its properties are in `WindowSymmetric`. |
| EventProcessing.WindowSymmetric | ghmap/preprocess/event_processor.py:33-39 | The window test is symmetric, and holds iff the timestamps differ by at most 2 seconds. |
| EventProcessing.RemoveUnwantedActors | ghmap/preprocess/event_processor.py:88-91 | Keeps, in order, exactly the events whose actor login is not excluded. |
| EventProcessing.RemoveUnwantedRepos | ghmap/preprocess/event_processor.py:93-96 | Keeps, in order, exactly the events whose repository name is not excluded. |
| EventProcessing.RemoveUnwantedOrgs | ghmap/preprocess/event_processor.py:98-101 | Keeps, in order, exactly the events whose organisation login is not excluded. |
| EventProcessing.RemoveUnwantedCounts | ghmap/preprocess/event_processor.py:148-151 | After the three exclusion filters, every copy of an allowed event survives and no copy of an excluded one. |
| EventProcessing.EventProcessor.constructor | ghmap/preprocess/event_processor.py:14-18 | A new processor has no processed ids and no pending events. |
| EventProcessing.EventProcessor.ShouldKeepEvent | ghmap/preprocess/event_processor.py:41-62 | Keep iff neither the backward nor the forward scan, each stopping at the first neighbour outside the anchor's window, meets a same-actor, same-repository review comment. |
| EventProcessing.EventProcessor.FilterRedundantReviewEvents | ghmap/preprocess/event_processor.py:64-86 | The new pending events are the last three of pending plus new events. The output and the new processed ids are the specification `FilterPrefix` run over that combined list from the old ids. |
| EventProcessing.EventProcessor.ApplyFilters | ghmap/preprocess/event_processor.py:148-156 | Exclusion filters first. Then, on `github` only, the redundancy filter with its state update; on any other platform the state is unchanged. |
| EventProcessing.Emits | ghmap/preprocess/event_processor.py:70-84 | No contract; the definition of one iteration's decision: the id is unprocessed and, for a review, no conflicting comment is in its window and it does not repeat the review emitted last. |
| EventProcessing.FilterPrefix | ghmap/preprocess/event_processor.py:64-86 | No contract; the definition of the loop: the output and processed ids after the first `n` combined events. Its properties are the Filter* lemmas. |
| EventProcessing.FilterSubsequence | ghmap/preprocess/event_processor.py:70-84 | The output is a subsequence of the combined input. |
| EventProcessing.FilterGrows | ghmap/preprocess/event_processor.py:70-84 | The output only grows as the loop advances. |
| EventProcessing.FilterIds | ghmap/preprocess/event_processor.py:70-84 | The recorded ids are the old ids plus the output's ids. No output id was seen before, and output ids are pairwise distinct. |
| EventProcessing.FilterOrigin | ghmap/preprocess/event_processor.py:70-84 | Every output event was emitted at some input position by the emission rule. |
| EventProcessing.FilterEmitsUnseenOther | ghmap/preprocess/event_processor.py:82-84 | A non-review event whose id is not among the processed ids when the loop reaches it is emitted there and its id recorded, and both remain in the final output and ids. |
| EventProcessing.FilterFreshIdUnseen | ghmap/preprocess/event_processor.py:67-84 | An id not processed before the call and occurring at no earlier position of the combined list is still unprocessed when the loop reaches it. |
| EventProcessing.FilterDropsConflicted | ghmap/preprocess/event_processor.py:71-81 | A review with a conflicting neighbour (and a unique, unseen id) is neither emitted nor recorded. |
| EventProcessing.FilterNoDuplicateReviews | ghmap/preprocess/event_processor.py:73-81 | No two neighbouring output events are same-actor, same-repository reviews within the window. |
| EventProcessing.ReviewBurstFiltered | ghmap/preprocess/event_processor.py:64-86 | Three reviews around a review comment, all within 2 seconds: only the comment is emitted. |
| EventProcessing.ReviewPairFirstCall | ghmap/preprocess/event_processor.py:73-81 | Of two close reviews by one actor on one repository, the second is dropped. |
| EventProcessing.ReviewPairSecondCall | ghmap/preprocess/event_processor.py:66-84 | With the first review's id already recorded, the carried-over second review is emitted. |
| EventProcessing.EventProcessor.CarryOverExample | ghmap/preprocess/event_processor.py:64-86 | A fresh processor fed the review pair, then nothing, emits the first review and then the second. |
| MappingVersions.ExtractVersionInfo | ghmap/cli.py:15-42 | No contract; the definition. Its properties are `ExtractFromParts` and `ExtractRefusesShortNames`. |
| MappingVersions.ExtractFromParts | ghmap/cli.py:15-42 | A mapping file name made of at least three `_`-free parts joined by `_` plus `.json` yields its first part as the platform and its last part, parsed, as the version date. |
| MappingVersions.StripJson | ghmap/cli.py:22 | `replace('.json', '')` on a name whose only `.json` is its extension gives back the name without it. |
| MappingVersions.ExtractRefusesShortNames | ghmap/cli.py:22-26 | A name is rejected as malformed iff it has fewer than two `_` once `.json` is removed, i.e. fewer than three parts. |
| MappingVersions.MappingKind | ghmap/cli.py:61-66 | No contract; the definition: a lower-cased name containing `action` is an action mapping, otherwise one containing `activity` is an activity mapping, otherwise neither. |
| MappingVersions.CatalogueDates | ghmap/cli.py:53-67 | A date is in a kind's dictionary iff some listed file of that kind and platform carries it. |
| MappingVersions.CatalogueLast | ghmap/cli.py:53-67 | A catalogued date maps to the last listed file of that kind carrying it. |
| MappingVersions.Latest | ghmap/cli.py:75-88 | None iff every version is after the date. Otherwise it is the greatest version at or before the date. |
| MappingVersions.LatestMonotone | ghmap/cli.py:75-88 | A later date selects a version that is no older. |
| MappingVersions.LatestFile | ghmap/cli.py:85-88 | A file is found iff some version is at or before the date. |
| MappingVersions.FindValidMappings | ghmap/cli.py:45-93 | The file loop builds the two dictionaries (`action` matched before `activity`), and the result is the latest file of each kind at or before the date. |
| MappingVersions.HalfDuration | ghmap/cli.py:319 | No contract; the definition of `timedelta / 2` on microseconds, rounding a half to even. `Midpoint` states its bounds. |
| MappingVersions.Midpoint | ghmap/cli.py:319 | The midpoint of a period lies in `[start, end]`, and inside the period when the period is non-empty. |
| MappingVersions.ProcessPeriod | ghmap/cli.py:319-324 | Both mapping files chosen at the midpoint, or a skip when either kind has none. |
| MappingVersions.Sorted | ghmap/cli.py:108 | `sorted(version_dates)` is strictly increasing and holds exactly the versions. |
| MappingVersions.TimePeriods | ghmap/cli.py:128-138 | Its ensures restates the definition: period `i` runs from version `i` to the next version, or to `datetime.max` after the last. Its properties are `PeriodBefore`, `PeriodsContiguous`, `PeriodsDisjoint` and `PeriodsCover`. |
| MappingVersions.PeriodBefore | ghmap/cli.py:128-138 | With increasing versions, a period ends no later than any later period starts. |
| MappingVersions.PeriodsContiguous | ghmap/cli.py:128-138 | Each period ends where the next begins, and the last ends at `datetime.max`. |
| MappingVersions.CreateTimePeriods | ghmap/cli.py:128-138 | The loop builds `TimePeriods(sorted_versions)`. |
| MappingVersions.PeriodsDisjoint | ghmap/cli.py:128-138 | No time lies in two periods. |
| MappingVersions.PeriodsCover | ghmap/cli.py:128-138 | Every time from a version up to `datetime.max` lies in some period from that version on. |
| MappingVersions.Locate | ghmap/cli.py:152-156 | The first period containing the time, or none when no period contains it. |
| MappingVersions.LocateInPeriods | ghmap/cli.py:152-156 | A time finds a period iff it is at or after the first version (and before `datetime.max`), and the period found is the one that contains it. |
| MappingVersions.EventDateAsWritten | ghmap/cli.py:161-171 | No contract; the definition of `_parse_event_date(event.get('created_at'))` as written: a falsy date is `None`, a string goes to the parser, and any other value raises `AttributeError`. |
| MappingVersions.MillisDateRaises | ghmap/cli.py:161-171 | As written, an event whose `created_at` is a non-zero integer makes the date reading raise. |
| MappingVersions.MillisDateRead | ghmap/cli.py:161-171 | The corrected reading takes that integer as Unix milliseconds. |
| MappingVersions.EventDateExtends | ghmap/cli.py:161-171 | The corrected reading agrees with the one as written wherever that one does not raise, and raises only where that one does. |
| MappingVersions.GroupsStep | ghmap/cli.py:149-156 | Handling one more event appends it to the list of the first period containing its date, or changes nothing. |
| MappingVersions.AssignEventsToPeriods | ghmap/cli.py:141-158 | The nested loops with `break` return `Groups`, or raise when some event's date cannot be read. |
| MappingVersions.NonEmptyIndices | ghmap/cli.py:111-112 | Exactly the positions of the non-empty lists, in increasing order. |
| MappingVersions.SplitEventsByMappingVersions | ghmap/cli.py:96-112 | As written, with `_parse_event_date` reading the dates (`EventDateAsWritten`). No versions gives a single `datetime.min`..`datetime.max` period holding every event. Otherwise the result is the periods of the sorted versions with their events, empty ones removed, or `AttributeError` when some event's date raises. |
| MappingVersions.SplitByVersions | ghmap/cli.py:103-112 | For any reading of event dates, the steps after version discovery compute `EventsByPeriod`, whose meaning the Split* lemmas below state. |
| MappingVersions.SplitEventsByMappingVersionsCorrected | ghmap/cli.py:96-112 | The same split with the corrected date reading (`EventDate`). |
| MappingVersions.MillisSplit | ghmap/cli.py:108-109 | With at least one version, one event with an integer `created_at` makes the split as written raise `AttributeError`, while the corrected split succeeds. |
| MappingVersions.GroupMembership | ghmap/cli.py:146-156 | An event is in period `i`'s list iff its date is read and lies in period `i`. |
| MappingVersions.GroupPlacement | ghmap/cli.py:146-156 | An event is placed iff its date is read and lies between the first version and `datetime.max`. |
| MappingVersions.SplitPeriodAt | ghmap/cli.py:104-112 | With versions, each returned period holds events, is non-empty, starts at a version and contains no other version. |
| MappingVersions.NoVersionInside | ghmap/cli.py:128-138 | A period is non-empty and no version lies strictly inside it. |
| MappingVersions.SplitPeriods | ghmap/cli.py:104-112 | With versions, every returned period holds events, starts at a version and contains no other version, and the periods follow one another without overlap. |
| MappingVersions.SplitMembership | ghmap/cli.py:141-158 | A returned period's events are exactly the input events dated inside it, in input order and with every copy. |
| MappingVersions.SplitPlacement | ghmap/cli.py:148-156 | An event is returned iff its date is read, is before `datetime.max`, and is not before every version. Undated and too-early events are dropped. |
| MappingVersions.SplitUnique | ghmap/cli.py:152-156 | No event is returned in two periods. |
| MappingVersions.MidpointAsStart | ghmap/cli.py:319-320 | When no version lies inside a period, the latest version of any subset at the midpoint equals the latest at the start. |
| MappingVersions.PeriodVersion | ghmap/cli.py:319-320 | Each returned period resolves, at its midpoint, to its own starting version. |
| MappingVersions.SelectionMonotone | ghmap/cli.py:319-320 | A later period is processed with a mapping version no older than an earlier period's. |
| MappingVersions.VersionDates | ghmap/cli.py:115-125 | No contract; the definition of the version set. Its meaning is `VersionDatesMembers`. |
| MappingVersions.VersionDatesMembers | ghmap/cli.py:115-125 | A date is a version iff some listed file of the platform has a parseable name carrying it. |
| MappingVersions.GetVersionDates | ghmap/cli.py:115-125 | The discovery loop collects the dates of the listed files that parse and name the platform, skipping the rest. |
| MappingVersions.CatalogueInVersions | ghmap/cli.py:53-67 | Every date catalogued for either kind is a discovered version. |
| MappingVersions.PeriodMappingsAtStart | ghmap/cli.py:319-320 | With the discovered versions, the file chosen for each kind at a period's midpoint is the one in force at the period's start. |
| MappingVersions.NoVersionsNoMapping | ghmap/cli.py:104-106 | Without versions no mapping file is found, so the single `datetime.min`..`datetime.max` period is skipped. |
| MappingVersions.TwoPeriods | ghmap/cli.py:128-138 | Versions 2024-01-01 and 2024-06-01 give the periods 2024-01-01..2024-06-01 and 2024-06-01..`datetime.max`. |
| MappingVersions.MarchEventSplit | ghmap/cli.py:96-112 | An event dated 2024-03-15 is the only event of the 2024-01-01..2024-06-01 period. |
| MappingVersions.TwoVersionsScenario | ghmap/cli.py:96-112 | With versions 2024-01-01 and 2024-06-01, an event dated 2024-03-15 is split into the first period, which resolves to the 2024-01-01 version (as does the event's date itself). |

## Left out

- Reading files and directories is not modelled. This covers `EventProcessor.process`, `_load_events`, `load_json_file`, `save_to_jsonl_file`, `_save_results` and `_apply_custom_mappings`. The config-directory glob becomes the list of file names given to `FindValidMappings` and `GetVersionDates`.
- `argparse`, `main`'s broad exception handler, `print` diagnostics and `tqdm` progress bars are UI. The one diagnostic that affects behaviour, the `UnknownAction` warning, is returned by `ActionMapping.Map`.
- In `MappingVersions`, calendar parsing is the parameter `parseDate` rather than modelled. It stands for `datetime.fromisoformat` with the `Z`-to-`+00:00` rewrite in `extract_version_info` and `_parse_event_date`, and for the `strptime` fallback of the latter; text that does not parse gives `None`.
- In `EventProcessing`, an event's time is the integer `Event.createdAt` in milliseconds, already read; `_parse_time` (ghmap/preprocess/event_processor.py:21-25) is not modelled. Its `strptime` accepts exactly `%Y-%m-%dT%H:%M:%SZ`, so a `created_at` such as `2024-01-01T00:00:00.123Z` raises `ValueError` whenever the window test reads it (a review, a neighbour its scan reaches, or the review emitted last), and that aborts the call. The model has no such error.
- Python's comparison of naive with timezone-aware `datetime`s raises `TypeError`. This is not modelled: all times are absolute instants.
- `ActionMapper._convert_date_to_iso` and `_deserialize_payload` rewrite `created_at` and `payload` in place and are not modelled; the records given to `ActionMapping.Map` are taken to be already converted. Both can raise, which aborts `map`: `strptime` (ghmap/mapping/action_mapper.py:42-44) raises `ValueError` on a `created_at` string that is not `%Y-%m-%dT%H:%M:%SZ` once a fractional part is dropped, and `json.loads` (ghmap/mapping/action_mapper.py:32) raises on a malformed `payload` string. The model has neither error.
- The regex engine behind `re.match` is a parameter of the mapper.
- `ActivityMapper` and `utils` are not part of this model. So `_process_period` is modelled up to its mapping-file choice and skip decision; the action and activity mapping it then runs is not.
- `split_events_by_mapping_versions` returns a dict keyed by period. It is modelled as a sequence of `(period, events)` pairs in insertion order. Keys are distinct because the versions are.
- Event-processor records are typed (`EventProcessing.Event`), so the `KeyError`s of the review filter are not modelled. On the `github` platform the source raises `KeyError` for an event without `type`, or without `id` when its `id` is looked up (ghmap/preprocess/event_processor.py:71, 82); for a review without `actor.id` or `repo.id` (43-44, 76-77); for a review comment its window scan reaches without them (49-51, 57-59); and for a missing `created_at` wherever the window test reads it (36-37). Other events are read at `actor` and `repo` only through `.get` in the exclusion filters. For them the typed `actorId` and `repoId` may hold any value, since the model, like the source, compares them only for reviews and review comments.
- The exclusion filters are total in the model, but not in the source. `e.get('actor', {}).get('login')` and its `repo` and `org` counterparts (ghmap/preprocess/event_processor.py:91, 96, 101) run on every platform. When `actor`, `repo` or `org` is present but `null` or not an object, they raise `AttributeError` and abort the call. In `EventProcessing.Event`, `actorLogin`, `repoName` and `orgLogin` being `None` means the key or the object is absent, so such an event is kept rather than raising.
- An `Int` `created_at` is exact milliseconds. The floating-point `timestamp / 1000` of `_parse_time` and of `ActionMapper` is not modelled.
- JSON floats have no case in `Json.Value`, so a record or condition holding a float is outside the model. This includes Python's `1.0 == 1` and `0.0` being falsy, which `PyEq` and `Truthy` cover only for booleans and integers.
- A JSON object becomes a list of entries (`Json.Value.Obj`, `ActionMapping.Rule.event`, `MappingDocument.actions`), and every such list is taken to have distinct keys, as a decoded Python `dict` does. On a list with a repeated key, `Basics.Lookup` and `Json.Get` read the first entry, whereas `json.loads` keeps the last. Lemmas that depend on distinct keys, such as `ActionMapping.MatchSelf` (through `Plain`) and `ActionMapping.ProjectKeys`, require it explicitly.
- Mapping documents are typed (`ActionMapping.MappingDocument`). A rule without `event` or `attributes`, or a field mapping whose leaf is not a string, is outside the model.
- `Text.Lower` folds ASCII letters only, whereas `str.lower` folds all of Unicode.
- MappingVersions.SplitEventsByMappingVersions: takes the version set as input. Its discovery is modelled separately by `GetVersionDates`; the glob that lists the files is not modelled.

## Findings

| source | as written | input that shows it | evidently intended | confidence | as-written member | corrected member |
|---|---|---|---|---|---|---|
| ghmap/cli.py:161-171 | `_assign_events_to_periods` passes any truthy `created_at` to `_parse_event_date`, which calls `date_str.replace`. An integer timestamp raises `AttributeError`, so the split aborts: `SplitEventsByMappingVersions` reads dates this way, and `MillisSplit` shows it raising. | An event `{"created_at": 1700000000000}` (`MappingVersions.MillisEvent(ms)` with `ms != 0`) | Read an integer `created_at` as Unix milliseconds, as `EventProcessor._parse_time` and `ActionMapper._convert_date_to_iso` do for the same raw events; `SplitEventsByMappingVersionsCorrected` splits that way | medium; not executed | MappingVersions.MillisDateRaises | MappingVersions.MillisDateRead |
