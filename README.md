# ckanext-harvest core, modelled in Dafny

This project models the harvesting core of the CKAN harvest extension
(derilinx/ckanext-harvest). A harvest *source* points at a remote catalogue.
A harvest *job* runs over a source in three stages:

- **gather** lists the remote datasets and creates one harvest *object* per
  dataset, plus one per dataset that disappeared;
- **fetch** would download each object's content;
- **import** creates or updates the local dataset (*package*).

Exactly one object per package should be *current*: the one the package was
last built from.

The model covers:

- **Harvester base class** (`base.py`):
  - name allocation (`_gen_new_name`, `_ensure_name_is_unique`);
  - resource matching;
  - tag munging and list de-duplication;
  - the current-flag bookkeeping of `_transfer_current` and `_create_or_update_package`;
  - `_create_harvest_objects`.
- **Update actions** (`update.py`):
  - run scheduling (`_caluclate_next_run`, `_make_scheduled_jobs`);
  - `harvest_jobs_run`, `harvest_job_abort`, `harvest_source_update`;
  - `harvest_objects_import`.
- **CKAN-to-CKAN harvester** (`ckanharvester.py`):
  - configuration validation and loading;
  - the paged remote search;
  - `gather_stage` and its reconciliation of remote ids with current objects;
  - `_last_error_free_job`, `fetch_stage`;
  - the guards of `import_stage`.
- **Source form controller** (`view.py`): `is_uuid` and `_check_data_dict`.

The record store is the class `Store.Db`, whose tables are sequences and
maps that the methods reassign. Row ids are positions, because the tables
only grow.

The code's side effects become state or parameters:

- Code that mutates records is a method with a `modifies` clause, proved
  equal to a specification function.
- Loops are `while` loops with invariants.
- Remote HTTP, `json.loads`, `munge_title_to_name`, `munge_tag`, `uuid4`
  and the clock are function parameters.

Modules:

- `text.dfy` (`Text`): Python string helpers.
- `store.dfy` (`Store`): entities and the store.
- `names.dfy` (`Names`), `resources.dfy` (`Resources`), `tags.dfy` (`Tags`),
  `currency.dfy` (`Currency`): `base.py`.
- `update.dfy` (`UpdateActions`): `update.py`.
- `pyjson.dfy` (`PyJson`): Python values as decoded JSON, dict access and `int()`.
- `ckan_config.dfy` (`CkanConfig`), `ckan_search.dfy` (`CkanSearch`),
  `ckan_gather.dfy` (`CkanGather`): `ckanharvester.py`.
- `view.dfy` (`FormChecks`): `view.py`.

## Model

Source cells are paths under the repository root.

| member | source | states |
|---|---|---|
| Names.Numbered | ckanext/harvest/harvesters/base.py:134-136 | a numbered candidate is never longer than 100 characters |
| Names.FirstFreeNumber | ckanext/harvest/harvesters/base.py:130-140 | the result is the least number from k to 999 whose candidate is not taken; None means all of them are taken |
| Names.EnsureNameIsUnique | ckanext/harvest/harvesters/base.py:78-146 | the `while counter` search returns what the name-allocation rule `UniqueName` prescribes |
| Names.NextFreeNumbered | ckanext/harvest/harvesters/base.py:130-140 | the loop over 1..999 returns the first free numbered candidate, or None when all are taken |
| Names.GenNewName | ckanext/harvest/harvesters/base.py:71-76 | the unique name is allocated for the munged title with runs of dashes collapsed |
| Names.CollapseLeavesNoDoubleDash | ckanext/harvest/harvesters/base.py:72 | collapsing dashes leaves no two dashes in a row |
| Names.CollapseKeepsOtherChars | ckanext/harvest/harvesters/base.py:72 | collapsing keeps every non-dash character, in order |
| Names.CollapseFixesCollapsed | ckanext/harvest/harvesters/base.py:72 | a name without double dashes is unchanged (collapsing is idempotent) |
| Names.TakenMembership | ckanext/harvest/harvesters/base.py:112-121 | for candidates carrying the query prefix, being in `taken` means another package holds the name |
| Names.UniqueNameLength | ckanext/harvest/harvesters/base.py:102-143 | every name returned is at most 100 characters long |
| Names.UniqueNameKeepsCurrentName | ckanext/harvest/harvesters/base.py:103-104 | an existing name equal to the truncated ideal name is returned, whatever the store holds |
| Names.UniqueNameRejectsUnknownStrategy | ckanext/harvest/harvesters/base.py:105-111 | any other `append_type` raises NotImplementedError |
| Names.UniqueNameIdealWhenFree | ckanext/harvest/harvesters/base.py:120-124 | the ideal name is returned whenever no other package holds it |
| Names.UniqueNameKeepsPrefixedName | ckanext/harvest/harvesters/base.py:125-129 | when the ideal name is held elsewhere, an existing name that extends it is kept |
| Names.UniqueNameLeastFreeNumber | ckanext/harvest/harvesters/base.py:130-140 | number-sequence picks the least n in 1..999 whose candidate is free, or None when all are held |
| Names.NumberSequenceIsCollisionFree | ckanext/harvest/harvesters/base.py:130-140 | a number-sequence name is never another package's name |
| Names.RandomHexSuffix | ckanext/harvest/harvesters/base.py:141-143 | random-hex returns the first 95 characters of the name plus the first five of the uuid |
| Names.TestSuiteScenarios | ckanext/harvest/tests/harvesters/test_base.py:87-142 | the scenarios of the base test suite (trees, trees1, trees2, frogs1) follow from the rule |
| Tags.DedupFrom | ckanext/harvest/harvesters/base.py:34-37 | the result has exactly the elements not already seen, none twice |
| Tags.RemoveDuplicatesKeepsFirst | ckanext/harvest/harvesters/base.py:34-37 | de-duplication equals the independent "keep each first occurrence" definition |
| Tags.RemoveDuplicatesSpec | ckanext/harvest/harvesters/base.py:34-37 | same elements, none repeated; a list without repeats is unchanged; idempotent |
| Tags.MungeEach | ckanext/harvest/harvesters/base.py:26-33 | raises exactly when a truthy tag is a dict without `name` (KeyError) or not a dict (TypeError); otherwise the names are the munged names |
| Tags.DropPadding | ckanext/harvest/harvesters/base.py:26-33 | exactly the `'__'` names are removed |
| Tags.MungeTags | ckanext/harvest/harvesters/base.py:26-33 | `tags` is replaced by the munged, de-duplicated names without `'__'`, or left as it was when it raises |
| Tags.MungedNamesSpec | ckanext/harvest/harvesters/base.py:26-33 | the tags left contain no `'__'` and no name twice, and each is the munging of a given tag |
| Tags.MungeTagsBasic | ckanext/harvest/tests/harvesters/test_base.py:19-24 | the basic test case gives `river-quality`, `geo` |
| Tags.MungeTagsPadded | ckanext/harvest/tests/harvesters/test_base.py:26-36 | a tag munged to `'__'` is dropped |
| Resources.FirstMatch | ckanext/harvest/harvesters/base.py:395-401 | the first free existing resource that matches under the pass's rule, and none before it |
| Resources.FindFirstMatch | ckanext/harvest/harvesters/base.py:396-401 | the inner loop finds that first match |
| Resources.FindMatches | ckanext/harvest/harvesters/base.py:394-401 | one pass over the array writes the ids and the leftover lists that the specification pass computes |
| Resources.MatchResourcesWithExistingOnes | ckanext/harvest/harvesters/base.py:367-407 | the in-place result is the two-pass matching |
| Resources.RunPassConsistent | ckanext/harvest/harvesters/base.py:394-401 | a pass only adds matches of its own dicts, by its own rule, to existing resources not used before |
| Resources.FinalConsistent | ckanext/harvest/harvesters/base.py:380-405 | only `id` is added; each existing resource is used at most once; each id comes from a matching resource |
| Resources.FinalMaximal | ckanext/harvest/harvesters/base.py:402-405 | a dict left without an id has no free existing resource with its url |
| Resources.FinalExact | ckanext/harvest/harvesters/base.py:402-405 | a url-only match is made only when no exact url+name+description match was left free |
| Resources.MatchResourcesSound | ckanext/harvest/harvesters/base.py:380-405 | the matching is a no-op when every dict has an id; every id given is an existing resource's |
| Resources.SoleUrlIsMatched | ckanext/harvest/harvesters/base.py:402-405 | a dict whose url is held by exactly one existing resource gets that resource's id |
| Resources.UnknownUrlIsUnmatched | ckanext/harvest/harvesters/base.py:402-405 | a dict whose url no existing resource has stays without an id |
| Resources.MatchResourcesExample | ckanext/harvest/tests/harvesters/test_base.py:46-63 | the test's first dict matches exactly and the second finds nothing |
| Resources.MatchResourcesExampleByUrl | ckanext/harvest/tests/harvesters/test_base.py:46-63 | the test's last two dicts match by url alone |
| Currency.TransferCurrent | ckanext/harvest/harvesters/base.py:346-362 | the object table becomes the transfer specification |
| Currency.TransferredSpec | ckanext/harvest/harvesters/base.py:346-362 | the previous object stops being current, the new one takes its package id and becomes current, and nothing else changes |
| Currency.TransferKeepsOneCurrent | ckanext/harvest/harvesters/base.py:346-362 | the transfer keeps at most one current object per package |
| Currency.LaterTotal | ckanext/harvest/harvesters/base.py:249-250 | Python 2 string comparison is a strict total order |
| Currency.NeedsUpdateSpec | ckanext/harvest/harvesters/base.py:249-250 | an update is made when `metadata_modified` is absent or strictly later, never for an equal stamp, and always over a missing one |
| Currency.CreateOrUpdatePackage | ckanext/harvest/harvesters/base.py:183-307 | skip without touching flags; update clears the package's other objects and makes this one current; create makes it current; an exception saves an object error and returns None, leaving the flags as they stood when it was raised: unchanged when the lookup, the update or the naming of a new dataset raises, this object current when `package_create_rest` raises |
| Currency.AfterUpdateSoleCurrent | ckanext/harvest/harvesters/base.py:262-272 | after an update this object is the package's only current one |
| Currency.UpdateKeepsOneCurrent | ckanext/harvest/harvesters/base.py:262-272 | the update keeps at most one current object per package |
| Currency.CreateKeepsOneCurrent | ckanext/harvest/harvesters/base.py:274-298 | the create keeps the invariant exactly when no other object was current for the new package |
| Currency.NewObjects | ckanext/harvest/harvesters/base.py:155-163 | one new, non-current, unlinked object per remote id, in order |
| Currency.CreateHarvestObjects | ckanext/harvest/harvesters/base.py:148-167 | an empty id list saves a gather error and returns None; otherwise the objects are appended and their ids returned in order |
| Currency.NewObjectsKeepOneCurrent | ckanext/harvest/harvesters/base.py:155-163 | creating objects keeps at most one current object per package |
| UpdateActions.NextRunSpec | ckanext/harvest/logic/action/update.py:167-189 | ALWAYS +0, DAILY +1 day, WEEKLY +7, BIWEEKLY and FORTNIGHTLY +14, MONTHLY by month length; raises exactly for other frequencies |
| UpdateActions.MonthlyFebruary1900 | ckanext/harvest/logic/action/update.py:178-188 | February 1900 counts 29 days: the leap rule has no century exception |
| UpdateActions.CreateJob | ckanext/harvest/logic/action/update.py:199-204 | a job is created only when the source has no New or Running job |
| UpdateActions.MakeScheduledJobs | ckanext/harvest/logic/action/update.py:167-207 | the loop's effect is the scheduling specification, with one clock reading per round as `_caluclate_next_run` calls `utcnow()` each time |
| UpdateActions.ScheduleAllKeepsOneActive | ckanext/harvest/logic/action/update.py:192-207 | scheduling never gives a source a second pending job |
| UpdateActions.ScheduleAllFrame | ckanext/harvest/logic/action/update.py:192-207 | jobs are only appended; unselected sources are untouched |
| UpdateActions.ScheduleAllRaises | ckanext/harvest/logic/action/update.py:199-207 | the scheduler raises exactly when some round meets an unknown frequency |
| UpdateActions.ScheduleAllSchedules | ckanext/harvest/logic/action/update.py:167-207 | with no raise, every selected source gets a pending job, job created or not, and a `next_run` computed from the clock reading of its own round |
| UpdateActions.ScheduleAllKeepsSources | ckanext/harvest/logic/action/update.py:199-206 | scheduling creates jobs only for existing sources, so every job keeps a source |
| UpdateActions.SendableIds | ckanext/harvest/logic/action/update.py:248-266 | exactly the New jobs of active sources, newest first as the job listing gives them |
| UpdateActions.DispatchNewJobs | ckanext/harvest/logic/action/update.py:248-266 | sendable jobs become Running and are published newest first; the result is the sent jobs, in that order |
| UpdateActions.StartJobs | ckanext/harvest/logic/action/update.py:248-266 | the loop, walking the jobs newest first, computes the sent ids and the new job table |
| UpdateActions.HarvestJobsRun | ckanext/harvest/logic/action/update.py:209-266 | a `source_id` that names no source, by id or by name, raises NotFound; a found source's id filters the dispatch; without one, schedule first; then dispatch newest first; returns `[]` when no New job exists; with a source id the sources are untouched, and no error log changes |
| UpdateActions.DispatchSpec | ckanext/harvest/logic/action/update.py:248-266 | the jobs sent are exactly the New jobs of the filter with an active source, newest first; only they change; no New job means nothing is sent |
| UpdateActions.NothingSendable | ckanext/harvest/logic/action/update.py:245-259 | with no New job of an active source in the listing, nothing is sent |
| UpdateActions.DispatchKeepsOneActive | ckanext/harvest/logic/action/update.py:248-266 | starting jobs keeps one pending job per source |
| UpdateActions.LatestJob | ckanext/harvest/logic/action/update.py:275-280 | the newest job of the filter, the first of the listing; None when it lists none |
| UpdateActions.HarvestJobAbort | ckanext/harvest/logic/action/update.py:269-291 | NotFound when there is no job; otherwise the latest job is aborted per `AbortJob` |
| UpdateActions.AbortJobSpec | ckanext/harvest/logic/action/update.py:280-288 | the job becomes Aborted unless Finished or Aborted; other jobs are untouched |
| UpdateActions.AbortNotFoundIffNoJobs | ckanext/harvest/logic/action/update.py:275-280 | NotFound exactly when the filter lists no job |
| UpdateActions.HarvestSourceUpdate | ckanext/harvest/logic/action/update.py:30-81 | an unknown source raises NotFound; failed validation raises and changes nothing; otherwise fields are copied (`active: None` deactivates) and deactivation aborts New jobs |
| UpdateActions.ApplyFieldsSpec | ckanext/harvest/logic/action/update.py:53-64 | absent or None fields are kept; `url` is stripped |
| UpdateActions.AbortNewSpec | ckanext/harvest/logic/action/update.py:67-74 | the source's New jobs become Aborted; every other job is unchanged |
| UpdateActions.ChosenIds | ckanext/harvest/logic/action/update.py:106-144 | exactly the selected objects, in table order |
| UpdateActions.HarvestObjectsImport | ckanext/harvest/logic/action/update.py:83-165 | an inactive source raises; otherwise the count is the number of selected objects a harvester imports |
| UpdateActions.CountImports | ckanext/harvest/logic/action/update.py:146-165 | the loop's counters are the count specifications |
| UpdateActions.ImportCountBounds | ckanext/harvest/logic/action/update.py:146-165 | imported <= examined <= selected; without segments every selected object is examined |
| UpdateActions.SelectorPrecedence | ckanext/harvest/logic/action/update.py:106-138 | the selector is chosen by guid > source_id > harvest_object_id > package_id |
| UpdateActions.ChosenIdsByObject | ckanext/harvest/logic/action/update.py:125-127 | selecting by object id yields that object alone |
| PyJson.HasKey | ckanext/harvest/harvesters/ckanharvester.py:127-164 | `in` is key membership on a dict, element membership on a list, substring on a string, TypeError otherwise |
| PyJson.Get | ckanext/harvest/harvesters/ckanharvester.py:186-187 | `.get` returns the value or the default on a dict and raises AttributeError on anything else |
| PyJson.PyIntSpec | ckanext/harvest/harvesters/ckanharvester.py:127-131 | `int()` of each kind of value: which succeed, which raise ValueError, TypeError or OverflowError |
| PyJson.ParseIntOfNatToString | ckanext/harvest/harvesters/ckanharvester.py:106 | `int(str(n)) == n` |
| PyJson.ParseIntOfNegated | ckanext/harvest/harvesters/ckanharvester.py:106 | `int('-' + str(n)) == -n` |
| PyJson.ParseIntOfSpacedSign | ckanext/harvest/harvesters/ckanharvester.py:128-131 | `int('-' + ws + str(n)) == -n`: whitespace between the sign and the digits is skipped |
| PyJson.PyIntOfPaddedNegative | ckanext/harvest/harvesters/ckanharvester.py:128-131 | `int(' -7 ')` is -7: surrounding whitespace is allowed |
| PyJson.PyIntOfDecimalString | ckanext/harvest/harvesters/ckanharvester.py:128-131 | `int(u'2.0')` raises ValueError |
| CkanConfig.Lookup | ckanext/harvest/harvesters/ckanharvester.py:127-165 | key lookup follows Python's `in` and indexing on the decoded value |
| CkanConfig.ValidateConfig | ckanext/harvest/harvesters/ckanharvester.py:120-171 | an accepted config is the input string unchanged; a falsy config is accepted; bad JSON is rejected exactly when the config is truthy and does not parse |
| CkanConfig.ValidateObjectSpec | ckanext/harvest/harvesters/ckanharvester.py:124-171 | a dict config is accepted exactly when well formed; each rejection names a real defect; only `api_version` can escape as an exception |
| CkanConfig.ValidateScalarRaises | ckanext/harvest/harvesters/ckanharvester.py:127 | a config decoding to null, a bool or a number raises TypeError at the first `in` |
| CkanConfig.ValidateAcceptsPlainList | ckanext/harvest/harvesters/ckanharvester.py:124-171 | a JSON list without those keys passes validation |
| CkanConfig.LoadConfigSpec | ckanext/harvest/harvesters/ckanharvester.py:102-110 | an empty or missing config becomes `{}`; one that does not parse raises ValueError and changes nothing; a parsed one is stored even when reading `api_version` then raises; the api version changes only when `int()` succeeds on it |
| CkanConfig.AcceptedConfigLoads | ckanext/harvest/harvesters/ckanharvester.py:102-171 | a config that validation accepts loads without raising and takes its api version from `int()` |
| CkanConfig.Harvester.constructor | ckanext/harvest/harvesters/ckanharvester.py:45-47 | a harvester starts with no config and api version 2 |
| CkanConfig.Harvester.SetConfig | ckanext/harvest/harvesters/ckanharvester.py:102-110 | the harvester's new state and the exception are those the load specification gives |
| CkanSearch.Unseen | ckanext/harvest/harvesters/ckanharvester.py:372-377 | a page keeps exactly its entries whose id was not seen before, in order |
| CkanSearch.UnseenOfFreshPage | ckanext/harvest/harvesters/ckanharvester.py:374-377 | a page sharing no id with earlier pages is kept whole |
| CkanSearch.SearchFromStops | ckanext/harvest/harvesters/ckanharvester.py:345-384 | as written and corrected: a fetch failure, a response equal to a truthy `previous_content`, a non-JSON body or a malformed response ends the search with an error, and a page with nothing new ends it without one |
| CkanSearch.SearchFromContinues | ckanext/harvest/harvesters/ckanharvester.py:378-386 | as written and corrected: a non-empty filtered page is kept and the search goes on at `start + 100`, with `previous_content` unchanged as written and set to the response when corrected |
| CkanSearch.SearchFromListings | ckanext/harvest/harvesters/ckanharvester.py:321-386 | as written and corrected: each page returned is non-empty and comes from the listing at offset 100·k, without ids seen before |
| CkanSearch.SearchFromDisjoint | ckanext/harvest/harvesters/ckanharvester.py:372-377 | as written and corrected: no id appears on two returned pages (duplicates within one page are kept, as the code keeps them) |
| CkanSearch.SearchFromEndsOnListing | ckanext/harvest/harvesters/ckanharvester.py:380-384 | as written and corrected: a successful search ends on a listing read at the offset right after the last page returned |
| CkanSearch.RepeatedPageRejected | ckanext/harvest/harvesters/ckanharvester.py:357-359 | with the paging guard corrected, two identical consecutive non-empty responses fail with PagingBroken |
| CkanSearch.AsWrittenNeverReportsBrokenPaging | ckanext/harvest/harvesters/ckanharvester.py:345-359 | as written, the paging error is never raised |
| CkanSearch.RepeatedPageAcceptedAsWritten | ckanext/harvest/harvesters/ckanharvester.py:345-384 | as written, a remote repeating its first page yields that page alone as the whole catalogue |
| CkanSearch.StuckRemoteSearch | ckanext/harvest/harvesters/ckanharvester.py:345-386 | for a remote that ignores `start`, the code as written returns one page; the corrected guard fails |
| CkanSearch.SearchForDatasets | ckanext/harvest/harvesters/ckanharvester.py:315-388 | the `while True` loop, with `previous_content` left at None as written, returns what the search specification gives |
| CkanSearch.Flatten | ckanext/harvest/harvesters/ckanharvester.py:380 | `pkg_dicts` holds exactly the entries of the pages |
| CkanGather.LastErrorFreeJob | ckanext/harvest/harvesters/ckanharvester.py:391-414 | the result is a finished, gather-error-free, clean other job of the same source with the latest `gather_started`; None exactly when none exists |
| CkanGather.ListingIds | ckanext/harvest/harvesters/ckanharvester.py:276-283 | `package_ids` is the set of listing ids |
| CkanGather.NamedPrefix | ckanext/harvest/harvesters/ckanharvester.py:301-303 | the updates stop at the first listing entry without `name`: all entries before it have one |
| CkanGather.ClearCurrent | ckanext/harvest/harvesters/ckanharvester.py:295-297 | objects with a deleted guid, of any source, lose `current`; nothing else changes |
| CkanGather.EmitDeletes | ckanext/harvest/harvesters/ckanharvester.py:290-299 | one delete object per guid of `to_delete`, each guid once, and every object with such a guid no longer current |
| CkanGather.EmitUpdates | ckanext/harvest/harvesters/ckanharvester.py:301-309 | one update object per listing entry, in listing order, with the entry as content, up to the first entry without `name`, which stops the loop |
| CkanGather.ReconciledCurrentGuids | ckanext/harvest/harvesters/ckanharvester.py:253-299 | afterwards the source's current guids are exactly those it had that are still listed |
| CkanGather.ReconciledClearsEverySource | ckanext/harvest/harvesters/ckanharvester.py:295-297 | the flag clearing reaches objects of other sources; only `current` of old objects changes |
| CkanGather.ReconciledKeepsOneCurrent | ckanext/harvest/harvesters/ckanharvester.py:290-309 | gather keeps at most one current object per package |
| CkanGather.PlanGather | ckanext/harvest/harvesters/ckanharvester.py:179-250 | the stage raises when the config fails to load, is not a dict, or has a truthy organisation filter that cannot be iterated; otherwise objects are created exactly when the search finds datasets, and a search error or an empty listing stops with that gather error |
| CkanGather.NumericFilterAborts | ckanext/harvest/harvesters/ckanharvester.py:184-193 | a number as the include filter makes the gather stage raise, whatever the exclude filter and the remote hold |
| CkanGather.ListFiltersReachSearch | ckanext/harvest/harvesters/ckanharvester.py:184-193 | filters that are lists, or absent, never raise |
| CkanGather.WroteCurrentGuids | ckanext/harvest/harvesters/ckanharvester.py:253-311 | after gather writes, the current guids are the old ones still listed, even when an entry without `name` stopped the updates |
| CkanGather.WroteKeepsOneCurrent | ckanext/harvest/harvesters/ckanharvester.py:253-311 | gather writes keep the one-current-object invariant |
| CkanGather.WroteAppends | ckanext/harvest/harvesters/ckanharvester.py:288-311 | one object is appended per deleted guid and per entry before the first without `name`; `object_ids` are exactly the new positions |
| CkanGather.WroteOwnsNewObjects | ckanext/harvest/harvesters/ckanharvester.py:291-307 | every new object belongs to this job and source and is not current |
| CkanGather.WroteNewObject | ckanext/harvest/harvesters/ckanharvester.py:288-311 | each appended object is first a content-less delete object for a guid no longer listed, then an update object for the listing entry at its place, with that entry's id and dump |
| CkanGather.ReconcileObjects | ckanext/harvest/harvesters/ckanharvester.py:253-311 | the object writes and ids of a gather over a non-empty listing, and whether an entry without `name` stopped them |
| CkanGather.GatherStage | ckanext/harvest/harvesters/ckanharvester.py:173-311 | config load, the organisation filters, forced `force_all`, the search as written, and then a crash, a gather error, or the reconciliation; an entry without `name` leaves the objects written so far and records a gather error |
| CkanGather.FetchStage | ckanext/harvest/harvesters/ckanharvester.py:416-419 | fetching always succeeds |
| CkanGather.ReadPackageAsWrittenLosesError | ckanext/harvest/harvesters/ckanharvester.py:452-767 | as written, content that is not a JSON dict makes the import raise with no object error saved |
| CkanGather.ListContentImport | ckanext/harvest/harvesters/ckanharvester.py:452-767 | for content `[]`, the code as written raises with no object error; the corrected handler records an error and returns None |
| CkanGather.ReadPackageSpec | ckanext/harvest/harvesters/ckanharvester.py:452-767 | corrected, reading never raises; it fails exactly when an error is saved, exactly for content that is not a dict; on dicts it agrees with the code as written |
| CkanGather.DeleteObjectsNeverDelete | ckanext/harvest/harvesters/ckanharvester.py:431-447 | gather's delete objects have no content, so import rejects them with EmptyContent before the delete branch |
| CkanGather.UpdateObjectsReachPackage | ckanext/harvest/harvesters/ckanharvester.py:431-457 | gather's update objects reach the package reading as written, with their listing entry as content |
| CkanGather.ImportStage | ckanext/harvest/harvesters/ckanharvester.py:421-767 | no object returns False; empty content saves EmptyContent and returns False; a delete object raises; otherwise the package is read, and content that is not a JSON dict raises without saving an error |
| FormChecks.HexRun | ckanext/harvest/controllers/view.py:268-269 | matches exactly when n lowercase hex digits start the string, and returns the rest |
| FormChecks.MatchGroupsFits | ckanext/harvest/controllers/view.py:268-270 | the matcher accepts exactly the strings whose start fits the group layout |
| FormChecks.IsUuidSpec | ckanext/harvest/controllers/view.py:265-270 | `is_uuid` holds exactly when the first 36 characters are a lowercase uuid with dashes at 8, 13, 18 and 23 |
| FormChecks.UuidWithSuffix | ckanext/harvest/controllers/view.py:270 | anything may follow a valid uuid |
| FormChecks.ShortRefIsNotUuid | ckanext/harvest/controllers/view.py:270 | fewer than 36 characters never match |
| FormChecks.UppercaseIsNotUuid | ckanext/harvest/controllers/view.py:269 | an uppercase hex digit is refused |
| FormChecks.CheckDataDict | ckanext/harvest/controllers/view.py:161-173 | `user_id` is filled in when missing or empty and a user exists; raises exactly when a required schema field is missing |
| FormChecks.FillUserSpec | ckanext/harvest/controllers/view.py:167-170 | only `user_id` changes; a non-empty one is kept; with a user it ends non-empty; idempotent |
| FormChecks.CheckVerdictIgnoresUser | ckanext/harvest/controllers/view.py:162-173 | filling `user_id` never changes the verdict, which is "some schema key other than the five surplus keys is absent" |
| FormChecks.CompleteFormPasses | ckanext/harvest/controllers/view.py:162-173 | a form posting every required field passes |

## Left out

- Network I/O (`_get_content`, `_get_group`, `_get_organization`) is not modelled. The remote is a function from offset to response, plus a decoder. The organisation filter (`fq`) is folded into that function.
- `json.loads`, `json.dumps`, `munge_title_to_name`, `munge_tag`, `uuid4`, md5, and the group and user lookups are function parameters.
- `utcnow` is a parameter too: `MakeScheduledJobs` and `HarvestJobsRun` take one clock reading per selected source, in loop order. Nothing is assumed about how the readings relate, so a run that crosses a month boundary is covered.
- Sessions, commits, transactions and cross-worker races are not modelled. Each method updates the store as one step.
- Object and job ids are table positions, in creation order. `harvest_job_list` lists jobs newest first (`jobs[0]` is the latest at update.py:280), so the model reads and sends them from the highest position down.
- The queue orchestration between the stages (status transitions, `report_status`, resubmission) is not modelled. `ckanext/harvest/queue.py` is not part of this model.
- `harvest_job_create` is not part of this model. `UpdateActions.CreateJob` follows its documented rule: refuse while a New or Running job exists.
- The per-source field remapping of `import_stage` (ckanharvester.py:459-753) and `normalize_date` are not modelled. `ImportStage` ends where that remapping begins.
- The `clean_tags` handling inside `_create_or_update_package` is not modelled. Only its update/skip decision, current-flag bookkeeping and error path are; the `api_version` ValueError is one of the exceptions `StoreFault.LookupRaises` stands for.
- CreateOrUpdatePackage (`Currency`): when `package_create_rest` raises, the object keeps the flags the session gave it before the flush (current, linked to the missing dataset). Whether saving the object error commits or drops them is decided by `HarvestObjectError.create`, which is not part of this model. ValidationError and other exceptions are both saved as `ImportException`; their messages are not modelled.
- `show_object`, the other controller actions, UI rendering, routing, auth, helpers and `setup.py` are not modelled.
- Strings are sequences of characters, and `strip()` removes ASCII whitespace only. There is no Unicode whitespace and no byte/unicode distinction.
- `PyJson.Float` keeps only a float's whole part, a NaN, or an infinity. That is all `int()` of a float can observe. A float strictly between -1 and 1 is therefore false for `PyJson.PyTruth`, as 0.0 is.
- PyIntSpec (`PyJson`): a string is read as ASCII digits. Python 2 `int()` of a unicode string also converts other Unicode decimal digits (through `PyUnicode_EncodeDecimal`); the model raises ValueError for them.
- `CkanSearch.SearchForDatasets` requires the remote's ids to come from a finite set. This bounds the loop, which in the code terminates only if the remote eventually returns an empty page.
- `CkanGather.GatherStage` crashes on any exception escaping the search. The code catches only `SearchError` there. In the object creation, the only exception modelled is the KeyError of an entry without `name`; the store's own failures are not.
- `CkanGather.GatherStage` does not pass `_last_error_free_job`'s result on. Line 200 forces `force_all`, so the incremental search is never taken.
- `CkanGather.LastErrorFreeJob` breaks ties between equal `gather_started` values in favour of the later job. The query leaves that order open.
- Values posted to `_check_data_dict` are strings or None. Lists from repeated form fields are not modelled.
- New harvest objects take the job's source id. The ORM derives it through the job.
- A delete object that has content would reach `p.toolkit` in `import_stage` (ckanharvester.py:447). `p` is not imported there, so `CkanGather.ImportStage` treats this as an exception escaping. No object of the model's gather stage takes that path (`CkanGather.DeleteObjectsNeverDelete`).
- HarvestObjectsImport (`UpdateActions`) counts the `import_stage` calls but does not run them. `import_stage` belongs to whichever harvester plugin matches the source type, so its effects on objects and packages are not modelled. Neither is an exception escaping it, which would end the loop and the action. The CKAN harvester's own guards are `CkanGather.ImportStage`.
- DispatchNewJobs (`UpdateActions`) requires every job's source to exist, as the job table's foreign key guarantees. The NotFound that `harvest_source_show` would raise mid-loop for a missing source (update.py:251) is not modelled.
- StartJobs (`UpdateActions`) requires the same, for the same reason.
- HarvestJobsRun (`UpdateActions`) requires the same; scheduling keeps it (`UpdateActions.ScheduleAllKeepsSources`).
- HarvestSourceUpdate (`UpdateActions`) takes the schema's `validate` as a parameter: the validated fields, or `None` when it reports errors. The code tests `'active' in data_dict` and `'config' in data_dict` on the posted dict but reads the values from the validated one; a key the schema drops would raise KeyError, which is not modelled. A stored `active` of None is modelled as `false`, which is how every reader of the flag treats it.
- MatchResourcesWithExistingOnes (`Resources`) takes every dict to have a `url`, and every existing resource a `name` and `description`. The KeyErrors of `res1['url']`, `res2['name']` and `res2['description']` (base.py:402-404) are not modelled. A remote dict holding `'id': None` counts as having an id in the code (base.py:380), but the model cannot represent it.
- MungeTags (`Tags`) cannot represent a `tags` key whose value is None or is not a list. The code raises TypeError when iterating it (base.py:27-28).

## Findings

| source | as written | input that shows it | evidently intended | confidence | as-written member | corrected member |
|---|---|---|---|---|---|---|
| ckanext/harvest/harvesters/ckanharvester.py:345-359 | `previous_content` is set to None once and never reassigned, so the repeated-page check never fires | a remote that ignores `start` and returns the same non-empty page every time: the search stops after one page and reports that page as the whole catalogue, so gather deletes every other current dataset of the source | remember each response and raise the paging error when the next one is identical | not executed | CkanSearch.StuckRemoteSearch | CkanSearch.RepeatedPageRejected |
| ckanext/harvest/harvesters/ckanharvester.py:765-767 | the generic handler of `import_stage` reads `package_dict['name']`, which is unbound when `json.loads` fails and not a dict when the content is, for example, a list | object content `[]` (or any non-JSON text): the handler itself raises, and no object error is saved | save the exception as an object error and return None | not executed | CkanGather.ReadPackageAsWrittenLosesError | CkanGather.ReadPackageSpec |
