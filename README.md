# jira2solidtime, modelled in Dafny

jira2solidtime copies worklogs recorded in Tempo (Jira's time tracker) into Solidtime
time entries and keeps the two in step. A run fetches the Tempo worklogs of a date range.
It fetches the Solidtime entries of the same range. It plans, per Jira issue and per
worklog, what to create, update and delete. Then it executes that plan through the
Solidtime client. It records which Tempo worklog each Solidtime entry came from.

The link between the two systems has two halves:

- a persisted mapping from Tempo worklog id to Solidtime entry id;
- a marker `[JiraSync:<tempo id>]` at the end of every description the tool writes.

The descriptions have the form `<ISSUE-KEY>: <text> [JiraSync:<id>]`.

This project models:

- the rich engine: the issue comparator, the worklog-mapping store, the field mapper and
  the sync service;
- the minimal engine: the syncer, its project mapper and its mapping store;
- the configuration: the JSON configuration of the minimal engine, the database-backed
  configuration manager with its environment migration, and the loader that merges the
  project mappings;
- the smaller pieces: the date-range parser, the daemon's cron reading, and the values
  the progress display computes.

The HTTP clients of Tempo and Solidtime are parameters. They are deterministic functions
from a request to an answer, held in datatype fields.

Files and modules:

| file | module | what it holds |
|---|---|---|
| wrappers.dfy | Wrappers | `Option`, `Result` |
| text.dfy | Text | string helpers with Python's meaning (`strip`, `split`, `int()`, `str()`, `lower`, `upper`) |
| dicts.dfy | Dicts | insertion-ordered dictionaries, as Python's `dict` |
| calendar.dfy | Calendar | Gregorian dates, ISO `YYYY-MM-DD` parsing and formatting |
| markers.dfy | Markers | the two regular expressions: the issue-key prefix and the `[JiraSync:<digits>]` marker |
| records.dfy | Records | Tempo worklogs, Solidtime entries and mapping rows as the APIs return them |
| models.dfy | Models | `SyncRequest`, `SyncResult` |
| worklog_store.dfy | WorklogStore | the rich engine's mapping store (`utils/worklog_mapping.py`) |
| field_mapper.dfy | FieldMapper | `FieldMapper` |
| issue_level.dfy | IssueLevel | the issue-level part of the comparator (grouping, issue plan, missing worklogs) |
| drift.dfy | Drift | whether a Solidtime entry differs from its Tempo worklog, and the expected description |
| planner.dfy | Planner | the worklog-level plan and the comparator's mapping maintenance |
| sync_service.dfy | SyncService | `SyncService`: deletions, creations, updates and the result |
| sync_laws.dfy | SyncServiceLaws | properties of whole sync runs |
| minimal_mapping.dfy | MinimalStore | the minimal engine's mapping store (`sync/worklog_mapping.py`) |
| project_mapper.dfy | ProjectMapper | `Mapper` |
| syncer.dfy | MinimalSyncer | `Syncer.sync` |
| date_parser.dfy | DateParser | `parse_date_range`, `parse_days_back`, `get_current_month` |
| app_config.dfy | AppConfig | the JSON `Config` |
| config_manager.dfy | ConfigManagement | `ConfigManager` |
| config_loader.dfy | ConfigLoader | `load_config` |
| daemon.dfy | Daemon | `_parse_cron` |
| progress.dfy | Progress | `validate_config`, `validate_apis`, `format_time_range` |

## Model

| member | source | states |
|---|---|---|
| Text.Strip | src/jira2solidtime/mapping/field_mapper.py:49 | `str.strip()`: the result has no whitespace at either end, is no longer than the input, equals an already-stripped input, and is empty for an all-whitespace input |
| Text.StripRemovesOnlyEndSpaces | src/jira2solidtime/mapping/field_mapper.py:49 | `str.strip()` keeps a contiguous piece of the input and removes only whitespace before and after it |
| Text.JoinSplit | src/jira2solidtime/utils/date_parser.py:32 | `split` loses nothing: joining the parts with the separator gives the input back |
| Text.Split | src/jira2solidtime/utils/date_parser.py:32 | `s.split(sep)`: at least one part, and no part contains the separator; Text.JoinSplit shows nothing is lost |
| Text.SplitAtFirstOccurrence | src/jira2solidtime/utils/date_parser.py:32 | `s.split(sep)` gives two or more parts exactly when the separator occurs, and then the first part ends where the separator first occurs |
| Text.SplitOnce | src/jira2solidtime/config/__init__.py:49 | `split("\|", 1)`: one part exactly when the separator is absent; otherwise the two parts joined by the separator give the input back, and the cut is at the separator's first occurrence |
| Text.StrippedItems | src/jira2solidtime/config/manager.py:140-142 | the list comprehension keeps the stripped form of every non-blank item, and each kept item is stripped and non-empty |
| Text.StrippedItemsFromParts | src/jira2solidtime/config/manager.py:140-142 | every kept item is the stripped form of some part: the comprehension invents nothing |
| Text.StrippedItemsAppend | src/jira2solidtime/config/manager.py:140-142 | the comprehension works part by part, so the kept items stay in the order of their parts |
| Text.SplitWhitespaceOfJoinWords | src/jira2solidtime/daemon.py:142 | words joined by single spaces split back into the same words |
| Text.ParseIntOfIntToString | src/jira2solidtime/config/manager.py:184-192 | `int(str(i)) == i` for every integer |
| Text.ParseInt | src/jira2solidtime/config/manager.py:184-192 | `int()` on ASCII text: an optional sign and decimal digits after stripping, anything else `ValueError`; Text.ParseIntOfIntToString is its round-trip partner |
| Text.IntToStringInjective | src/jira2solidtime/utils/worklog_mapping.py:66-83 | distinct Tempo ids print as distinct mapping keys |
| Text.LexLessTransitive | src/jira2solidtime/utils/worklog_mapping.py:139-155 | the string order that compares timestamps is transitive |
| Text.LexLessTotal | src/jira2solidtime/utils/worklog_mapping.py:139-155 | two distinct timestamps are ordered one way or the other |
| Markers.IssueKeyPrefix | src/jira2solidtime/sync/issue_comparator.py:66-68 | `re.match(r"^([A-Z]+-\d+):")`: a found key is an issue key, and it and a colon start the text |
| Markers.IssueKeyPrefixOfKey | src/jira2solidtime/utils/worklog_mapping.py:202 | any issue key followed by a colon is read back as exactly that key, whatever follows |
| Markers.FindMarker | src/jira2solidtime/utils/worklog_mapping.py:197 | `re.search(r"\[JiraSync:(\d+)\]")`: a found marker is a non-empty run of digits; Markers.FindMarkerNone and Markers.FindMarkerLeftmost state where it occurs |
| Markers.FindMarkerNone | src/jira2solidtime/utils/worklog_mapping.py:197 | the search finds nothing exactly when no position of the text starts a `[JiraSync:<digits>]` marker |
| Markers.FindMarkerLeftmost | src/jira2solidtime/utils/worklog_mapping.py:197 | a found marker is the one that starts at the leftmost position where any marker starts |
| Markers.FindMarkerSkips | src/jira2solidtime/utils/worklog_mapping.py:197 | the search is leftmost: a prefix that holds no `[JiraSync:` does not change what is found |
| Markers.MarkerOfDescription | src/jira2solidtime/mapping/field_mapper.py:58-64 | the description `key: text [JiraSync:<digits>]` gives back its digits, when the text holds no `[JiraSync:` of its own |
| Markers.KeyOfDescription | src/jira2solidtime/mapping/field_mapper.py:58-64 | the same description gives back its issue key |
| Records.IdText | src/jira2solidtime/sync/issue_comparator.py:533-539 | `str(worklog.get("tempoWorklogId", ""))` is empty exactly when the worklog has no id |
| Models.RequestFor | src/jira2solidtime/domain/models.py:8-15 | a request given only its dates has no project filter and is not a dry run |
| Models.Empty | src/jira2solidtime/domain/models.py:30-41 | every count is zero and the three detail lists are empty |
| WorklogStore.Backfill | src/jira2solidtime/utils/worklog_mapping.py:33-35 | a loaded row always has a `needs_update` flag, the flag read before is kept, and nothing else in the row changes |
| WorklogStore.WithFlag | src/jira2solidtime/utils/worklog_mapping.py:114-124 | setting a flag keeps the keys and their order, changes only the named row's flag, and does nothing for an unknown id |
| WorklogStore.IsNewer | src/jira2solidtime/utils/worklog_mapping.py:139-155 | an absent mapping is always newer, an empty stored stamp never is, and a stamp counted as newer differs from the stored one |
| WorklogStore.NotNewerThanItself | src/jira2solidtime/utils/worklog_mapping.py:139-155 | re-reading a worklog with its stored timestamp never counts as newer |
| WorklogStore.NewerIsMonotone | src/jira2solidtime/utils/worklog_mapping.py:139-155 | a worklog newer than its row stays newer for any later timestamp |
| WorklogStore.KeysFlagged | src/jira2solidtime/utils/worklog_mapping.py:131-137 | exactly the flagged keys of the order, each once |
| WorklogStore.FirstKeyFor | src/jira2solidtime/utils/worklog_mapping.py:93-98 | the first key in order whose row points at the entry; none when no row does |
| WorklogStore.Orphans | src/jira2solidtime/utils/worklog_mapping.py:157-168 | the keys of the order that are not kept, in order |
| WorklogStore.RecoverOne | src/jira2solidtime/utils/worklog_mapping.py:189-218 | one entry keeps the table well formed, and a step that reports no recovery leaves it unchanged; WorklogStore.RecoverOneAdds states what a recovered row is |
| WorklogStore.RecoverOneAdds | src/jira2solidtime/utils/worklog_mapping.py:189-218 | a step that reports a recovery added exactly one row, for a Tempo id not yet mapped, built from that entry's id, marker and issue-key prefix |
| WorklogStore.RecoverKeepsRows | src/jira2solidtime/utils/worklog_mapping.py:205-214 | after any number of entries, recovery has not changed or removed a row that already existed |
| WorklogStore.RecoverCount | src/jira2solidtime/utils/worklog_mapping.py:187-225 | after any number of entries, the count so far is the number of rows added |
| WorklogStore.RecoverPrefix | src/jira2solidtime/utils/worklog_mapping.py:189-218 | the loop after any number of entries keeps the table well formed |
| WorklogStore.RecoverAll | src/jira2solidtime/utils/worklog_mapping.py:187-225 | recovery over all the entries keeps the table well formed; RecoverAppends, RecoverKeepsRows, RecoverCount and RecoverProvenance state the rest |
| WorklogStore.RecoverAppends | src/jira2solidtime/utils/worklog_mapping.py:205-214 | recovery only appends to the insertion order: every row there before keeps its position |
| WorklogStore.RecoverProvenance | src/jira2solidtime/utils/worklog_mapping.py:191-216 | every added row comes from one of the entries seen so far: one with an id, a marker naming the row's Tempo id and an issue-key prefix naming its issue |
| WorklogStore.WorklogMapping.constructor | src/jira2solidtime/utils/worklog_mapping.py:15-22 | a store with no mapping file holds no mappings |
| WorklogStore.WorklogMapping.LoadMappings | src/jira2solidtime/utils/worklog_mapping.py:24-35 | the loaded table has the file's keys in the file's order, and each row is the file's row with its flag backfilled |
| WorklogStore.WorklogMapping.AddMapping | src/jira2solidtime/utils/worklog_mapping.py:66-83 | the store becomes the old store with the row for the Tempo id written or overwritten |
| WorklogStore.WorklogMapping.GetSolidtimeEntryId | src/jira2solidtime/utils/worklog_mapping.py:88-91 | the entry id of the row exactly when the Tempo id is mapped |
| WorklogStore.WorklogMapping.GetTempoWorklogId | src/jira2solidtime/utils/worklog_mapping.py:93-98 | the first Tempo id in insertion order whose row names the entry; none exactly when no row does |
| WorklogStore.WorklogMapping.RemoveMapping | src/jira2solidtime/utils/worklog_mapping.py:100-104 | the row is removed; removing an unmapped id changes nothing |
| WorklogStore.WorklogMapping.GetMappedSolidtimeEntryIds | src/jira2solidtime/utils/worklog_mapping.py:106-108 | exactly the entry ids some row names |
| WorklogStore.WorklogMapping.GetMappedTempoWorklogIds | src/jira2solidtime/utils/worklog_mapping.py:110-112 | exactly the mapped Tempo ids |
| WorklogStore.WorklogMapping.MarkForUpdate | src/jira2solidtime/utils/worklog_mapping.py:114-118 | the named row's flag is set and nothing else changes |
| WorklogStore.WorklogMapping.ClearUpdateFlag | src/jira2solidtime/utils/worklog_mapping.py:120-124 | the named row's flag is cleared and nothing else changes |
| WorklogStore.WorklogMapping.NeedsUpdate | src/jira2solidtime/utils/worklog_mapping.py:126-129 | true exactly when the id is mapped and its row is flagged |
| WorklogStore.WorklogMapping.GetEntriesNeedingUpdate | src/jira2solidtime/utils/worklog_mapping.py:131-137 | exactly the flagged Tempo ids, each once |
| WorklogStore.WorklogMapping.IsTempoWorklogNewer | src/jira2solidtime/utils/worklog_mapping.py:139-155 | an unmapped worklog is always newer; a row without a timestamp never is; otherwise the string comparison of the two timestamps decides |
| WorklogStore.WorklogMapping.CleanupOrphanedMappings | src/jira2solidtime/utils/worklog_mapping.py:157-168 | afterwards the store holds exactly the old keys that still exist, with their rows unchanged and in their old order |
| WorklogStore.WorklogMapping.RemoveMappings | src/jira2solidtime/utils/worklog_mapping.py:163-164 | removing a list of ids removes exactly those rows and keeps the order of the rest |
| WorklogStore.WorklogMapping.GetStatistics | src/jira2solidtime/utils/worklog_mapping.py:170-181 | the number of rows and the number of distinct issue keys among them |
| WorklogStore.WorklogMapping.RecoverEntry | src/jira2solidtime/utils/worklog_mapping.py:189-218 | one turn of the recovery loop changes the store and reports exactly as the reference step RecoverOne |
| WorklogStore.WorklogMapping.RecoverMappingsFromDescriptions | src/jira2solidtime/utils/worklog_mapping.py:183-225 | the new store and the count are those of the reference recovery over the entries, so every law above holds of the method |
| IssueLevel.TempoGroups | src/jira2solidtime/sync/issue_comparator.py:17-52 | no worklogs, no groups; the grouping is defined one worklog at a time, and the three lemmas below state what it holds |
| IssueLevel.NewestStampStep | src/jira2solidtime/sync/issue_comparator.py:35-40 | the "newest non-empty `updatedAt` wins" update keeps the newest stamp seen so far |
| IssueLevel.TempoGroupsKeys | src/jira2solidtime/sync/issue_comparator.py:31-33 | an issue has a group exactly when its key is non-empty and some worklog carries it |
| IssueLevel.TempoGroupsTotals | src/jira2solidtime/sync/issue_comparator.py:43-46 | a group holds its issue's worklogs in input order, their number, and the sum of their whole minutes |
| IssueLevel.TempoGroupsNewest | src/jira2solidtime/sync/issue_comparator.py:35-40 | `last_updated` is not older than any stamp of the issue and is one of them (`""` when none is set) |
| IssueLevel.GroupTempoWorklogsByIssue | src/jira2solidtime/sync/issue_comparator.py:17-52 | the loop builds exactly the reference grouping |
| IssueLevel.SolidGroups | src/jira2solidtime/sync/issue_comparator.py:54-91 | no entries, no groups; the grouping is defined one entry at a time |
| IssueLevel.SolidGroupsContents | src/jira2solidtime/sync/issue_comparator.py:64-86 | only entries tagged `[JiraSync` with an issue-key prefix are grouped; a group holds its entries in order, their number and their whole minutes |
| IssueLevel.GroupSolidtimeEntriesByIssue | src/jira2solidtime/sync/issue_comparator.py:54-91 | the loop builds exactly the reference grouping |
| IssueLevel.FindIssuesToSync | src/jira2solidtime/sync/issue_comparator.py:95-161 | every issue on one side only is synced; an issue on both sides is synced exactly when Tempo has more worklogs, or as many with different minutes, or fewer while carrying an update stamp; no other issue is |
| IssueLevel.ShouldSync | src/jira2solidtime/sync/issue_comparator.py:114-134 | the test for an issue on both sides, as FindIssuesToSync states it: more Tempo worklogs, or as many with different minutes, or fewer with a non-empty update stamp |
| IssueLevel.UnchangedIssueIsNotSynced | src/jira2solidtime/sync/issue_comparator.py:117-138 | equal counts and minutes never trigger a sync |
| IssueLevel.ReductionWithoutStampIsIgnored | src/jira2solidtime/sync/issue_comparator.py:129-137 | fewer Tempo worklogs without any update stamp is taken for a manual Solidtime edit and not synced |
| IssueLevel.GetSyncPlan | src/jira2solidtime/sync/issue_comparator.py:163-188 | the counts; the issues to sync split into changed (both sides), new (Tempo only) and deleted (the rest), each listed once, with nothing lost |
| IssueLevel.EntryIds | src/jira2solidtime/sync/issue_comparator.py:208-213 | exactly the non-empty ids of the entries |
| IssueLevel.GetSolidtimeEntriesToDelete | src/jira2solidtime/sync/issue_comparator.py:190-219 | exactly the ids of the entries of issues that are synced, on the Solidtime side, and not gaining worklogs |
| IssueLevel.MissingWorklogsCount | src/jira2solidtime/sync/issue_comparator.py:221-230 | `max(0, tempo - solidtime)` over the counts, with absent issues counting zero |
| IssueLevel.Missing | src/jira2solidtime/sync/issue_comparator.py:232-282 | the reference: the issue's worklogs, in order, with no candidate entry on the same date within one minute |
| IssueLevel.MissingComplete | src/jira2solidtime/sync/issue_comparator.py:249-277 | a worklog is reported exactly when it belongs to the issue and has no matching candidate |
| IssueLevel.Candidates | src/jira2solidtime/sync/issue_comparator.py:241-246 | exactly the entries tagged with the legacy `[JiraSync]` that name the issue |
| IssueLevel.FindMissingWorklogs | src/jira2solidtime/sync/issue_comparator.py:232-282 | the loop with its early exit returns exactly the reference list |
| IssueLevel.FoundIffMatch | src/jira2solidtime/sync/issue_comparator.py:256-271 | the inner search with `break` finds a match exactly when one exists |
| IssueLevel.MissingOfOwn | src/jira2solidtime/sync/issue_comparator.py:236-240 | restricting the worklogs to the issue first changes nothing |
| FieldMapper.SummaryOr | src/jira2solidtime/mapping/field_mapper.py:50 | the issue summary when present, else `"No description"` |
| FieldMapper.ChosenText | src/jira2solidtime/mapping/field_mapper.py:52-64 | Tempo's default "Working on issue <key>" text is replaced by the summary; other non-empty text is kept; empty text falls back to the summary |
| FieldMapper.DescriptionFor | src/jira2solidtime/mapping/field_mapper.py:49-64 | the `"<key>: <text> [JiraSync:<id>]"` description over the chosen text; FieldMapper.DescriptionCarriesIds reads the id and key back out of it |
| FieldMapper.MapProject | src/jira2solidtime/mapping/field_mapper.py:93-105 | the configured project name, or the key itself when it is unmapped |
| FieldMapper.FirstLabelTask | src/jira2solidtime/mapping/field_mapper.py:112-116 | the task of the first label, in order, whose lower-case form is mapped; none exactly when no label is mapped |
| FieldMapper.MapTask | src/jira2solidtime/mapping/field_mapper.py:107-128 | a label mapping wins, then the issue-type mapping, then the configured default, then `"General Work"` |
| FieldMapper.FixedRule | src/jira2solidtime/mapping/field_mapper.py:141-150 | `always_billable` means true, `never_billable` false, any other rule decides nothing |
| FieldMapper.MapBillable | src/jira2solidtime/mapping/field_mapper.py:130-154 | a fixed project override wins; otherwise the default rule (`auto` when absent); under `auto`, positive billable seconds |
| FieldMapper.MapTempoWorklog | src/jira2solidtime/mapping/field_mapper.py:14-91 | fails exactly on a `null` description; otherwise date, start time (default `09:00`), project, task, billable status, issue key, Tempo id and description are those the rules give |
| FieldMapper.MapAll | src/jira2solidtime/mapping/field_mapper.py:156-173 | the mapped worklogs, never more than the input |
| FieldMapper.MapAllAppend | src/jira2solidtime/mapping/field_mapper.py:162-168 | mapping a concatenation maps each part, so the input order is kept |
| FieldMapper.MapAllKeepsEverything | src/jira2solidtime/mapping/field_mapper.py:162-168 | when no worklog fails, every worklog is mapped, in place |
| FieldMapper.MapMultipleWorklogs | src/jira2solidtime/mapping/field_mapper.py:156-173 | the loop that skips failures returns exactly the reference list |
| FieldMapper.Counted | src/jira2solidtime/mapping/field_mapper.py:194-195 | the counted name gains one occurrence and every other name keeps its count |
| FieldMapper.Tally | src/jira2solidtime/mapping/field_mapper.py:188-195 | the counter has a key exactly for each name that occurs, holding its number of occurrences |
| FieldMapper.GetMappingStats | src/jira2solidtime/mapping/field_mapper.py:175-203 | `total_worklogs` is the number of mapped worklogs; the project and task counters tally their names |
| FieldMapper.DescriptionCarriesIds | src/jira2solidtime/mapping/field_mapper.py:58-64 | the written description gives back the worklog's Tempo id through the marker and its issue key through the prefix |
| Drift.ExpectedDescription | src/jira2solidtime/sync/issue_comparator.py:515-542 | empty exactly when the description is `null` and the handler swallows the error |
| Drift.ExpectedDescriptionIsFieldMappers | src/jira2solidtime/sync/issue_comparator.py:515-542 | the comparator's expected description is the field mapper's, and fails exactly when the mapper fails |
| Drift.DriftDescription | src/jira2solidtime/sync/issue_comparator.py:624-638 | the raw description when non-empty, else the summary with `""` as default, tagged with key and id |
| Drift.ClockMinutes | src/jira2solidtime/sync/issue_comparator.py:593-605 | defined only for three integer parts, and then `h * 60 + m` |
| Drift.Differs | src/jira2solidtime/sync/issue_comparator.py:544-651 | no drift means the descriptions are equal, and with both stamps present they parse, the duration is within 60 s and the date matches; an entry with a start and no end never counts as unchanged against a dated worklog |
| Drift.DiffersExactly | src/jira2solidtime/sync/issue_comparator.py:544-652 | with readable stamps, an entry differs exactly when the duration is off by more than 60 s, or the date differs, or the start is off by more than 2 minutes, or the descriptions differ |
| Drift.UnreadableStampDiffers | src/jira2solidtime/sync/issue_comparator.py:557-575 | a stamp that does not parse counts as a difference |
| Drift.OpenEntryDiffers | src/jira2solidtime/sync/issue_comparator.py:556-595 | an entry with a start and no end differs from any worklog with a date or start time: `datetime` is then unbound |
| Drift.UntimedEntryComparesDescriptions | src/jira2solidtime/sync/issue_comparator.py:623-646 | without a start stamp only the descriptions decide |
| Drift.FormatsAgree | src/jira2solidtime/sync/issue_comparator.py:624-638 | the drift format and the expected description agree on an already-stripped custom description |
| Drift.MapperTextReadsAsDrift | src/jira2solidtime/sync/issue_comparator.py:624-646 | on Tempo's default text the two formats diverge, so an entry holding exactly what the mapper wrote is reported as drifted |
| Planner.FetchedIds | src/jira2solidtime/sync/issue_comparator.py:299-303 | exactly `str(id)` of the fetched worklogs whose id is truthy |
| Planner.StepOne | src/jira2solidtime/sync/issue_comparator.py:306-336 | one worklog: skipped without an id; a new id gets a row with no entry and the flag set; a known id whose stamp is newer gets the new stamp and the flag; nothing else changes |
| Planner.StepAll | src/jira2solidtime/sync/issue_comparator.py:306-336 | step 1 over the fetch keeps the table well formed |
| Planner.Restrict | src/jira2solidtime/sync/issue_comparator.py:338-348 | the rows with kept ids, unchanged and in their old order |
| Planner.StepAllKeys | src/jira2solidtime/sync/issue_comparator.py:306-336 | after step 1 every worklog with an id has a row, and only those or old rows exist |
| Planner.PartA | src/jira2solidtime/sync/issue_comparator.py:284-364 | `sync_tempo_to_mapping`: afterwards every key is a fetched id, and every row was in the table before or comes from a fetched worklog |
| Planner.PartAKeys | src/jira2solidtime/sync/issue_comparator.py:284-364 | after Part A the table holds exactly the fetched ids |
| Planner.PartACounts | src/jira2solidtime/sync/issue_comparator.py:306-336 | each processed worklog is counted exactly once, as new, marked or unchanged |
| Planner.RowEvolvedTransitive | src/jira2solidtime/sync/issue_comparator.py:314-325 | the way step 1 changes a row composes: a later stamp is set only with the flag |
| Planner.StepAllEvolves | src/jira2solidtime/sync/issue_comparator.py:306-336 | new rows have no entry and carry the flag; old rows keep entry, issue key and Solidtime stamp, never lose the flag, and move their stamp only forward |
| Planner.PartARows | src/jira2solidtime/sync/issue_comparator.py:284-364 | the rows Part A keeps carry those guarantees |
| Planner.StepAllSettles | src/jira2solidtime/sync/issue_comparator.py:306-336 | after step 1 no fetched worklog is newer than its row |
| Planner.StepAllOnSettled | src/jira2solidtime/sync/issue_comparator.py:306-336 | a settled table passes step 1 untouched, every worklog counted unchanged |
| Planner.PartAIdempotent | src/jira2solidtime/sync/issue_comparator.py:284-364 | Part A run again on the same fetch adds, marks and removes nothing, unless a worklog has id 0 |
| Planner.RestrictEverything | src/jira2solidtime/sync/issue_comparator.py:338-348 | restricting to a superset of the keys changes nothing and drops no orphan |
| Planner.TempoLookup | src/jira2solidtime/sync/issue_comparator.py:393-397 | keyed by exactly the fetched ids, each value a fetched worklog with that id |
| Planner.ExistingIds | src/jira2solidtime/sync/issue_comparator.py:401-403 | exactly the non-empty entry ids |
| Planner.EntryLookup | src/jira2solidtime/sync/issue_comparator.py:406-408 | keyed by exactly the existing ids, each value an entry with that id |
| Planner.OrphanEntries | src/jira2solidtime/sync/issue_comparator.py:413-429 | exactly the tagged entries with an id that no row points at |
| Planner.Classify | src/jira2solidtime/sync/issue_comparator.py:432-481 | skip exactly when no worklog was fetched; create exactly when there is no entry or it is gone; update exactly when the row is flagged, has no Solidtime stamp, or its entry drifted |
| Planner.Decide | src/jira2solidtime/sync/issue_comparator.py:432-481 | the update lists are aligned, and no more worklogs are listed than rows have a fetched worklog |
| Planner.PlanB | src/jira2solidtime/sync/issue_comparator.py:383-498 | the deletions are exactly the orphaned entries; `unchanged_worklogs` is the fetch minus creates and updates |
| Planner.PlanTable | src/jira2solidtime/sync/issue_comparator.py:378-390 | the table Part B reads is Part A's, recovered from descriptions when Part A left none |
| Planner.DetailedPlan | src/jira2solidtime/sync/issue_comparator.py:366-513 | the update lists have equal length and every update id is a fetched entry; no worklog is both created and updated; `unchanged_worklogs` is the fetch minus creates and updates, never negative |
| Planner.DecideSound | src/jira2solidtime/sync/issue_comparator.py:432-481 | every listed worklog comes from a row whose decision is that list, in table order |
| Planner.DecideComplete | src/jira2solidtime/sync/issue_comparator.py:432-481 | every row whose decision is create or update is in that list |
| Planner.PlanAligned | src/jira2solidtime/sync/issue_comparator.py:461-475 | the update ids are index-aligned with the worklogs to update, and each is an existing entry |
| Planner.PlanPartition | src/jira2solidtime/sync/issue_comparator.py:449-481 | no worklog is both created and updated |
| Planner.PlanComplete | src/jira2solidtime/sync/issue_comparator.py:432-481 | each row with a fetched worklog lands in the list its decision names |
| Planner.UnchangedNotNegative | src/jira2solidtime/sync/issue_comparator.py:492-494 | `unchanged_worklogs` is never negative |
| Planner.RecoveryPlansNothing | src/jira2solidtime/sync/issue_comparator.py:378-390 | when Part A leaves no rows, the recovered rows create and update nothing; they only shield their entries from deletion |
| Planner.RecordSync | src/jira2solidtime/sync/issue_comparator.py:653-684 | nothing without Tempo id and issue key; an existing row gets the entry, the Solidtime stamp and a cleared flag; else a new clear row |
| Planner.RecordedRowIsSettled | src/jira2solidtime/sync/issue_comparator.py:653-684 | a row written back with a stamp, for an entry still there, is updated next time only if its entry drifted |
| Planner.RecordSyncIdempotent | src/jira2solidtime/sync/issue_comparator.py:653-684 | writing the same result back twice is writing it once |
| Planner.CollectFetchedIds | src/jira2solidtime/sync/issue_comparator.py:299-303 | the loop computes exactly the fetched ids |
| Planner.CollectOrphans | src/jira2solidtime/sync/issue_comparator.py:338-341 | the loop collects exactly the orphaned keys, in table order |
| Planner.BuildTempoLookup | src/jira2solidtime/sync/issue_comparator.py:393-397 | the loop builds exactly the reference lookup |
| Planner.BuildEntryLookup | src/jira2solidtime/sync/issue_comparator.py:401-408 | the loop builds exactly the reference set and lookup |
| Planner.FindOrphanEntries | src/jira2solidtime/sync/issue_comparator.py:413-429 | the loop collects exactly the orphaned entries, in fetch order |
| Planner.DecideRows | src/jira2solidtime/sync/issue_comparator.py:432-481 | the walk over the rows produces exactly the reference lists |
| Planner.IssueComparator.constructor | src/jira2solidtime/sync/issue_comparator.py:14-15 | the comparator works on the store it is given |
| Planner.IssueComparator.ApplyWorklog | src/jira2solidtime/sync/issue_comparator.py:306-336 | the store after one worklog and its outcome are those of step 1 |
| Planner.IssueComparator.ApplyWorklogs | src/jira2solidtime/sync/issue_comparator.py:306-336 | the store and the counters after the loop are those of step 1 over the fetch |
| Planner.IssueComparator.RemoveUnfetched | src/jira2solidtime/sync/issue_comparator.py:338-348 | the store is restricted to the fetched ids and the count is the number of orphans |
| Planner.IssueComparator.SyncTempoToMapping | src/jira2solidtime/sync/issue_comparator.py:284-364 | the new store and the statistics are Part A's, so every Part A law holds of the method |
| Planner.IssueComparator.DetailedWorklogSyncPlan | src/jira2solidtime/sync/issue_comparator.py:366-513 | the store afterwards is the plan table and the plan is Part B's over it |
| Planner.IssueComparator.AddWorklogMapping | src/jira2solidtime/sync/issue_comparator.py:653-684 | the store afterwards is the write-back of the result |
| Planner.IssueComparator.RemoveWorklogMapping | src/jira2solidtime/sync/issue_comparator.py:686-689 | the row is removed and nothing else changes |
| SyncService.DeleteCalls | src/jira2solidtime/services/sync_service.py:189-190 | one delete call per id, in order |
| SyncService.Deleted | src/jira2solidtime/services/sync_service.py:189-191 | exactly the ids whose delete succeeded |
| SyncService.DeletionDetail | src/jira2solidtime/services/sync_service.py:319-354 | the description is kept; without both `:` and `[JiraSync:` the key is empty and the summary `"Deleted entry"`; otherwise the stripped text before the first `:`, and the stripped text up to the marker when it is not empty |
| SyncService.DeletionDetailTagged | src/jira2solidtime/services/sync_service.py:331-342 | for a description with both `:` and `[JiraSync:`, the key is the stripped text before the first `:`, and the summary the stripped text from there to the first `[JiraSync:` after it (to the end when none follows), or `"Deleted entry"` when that is empty |
| SyncService.DeletionDetails | src/jira2solidtime/services/sync_service.py:326-328 | at most one detail per deleted id |
| SyncService.DeletionDetailsOneForOne | src/jira2solidtime/services/sync_service.py:326-354 | when every deleted id names a fetched entry, the details follow the ids one for one |
| SyncService.DeletedStep | src/jira2solidtime/services/sync_service.py:189-194 | one turn of the deletion loop adds its call, and its id when the delete succeeded |
| SyncService.Deletions | src/jira2solidtime/services/sync_service.py:172-196 | the table is untouched, the count is the number of successful deletes, one call per id, and only the deletion details grow |
| SyncService.MemberId | src/jira2solidtime/services/sync_service.py:279-288 | the id of the first membership in the client's organization; `""` when there is none |
| SyncService.ProjectMapping | src/jira2solidtime/services/sync_service.py:290-295 | exactly the names of the projects that have an id |
| SyncService.ProjectMappingLastWins | src/jira2solidtime/services/sync_service.py:291-295 | each name maps to the id of the last project with that name and an id |
| SyncService.Converted | src/jira2solidtime/services/sync_service.py:299-317 | no more entries than worklogs; when every worklog converts, the `i`-th entry is the `i`-th worklog's conversion |
| SyncService.ConvertiblePositions | src/jira2solidtime/services/sync_service.py:299-317 | the positions of the worklogs that convert: each listed once, all of them, in increasing order |
| SyncService.ConvertedInOrder | src/jira2solidtime/services/sync_service.py:299-317 | the entries are the conversions of the worklogs that convert, one each, in the worklogs' order |
| SyncService.Successes | src/jira2solidtime/services/sync_service.py:228 | the number of successful results; zero exactly when none succeeded |
| SyncService.Recorded | src/jira2solidtime/services/sync_service.py:363-376 | writing the results back keeps the table well formed |
| SyncService.WrittenPositions | src/jira2solidtime/services/sync_service.py:378-392 | the positions of the results written back (success, a new id, a worklog at that position): each listed once, all of them, in increasing order |
| SyncService.CreatedDetails | src/jira2solidtime/services/sync_service.py:378-392 | one detail per written-back result, in order, each the detail of the worklog at the result's position; never more than the results |
| SyncService.Creations | src/jira2solidtime/services/sync_service.py:198-235 | nothing to create: nothing happens; no member id: only the two lookup calls; otherwise the results are written back, and only the created details grow |
| SyncService.UpdatePayload | src/jira2solidtime/services/sync_service.py:424-436 | the converted entry with the raw tagged description, and the existing project and task ids when they are set; nothing else changes |
| SyncService.UpdatedDetailOf | src/jira2solidtime/services/sync_service.py:483-515 | the tagged description, marked `* ` exactly when it differs from the old one |
| SyncService.Touched | src/jira2solidtime/services/sync_service.py:473-481 | the row gets the Tempo stamp and the run's stamp, its flag is cleared, and no other row changes |
| SyncService.UpdateOne | src/jira2solidtime/services/sync_service.py:394-461 | at most one success and at most one update call, for that entry; no fetched entry: nothing; a success touches exactly that row |
| SyncService.UpdateAll | src/jira2solidtime/services/sync_service.py:258-271 | no more successes than worklogs and ids; only the updated details grow |
| SyncService.UpdateAllStep | src/jira2solidtime/services/sync_service.py:259-271 | one turn of the loop for a worklog with an entry id is one single update |
| SyncService.UpdateAllPast | src/jira2solidtime/services/sync_service.py:260 | a worklog past the last entry id does nothing |
| SyncService.Updates | src/jira2solidtime/services/sync_service.py:237-275 | no worklogs or no ids: nothing happens; otherwise as the loop, with no more successes than worklogs and ids |
| SyncService.Planned | src/jira2solidtime/services/sync_service.py:83-95 | `total_entries` is the fetch size and `changes` the planned creates, updates and deletes together |
| SyncService.Execute | src/jira2solidtime/services/sync_service.py:148-170 | the count reported as created is the number of successful deletions, the one reported as deleted is bounded by the updates, and the delete calls come first |
| SyncService.AfterPlan | src/jira2solidtime/services/sync_service.py:85-123 | `total_entries` is the fetch size; a dry run returns the planned counts, makes no call and leaves the table as it is |
| SyncService.SyncRun | src/jira2solidtime/services/sync_service.py:45-132 | the first call is the Tempo fetch and `total_entries` its size; an empty fetch gives the empty result after that one call, with the table unchanged |
| SyncService.SyncRunNothingFetched | src/jira2solidtime/services/sync_service.py:61-62 | an empty Tempo fetch returns the empty result and makes no other call |
| SyncService.SyncRunPlanned | src/jira2solidtime/services/sync_service.py:64-80 | a run that fetched worklogs is its plan followed by what runs after it |
| SyncService.AfterPlanIdle | src/jira2solidtime/services/sync_service.py:97-99 | a dry run or a plan without changes returns the planned counts and runs nothing |
| SyncService.AfterPlanExecuted | src/jira2solidtime/services/sync_service.py:101-123 | otherwise the three operations run on the planned table and their counts replace the planned ones |
| SyncService.SyncService.constructor | src/jira2solidtime/services/sync_service.py:45-59 | the service holds its clients, rules and store, and has made no call |
| SyncService.SyncService.HandleDeletions | src/jira2solidtime/services/sync_service.py:172-196 | count, details and calls are those of the reference deletions |
| SyncService.SyncService.DeleteEach | src/jira2solidtime/services/sync_service.py:188-194 | the loop counts the successful deletes, appends their details and makes one call per id |
| SyncService.SyncService.GetSolidtimeMappings | src/jira2solidtime/services/sync_service.py:277-297 | the member id and project mapping of the reference, after the two lookup calls |
| SyncService.SyncService.ConvertWorklogsToTimeEntries | src/jira2solidtime/services/sync_service.py:299-317 | exactly the reference conversion, skipping the worklogs that raise |
| SyncService.SyncService.ProcessCreationResults | src/jira2solidtime/services/sync_service.py:356-392 | the store becomes the reference write-back and the created details grow by the reference details |
| SyncService.SyncService.HandleCreations | src/jira2solidtime/services/sync_service.py:198-235 | count, store, details and calls are those of the reference creations |
| SyncService.SyncService.UpdateMappingAndDetails | src/jira2solidtime/services/sync_service.py:463-515 | the row is touched and one updated detail is appended |
| SyncService.SyncService.UpdateSingleEntry | src/jira2solidtime/services/sync_service.py:394-461 | success, store, details and calls are those of the reference single update |
| SyncService.SyncService.HandleUpdates | src/jira2solidtime/services/sync_service.py:237-275 | count, store, details and calls are those of the reference updates |
| SyncService.SyncService.UpdateEach | src/jira2solidtime/services/sync_service.py:258-271 | the loop's count, store, details and calls are those of the reference loop |
| SyncService.SyncService.ExecuteSyncOperations | src/jira2solidtime/services/sync_service.py:148-170 | the three counts, store, details and calls are those of the reference execution |
| SyncService.SyncService.SyncWorklogs | src/jira2solidtime/services/sync_service.py:45-133 | the result, the store afterwards and the calls are those of the reference run, so every law about runs holds of the method |
| SyncServiceLaws.IdleRunWritesNothing | src/jira2solidtime/services/sync_service.py:83-99 | a dry run or a plan without changes reports the planned counts and makes no call after the two fetches |
| SyncServiceLaws.CountsAreSwapped | src/jira2solidtime/services/sync_service.py:101-121 | when the operations run, `created` is the number of deletions, `updated` of creations and `deleted` of updates, as the code binds them |
| SyncServiceLaws.OneDeletionReportsOneCreation | src/jira2solidtime/services/sync_service.py:160-170 | one successful deletion and nothing else is reported as one creation and no deletion |
| SyncServiceLaws.CreationsCalls | src/jira2solidtime/services/sync_service.py:198-235 | the creation step makes only lookup and bulk-create calls |
| SyncServiceLaws.UpdateAllCalls | src/jira2solidtime/services/sync_service.py:258-271 | every call of the update loop updates the id paired with its worklog |
| SyncServiceLaws.UpdatesCalls | src/jira2solidtime/services/sync_service.py:237-275 | the update step makes only lookup and update calls |
| SyncServiceLaws.ExecutionOrder | src/jira2solidtime/services/sync_service.py:160-168 | deletions come first, then creations, then updates: no deletion follows another kind of call, and no create follows an update |
| SyncServiceLaws.NoCreateWithoutMemberOrEntries | src/jira2solidtime/services/sync_service.py:212-222 | without a member id, or with nothing that converts, no create call is made |
| SyncServiceLaws.RecordedOnlyFromWrites | src/jira2solidtime/services/sync_service.py:363-376 | a row is written only for a successful result with an id, under the id of the worklog at the same position |
| SyncServiceLaws.RecordedKeepsOthers | src/jira2solidtime/services/sync_service.py:363-376 | a row no written-back result names is left as it was |
| SyncServiceLaws.CreationPairsByPosition | src/jira2solidtime/services/sync_service.py:363-376 | results are paired with the worklogs to create by position although the mapper dropped one, so the entry is recorded under the wrong worklog |
| SyncServiceLaws.UnfetchedEntryNotUpdated | src/jira2solidtime/services/sync_service.py:406-411 | an entry id with no fetched entry is skipped without a call |
| SyncServiceLaws.UpdateClearsFlag | src/jira2solidtime/services/sync_service.py:442-481 | a successful update clears the row's flag and writes both stamps, nothing else |
| MinimalStore.KeyText | src/jira2solidtime/sync/worklog_mapping.py:70 | `str(id)`: a textual id is itself, a missing id is `"None"`, and an integer id reads back as that integer |
| MinimalStore.NumericKeysDistinct | src/jira2solidtime/sync/worklog_mapping.py:86 | two integer ids share a row exactly when they are equal |
| MinimalStore.NumericAndTextualAgree | src/jira2solidtime/sync/worklog_mapping.py:86 | an integer id and its decimal text address the same row, and no other text does |
| MinimalStore.ResetAll | src/jira2solidtime/sync/worklog_mapping.py:125-128 | every row's flag is `False`, keys and order kept, nothing else in a row changes |
| MinimalStore.Pending | src/jira2solidtime/sync/worklog_mapping.py:136-140 | the pairs, in order, whose row is not processed |
| MinimalStore.PendingOfUnprocessed | src/jira2solidtime/sync/worklog_mapping.py:136-140 | when no row is processed, every row is pending, one pair per key, in order |
| MinimalStore.ResetMakesAllPending | src/jira2solidtime/sync/worklog_mapping.py:125-140 | after a reset every mapping is pending, in insertion order |
| MinimalStore.MarkedIsNotPending | src/jira2solidtime/sync/worklog_mapping.py:116-140 | a mapping marked after a reset is no longer pending, and the others still are |
| MinimalStore.OneIssueCountsOnce | src/jira2solidtime/sync/worklog_mapping.py:113 | rows that all name one issue count as one unique issue |
| MinimalStore.UniqueIssuesBounded | src/jira2solidtime/sync/worklog_mapping.py:111-114 | never more unique issues than mappings |
| MinimalStore.WorklogMapping.constructor | src/jira2solidtime/sync/worklog_mapping.py:19-28 | a store without a file holds no mappings |
| MinimalStore.WorklogMapping.GetSolidtimeEntryId | src/jira2solidtime/sync/worklog_mapping.py:61-71 | the mapped entry id exactly when the id's text is a key |
| MinimalStore.WorklogMapping.AddMapping | src/jira2solidtime/sync/worklog_mapping.py:73-92 | the whole row is replaced, dropping a `processed` flag; the id is then synced to that entry and no other row changes |
| MinimalStore.WorklogMapping.IsAlreadySynced | src/jira2solidtime/sync/worklog_mapping.py:94-103 | `str(id) in mappings`: synced exactly when the entry lookup finds a mapped entry id |
| MinimalStore.WorklogMapping.GetStats | src/jira2solidtime/sync/worklog_mapping.py:105-114 | the number of rows, and the distinct issue keys, which are never more |
| MinimalStore.WorklogMapping.MarkProcessed | src/jira2solidtime/sync/worklog_mapping.py:116-123 | an existing row gets its flag set; no row is created and no other row changes |
| MinimalStore.WorklogMapping.ResetProcessed | src/jira2solidtime/sync/worklog_mapping.py:125-128 | the store becomes the reference reset |
| MinimalStore.WorklogMapping.GetUnprocessedMappings | src/jira2solidtime/sync/worklog_mapping.py:130-140 | every pair listed is an unprocessed row, and every unprocessed row is listed |
| MinimalStore.WorklogMapping.RemoveMapping | src/jira2solidtime/sync/worklog_mapping.py:142-151 | that row is deleted and nothing else; absent ids change nothing; the id is then not synced |
| ProjectMapper.Mapper.constructor | src/jira2solidtime/sync/mapper.py:12-19 | the mapper holds the mappings it is given |
| ProjectMapper.Mapper.MapProject | src/jira2solidtime/sync/mapper.py:21-35 | the stored name exactly when the key is mapped, else nothing |
| ProjectMapper.Mapper.AddMapping | src/jira2solidtime/sync/mapper.py:37-44 | the key now maps to the name and every other key as before |
| ProjectMapper.Mapper.GetAllMappings | src/jira2solidtime/sync/mapper.py:47-53 | a copy that answers every lookup as the mapper does |
| MinimalSyncer.ProjectKey | src/jira2solidtime/sync/syncer.py:96 | the text before the first `-`: a prefix of the key without a dash, followed by a dash or the end |
| MinimalSyncer.FirstProjectId | src/jira2solidtime/sync/syncer.py:111-115 | the id of the first project with that name; none exactly when no project has it |
| MinimalSyncer.CreateTimeEntry | src/jira2solidtime/sync/syncer.py:132-137 | a call without the required `task_id` raises before the client runs; otherwise the client answers |
| MinimalSyncer.ForKey | src/jira2solidtime/sync/syncer.py:91-130 | an empty key, an empty project key, an unmapped project or an unknown project name skips; otherwise the create arguments carry the first matching project id, whole minutes, "08:00:00" and the comment or key, and no `task_id` |
| MinimalSyncer.Classify | src/jira2solidtime/sync/syncer.py:75-94 | the worklog's own key decides, else the key Jira returns for a truthy issue id; a failing Jira lookup is a skip |
| MinimalSyncer.Count | src/jira2solidtime/sync/syncer.py:73-144 | each worklog moves exactly one counter: skips to `skipped`, a raising call to `failed`, a successful one to `created` |
| MinimalSyncer.TallyConserves | src/jira2solidtime/sync/syncer.py:69-144 | the three counters add up to the number of worklogs seen |
| MinimalSyncer.Tally | src/jira2solidtime/sync/syncer.py:68-144 | the counters after the loop, one Count per worklog; TallyConserves and TallySplits state its laws |
| MinimalSyncer.TallySplits | src/jira2solidtime/sync/syncer.py:73-144 | nothing is counted as created: the skipped worklogs are exactly the skipped decisions and every other worklog fails |
| MinimalSyncer.SummaryAccounts | src/jira2solidtime/sync/syncer.py:146-155 | a run whose fetches succeed reports every worklog in `total`, none created, the rest split into failed and skipped |
| MinimalSyncer.SyncSummary | src/jira2solidtime/sync/syncer.py:38-155 | the run fails exactly when a fetch fails; otherwise the three counters add up to the total, which is the number of worklogs fetched |
| MinimalSyncer.FetchFailureStops | src/jira2solidtime/sync/syncer.py:54-66 | a failing fetch, Tempo first, reports its error and no counts; a run fails exactly when a fetch does |
| MinimalSyncer.MappableWorklogFails | src/jira2solidtime/sync/syncer.py:122-144 | a worklog with a key, a mapped project and a project id still counts as failed |
| MinimalSyncer.Syncer.constructor | src/jira2solidtime/sync/syncer.py:19-36 | the syncer holds its clients and mapper |
| MinimalSyncer.Syncer.FindProjectId | src/jira2solidtime/sync/syncer.py:111-115 | the search with `break` returns the first matching id, or nothing |
| MinimalSyncer.Syncer.Sync | src/jira2solidtime/sync/syncer.py:38-155 | the summary is the reference summary, so the counting laws hold of the method |
| MinimalSyncer.Syncer.Decide | src/jira2solidtime/sync/syncer.py:76-130 | the loop body with its `continue`s makes the reference decision |
| Dicts.Merge | src/jira2solidtime/config/__init__.py:57 | `{**a, **b}`: every key of the second takes its value, the other keys of the first keep theirs; the first's keys keep their places and the keys only the second has follow them in the second's order |
| Calendar.DaysInMonth | src/jira2solidtime/utils/date_parser.py:39 | the last day of a month lies between 28 and 31 |
| Calendar.FebruaryLength | src/jira2solidtime/utils/date_parser.py:39 | February has 29 days exactly in leap years |
| Calendar.IsoDateOfFormat | src/jira2solidtime/sync/issue_comparator.py:581 | a valid date read back from its ISO form is the same date |
| Calendar.FormatOfIsoDate | src/jira2solidtime/sync/issue_comparator.py:581 | the ISO form is the only text read as that date |
| Calendar.Strptime | src/jira2solidtime/utils/date_parser.py:26-27 | what `strptime(s, "%Y-%m-%d")` accepts is a valid date |
| Calendar.StrptimeOfFormat | src/jira2solidtime/utils/date_parser.py:46 | `strptime` reads the ISO form of every valid date back as that date |
| Calendar.StrptimeAgreesWithIsoDate | src/jira2solidtime/utils/date_parser.py:46 | whatever `fromisoformat` accepts, `strptime` reads as the same date |
| Calendar.StrptimeAcceptsShortForm | src/jira2solidtime/utils/date_parser.py:46 | `strptime` also accepts one-digit months and days, which `fromisoformat` rejects |
| DateParser.MonthRange | src/jira2solidtime/utils/date_parser.py:33-42 | the first to the last day of the month, exactly when `datetime` accepts the year and month |
| DateParser.ParseDateRange | src/jira2solidtime/utils/date_parser.py:6-53 | whatever is read is a pair of valid dates |
| DateParser.StrippedFirst | src/jira2solidtime/utils/date_parser.py:21 | surrounding whitespace never matters |
| DateParser.OtherShapesRejected | src/jira2solidtime/utils/date_parser.py:49-53 | an input of none of the three shapes is an invalid format |
| DateParser.SingleDayRoundTrip | src/jira2solidtime/utils/date_parser.py:44-47 | a day in ISO form reads as the range of that one day |
| DateParser.RangeRoundTrip | src/jira2solidtime/utils/date_parser.py:23-28 | two ISO dates joined by `" - "` read back as those dates, in either order |
| DateParser.MonthRoundTrip | src/jira2solidtime/utils/date_parser.py:30-42 | `YYYY-MM` reads as its first to its last day, 29 February of leap years included |
| DateParser.DaysBack | src/jira2solidtime/utils/date_parser.py:56-68 | the range ends now and spans exactly the given number of days |
| DateParser.DaysBackOrdered | src/jira2solidtime/utils/date_parser.py:66-67 | the range is in order exactly when the number of days is not negative |
| DateParser.CurrentMonth | src/jira2solidtime/utils/date_parser.py:71-89 | the first to the last day of today's month, which contain today |
| DateParser.CurrentMonthIsItsMonthForm | src/jira2solidtime/utils/date_parser.py:71-89 | the current month is what its month form reads as |
| AppConfig.GetOr | src/jira2solidtime/config.py:27-54 | `data.get(name, default)`: the stored value when present, else the default |
| AppConfig.Section | src/jira2solidtime/config.py:27-50 | the `jira`, `tempo`, `solidtime`, `sync` and `mappings` sections, `{}` when absent |
| AppConfig.Web | src/jira2solidtime/config.py:52-54 | the `web` section, `{"port": 8080}` when absent |
| AppConfig.ToDict | src/jira2solidtime/config.py:86-88 | a copy with every key and value of the data |
| AppConfig.Check | src/jira2solidtime/config.py:62-82 | one check: no message exactly when the field is truthy, else the one message `"<section>.<key> is required"` |
| AppConfig.Validate | src/jira2solidtime/config.py:56-84 | fails exactly when a section is not an object; otherwise valid exactly when the error list is empty |
| AppConfig.Missing | src/jira2solidtime/config.py:56-84 | the reference: one message per required field that is not truthy, in checking order |
| AppConfig.MissingEmpty | src/jira2solidtime/config.py:56-84 | no message exactly when every listed field is truthy |
| AppConfig.ValidateListsMissing | src/jira2solidtime/config.py:56-84 | the appended error list is exactly the reference list, in the same order |
| AppConfig.ValidIffAllGiven | src/jira2solidtime/config.py:56-84 | valid exactly when all seven required fields are truthy; invalid means some message |
| AppConfig.MissingSectionReported | src/jira2solidtime/config.py:62-69 | a missing `jira` section reports its three fields first |
| AppConfig.EmptyConfigReportsAll | src/jira2solidtime/config.py:56-84 | an empty configuration reports all seven messages, in checking order |
| ConfigManagement.DbGet | src/jira2solidtime/config/manager.py:173 | the stored value, else the default |
| ConfigManagement.EnvKey | src/jira2solidtime/config/manager.py:178 | dots become underscores and letters upper case, character by character |
| ConfigManagement.Convert | src/jira2solidtime/config/manager.py:180-193 | fails only for a numeric key whose text `int()` rejects; a `.dry_run` key gives a flag; other text is kept as is |
| ConfigManagement.NumericRoundTrip | src/jira2solidtime/config/manager.py:184-192 | a numeric key reads the decimal text of any integer back as that integer |
| ConfigManagement.DryRunFlag | src/jira2solidtime/config/manager.py:182-183 | a `.dry_run` flag is true exactly for `true`, `1`, `yes` and `on`, in any case |
| ConfigManagement.OtherKeysKeepText | src/jira2solidtime/config/manager.py:193 | any other key keeps the environment text |
| ConfigManagement.Prefix | src/jira2solidtime/config/manager.py:126 | the text before the first dot, holding no dot; the whole key when it has none |
| ConfigManagement.Category | src/jira2solidtime/config/manager.py:205-206 | the prefix before the first dot, else `general` |
| ConfigManagement.MigrateOne | src/jira2solidtime/config/manager.py:108-135 | an unset variable changes nothing; a copied one adds exactly its key |
| ConfigManagement.MigrateAll | src/jira2solidtime/config/manager.py:76-135 | the settings copied in order; MigrationFailsOnlyOnNumbers, BadNumberStopsMigration, MigrateAllWrites, MigrateAllCopies and MigratePrefixStops state its laws |
| ConfigManagement.MigrateProjectKeys | src/jira2solidtime/config/manager.py:137-149 | an unset or empty `FILTER_PROJECT_KEYS` changes nothing; otherwise exactly `sync.filter_project_keys` is written, holding the stripped non-blank items of the comma split under category "sync", and every other key keeps its row |
| ConfigManagement.Migrate | src/jira2solidtime/config/manager.py:71-157 | with the flag already truthy nothing changes; a run that finishes leaves the flag set and truthy |
| ConfigManagement.MigratedIsNoOp | src/jira2solidtime/config/manager.py:73-75 | once the flag is set, migrating changes nothing |
| ConfigManagement.MigrationRunsOnce | src/jira2solidtime/config/manager.py:151-157 | a migration that finishes sets the flag, so running it again, whatever the environment, is a no-op |
| ConfigManagement.MigrationFailsOnlyOnNumbers | src/jira2solidtime/config/manager.py:115-123 | the loop stops with an error only when a numeric setting's variable is set and not an integer |
| ConfigManagement.BadNumberStopsMigration | src/jira2solidtime/config/manager.py:107-135 | conversely, a set variable of a numeric setting that `int()` rejects makes the loop stop with an error |
| ConfigManagement.MigrateAllCopiesKeys | src/jira2solidtime/config/manager.py:107-135 | a finished loop has stored a row for every setting whose variable is set |
| ConfigManagement.MigrateAllCopies | src/jira2solidtime/config/manager.py:107-135 | with distinct setting keys, a finished loop has stored each set variable's converted value under the key's prefix as category |
| ConfigManagement.MigrationCopiesEnvironment | src/jira2solidtime/config/manager.py:71-157 | a first migration that finishes holds every set variable's converted value |
| ConfigManagement.MigrateAllWrites | src/jira2solidtime/config/manager.py:107-135 | after a finished loop every key is untouched or a setting holding the conversion of its variable |
| ConfigManagement.MigratePrefixStops | src/jira2solidtime/config/manager.py:107-135 | an error in a prefix of the settings ends the whole loop there |
| ConfigManagement.ConfigManager.constructor | src/jira2solidtime/config/manager.py:62-68 | the manager holds the stored rows and the environment |
| ConfigManagement.ConfigManager.GetConfig | src/jira2solidtime/config/manager.py:162-195 | a stored value that is not `None` wins; else the converted variable; else the default |
| ConfigManagement.ConfigManager.SetConfig | src/jira2solidtime/config/manager.py:197-208 | one row is written with the given or inferred category; it is then read back, and no other key reads differently |
| ConfigManagement.ConfigManager.MigrateEnvToDb | src/jira2solidtime/config/manager.py:71-160 | the database and the error are the reference migration's |
| ConfigManagement.ConfigManager.CopySettings | src/jira2solidtime/config/manager.py:107-135 | the loop's database and error are those of the reference copy |
| ConfigLoader.EnvProjectMappings | src/jira2solidtime/config/__init__.py:45-51 | the parsed mapping is a well-formed dictionary |
| ConfigLoader.EnvProjectMappingsLastWins | src/jira2solidtime/config/__init__.py:47-51 | each key holds the stripped value of the last item naming it; keys no item names are absent |
| ConfigLoader.PlainItemIgnored | src/jira2solidtime/config/__init__.py:49 | an item without `\|` changes nothing |
| ConfigLoader.Items | src/jira2solidtime/config/__init__.py:46-47 | an empty or unset variable gives no items |
| ConfigLoader.Apply | src/jira2solidtime/config/__init__.py:53-64 | the other sections of the rules are kept |
| ConfigLoader.LoadConfig | src/jira2solidtime/config/__init__.py:30-69 | fails exactly when the YAML file loads as nothing |
| ConfigLoader.EnvOverridesYaml | src/jira2solidtime/config/__init__.py:53-60 | each key the variable names takes the variable's value, other YAML keys keep theirs, and no other key appears |
| ConfigLoader.MissingFileUsesVariable | src/jira2solidtime/config/__init__.py:38-42 | without a file the mapping is the variable's alone |
| ConfigLoader.OtherSectionsKept | src/jira2solidtime/config/__init__.py:60 | the other sections of the rules are kept |
| ConfigLoader.FilterDefaultsToMappingKeys | src/jira2solidtime/config/__init__.py:63-64 | a configured non-empty filter stays; otherwise a non-empty merged mapping's keys, in order, become the filter |
| ConfigLoader.ParseProjectMappings | src/jira2solidtime/config/__init__.py:45-51 | the loop builds exactly the reference mapping |
| Daemon.ParseCron | src/jira2solidtime/daemon.py:134-156 | the daily default exactly when the string does not have five whitespace-separated fields |
| Daemon.MalformedIsDaily | src/jira2solidtime/daemon.py:143-145 | any other field count gives every day at 8:00 |
| Daemon.FiveFields | src/jira2solidtime/daemon.py:147-156 | five fields give the five arguments; a `*` minute becomes 0, every other field is passed through |
| Daemon.ReadsJoinedFields | src/jira2solidtime/daemon.py:142-156 | five fields joined by spaces are read back field by field |
| Progress.ValidateConfig | src/jira2solidtime/cli/progress.py:45-54 | true exactly when there is no error |
| Progress.ValidateConfigAgrees | src/jira2solidtime/cli/progress.py:45-54 | its verdict on a configuration's error list is the one `validate` returns |
| Progress.FailureMessages | src/jira2solidtime/cli/progress.py:56-75 | at most one message per service |
| Progress.NoMessagesIffAllSucceed | src/jira2solidtime/cli/progress.py:62-72 | no message exactly when every service succeeded |
| Progress.ErrorsGivenNeverRaise | src/jira2solidtime/cli/progress.py:62-72 | failures that carry an error never raise |
| Progress.ValidateApis | src/jira2solidtime/cli/progress.py:56-75 | true exactly when every service succeeded; the `KeyError` of a failure without an error is the reference's |
| Progress.FailureStops | src/jira2solidtime/cli/progress.py:62-72 | a raise over the first services is the raise of the whole loop |
| Progress.FormatTimeRange | src/jira2solidtime/cli/progress.py:206-226 | equal dates are shown once; the call fails (`ValueError`) exactly when the dates differ, are month-shaped and the last day is not an integer; any label other than `<from>..<to>` for distinct dates is the `YYYY-MM` of a month-shaped pair |
| Progress.ShortMonthShowsBothEnds | src/jira2solidtime/cli/progress.py:215-226 | a month-shaped pair whose last day reads below 28 is shown as `<from>..<to>` |
| Progress.UnreadableLastDayRaises | src/jira2solidtime/cli/progress.py:215-223 | a month-shaped pair whose last day `int()` rejects raises `ValueError` |
| Progress.OtherRangesShowBothEnds | src/jira2solidtime/cli/progress.py:213-226 | anything but a month-shaped pair of distinct dates is shown as `<from>..<to>` |
| Progress.FullMonthLabel | src/jira2solidtime/cli/progress.py:213-224 | from the first of a month to a day from the 28th on, the label is `YYYY-MM` |
| Progress.CurrentMonthLabel | src/jira2solidtime/cli/progress.py:206-226 | the current month's range, as the date parser gives it, is labelled with its month form |

## Left out

- HTTP clients: the Tempo, Jira and Solidtime clients are oracle functions that always answer. An exception a client raises outside the source's `try` blocks is not modelled. Network plumbing, the client factory and the health check are out.
- Persistence: the JSON load and save of both mapping stores (`save_mappings`, file existence checks), the SQLite configuration database with its history, and the YAML and `.env` file reads are out. The mapping tables, the database rows, the environment and the YAML document are in-memory values or parameters.
- Floating point: `duration_hours`, `total_hours`, the billable and non-billable hour sums of `get_mapping_stats`, `_calculate_duration_from_entry`, `_format_hours` and the 0.01 h threshold are not modelled. Durations are kept as whole seconds or minutes.
- Clocks: `created_at` stamps are not stored. Wherever the source reads the current time, `now` is a parameter.
- Datetime parsing: ISO timestamps of Solidtime entries are an abstract projection (seconds since the epoch, calendar date, minute of day) attached to the raw text. Which of them parse is an input, not a computation.
- Datetime parsing: Tempo's `startDate` is read as a strict `YYYY-MM-DD`. The wider set of forms `fromisoformat` accepts is not modelled.
- Drift.Differs: when given two parsed projections the model subtracts them, so the `TypeError` Python raises for a naive and an aware datetime, whose handler reports a difference, is not computed. To reproduce that case, one of the two stamps must be supplied as unparsed.
- Character classes are ASCII only: Text.IsSpace, Text.IsDigit, Text.LowerChar and Text.UpperChar cover ASCII characters, and so do the digit runs and upper-case keys Markers reads. Python's `strip`, `split`, `lower`, `upper` and `re`'s `\d` are Unicode-aware: a leading no-break space is stripped, and `"ß".upper()` is `"SS"`, so the model's strings only agree with Python's on ASCII text.
- ConfigManagement.EnvKey: upper-cases ASCII letters only. Python's `upper()` can lengthen a key (`"ß"` becomes `"SS"`), so the length equality holds only for ASCII keys.
- Records.IdText: a `tempoWorklogId` that is JSON `null` and one that is absent are one case, rendered as `""`; Python renders the `null` one as `"None"` in `[JiraSync:None]`.
- FieldMapper.SummaryOr: an issue `summary` that is JSON `null` and one that is absent are one case, giving "No description"; Python formats the `null` one as `"None"`.
- Drift.DriftDescription: likewise reads a JSON `null` summary as absent (`""`), where Python's f-string renders it as `"None"`.
- Records.SolidtimeEntry: `description` is a string and `duration` an integer, so a Solidtime entry whose `description` is JSON `null` is read as `""`; Python gets `None` and raises `TypeError` at the `"[JiraSync" in description` test (services/issue_comparator.py:63-66), in `_add_deletion_details` (services/sync_service.py:331-336) and in `re.search` (utils/worklog_mapping.py:190); those crashes are not modelled.
- Drift.Differs: the outer `except Exception: return False` cannot be reached from the typed records (for example an `issue` that is JSON `null`), so the `False` outcome of that handler is not modelled.
- DateParser.DaysBack: the `OverflowError` that `datetime.now() - timedelta(days=days)` raises for a `days` beyond the datetime range is not modelled; the range is computed for every integer.
- ConfigLoader.LoadConfig: the filter is a list or nothing. A plain string returned by `get_config("sync.filter_project_keys")` through its `SYNC_FILTER_PROJECT_KEYS` environment fallback is not modelled.
- `int()`: the model's integer reader takes surrounding whitespace, an optional sign and ASCII digits. Underscores between digits and non-ASCII digits, which Python also accepts, are read as errors.
- MinimalSyncer.Sync: the conversion of `startDate` through `fromisoformat` is not modelled separately. Every reached create fails on the missing `task_id` argument, so the worklog is counted as failed either way.
- ProjectMapper.Mapper.constructor: the mapper stores the caller's dictionary itself. Aliasing with the caller is not modelled; the model copies the value.
- AppConfig: the `Config` constructor that reads the JSON file, including its `FileNotFoundError`, is not modelled. The configuration's data is a parameter.
- ConfigManagement: `load_app_config`, `list_config`, `export_config`, `import_config` and the global manager singleton are not part of this model.
- ConfigManagement.ConfigManager.constructor: the constructor's call to `_migrate_env_to_db` is modelled as the separate method `MigrateEnvToDb`, called after construction.
- ConfigManagement.ConfigManager.MigrateEnvToDb: the `migrated_any` flag only feeds a console message, so it is not kept.
- ConfigManagement: the default values listed beside the environment mappings are never read by the migration, so they are not modelled.
- ConfigLoader: a YAML `project_mappings` value that is not a dictionary is not modelled; the document's mapping section is a dictionary or absent.
- Daemon: the APScheduler setup, the run loop and its timing are out. The cron trigger's keyword dictionary is modelled as a datatype with one case per shape.
- Progress: the console output of `validate_config`, `validate_apis` and the other display helpers, the spinners and the tables are out; only their return values are modelled.
- Metrics, structured logging, the web servers, the CLI and the debug script are out: they produce output and change no modelled state.
