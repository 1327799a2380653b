# flathub-stats `update-stats.py`, modelled in Dafny

`update-stats.py` turns parsed Flathub download logs into one statistics file per date. A
checksum -> reference cache is filled in two passes. The first pass takes the references
carried by the log records. The second asks a resolver for every checksum still missing.
Then every record is folded into the aggregate of its date. That aggregate is loaded from
its stored file, or is zeroed when there is none. It counts:

- downloads and delta downloads;
- two version histograms (ostree and flatpak);
- per identifier, installs by architecture.

`ref_to_id` decides which identifier a reference counts under:

- `app/<id>/…` counts as `<id>`;
- `runtime/<id>/<arch>/<branch>` counts as `<id>/<branch>`, unless `<id>` ends in
  `.Debug`, `.Locale` or `.Sources`;
- anything else is not counted.

The project has five modules:

- `Wrappers` (`wrappers.dfy`): the `Option` type.
- `Refs` (`refs.dfy`): Python's `str.split("/")` as `Split`, with its inverse `Join`. Also
  the classifier `RefToId`, and the lemmas stating what it returns for each shape of
  reference.
- `Stats` (`stats.dfy`): the value view.
  - The record `Download` and the saved day `DayStats`.
  - `AddRecord`: what adding one record does to a day. `FoldDay`: what adding a sequence
    of records does.
  - Lemmas about counting, the delta bound and monotonicity.
- `Tally` (`tally.dfy`): the two classes of the source, `InstallInfo` and `DayInfo`. Their
  fields are updated in place by `add`, `get_install` and `from_dict`. The methods of
  `InstallInfo` state their effect on its `arch` map. `DayInfo.CountDownload` states its
  effect field by field. The other `DayInfo` methods state theirs against
  `DayInfo.Stats()`, the day as a value.
- `Driver` (`driver.dfy`): the run.
  - The two cache passes, as specification functions (`PassOne`, `PassTwo`) and as the
    loops the program runs (`PopulateFromLog`, `ResolveMissing`), including the
    `cache_modified` flag.
  - Loading a day (`LoadDayInfo`).
  - The grouping loop (`GroupByDay`).
  - The composition of all of these (`UpdateStats`).

Python truthiness is written out:

- `if not ref` skips an absent reference and an empty one.
- `if not id` skips `None` and the empty identifier. For example, `app//x86_64/stable`
  yields `""` and is skipped.
- `if flatpak_version` skips the empty string.

One might expect a reference with too few segments to be treated as "no identifier". The
code indexes the segments without checking the length, so it raises an exception instead:

- `ref_to_id` reads `parts[1]` and, for counted runtimes, `parts[3]`;
- `InstallInfo.add` reads `parts[2]`.

The model follows the code. Those inputs are excluded by preconditions:

- `RefToIdDefined`;
- `AddDefined`;
- `Addable` on the whole run.

Nothing in the model claims such references are handled.

## Model

| member | source | states |
|---|---|---|
| Refs.Split | update-stats.py:12 | splitting never yields an empty list, no segment contains `/`, and joining the segments with `/` gives the string back |
| Refs.SplitJoin | update-stats.py:12 | splitting a `/`-joined list of slash-free segments returns exactly those segments (round trip with `Join`) |
| Refs.SplitSegment | update-stats.py:12 | a string without `/` splits into the one-element list of itself |
| Refs.SplitSlash | update-stats.py:12 | `a + "/" + b` with slash-free `a` splits into `a` followed by the segments of `b` |
| Refs.EndsWithIff | update-stats.py:15 | `endswith` holds exactly when the string is some prefix followed by the suffix |
| Refs.ExcludedNames | update-stats.py:15 | every id ending in `.Debug`, `.Locale` or `.Sources` is excluded, and an id ending in `.Platform` is not |
| Refs.RefToId | update-stats.py:11-17 | an identifier is produced only for references whose first segment is `app` or `runtime`; it is defined only where the source does not raise |
| Refs.AppId | update-stats.py:12-14 | every `app/<id>/…` reference (any number of further segments) is defined and yields exactly `<id>` |
| Refs.RuntimeId | update-stats.py:15-16 | `runtime/<id>/<arch>/<branch>`, followed by any number of further segments, is defined and yields `<id>/<branch>`, and yields None exactly when `<id>` ends in `.Debug`, `.Locale` or `.Sources` |
| Refs.ExcludedRuntimeHasNoId | update-stats.py:15-17 | `runtime/<id>` with an excluded `<id>` is defined and yields None whatever follows, even with no architecture or branch segment |
| Refs.OtherKindHasNoId | update-stats.py:17 | a reference whose first segment is neither `app` nor `runtime` is defined and yields None |
| Refs.ArchOf | update-stats.py:24-25 | the architecture read from a reference is one segment: it contains no `/` |
| Refs.ArchIsThirdSegment | update-stats.py:24-25 | the architecture an install is tallied under is the third segment of the reference, whatever segments follow |
| Stats.Empty | update-stats.py:32-38 | a new day has the given date, zero counters and empty histograms and install map |
| Stats.Bump | update-stats.py:26 | `m[k] = m.get(k, 0) + 1`: `k` becomes a key, its count rises by one, every other count is unchanged |
| Stats.IdOf | update-stats.py:57-63 | a record only gets an identifier when its cached reference is present and non-empty |
| Stats.CountRecord | update-stats.py:66-78 | counting a record keeps the date, raises `downloads` and its ostree version by one, adds its identifier to the install map and raises that identifier's tally at the architecture by one |
| Stats.AddRecord | update-stats.py:55-78 | adding a record keeps the date; an uncounted record leaves the day as it was; a counted one raises `downloads` by one and files its identifier |
| Stats.AddRecordUnchangedIff | update-stats.py:55-64 | adding a record leaves the day equal to what it was if and only if the reference is absent/empty or yields no (or an empty) identifier |
| Stats.AddRecordCounts | update-stats.py:66-78 | a counted record raises `downloads` by one, `deltaDownloads` by one exactly for a delta, its ostree version by one, its flatpak version by one only when non-empty, and the tally of its identifier at its architecture by one; every other version count, architecture count and identifier's tally and the date are unchanged |
| Stats.AddRecordKeepsDeltaBound | update-stats.py:69-71 | adding a record preserves `deltaDownloads <= downloads` |
| Stats.FoldDay | update-stats.py:128-134 | folding records into a day keeps its date and raises `downloads` by at most one per record |
| Stats.FoldTotals | update-stats.py:128-134 | folding records into a day adds exactly the number of counted records to `downloads` and the number of counted deltas to `deltaDownloads`, and keeps the date |
| Stats.DeltasWithinCounted | update-stats.py:69-71 | among any records, counted deltas never exceed counted records, which never exceed the records |
| Stats.FoldKeepsDeltaBound | update-stats.py:128-134 | folding any records into a day with `deltaDownloads <= downloads` keeps that bound |
| Stats.FoldAllCounted | update-stats.py:128-134 | if every record yields an identifier, `downloads` rises by exactly the number of records |
| Stats.FoldGrows | update-stats.py:128-134 | folding never removes a version, identifier or architecture and never lowers a count |
| Tally.InstallInfo.constructor | update-stats.py:20-21 | a new tally is empty |
| Tally.InstallInfo.Add | update-stats.py:23-26 | the count of the reference's third segment rises by one (from 0 when absent) and no other architecture changes |
| Tally.InstallInfo.FromDict | update-stats.py:28-29 | the tally becomes the stored one |
| Tally.DayInfo.constructor | update-stats.py:32-38 | a new day is valid and equals `Empty(date)` |
| Tally.DayInfo.GetInstall | update-stats.py:50-53 | returns the existing tally of `id` unchanged; only when `id` has none is a fresh empty tally filed under it; no other identifier, counter or histogram changes |
| Tally.DayInfo.Add | update-stats.py:55-78 | the day afterwards is `AddRecord` of the day before, so it is unchanged on the early returns; tallies created are fresh and the day stays valid |
| Tally.DayInfo.CountInstall | update-stats.py:66-67 | only the tally of `id` changes, by one at the reference's architecture |
| Tally.DayInfo.CountDownload | update-stats.py:69-78 | `downloads` +1, `deltaDownloads` +1 exactly for deltas, ostree version +1, flatpak version +1 only when non-empty; nothing else is touched |
| Tally.DayInfo.LoadInstall | update-stats.py:46-48 | the tally of `id` becomes the stored one; other identifiers unchanged |
| Tally.DayInfo.FromDict | update-stats.py:40-48 | counters and histograms become the stored ones, stored tallies replace those of the same identifier and other tallies stay, the date is kept |
| Tally.DayInfo.LoadInstalls | update-stats.py:45-48 | loading every stored tally through `get_install` leaves the day's tallies as the old ones overridden by the stored ones, and changes nothing else |
| Driver.FromLog | update-stats.py:109-111 | one step of the first pass never overwrites an entry, adds at most the record's checksum, and stores the record's reference when it is non-empty and the checksum was not cached |
| Driver.PassOne | update-stats.py:108-111 | the first pass never overwrites an entry, only adds checksums of the records, and caches every checksum whose record carries a non-empty reference |
| Driver.PassOneFromRecords | update-stats.py:108-111 | every entry the first pass adds is the non-empty reference of some record carrying that checksum |
| Driver.PassOneFirstSeen | update-stats.py:108-111 | a new checksum is cached with the reference of the first record that carries both it and a non-empty reference |
| Driver.PopulateFromLog | update-stats.py:107-111 | the loop computes `PassOne`, and the dirty flag is set exactly when a key was added |
| Driver.FromResolver | update-stats.py:114-116 | one step of the second pass never overwrites an entry, always leaves the record's checksum cached, and a new entry is the resolver's answer |
| Driver.PassTwo | update-stats.py:113-116 | the second pass never overwrites an entry, its keys are the old keys plus every record's checksum, and each new entry is the resolver's answer, None included |
| Driver.Resolved | update-stats.py:108-116 | after both passes every record's checksum is cached |
| Driver.ResolvedEntry | update-stats.py:108-116 | for a checksum not cached before the run: it is cached afterwards exactly when a record carries it; its entry is the reference of the first record carrying it with a non-empty reference, or the resolver's answer when no record has one |
| Driver.PassTwoCached | update-stats.py:113-116 | when every checksum is cached the second pass changes nothing (a stored "not found" is never re-resolved) |
| Driver.PassTwoIdempotent | update-stats.py:113-116 | running the second pass again on its own result changes nothing |
| Driver.ResolveMissing | update-stats.py:113-116 | the loop computes `PassTwo`; the dirty flag is set exactly when a key was added; the resolver is called only on checksums not cached, never twice on one, for exactly the new keys, and each answer is stored |
| Driver.DistinctSnoc | update-stats.py:114-116 | appending a checksum (or date) not yet listed keeps the list free of repeats |
| Driver.OnDate | update-stats.py:128-134 | the records of one date are records of the run and all have that date |
| Driver.OnDateAddable | update-stats.py:128-134 | the records of a date can all be added when every record can |
| Driver.OnDateUnseen | update-stats.py:130-133 | a date with no record so far has no records to fold, so a newly loaded day starts as stored |
| Driver.Loaded | update-stats.py:80-89 | the starting aggregate of a date is its stored day when there is one, otherwise a day of that date with zero counters and no installs |
| Driver.LoadDayInfo | update-stats.py:80-89 | the day is the stored file's day (including its own `date` field) when there is one, otherwise a zeroed day of that date; it is fresh and valid |
| Driver.FiledSeparate | update-stats.py:126-134 | aggregates filed under their own dates are distinct objects |
| Driver.GroupedStep | update-stats.py:128-133 | one more record adds its date to `days` and to the list of loaded dates exactly when it was not there yet |
| Driver.GroupByDay | update-stats.py:126-134 | `days` holds exactly the dates of the records, each loaded once and in a distinct object; each day is valid and equals its loaded aggregate with the records of that date folded in, in order |
| Driver.Step | update-stats.py:128-134 | one pass of the grouping loop extends the grouping by one record, keeps every day equal to `Expected` of the records seen, and creates only fresh objects |
| Driver.NewDay | update-stats.py:131-133 | a new date is filed with its loaded aggregate; the days already filed keep their state |
| Driver.AddToDay | update-stats.py:134 | the record is folded into its own date's aggregate and every other date keeps its state |
| Driver.Expected | update-stats.py:126-134 | the values the grouping loop computes have an entry for exactly the dates of the records |
| Driver.ExpectedStep | update-stats.py:128-134 | one more record folds into its date's entry, which starts from the loaded aggregate when the date is new |
| Driver.ExpectedIsFold | update-stats.py:126-134 | the values the grouping loop computes have an entry for exactly the dates of the records, each equal to its loaded aggregate with the records of that date folded in, in order |
| Driver.OnDateStep | update-stats.py:128-129 | one more record extends the records of its own date and leaves other dates' records as they were |
| Driver.DatesStep | update-stats.py:128-129 | the dates of one more record are the old dates plus its date |
| Driver.FoldSnoc | update-stats.py:134 | folding a sequence with one more record at the end folds that record last |
| Driver.UpdateStats | update-stats.py:107-134 | the run's cache is both passes applied to the initial cache, `cache_modified` is set exactly when the cache gained a key, and every date of the records gets one valid day holding its loaded aggregate with its records folded in |

## Left out

- Reading and writing `ref-cache.json` and the `<date>.json` files, `os.path`/`os.makedirs`, and the swallowed exceptions (update-stats.py:82-88, 96-100, 118-124, 136-144): file I/O. Stored day files are the parameter `stored` (date -> saved day), and the initial cache is a parameter. The cache is written back when `modified` is set, and every day in `days` is saved.
- The JSON shape of an install tally (`{"arch": {…}}`) and serialisation through `__dict__` with sorted keys: `DayStats.installs` holds each tally's architecture map directly.
- `flathub.parse_log` and `flathub.resolve_commit` (update-stats.py:104, 116): code not part of this model. The parsed records are the parameter `ds`, and the resolver is the function parameter `resolve`. A resolver that raises or gives different answers on different calls is not modelled.
- `argparse` and the log file loop (update-stats.py:91-105). That loop iterates over `sys.argv[1:]` rather than the parsed file list, so `--dest DIR` would also be handed to the log parser. This command-line plumbing is not modelled.
- References with too few segments: the source raises on them, so the model excludes them by preconditions rather than modelling the exception (see above).
- Refs.RefToId: its own contract only says which kinds yield an identifier. The exact results are stated by `AppId`, `RuntimeId`, `ExcludedRuntimeHasNoId` and `OtherKindHasNoId` on references built from slash-free segments; together they cover every reference on which the classifier does not raise.
- Driver.OnDate: its contract states only that the selected records are records of the run with that date. That it keeps every such record, in order, is its definition.
- Python's aliasing of the stored dictionaries (`self.arch = dct['arch']` shares the loaded object) has no observable effect in this program and is not modelled.
- Integer counters are unbounded in Python and in the model.
