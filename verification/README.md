# MCP profile builders, modelled in Dafny

The repository ships four Python scripts. Each builds an MCP "profile": a JSON document
that maps a connector name to how that connector is launched (`command`, `args` and
optional descriptive fields), plus a top-level `metadata` object. This project models
the profile-building logic of those scripts and proves what each one promises.

- `build-top-profile.py` builds a fresh profile. It reads the CSV rows whose `status` is
  `production`, skips commands that start with `docker` or `wrangler`, and splits each
  remaining command on whitespace. A later row with the same name wins.
- `build-profile.py` reads a saved profile and adds the rows whose `status` is `active`.
  A name already present is kept, so the first writer wins. It then re-stamps
  `metadata.modified`.
- `build-live-ecosystem.py` builds a profile in two phases:
  - the production rows of a CSV, where the last writer wins and optional columns fall
    back to defaults;
  - curated names from a text file, looked up in a fixed table of real npm packages
    (`RealMappings`). These never replace an existing entry.

  It then writes the counts and the sorted categories. An exception in a phase ends that
  phase only.
- `create-working-profile.py` probes a fixed list of packages (`TestPackages`) with
  `npm view`. It classifies each outcome, keeps the packages that exist and builds a
  profile from them. If no package works, it writes nothing and exits with status 1.

Layout:

- `wrappers.dfy` defines `Option` and `Result`.
- `text.dfy` models Python's `str.strip`, `str.split()` (`Words`) and `str.split(sep)`
  (`Fields`).
- `sorting.dfy` models code-point string order and `sorted(set)`.
- `profiles.dfy` holds the shared pieces:
  - the document types (`Server`, `Metadata`, `ProfileDoc`) and CSV rows (`Row`);
  - command parsing, the status filter, and the per-row decision `Decide(row, skipContainers)` shared by `build-top-profile.py` and `build-profile.py`;
  - the generic merge `Merge(policy, m, ds)`. It folds a list of per-row decisions
    (`Skip`, `Take(name, entry)`, `Raise(fault)`) into the name-to-entry map under
    first-writer-wins or last-writer-wins, and stops at the first `Raise` (a Python
    exception). `Writes` counts the insertions the loop counter sees.
- `top_profile.dfy`, `profile_update.dfy`, `live_ecosystem.dfy` and `working_profile.dfy`
  model one script each.

Each script's loop is a method over a local map. It is proved equal to a specification
function, and the properties are lemmas about that function.

A CSV row is a record of optional strings. `None` means the column is absent: `row[...]`
raises `KeyError` and `row.get(..., default)` gives the default.

## Model

| member | source | states |
|---|---|---|
| Text.Strip | build-live-ecosystem.py:251 | `str.strip()`: the result is no longer than the input and neither begins nor ends with whitespace |
| Text.StripOf | build-live-ecosystem.py:251 | stripping `front + core + back` (whitespace padding, `core` without whitespace at its ends) gives exactly `core` |
| Text.StripEmptyIffAllSpace | build-live-ecosystem.py:251-253 | a stripped line is empty exactly when the line is all whitespace |
| Text.StripIdempotent | build-live-ecosystem.py:259 | stripping twice is stripping once, so the second `strip()` changes nothing |
| Text.WordsAreTokens | build-top-profile.py:39 | `str.split()` never yields an empty token or a token containing whitespace |
| Text.WordsOf | build-top-profile.py:39 | splitting leading whitespace, a word and the rest gives that word and then the words of the rest |
| Text.WordsEmptyIffAllSpace | build-top-profile.py:39-40 | the split is empty (so `parts[0]` raises) exactly when the command is all whitespace |
| Text.WordsOfJoin | build-top-profile.py:39-41 | splitting tokens joined by single spaces gives the tokens back |
| Text.FieldsCount | build-live-ecosystem.py:257 | `str.split(sep)` yields one more field than there are separators, and no field contains the separator |
| Text.FieldsOfSeparated | build-live-ecosystem.py:256-257 | a line holding the arrow has at least two fields, so taking field 1 never raises |
| Text.JoinFields | build-live-ecosystem.py:257 | joining the fields with the separator gives the line back |
| Text.SecondField | build-live-ecosystem.py:257 | field 1 is the text between the first separator and the next one, or the end of the line |
| Sorting.BelowTransitive | build-live-ecosystem.py:314 | code-point string order is transitive (it is also irreflexive and total: `BelowIrreflexive`, `BelowTotal`) |
| Sorting.SortSet | build-live-ecosystem.py:314 | `sorted(list(s))` is strictly ascending and holds exactly the members of `s` |
| Sorting.SortedListUnique | build-live-ecosystem.py:314 | a set has only one strictly ascending list of its members |
| Profiles.ParseCommand | build-top-profile.py:39-41 | the split fails exactly on an all-whitespace command; otherwise executable followed by args is the token list |
| Profiles.ReadLaunchCases | build-top-profile.py:30-41 | reading a row raises exactly when `mcp_name` or `command` is absent or a non-skipped command is blank, skips exactly the skipped container commands, and otherwise yields that row's name and tokens |
| Profiles.Eligible | build-top-profile.py:24 | the filter raises exactly when some row lacks `status`; otherwise it keeps exactly the rows whose status is the wanted value (their order and repeats are `EligibleAppend`) |
| Profiles.EligibleAppend | build-top-profile.py:24 | the filter keeps the rows in their order, duplicates included: filtering `a + b` is filtering `a` followed by filtering `b`, and it raises exactly when one of them does |
| Profiles.EligibleOne | build-profile.py:17 | a single row raises without `status`, is kept when its status is the wanted one, and is dropped otherwise |
| Profiles.MergeStep | build-top-profile.py:29-46 | one pass of an insertion loop is one decision applied to the map, and a raising pass ends it |
| Profiles.MergeKeys | build-top-profile.py:29-46 | after a merge a name is present exactly when it was before or a reached decision inserted it |
| Profiles.MergeUntouched | build-profile.py:22-38 | a name no decision inserts keeps its presence and its entry |
| Profiles.MergeKeepsExisting | build-profile.py:32-33 | under first writer wins an existing entry is never replaced |
| Profiles.MergeFirst | build-profile.py:32-38 | under first writer wins a new name holds the entry of its first insertion |
| Profiles.MergeLast | build-top-profile.py:43-46 | under last writer wins a name holds the entry of its last insertion |
| Profiles.MergeUniform | build-live-ecosystem.py:266-297 | when all insertions under a name carry the same entry, the name holds that entry |
| Profiles.MergeDistinct | create-working-profile.py:94-110 | insertions under distinct new names add exactly one name each |
| Profiles.WritesFirstWins | build-live-ecosystem.py:262-297 | under first writer wins the counter equals the number of names added, and no name is removed |
| Profiles.WritesLastWins | build-live-ecosystem.py:210-243 | under last writer wins the counter is at most the number of rows reached and at least the number of names added |
| Profiles.WritesLastWinsExact | build-live-ecosystem.py:226-240 | under last writer wins the counter is exactly the number of insertions before the first exception, overwrites included |
| Profiles.MergeIdempotent | build-profile.py:32-33 | merging the same decisions again under first writer wins changes nothing |
| Profiles.MergeStopsAtFault | build-live-ecosystem.py:242-243 | decisions after an exception neither insert nor count |
| Profiles.SortedCategories | build-live-ecosystem.py:310-314 | the category loop plus `sorted` gives the ascending list of exactly the categories present in the entries |
| TopProfile.BuildTopProfile | build-top-profile.py:11-46 | the script's loop computes `TopProfile.Build` |
| TopProfile.DecideCases | build-top-profile.py:30-46 | a production row raises exactly when it is bad, inserts under exactly its own name when it launches, and its entry is the bare split of its command |
| TopProfile.BuildFails | build-top-profile.py:24-41 | the script fails exactly when a row lacks `status`, or a production row lacks `mcp_name` or `command`, or has a blank command that is not a container command |
| TopProfile.TopKeys | build-top-profile.py:24-46 | the names are exactly those of production rows with a non-blank command that starts with neither `docker` nor `wrangler` |
| TopProfile.TopLastRowWins | build-top-profile.py:43-46 | a name holds exactly `command` and `args`, taken from its last production row's tokens |
| TopProfile.TopSize | build-top-profile.py:15-18 | there are at most as many entries as production rows, and the metadata holds only `created` and `modified` |
| ProfileUpdate.UpdateProfile | build-profile.py:14-41 | the script's loop computes `ProfileUpdate.Update` |
| ProfileUpdate.DecideCases | build-profile.py:22-38 | an active row raises exactly when it is bad; otherwise it inserts its bare split under its own name |
| ProfileUpdate.UpdateFails | build-profile.py:17-29 | the script fails exactly when a row lacks `status`, or an active row lacks `mcp_name` or `command` or has a blank command |
| ProfileUpdate.UpdateKeys | build-profile.py:22-41 | the names are the loaded names plus the active-row names; the name, description and metadata are unchanged except `modified` |
| ProfileUpdate.UpdateKeepsLoaded | build-profile.py:32-33 | a loaded entry is never changed |
| ProfileUpdate.UpdateFirstRowWins | build-profile.py:27-38 | a new name holds the bare split of its first active row |
| ProfileUpdate.UpdateIdempotent | build-profile.py:32-33 | a second run with the same CSV leaves the entries as they are |
| LiveEcosystem.ProductionPhase | build-live-ecosystem.py:210-243 | the production loop computes `ProductionServers`, with its counter equal to `Writes` of the phase; an exception ends the loop and keeps what it added |
| LiveEcosystem.CuratedPhase | build-live-ecosystem.py:248-300 | the curated loop computes the first-writer-wins merge of the curated decisions, with its counter equal to `Writes` |
| LiveEcosystem.CommandFor | build-live-ecosystem.py:270-282 | the prefix branches launch `github-mcp-server` as `docker run ghcr.io/github/github-mcp-server` and every other package as `npx <package>` |
| LiveEcosystem.CuratedLine | build-live-ecosystem.py:251-297 | one pass over a curated line applies that line's decision under first writer wins, and the counter rises exactly when the line adds a new name |
| LiveEcosystem.BuildLiveEcosystem | build-live-ecosystem.py:194-314 | the two phases and the metadata compute `LiveEcosystem.Build`, for any table of real packages |
| LiveEcosystem.LiveEcosystemScript | build-live-ecosystem.py:13-314 | the script, with its own table `RealMappings`, computes `LiveEcosystem.Build` over that table |
| LiveEcosystem.PackageLaunchCases | build-live-ecosystem.py:270-282 | a package is launched with `docker run ghcr.io/github/github-mcp-server` exactly when it is `github-mcp-server`, and otherwise as `npx <package>` |
| LiveEcosystem.ProductionDecideCases | build-live-ecosystem.py:213-239 | a row raises exactly when it is bad, inserts under exactly its own name when it is a launching production row, and its entry is its split command with the column fallbacks and the production `metadata` |
| LiveEcosystem.ReachedDone | build-live-ecosystem.py:212-243 | the loop gets past the first `i` rows exactly when none of them is bad |
| LiveEcosystem.ProductionKeys | build-live-ecosystem.py:213-239 | the production names are exactly those of the reached production rows with a non-blank command that starts with neither `docker` nor `wrangler` |
| LiveEcosystem.ProductionLastRowWins | build-live-ecosystem.py:226-239 | a production name holds the entry of its last reached row |
| LiveEcosystem.ProductionEntries | build-live-ecosystem.py:223-239 | every production entry is built from a reached production row of that name: tokens, fallbacks for absent columns, and type `production`, source `top-mcp-servers`, verified |
| LiveEcosystem.ProductionStopsAtBadRow | build-live-ecosystem.py:242-243 | a bad row ends the production phase; the rows after it change nothing, the curated phase still runs, and an unreadable file acts as an empty one |
| LiveEcosystem.CuratedNameBlank | build-live-ecosystem.py:251-253 | a line names nothing exactly when it is blank |
| LiveEcosystem.CuratedNamePlain | build-live-ecosystem.py:258-259 | a line without an arrow names its stripped text |
| LiveEcosystem.CuratedNameArrow | build-live-ecosystem.py:256-257 | a line with an arrow names the stripped text between the first arrow and the next one, or the end of the line |
| LiveEcosystem.CuratedDecideCases | build-live-ecosystem.py:262-297 | a curated line never raises, and it inserts only a mapped name with the curated entry for its package |
| LiveEcosystem.CuratedNeverRaises | build-live-ecosystem.py:248-300 | no curated line raises, so the loop reaches every line |
| LiveEcosystem.CuratedTouches | build-live-ecosystem.py:248-300 | the curated loop reaches every line, and it inserts a name exactly when some line names it and the table maps it |
| LiveEcosystem.CuratedEntries | build-live-ecosystem.py:262-297 | a production entry is never replaced; a new name is added exactly when a line names it and the table maps it, and it gets the curated entry (`curated-real`, the mapped package, not verified, the original name) |
| LiveEcosystem.ProductionInsertions | build-live-ecosystem.py:213-240 | the production loop inserts once for each production row before the first bad row whose command launches an entry (`Launching`) |
| LiveEcosystem.LiveMetadata | build-live-ecosystem.py:305-314 | `totalServers` is the number of entries; `productionReady` is `Launching` of the rows (0 for an unreadable file), every production insertion counted, so it lies between the production names and the rows; `curatedReal` is the number of names the curated phase added; `categories` is the sorted list of the categories in use; the timestamps are the ones given |
| WorkingProfile.TestPackageCases | create-working-profile.py:32-74 | status `exists` exactly when npm returned 0 with non-blank output, with the stripped output as the version; `not_found` for any other completed run, with the stripped stderr or "Package not found"; `timeout` with "Command timed out" and `error` with the exception's message for the two exceptions |
| WorkingProfile.Partition | create-working-profile.py:123-133 | every result lands in exactly one of the two lists; the working list holds exactly the `exists` results (the order is `PartitionOrder`) |
| WorkingProfile.PartitionOrder | create-working-profile.py:123-133 | both lists keep the probe order: the results of a later batch follow those of an earlier one |
| WorkingProfile.ProbeAll | create-working-profile.py:120-133 | the probing loop computes the working and failed filters of the results |
| WorkingProfile.CreateWorkingProfile | create-working-profile.py:76-114 | the profile loop computes `WorkingProfile.Build` |
| WorkingProfile.WorkingEntries | create-working-profile.py:94-110 | the last package with a given name gives that name's entry: `npx` with the package followed by the package's args, its category and package, and the version or `unknown` |
| WorkingProfile.WorkingKeys | create-working-profile.py:110 | the names in the profile are exactly the names of the working packages |
| WorkingProfile.WorkingMetadata | create-working-profile.py:85-113 | `totalServers` and `workingPackages` are the number of working packages; this is never fewer than the entries and equals them when the names are distinct; `testedPackages` is the number probed; the categories are the sorted categories of the working packages |
| WorkingProfile.TestPackagesDistinct | create-working-profile.py:9-30 | the probed package names are distinct |
| WorkingProfile.Run | create-working-profile.py:120-162 | exit status 1 and no profile exactly when no package works; otherwise status 0 and the profile of the working packages |
| WorkingProfile.RunFails | create-working-profile.py:139 | the working list is empty exactly when no probe found its package |

## Left out

- File I/O is not modelled: `open`, `json.load` and `json.dump` with their formatting. The key order of the written JSON (Python dict insertion order) is not modelled either, because the model's maps are unordered. An input file that cannot be opened is `None`.
- CSV decoding by `csv.DictReader` is not modelled; rows are given already decoded. A short row, where a present column has the value `None`, is not modelled. An absent column is modelled.
- `add-mcps.py` is not part of this model. It runs `npx ncp add` once per row and sleeps, and its only logic is the same whitespace split.
- Console output, progress and summary messages are not modelled. `sys.exit` is modelled as the returned exit status.
- `datetime.now()` timestamps are parameters.
- WorkingProfile.Build: `create_working_profile` reads the clock once per entry for `tested_date`. The model stamps every entry with the one `testedDate` it is given.
- The `npm view` subprocess and its ten-second timeout are inputs: a `ProbeOutcome` per package. The text of an exception message is likewise an input.
- The 142-entry table `RealMappings` is transcribed, and `LiveEcosystemScript` runs the build with it. The lemmas about `Build` hold for any table given as `mappings`. No property of the table itself is proved. In particular, that `github-mcp` is its only name mapped to `github-mcp-server` is not proved; the solver cannot decide lookups in a map literal of this size. `PackageLaunchCases` proves that `github-mcp-server` is the only package launched through docker.
- LiveEcosystem.Build: `build-live-ecosystem.py` does not re-stamp `metadata.modified` when it finalises the metadata. The model follows the code, so `modified` keeps the value written when the profile was created.
- LiveEcosystem.Build: only the `categories`, `totalServers`, `productionReady` and `curatedReal` fields of the metadata are modelled, as values; the order in which the keys are written is not.
