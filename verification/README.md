# Retention engine of the Sentry debug-symbol cleanup helper

This project models the decision core of the Audacity Sentry cleanup helper
(`main.py`), written in Dafny, and proves properties about it. The helper
walks every debug-symbol (dsym) file uploaded to the crash backend. For each
file it decides whether to keep the file or delete it. A file is kept when:

- it was created during the day before a GitHub release;
- it is less than seven days old; or
- it is the first copy seen of a foreign (non-Audacity) library.

Everything else is deleted. Along the way the helper keeps run counters and
records which foreign names it has already seen (`non_audacity_libs`).

Modules:

- `SizeFormat` (`size_format.dfy`): `format_file_size`. It picks the B, KB,
  MB or GB unit for a byte total, shows a byte value as its exact decimal
  text, and scales the larger units.
- `ReleaseWindow` (`release_window.dfy`): `_is_in_release_timeframe`. It
  decides whether a creation time lies strictly between `release - 1 day` and
  `release` for some release. Timestamps are integers counting microseconds,
  which is the resolution of Python's `datetime`.
- `CoreNames` (`core_names.dfy`): the six `audacity_files` patterns, kept as
  a data table, and `_is_audacity_file`. Python's `re.match` anchors only at
  the start of the name. In `lib-.+` and `mod-.+` the `.` does not match a
  newline, so `lib-` followed by nothing, or by only a newline, is foreign.
- `Retention` (`retention.dfy`): the `SentryFile` record, and the run state
  as an immutable `Context`. `ProcessFile` is `process_file`, and `Run` folds
  it over a sequence of files. The outcome of each delete request is a
  parameter of `Run`: a failed request ends the run, and by then the
  deletion counters have already been raised.
- `RetentionProperties` (`retention_properties.dfy`): what each rule does,
  the rule order, the duplicate-name behaviour, whole-run facts, and the
  worked three-file scenario.

A foreign file skipped for a release window or as too new also registers
its name (main.py:124-126). So a later old copy of the same name is deleted
(`RetentionProperties.ReleaseSkipRegistersForeignName`), and in the
three-file scenario two copies are deleted and one is skipped
(`RetentionProperties.EndToEndScenario`).

## Model

| member | source | states |
|---|---|---|
| SizeFormat.UnitFor | main.py:21-28 | the chosen unit fits the size: the size is at least one of that unit (except B) and below 1024 of it (except GB) |
| SizeFormat.FitsUnique | main.py:21-28 | exactly one unit fits each size, so the thresholds 1024, 1024² and 1024³ force the choice |
| SizeFormat.Decimal | main.py:23 | the decimal text of a byte count is non-empty and all digits, with no leading zero; 0 is exactly "0" |
| SizeFormat.DecimalRoundTrip | main.py:23 | reading the decimal text back gives the original number |
| SizeFormat.FormatFileSize | main.py:21-29 | below 1024 the result is "<digits> B" with no leading zero (0 gives "0 B"), and the digits read back to the size; otherwise the unit is the fitting one, the scaled value times the unit's size is exactly the size, and the value is at least 1 (and below 1024 for KB and MB) |
| SizeFormat.FormatExamples | main.py:21-29 | 512 gives "512 B"; 2048, 5242880 and 3221225472 give 2 KB, 5 MB and 3 GB |
| ReleaseWindow.IsInReleaseTimeframe | main.py:87-93 | the loop returns true exactly when some release has `release - 1 day < t < release` |
| ReleaseWindow.WindowEndsExcluded | main.py:88-90 | a file created exactly at a release, or exactly one day before it, is not protected by that release |
| ReleaseWindow.OutsideEveryWindow | main.py:89-93 | a time outside the open window of every release is unprotected |
| ReleaseWindow.ProtectionDependsOnlyOnTheSet | main.py:89-93 | protection depends only on which releases are known, not on their order or repetition |
| CoreNames.IsAudacityFile | main.py:95-100 | the loop over the patterns returns true exactly when some pattern of the table matches |
| CoreNames.IsCoreIffCoreByPrefix | main.py:11-18 | matching the table is the same as starting with `Audacity`, `audacity`, `crashreporter` or `Wrapper`, or with `lib-`/`mod-` followed by a non-newline character |
| CoreNames.BarePrefixesForeign | main.py:14-15 | `lib-`, `mod-` and `lib-` followed by a newline are foreign |
| CoreNames.CoreExamples | main.py:11-18 | `lib-x`, `mod-plugin`, `Audacity`, `Audacity-1.2.3`, `audacity`, `crashreporter-x` and `Wrapper-y` are core |
| CoreNames.ForeignExamples | main.py:95-100 | matching is case-sensitive and anchored at the start: `foo.dylib`, `AUDACITY` and `xAudacity` are foreign |
| Retention.NewContext | main.py:47-65 | a fresh run has all seven counters at zero, an empty registry and a safe time seven days before now |
| Retention.ProcessFile | main.py:102-135 | the verdict follows the rule order; processed rises by 1 and exactly one of deleted or skipped rises by 1 with the file's size; release counters rise only for a release skip; afterwards the registry holds the file's name if it is foreign and is unchanged if it is core; balance and counter growth are kept |
| Retention.Run | main.py:102-141 | over a run, balance and counter growth are kept and the registry only grows; a completed run processes every file; an aborted run stops at a file whose delete request failed, with processed counting the files up to and including it and the deleted count raised |
| RetentionProperties.ReleaseWindowAlwaysSkipped | main.py:106-109 | a file in some release window is skipped for the release, adds 1 and its size to the release-skip counters, and adds nothing to the deletions |
| RetentionProperties.TooNewSkipped | main.py:112-115 | an unprotected file newer than the safe time is skipped as too new; it adds to the skip totals but not to the release-skip counters |
| RetentionProperties.CoreFileDeleted | main.py:117-135 | an old, unprotected core file is deleted even on its first sighting, and the registry is unchanged |
| RetentionProperties.UnprotectedFileDeletedIff | main.py:117-135 | an old, unprotected file is deleted exactly when its name is core or already registered |
| RetentionProperties.DuplicateForeignNames | main.py:119-135 | of two old, unprotected foreign files with the same new name, the first is skipped as a first occurrence and the second is deleted |
| RetentionProperties.ReleaseSkipRegistersForeignName | main.py:124-126 | a foreign file skipped for a release window registers its name, so a later old copy of that name is deleted |
| RetentionProperties.RunRegistry | main.py:124-126 | after a completed run the registry is its initial contents plus the names of all foreign files processed |
| RetentionProperties.RunAborted | main.py:124-141 | an aborted run stopped at some file k: the files before it completed, the failed file's verdict was Delete, and the final state is the state right after processing it |
| RetentionProperties.RunReleaseSkips | main.py:106-109 | after a completed run the release-skip counters grew by the number and total size of the protected files |
| RetentionProperties.RunWithoutFailuresCompletes | main.py:137-141 | if every delete request succeeds, the run processes every file |
| RetentionProperties.RunPages | main.py:159-168 | when the first page completes, processing the listing page by page gives the same result as processing the concatenated pages |
| RetentionProperties.RunPagesAborted | main.py:159-168 | when a failed delete stops the run on the first page, the later pages are never processed: the result over the concatenation is the result of the first page |
| RetentionProperties.RunStopsAtFailedDelete | main.py:137-141 | once the files before it complete, a file whose verdict is Delete and whose delete request fails aborts the run right there: no later file is processed and the final state is the state right after that file |
| RetentionProperties.RunFirstFile | main.py:163-165 | a run that gets past its first file continues from the state after that file |
| RetentionProperties.ScenarioStart | main.py:65 | the scenario's start state is a fresh run begun on 2024-01-27, with safe time 2024-01-20 |
| RetentionProperties.ScenarioFirstCopy | main.py:106-130 | the copy created inside the release window is skipped for the release and registers `foo.dylib` |
| RetentionProperties.ScenarioLaterCopies | main.py:117-135 | the two later copies are deleted |
| RetentionProperties.EndToEndScenario | main.py:102-141 | from the fresh-run state of `ScenarioStart`, the three-file run completes with exactly processed 3, deleted 2 (500 bytes), release-skipped 1 and skipped 1 (100 bytes), and registry {`foo.dylib`} |

## Left out

- HTTP traffic is not modelled: the GitHub release pagination (main.py:69-85), the dsym listing pagination (main.py:153-168) and the delete request itself (main.py:137-141). The release list and the files are inputs. The delete request's outcome is the `deleteOk` parameter of `Run`.
- Retention.Run: a delete request's outcome is taken to depend only on the file id. Status codes and response bodies are not modelled, only success ("no content") or failure.
- The `SentryAuth` bearer-token header and its environment lookup (main.py:32-35) are not modelled. They only matter for transport.
- ISO-8601 parsing (`dateutil`) and the clock (`datetime.now`, `pytz`) are not modelled (main.py:41, main.py:47). Timestamps and `now` are integer UTC microseconds supplied by the caller.
- SizeFormat.FormatFileSize: the two-decimal rendering of KB, MB and GB values is floating-point formatting (main.py:25-29). The model keeps the exact real quotient and its unit, not the rounded text.
- Sizes are natural numbers. `int(file_json["size"])` would also accept a negative value, which the backend does not produce.
- Logging with `print` and the `print_stats` report (main.py:110-114, main.py:143-150) are not modelled. The counters they print are part of the model.
- The class-level shared attributes of `Contex` (main.py:46-61) are not modelled as shared state. They become the explicit `Context` value. Their sharing between instances has no effect with the single context the script creates.
