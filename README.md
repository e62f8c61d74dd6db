# themetest, modelled in Dafny

`scripts/themetest.py` drives a benchmark of WordPress.org's featured themes.
It works in steps:

- It reads the featured-theme list and drops the bundled default theme.
- It creates one WordPress test site per theme with wp-cli.
- It runs a GTMetrix test against each site, polling until the test ends.
- It merges each theme's catalog entry with its GTMetrix result into one flat record of post-meta values.
- It publishes one report post per theme, with those values as post meta and the theme's screenshot as the featured image.
- It publishes a "rundown" post for the reports of the last half day, with a montage of their images.
- The `detect_new` action runs all of this at most once a day, and only when the featured list has changed.

The model keeps the script's decisions and the text it builds. The file system, HTTP and the shell are replaced by values:

- Files become `Option`s: contents, or absent.
- HTTP responses become parameters. The poll responses of a test are a finite script.
- Sleeping becomes a count of seconds.
- A command the script would run becomes the command line it hands to the shell, or a structured value rendered into that line.
- Python's exceptions (`KeyError`, `IOError`, `NameError`, `IndexError`, and the `HTTPError` of `raise_for_status`) become the `Error` values of a `Result`.

Modules:

- `Wrappers`: `Option`, `Result` and the exceptions.
- `PyStr`: the Python 2 string operations the script relies on. These are `encode('ascii', 'ignore')`, `replace`, `strip`, `split(sep)[0]`, `splitlines` and `str(n)`. `readline` is `DetectNew.FirstLine`.
- `ThemeData`: the catalog entry, the GTMetrix response and the settings.
- `LoadThemes`: `load_theme_data`.
- `Naming`: site names, the database table prefix and the commands of `generate_sites`.
- `Polling`: `test_gtmetrix`, including its poll loop. The theme list is an `array` that the method updates in place, as the script updates its dictionaries.
- `AcfData`: `build_acfdata`.
- `Publish`: `create_wp_post` and `post_pages`. This includes the escaping applied to values pasted into shell command lines. To check that escaping, a model of how a POSIX shell reads single quotes and backslashes is included, per section 2.2.1 ("Escape Character (Backslash)") and section 2.2.2 ("Single-Quotes") of the POSIX Shell Command Language.
- `Rundown`: `post_rundown`. It also covers how the rundown shortcode in `plugin.php` splits the id list again.
- `DetectNew`: the `detect_new` branch of `main`. The data directory is a class with one field per file.

## Model

| member | source | states |
|---|---|---|
| `LoadThemes.LoadThemeData` | scripts/themetest.py:103-107 | the loop's result equals the filter `WithoutBundled`, and no kept theme has slug `twentyseventeen` |
| `LoadThemes.WithoutBundledMembers` | scripts/themetest.py:104-106 | a theme is kept if and only if it is in the input and its slug is not `twentyseventeen` |
| `LoadThemes.WithoutBundledAppend` | scripts/themetest.py:104-106 | filtering distributes over concatenation, so the catalog order is kept |
| `LoadThemes.WithoutBundledNoop` | scripts/themetest.py:104-106 | a list without the bundled theme passes through unchanged |
| `LoadThemes.WithoutBundledIdempotent` | scripts/themetest.py:103-107 | filtering twice gives the same list as filtering once |
| `Naming.DbPrefix` | scripts/themetest.py:127-128 | the prefix ends in `_`, holds no `.` or `-`, keeps every other character of `slug + "01"`, and adds nothing but `_` |
| `Naming.DbPrefixIsFiltered` | scripts/themetest.py:128 | the two chained `replace` calls remove exactly the dots and dashes, keeping the order of the other characters |
| `Naming.DbPrefixPlain` | scripts/themetest.py:127-128 | a slug without dots and dashes gets the prefix `slug + "01_"` |
| `Naming.DbPrefixCollides` | scripts/themetest.py:128-130 | two different slugs that differ by one dot or dash get the same table prefix in the same database |
| `Naming.CommandLine` | scripts/themetest.py:140-146 | every command handed to `os.system` starts with the site's `wp_cli_base` |
| `Naming.DryRunEchoes` | scripts/themetest.py:136-137 | in a dry run each command line is `echo ` followed by the live command line |
| `Naming.SitesCommandsAt` | scripts/themetest.py:124-146 | the commands for the i-th theme sit at positions 6i to 6i+5, in order |
| `Naming.GenerateSites` | scripts/themetest.py:119-146 | the loop issues exactly `SitesCommands`: six commands per theme, theme after theme |
| `Polling.PollSpec` | scripts/themetest.py:187-201 | polling ends with a result if and only if the script holds a `completed` or `error` response; the result is the first such response; every response except a `completed` one is followed by a 6-second sleep; `total_run_time` is 6 times the sleeps |
| `Polling.Poll` | scripts/themetest.py:187-201 | the while loop computes exactly `PollSpec` |
| `Polling.PollCompletesAfterThreeWaits` | scripts/themetest.py:190-201 | responses `queued, started, started, completed`: four polls, three sleeps, 18 seconds, and the `completed` response is returned |
| `Polling.PollErrorStillSleeps` | scripts/themetest.py:190-201 | responses `queued, error`: the loop stops at `error` after two polls, but sleeps after the `error` response too |
| `Polling.Record` | scripts/themetest.py:208-227 | the theme's `gtmetrix` key is set to the final response and nothing else in the theme changes; a response without `resources` stops with KeyError on `resources` and sleeps no more; otherwise a live run whose screenshot download fails stops with HTTPError, and a run that goes on has slept 6 seconds more when live and no more when read-only |
| `Polling.TestStepEffects` | scripts/themetest.py:163-227 | the catalog entry is untouched; a theme that passes has a stored result with resources; read-only mode uses the saved result or stops with IOError on its file name; a live run stores the first terminal response and hangs when there is none; a result without `resources` stops with KeyError on `resources`; a live run with resources stops with HTTPError exactly when the screenshot download fails; a theme that passes has slept nothing in read-only mode and the polling time plus 6 seconds in a live run |
| `Polling.RunTest` | scripts/themetest.py:163-227 | one theme's test computes exactly `TestStep` |
| `Polling.TestGtmetrix` | scripts/themetest.py:149-227 | the themes reached are replaced by their step's theme and the rest are untouched; the batch stops at the first step that stops; the seconds slept are the sum over the steps reached |
| `AcfData.Merge` | scripts/themetest.py:262-325 | the merge succeeds if and only if `description`, the theme's own version, `gtmetrix`, `results` and `resources` are present; the first missing key, in that order, is the KeyError raised, `gtmetrix`, `results` and `resources` included; the record carries the catalog's name, slug, author, rating, number of ratings, download count, last update, homepage, sections, versions, tags, screenshot URL and active installs unchanged, the download link of the theme's own version, the description, the template or `''`, the parent's slug or `''`, and the GTMetrix results and resources unchanged |
| `AcfData.MergeIgnoresState` | scripts/themetest.py:293-322 | the GTMetrix run state plays no part in the merge |
| `AcfData.Prepare` | scripts/themetest.py:239-325 | a live run whose screenshot is not cached and whose download fails stops with HTTPError, before the merge; otherwise the theme's outcome is its merge |
| `AcfData.BuildAcfData` | scripts/themetest.py:230-327 | the loop computes exactly the table `AcfTable` |
| `AcfData.AcfTableStopsAtError` | scripts/themetest.py:236-325 | once a prefix of the themes fails, the whole list fails with the same error |
| `AcfData.AcfTableOk` | scripts/themetest.py:236-327 | the table is built if and only if every theme gets its screenshot and merges |
| `AcfData.AcfTableFirstError` | scripts/themetest.py:236-325 | a failure carries the HTTPError or KeyError of the first theme that fails, and every earlier theme succeeds |
| `AcfData.AcfTableKeys` | scripts/themetest.py:325 | the keys of the table are exactly the slugs of the themes |
| `AcfData.AcfTableLastWins` | scripts/themetest.py:325 | each slug maps to the record of the last theme with that slug |
| `PyStr.EncodeAsciiIgnoreMembers` | scripts/themetest.py:371 | the encoding keeps exactly the ASCII characters of the text |
| `PyStr.ReplaceCharMembers` | scripts/themetest.py:372 | after `replace`, no `c` is left unless the substitute brings one; every other character is kept; nothing but those and the substitute's characters appears |
| `PyStr.StripLeft` | scripts/themetest.py:448 | the result is a suffix of the text; exactly the leading whitespace is removed |
| `PyStr.StripRight` | scripts/themetest.py:448 | the result is a prefix of the text; exactly the trailing whitespace is removed |
| `PyStr.BeforeFirst` | scripts/themetest.py:443 | the result is the prefix before the first occurrence of the separator, or the whole text when the separator does not occur |
| `PyStr.FirstBreak` | scripts/themetest.py:381 | the index of the first line break at or after `from`, or the length of the text |
| `PyStr.SplitLines` | scripts/themetest.py:381 | there are no lines exactly when the text is empty, and no line contains a line break |
| `PyStr.SplitLinesOneLine` | scripts/themetest.py:381 | a non-empty text without line breaks is one line |
| `PyStr.SplitLinesBreak` | scripts/themetest.py:381 | a `\n`, or a `\r` not followed by `\n`, ends the line before it, and the lines after it follow |
| `PyStr.SplitLinesCrLf` | scripts/themetest.py:381 | `\r\n` ends a line as one break, not two |
| `PyStr.NatToString` | scripts/themetest.py:441 | `str(n)` is non-empty decimal digits without a leading zero |
| `PyStr.NatToStringRoundTrip` | scripts/themetest.py:441 | the digits denote `n` again |
| `Publish.FlattenAscii` | scripts/themetest.py:338-339 | the excerpt after clean-up is ASCII without line breaks |
| `Publish.FlattenAsciiIsPerChar` | scripts/themetest.py:338-339 | the clean-up acts on each character independently: non-ASCII characters and `\r` vanish, `\n` becomes a space, every other character is kept in order |
| `Publish.ShellSafe` | scripts/themetest.py:371-372 | the escaped value is ASCII without line breaks |
| `Publish.ShellSafeIsPerChar` | scripts/themetest.py:371-372 | the chain of replacements acts on each character independently: non-ASCII characters and `\r` vanish, `\n` becomes a space, `'` becomes `'\''`, and every other character is kept in order |
| `Publish.QuotedRoundTrip` | scripts/themetest.py:372-373 | any text with its quotes escaped and wrapped in single quotes is read by the shell as one word equal to that text |
| `Publish.ShellSafeRoundTrip` | scripts/themetest.py:371-373 | the excerpt argument reaches wp-cli as exactly the flattened ASCII description, quotes included |
| `Publish.CreatedPostId` | scripts/themetest.py:347-352 | a dry run returns `4321`; a live run's post id has no line breaks |
| `Publish.CreatedPostIdIsPerChar` | scripts/themetest.py:350-352 | a live run's id is wp-cli's output with each `\n` turned into a space, each `\r` dropped, and every other character kept in order |
| `Publish.CreatedPostIdPorcelain` | scripts/themetest.py:350-352 | the porcelain output `<n>\n` comes back as `<n> ` |
| `Publish.TitleArgAsWrittenBreaks` | scripts/themetest.py:373-375 | a theme named `Writer's Blog` ends the title's quotes early, so the shell does not read the title as one word |
| `Publish.TitleAsWrittenLeavesQuoteOpen` | scripts/themetest.py:373-375 | for the same name, the script's quote after `Report` opens a quoted span that nothing after it on the `post create` line closes |
| `Publish.TitleArgRoundTrip` | scripts/themetest.py:371-375 | with the escaping the excerpt already gets, the title reaches wp-cli as one argument, whatever the theme name |
| `Publish.ReportCreateCommandAgrees` | scripts/themetest.py:373-375 | for a theme name of ASCII without line breaks or `'`, the corrected `post create` line is the one the script builds |
| `Publish.ReportPostId` | scripts/themetest.py:377-381 | a dry run gives the placeholder `4321`; a live run fails with IndexError if and only if `post create` printed nothing; otherwise the id is the last line of the output, without line breaks, when every command exits 0 |
| `Publish.PorcelainIdReadBack` | scripts/themetest.py:373-381 | wp-cli's `--porcelain` output, an id and a newline, is read back as that id |
| `Publish.IntToString` | scripts/themetest.py:386-387 | `str(i)` of an int is non-empty, starts with `-` exactly when the int is negative, and is digits after that |
| `Publish.IntToStringValue` | scripts/themetest.py:386-387 | the digits of `str(i)` denote the absolute value of `i` |
| `Publish.IntMetaExact` | scripts/themetest.py:386-396 | an int meta value reaches wp-cli as exactly its decimal text |
| `Publish.MetaValuesReachWpCli` | scripts/themetest.py:384-396 | the k-th `post meta set` is for the post's id and the k-th key, and its value reaches wp-cli as one argument holding that key's flattened text |
| `Publish.PostMeta` | scripts/themetest.py:384-400 | the loop builds the command line of each `MetaCommands` entry, in order |
| `Publish.PublishReport` | scripts/themetest.py:368-404 | `post create` is built for every record; the rest fails, with IndexError, if and only if a live `post create` printed nothing; a dry run always gets the placeholder id `4321`; otherwise the id is the one read back; one `post meta set` per key follows in order for that id, and the media import attaches the theme's image to it, when every command exits 0 |
| `Publish.RunsThrough` | scripts/themetest.py:357-411 | the runs are taken in order up to and including the first one that fails; its error is the one reported, and every earlier run succeeded |
| `Publish.PostPagesOutcome` | scripts/themetest.py:355-411 | record k's run is `PublishReport` of record k; post_pages fails if and only if a live `post create` printed nothing, with IndexError; the failing record's `post create` is kept among the runs, and every run before it completed; a dry run builds every record's commands, when every command exits 0 |
| `Publish.ReportLinesLayout` | scripts/themetest.py:368-404 | a record's command lines are its `post create`, then, once an id is known, its `post meta set` lines in order and the media import last |
| `Publish.ReportExecutedLines` | scripts/themetest.py:377-407 | a dry run hands no line of a record to the shell; a live run runs `post create`, and when it printed an id, one `post meta set` per key, in order and for that id, then the media import, when every command exits 0 |
| `Publish.PostPagesDryRun` | scripts/themetest.py:355-411 | a dry run never fails, builds every record's full command list with the id `4321`, and runs none of those lines |
| `Publish.TakeThrough` | scripts/themetest.py:357-411 | the loop computes exactly `RunsThrough` |
| `Publish.PostPages` | scripts/themetest.py:355-411 | post_pages over all records computes exactly `PostPagesSpec` |
| `Rundown.ThemeName` | scripts/themetest.py:442-443 | the name is the slug's prefix before the first `-wordpress-theme-performance`, or the whole slug |
| `Rundown.ThemeNameIdempotent` | scripts/themetest.py:443 | cutting the name again changes nothing |
| `Rundown.ThemeNameOfReport` | scripts/themetest.py:443 | a report slug, the theme slug then the marker, gives back the theme slug |
| `Rundown.Accumulate` | scripts/themetest.py:437-448 | the loop and the strip after it compute exactly `TallySpec`: the image list, the stripped id list, the count and the last id |
| `Rundown.PostIdsJoined` | scripts/themetest.py:446-448 | after `strip()` the id list is the ids joined by single spaces |
| `Rundown.PostIdsRoundTrip` | plugin.php:145 | for at least one post, the shortcode's `explode(" ", ...)` recovers the ids in order |
| `Rundown.ExplodeJoinSpace` | plugin.php:145 | words without spaces, joined by spaces and exploded, come back one for one |
| `Rundown.NoPostsOneEmptyId` | plugin.php:145 | with no posts, the shortcode gets one empty id |
| `Rundown.TileLayoutDefined` | scripts/themetest.py:460-464 | a layout exists if and only if the count is 8 to 18 |
| `Rundown.TileLayoutTable` | scripts/themetest.py:460-464 | `4x4` if and only if 16 to 18; `5x3` if and only if 14 to 15; `4x3` if and only if 10 to 13; `3x3` if and only if 8 to 9; no layout if and only if the count is below 8 or above 18 |
| `Rundown.ThreeByTwoUnreachable` | scripts/themetest.py:464 | the `3x2` branch is never taken |
| `Rundown.RundownPostCreated` | scripts/themetest.py:448-456 | a live run always builds and runs `post create`, even when the action fails later; its shortcode carries the batch's ids, in order and joined by spaces; a dry run builds none |
| `Rundown.PostRundownOutcome` | scripts/themetest.py:459-491 | the montage and its import are built if and only if 8 to 18 posts came back, whatever the mode; otherwise the action stops with NameError on `tile_string`; the montage lists every post's image, with `null: ` in front for ten, and the table's layout; the import names the new post, or in a dry run the last post of the batch, when every command exits 0 |
| `Rundown.PorcelainIdStripped` | scripts/themetest.py:350-352 | wp-cli's porcelain reply `<n>\n`, stripped, is `<n>` |
| `Rundown.RundownImageOnNewPost` | scripts/themetest.py:450-491 | in a live run of 8 to 18 posts where wp-cli prints `<n>`, the media import line names post `<n>` once stripped (line 483), when every command exits 0 |
| `Rundown.MontageRuns` | scripts/themetest.py:459-491 | the montage is built if and only if 8 to 18 posts came back, in either mode, when every command exits 0 |
| `Rundown.RundownLinesBuilt` | scripts/themetest.py:448-487 | the action builds and logs `post create` in a live run and none in a dry run, then the montage and its import when there are 8 to 18 posts, in that order, when every command exits 0 |
| `Rundown.RundownExecutedSteps` | scripts/themetest.py:448-487 | a live run runs `post create`, then the montage and the import for 8 to 18 posts; a dry run runs only the echoed montage, and only for such a batch, when every command exits 0 |
| `Rundown.ShelledAreBuilt` | scripts/themetest.py:475-487 | a live run runs every line it builds; a dry run runs every built line except the media import, when every command exits 0 |
| `Rundown.RundownDryRunMontage` | scripts/themetest.py:470-477 | a dry run of 8 to 18 posts runs exactly one line, the montage command with `echo` in front |
| `Rundown.RundownCreateLine` | scripts/themetest.py:449-455 | a live run's first command line is the `post create` of a draft in the rundown category, titled with the date, whose shortcode carries the batch's ids |
| `DetectNew.LexLeTotal` | scripts/themetest.py:608-609 | any two strings are ordered one way or the other |
| `DetectNew.LexLeTrans` | scripts/themetest.py:608-609 | the string order is transitive |
| `DetectNew.LexLeAntisymmetric` | scripts/themetest.py:608-609 | strings ordered both ways are equal |
| `DetectNew.Sort` | scripts/themetest.py:608-609 | sorting is a permutation |
| `DetectNew.SortSorted` | scripts/themetest.py:608-609 | the sorted list is in order |
| `DetectNew.SortedUnique` | scripts/themetest.py:608-609 | two sorted arrangements of the same slugs are the same list, so the sort result does not depend on the input's order |
| `DetectNew.Minus` | scripts/themetest.py:611 | a slug is in the difference if and only if it is in the old list and not in the new one |
| `DetectNew.MinusCounts` | scripts/themetest.py:611 | each old slug is kept as often as it occurs, or dropped entirely |
| `DetectNew.NewThemeListMembers` | scripts/themetest.py:601-611 | the reported list holds exactly the stored slugs that are no longer featured |
| `DetectNew.NewThemeListSorted` | scripts/themetest.py:608-611 | the reported list is sorted |
| `DetectNew.NewThemeListCounts` | scripts/themetest.py:608-611 | each reported slug appears as often as in the stored list |
| `DetectNew.NothingReportedIffAllKept` | scripts/themetest.py:611-612 | nothing is reported if and only if every stored slug is still featured |
| `DetectNew.AddedThemeNotReported` | scripts/themetest.py:611 | a theme newly added to the featured list is not reported |
| `DetectNew.DroppedThemeReported` | scripts/themetest.py:611 | a theme that left the featured list is the one reported |
| `DetectNew.FirstLine` | scripts/themetest.py:597 | `readline()` returns a prefix with no newline before its last character; it ends in a newline when it is shorter than the text, and it is the whole text when there is no newline |
| `DetectNew.CollectSlugs` | scripts/themetest.py:602-607 | the append loop computes exactly `FeaturedSlugs` |
| `DetectNew.NotDueLeavesFiles` | scripts/themetest.py:594-599 | a run on the date stored in `.lastrun` reports nothing and writes nothing |
| `DetectNew.WritesOnlyWhenNew` | scripts/themetest.py:599-617 | `.lastrun` and `lastfeatured.json` change only when the list is not empty, and then hold today's date and the fresh response; `thisfeatured.json` is written as soon as the stored snapshot has loaded |
| `DetectNew.SecondRunSameDay` | scripts/themetest.py:594-617 | after a run that starts a test, a second run on the same day does nothing |
| `DetectNew.MissingSnapshotFails` | scripts/themetest.py:498-508 | without `lastfeatured.json` the action stops with KeyError on `themes`, before the query, and writes nothing |
| `DetectNew.DataDir.constructor` | scripts/themetest.py:594-617 | the directory starts with the given files |
| `DetectNew.DataDir.Detect` | scripts/themetest.py:591-629 | the verdict and the new files are exactly those of `DetectNewSpec` on the old files |
| `DetectNew.DetectTwice` | scripts/themetest.py:591-629 | when the first call on a day finds themes, the second call on that day does nothing and leaves the first call's files |

## Behaviour kept as written

The model does what the script does in these places:

- The direction of `detect_new`'s comparison is modelled as written: old slugs missing from the new list. The lemmas `AddedThemeNotReported` and `DroppedThemeReported` pin the direction down. A newly featured theme is never reported.
- A count of 11 posts gets the `4x3` layout (line 462).
- A GTMetrix result in state `error` is merged like a completed one when it has results and resources (lines 293-322).
- The poll loop sleeps once more after an `error` response (lines 190-201).
- An HTTP error while downloading a screenshot stops the whole batch (line 250).
- In a dry run, generate_sites still runs its wp-cli lines with `echo` in front (lines 136-146), and post_rundown still runs its montage with `echo` in front (lines 475-477). post_pages runs nothing in a dry run (lines 377-378, 399-400, 405-407), and post_rundown only logs its media import (lines 485-487).

## Findings

| source | as written | input that shows it | evidently intended | confidence | as-written member | corrected member |
|---|---|---|---|---|---|---|
| scripts/themetest.py:373-375 | the title `"<name> - WordPress Theme Performance Report"` is pasted between single quotes with no escaping, though the excerpt beside it has its quotes escaped, at line 372 | a theme named `Writer's Blog`: the quote after `Writer` closes the title, and the quote after `Report` opens one that is never closed, so `sh` rejects the whole `post create` line and `check_output` raises | the title escaped like the excerpt, so that it reaches wp-cli as one argument | not executed | `Publish.TitleArgAsWrittenBreaks` | `Publish.TitleArgRoundTrip` |

`Publish.TitleAsWrittenLeavesQuoteOpen` shows that the quote after `Report` is never closed. `Publish.ReportCreateCommandAsWritten` is the command as written. `Publish.ReportCreateCommand`, built from the corrected `TitleArg`, is the one `post_pages` uses in the model. `Publish.ReportCreateCommandAgrees` shows the two are the same line whenever the theme name holds no `'`, line break or non-ASCII character.

## Left out

- The HTTP calls (GTMetrix submit, poll and screenshot download; WordPress.org theme query; WordPress REST query) are left out: each response is a parameter.
- File reads and writes are left out. Files are `Option` values, and only the GTMetrix result files and the three `detect_new` files are modelled.
- `os.system` and `subprocess` are left out: the model produces the command lines and takes the captured output of `post create` as a parameter.
- Exit statuses are left out. Every command that `subprocess.check_output` runs (lines 350, 380, 400, 409, 477 and 489) is taken to exit 0, and the `CalledProcessError` it raises on a non-zero status is not modelled. The members below state what happens under that assumption.
- `Publish.ReportPostId`: a live `post create` that exits non-zero raises `CalledProcessError` at line 380, whatever it printed; the model fails only on empty output, with IndexError.
- `Publish.PublishReport`: a non-zero exit of `post create` (line 380), of a `post meta set` (line 400) or of the media import (line 409) would stop the record; the model builds every line, and fails only when `post create` printed nothing.
- `Publish.PostPagesOutcome`: post_pages would also stop at the first command of any record that exits non-zero; the model stops only at an empty `post create` output.
- `Publish.ReportExecutedLines`: a live record would stop at its first command that exits non-zero, so the shell would get only a prefix of the lines stated; the model runs them all.
- `Rundown.PostRundownOutcome`: a live `post create` that exits non-zero (lines 450 and 350) would raise before the montage, and a failing montage (line 477) before the import; the model builds both whenever the batch has 8 to 18 posts.
- `Rundown.MontageRuns`: in a live run the montage is reached only when `post create` exits 0; the model assumes it does.
- `Rundown.RundownLinesBuilt`: the built sequence assumes the live `post create` exits 0.
- `Rundown.RundownExecutedSteps`: the executed sequence assumes `post create` and the montage exit 0; otherwise the shell gets only its prefix up to the failing command.
- `Rundown.RundownImageOnNewPost`: the import is reached only when the montage exits 0; the model assumes it does.
- `Rundown.ShelledAreBuilt`: a live run runs every built line only when each one before it exits 0.
- The catalog objects (`CatalogEntry`) and the GTMetrix `results` and `resources` objects always carry every key build_acfdata and the other actions read without a guard (for example `theme['author']`, `theme['screenshot_url']` and the `results` fields at lines 265-322). The KeyError such a missing key would raise is not modelled; only the lookups that `AcfData.Merge` lists can fail.
- Sleeping and the clock are left out: sleeps are counted in seconds, and dates are parameters already formatted as the script formats them.
- Logging, argparse, the credentials file, `render` and jinja, and the `cleanup` and `archive` actions are outside the modelled core.
- The submission of a GTMetrix test (lines 171-186) is left out. This includes the bare `except` that leaves `test_id` unbound. A test's poll responses are given directly.
- `Polling.PollSpec`: the real loop has no cap. A script with no terminal response ends as `Exhausted`, which stands for a loop that never ends.
- `AcfData.Merge`: the screenshot download of `build_acfdata` (lines 239-259) is modelled by `AcfData.Prepare` as two inputs per theme: whether the image file exists and whether the download succeeds. The bytes written and the `convert` call are left out, because the model keeps no image files.
- The unused `prefix_db` of `test_gtmetrix` (line 158) is left out.
- `json.dumps` rendering, and the order in which `theme` is iterated in the meta loop (line 385), are left out. The meta pairs come as a parameter, in iteration order, with dictionaries already rendered.
- A meta value of `None` (line 393) is left out: it would resend the previous value, and no record field is `None`.
- `PyStr.SplitLines`: its own ensures give only the shape of the lines. Their content is stated by `PyStr.SplitLinesOneLine`, `PyStr.SplitLinesBreak` and `PyStr.SplitLinesCrLf`.
- `Publish.FlattenAscii`: its own ensures give only the character classes of the result. The character-by-character reference is `Publish.FlattenAsciiIsPerChar`.
- `Publish.CreatedPostId`: its own ensures give the dry-run value and the absence of line breaks. The character-by-character reference for a live run is `Publish.CreatedPostIdIsPerChar`.
- `Publish.IntToString`: its own ensures give the sign and the digits. Their value is stated by `Publish.IntToStringValue`.
- `Publish.CreatePostCommand`: the double-quoted excerpt and title of `create_wp_post` are built but not parsed by the shell model.
- The JSON-substring step of `post_rundown` (lines 433-435) is left out: the posts are given already decoded.
- `Publish.PostPages` and `Rundown.PostRundown`: in a dry run their command lists are built and logged but not all run. The shell and the log are not modelled; `Publish.ReportExecuted` and `Rundown.RundownExecuted` say which lines reach the shell.
- `Rundown.PostRundown`: the output of `media import` and the `image_feat_id` it logs are not modelled.
- `Publish.PostCommandLine`: `CreateReport` is rendered with the corrected `ReportCreateCommand`, not the as-written one. The two are equal for theme names without `'`, line breaks and non-ASCII characters (`Publish.ReportCreateCommandAgrees`); for other names the line the script runs is `ReportCreateCommandAsWritten`.
- `Publish.PostPages`: the records come as a parameter, in the order `acfdata.iteritems()` yields them (line 357). Python 2's dictionary order is not modelled, and the records are not tied to the values of `AcfData.AcfTable`.
- `DetectNew.Sort`: Python's in-place `list.sort()` is modelled on values, as an insertion sort. The proved properties are sortedness, permutation and uniqueness of the sorted result.
- `lastfeatured.json` that exists but lacks a `themes` key is not modelled: a stored snapshot always has its theme list.
- The test run `detect_new` starts after the comparison (lines 618-623) is not modelled beyond the verdict `NewThemes`. It calls `generate_sites` with the whole response dictionary rather than its theme list.
