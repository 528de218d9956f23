# vid2text ingestion core in Dafny

vid2text builds a SQLite knowledge base of video transcripts. It covers three kinds of source:

- YouTube watch URLs;
- local video files;
- M3U8 streams.

A run reads a manifest or a YAML configuration and works out the videos to process. For each video it computes a deduplication key and checks whether the `videos` table already holds that key. If it does not, the run builds the record (page metadata, captions or a transcription of the audio) and inserts one row.

This project models that logic and proves its properties:

- key derivation;
- manifest parsing;
- record assembly;
- the insert-if-absent store;
- per-item processing;
- the two batch drivers:
  - the `process` command of `video_knowledge/cli.py` isolates failures and counts them;
  - `main.py` stops at the first exception.

## Modules

- `wrappers.dfy`, module `Wrappers`: `Option` and `Result`.
- `pystr.dfy`, module `PyStr`: the Python string and path operations the code relies on (`splitlines`, `split`, `strip`, `replace`, `' '.join`, `endswith`, `posixpath.basename`/`dirname`/`join`, `str(int)`, `upper`), each with its laws.
- `identity.dfy`, module `Identity`: the three deduplication keys.
  - YouTube: the `=`-split and the `v=([^&]+)` search.
  - Local files and streams: `sha256(...).hexdigest()[:11]`, with the UTF-8 encoding of `str.encode()`.
- `environment.dfy`, module `Environment`: the file system, SHA-256, the page fetch, the caption service and the transcriber. These are values with function-typed fields, so each call sees a fixed answer. The module also defines the exceptions that end an item.
- `store.dfy`, module `Store`: `VideoInfo` and the class `VideoDatabase`. Its `videos` field is a map from id to row, so the table holds at most one row per id.
- `ingest.dfy`, module `Ingest`: what processing one item means, independent of its kind.
  - An item is a `Job`: a key, or the exception computing it raises, and the record, or the exception building it raises.
  - `Step` is the outcome of processing the item and `After` is the table it leaves.
  - `RunAll` runs a batch with failures isolated.
  - `RunFailFast` runs a batch that stops at the first exception.
- `processors.dfy`, modules `ProcessorSupport`, `YouTubeProcessor`, `LocalProcessor` and `M3U8Processor`: `video_knowledge/processors.py`. `process_video*` and `get_video_locations` are methods. Each is proved against the job and location functions, and the properties are lemmas about those functions.
- `legacy.dfy`, module `LegacyProcessors`: covers `video_processing.py` and `src/processors/*.py`. Their processors are proved to be the current ones called without a custom title, with four extensions instead of five. The legacy M3U8 processor has its own `"{title} - {order}"` title.
- `main.dfy`, module `MainScript`: `main.py`.
- `cli.dfy`, module `Cli`: `video_knowledge/cli.py`. It covers the log level, the `youtube`, `local` and `m3u8` commands, and `process`.

Three behaviours of the code are easy to miss; the model keeps each of them:

- **YouTube manifest lines.** `splitlines()` keeps blank lines, and each becomes an item. A blank line has no '=', so `split('=')[1]` raises IndexError for it (`video_knowledge/processors.py:49`); `YouTubeProcessor.NoEqualsFails` states this.
- **M3U8 positions.** `enumerate(lines, start=1)` counts every line, matching or not, so a target's order is its 1-based position among all lines (`video_knowledge/processors.py:160`); `M3U8Processor.StreamTargetsSound` states this.
- **M3U8 titles.** The title is the manifest's base name with every occurrence of `m3u8-` and of `.txt` removed, not only a leading prefix and a trailing suffix (`video_knowledge/processors.py:162`); `M3U8Processor.ManifestTitleRemovesRepeats` shows `m3u8-m3u8-T.txt` titled `T`. Each line is also stripped before the `.m3u8` test, and the stripped line is what is stored.

## Model

| member | source | states |
|---|---|---|
| Identity.HexPrefix | video_knowledge/processors.py:129 | the key is the first 11 characters of the digest, each a lower-case hexadecimal digit |
| Identity.LocalVideoId | video_knowledge/processors.py:129 | a file's key has 11 characters and holds neither '=' nor '&' |
| Identity.StreamVideoId | video_knowledge/processors.py:175 | a stream's key has 11 characters and holds neither '=' nor '&' |
| Identity.CharUtf8Decodes | video_knowledge/processors.py:175 | the UTF-8 bytes of one character decode back to its code point, and the lead byte announces their number |
| Identity.Utf8RoundTrip | video_knowledge/processors.py:175 | `location.encode()` has a left inverse: decoding the bytes gives back the URL |
| Identity.Utf8Injective | video_knowledge/processors.py:175 | distinct URLs are hashed from distinct byte strings |
| Identity.SplitVideoId | video_knowledge/processors.py:49 | `split('=')[1]` exists exactly when the URL holds '=', and it holds no '=' |
| Identity.RegexVideoId | video_knowledge/processors.py:83 | a match's group is non-empty and free of '&' |
| Identity.RegexVideoIdNone | video_knowledge/processors.py:83 | the search for `v=([^&]+)` fails exactly when no index starts `v=` followed by a character other than '&' |
| Identity.RegexVideoIdLeftmost | video_knowledge/processors.py:83 | the search returns the group of the leftmost match, which runs up to the next '&' |
| Identity.CheckedYouTubeId | video_knowledge/processors.py:49-55 | a key equal to both the split and the regex id is non-empty and free of '=' and '&' |
| Identity.WatchUrlIds | video_knowledge/processors.py:49-55 | for `p + "v=" + x` with no '=' in p, both derivations give x |
| Identity.TrailingParameterIds | video_knowledge/processors.py:49-55 | for `...v=x&rest` the split gives `x&` plus rest up to its first '=', the regex gives x, and the two differ |
| PyStr.SplitLines | video_knowledge/processors.py:38 | `splitlines()` gives no lines exactly for the empty text, and never more lines than characters |
| PyStr.SplitLinesHaveNoBoundary | video_knowledge/processors.py:38 | no line returned by `splitlines()` contains a line boundary |
| PyStr.SplitLinesUnlines | video_knowledge/processors.py:38 | lines joined by newlines split back into exactly those lines, blank lines included |
| PyStr.JoinSplit | video_knowledge/processors.py:49 | `split('=')` loses nothing: joining the fields with '=' gives back the string |
| PyStr.SplitJoin | video_knowledge/processors.py:49 | splitting a join of separator-free fields gives back the fields |
| PyStr.SplitFieldsHaveNoSeparator | video_knowledge/processors.py:49 | no field of a split contains the separator |
| PyStr.SplitHead | video_knowledge/processors.py:49 | the first field runs up to the first separator; a second field exists exactly when the separator occurs |
| PyStr.SecondFieldBetweenSeparators | video_knowledge/processors.py:49 | `split('=')[1]` is the text between the first '=' and the next one, or the end |
| PyStr.SecondFieldAbsent | video_knowledge/processors.py:49 | without '=' there is no second field (the IndexError) |
| PyStr.TakeUntil | video_knowledge/processors.py:83 | the group `[^&]+` takes the longest prefix free of '&', stopping just before an '&' |
| PyStr.JoinSpaceLength | video_knowledge/processors.py:94 | the joined caption text is as long as all entries together plus one space between each pair of neighbours |
| PyStr.JoinSpaceEmpty | video_knowledge/processors.py:94 | the joined text is empty exactly when there are no entries or a single empty one |
| PyStr.Strip | video_knowledge/processors.py:161 | `strip()` never lengthens the line, and its result is empty or neither starts nor ends with whitespace |
| PyStr.StripIsTrimmedSlice | video_knowledge/processors.py:161 | `strip()` returns a slice of the line with only whitespace around it, and the slice neither starts nor ends with whitespace |
| PyStr.ReplaceAll | video_knowledge/processors.py:162 | replacing by the empty string never lengthens the text and introduces no character that was not there |
| PyStr.ReplaceAllWithout | video_knowledge/processors.py:162 | `replace` leaves a string with no occurrence unchanged |
| PyStr.ReplaceAllLeading | video_knowledge/processors.py:162 | an occurrence at the start is replaced and the scan continues after it |
| PyStr.Basename | video_knowledge/processors.py:138 | `os.path.basename` is a suffix of the path that holds no '/' |
| PyStr.Dirname | video_knowledge/processors.py:143 | `os.path.dirname` is a prefix of the path |
| PyStr.PathJoinParts | video_knowledge/processors.py:116 | `os.path.join(root, name)` ends with name, and starts with root unless name is absolute |
| PyStr.BasenameOfJoin | video_knowledge/processors.py:116 | the base name of `os.path.join(root, name)` is name when name has no '/' |
| PyStr.DirnameOfJoin | video_knowledge/processors.py:143 | the directory of `root/name` is root |
| PyStr.IntToDecimalRoundTrip | video_knowledge/processors.py:185 | `str(order)` parses back to order, negative orders included |
| PyStr.IntToDecimalInjective | video_knowledge/processors.py:185 | distinct orders are formatted differently |
| PyStr.UpperAscii | video_knowledge/cli.py:37 | `upper()` keeps the length, turns each ASCII lower-case letter into its capital and leaves every other character as it is |
| PyStr.UpperAsciiKeepsCapitals | video_knowledge/cli.py:37 | a string without lower-case letters is unchanged by `upper()` |
| PyStr.UpperAsciiIdempotent | video_knowledge/cli.py:37 | upper-casing twice is upper-casing once |
| Store.NewVideoInfo | video_knowledge/database.py:10-18 | a record built from id and title alone has every optional field set to '' |
| Store.VideoDatabase.constructor | video_knowledge/database.py:37-40 | after opening, the table exists and holds exactly the rows already in the file |
| Store.VideoDatabase.InitializeDb | video_knowledge/database.py:42-44 | create-if-not-exists: afterwards the table exists; an existing table keeps its rows and a missing one is created empty |
| Store.VideoDatabase.IsVideoPresent | video_knowledge/database.py:46-52 | true exactly when a row keyed by the id exists; it modifies nothing; the copy in database.py, lines 14-19, is the same code |
| Store.VideoDatabase.InsertVideo | video_knowledge/database.py:54-64 | an absent id gains exactly one row holding title, content, creator, source and upload date. The store supplies run_date, lesson is not written and the other rows are unchanged. A taken id raises and nothing changes; the copy in database.py, lines 21-30, is the same code |
| Store.ReopenKeepsRows | database.py:7-12 | opening the same database twice keeps its rows: table creation is idempotent |
| Ingest.Step | video_knowledge/processors.py:46-66 | a key that raises is the item's failure; a present key is skipped; a stored record is the item's record, keyed by an absent key; a failure after the key means the key was absent |
| Ingest.After | video_knowledge/processors.py:50-65 | every existing row is kept; a stored item adds exactly its own row stamped with the time; anything else leaves the table as it was |
| Ingest.StoredExactly | video_knowledge/processors.py:46-66 | an item is inserted exactly when its key is computable and absent and its record can be built, and what is inserted is that record. It is skipped exactly when its key is present |
| Ingest.PresentKeyIgnoresAttempt | video_knowledge/processors.py:50-52 | with the key present, nothing after the check matters: the item is skipped and the table is unchanged |
| Ingest.AfterFrame | video_knowledge/processors.py:65 | every existing row is kept unchanged and only the item's own key can be added; a key that raises changes nothing |
| Ingest.StepIdempotent | video_knowledge/processors.py:50-52 | processing an item a second time stores nothing and leaves the table as the first time left it |
| Ingest.NotStoredGrows | video_knowledge/processors.py:50-52 | an item that stores nothing against a table stores nothing against any table with more keys |
| Ingest.RunAll | video_knowledge/cli.py:191-244 | with failures isolated, every item counts exactly once: succeeded + failed is the number of items |
| Ingest.RunAllSnoc | video_knowledge/cli.py:206-215 | one more item adds one to exactly one counter and moves the table by that item's step |
| Ingest.RunAllAppend | video_knowledge/cli.py:203-244 | a batch in two parts: the second part runs from the first part's table and the counts add up |
| Ingest.RunAllThree | video_knowledge/cli.py:203-244 | the youtube, local and m3u8 lists run one after the other and their counts add up |
| Ingest.RunAllKeepsRows | video_knowledge/cli.py:191-244 | rows present before a batch are unchanged after it |
| Ingest.RunAllNewKeys | video_knowledge/cli.py:191-244 | every row a batch adds is keyed by one of its items |
| Ingest.RunAllSettles | video_knowledge/cli.py:191-244 | after a batch, no item of it would store anything |
| Ingest.RunAllOnSettled | video_knowledge/cli.py:191-244 | a batch in which no item would store anything leaves the table as it is |
| Ingest.RunAllIdempotent | video_knowledge/cli.py:191-244 | running a batch a second time changes nothing |
| Ingest.CleanRunStoresEveryKey | video_knowledge/cli.py:191-244 | after an isolating run with no failure, every item's key is computable and present in the table |
| Ingest.RunFailFast | main.py:14-16 | a fail-fast run keeps every row it started with, and an exception needs at least one item |
| Ingest.FailFastOnSkipped | main.py:15-16 | a fail-fast run over items whose keys are all present raises nothing and leaves the table as it is |
| Ingest.RunFailFastSnoc | main.py:15-16 | a run that has not failed processes the next item and stops with that item's exception if it raises |
| Ingest.FailFastRunsCleanPrefix | main.py:14-16 | the fail-fast run stores what the isolating run stores for the items before the first failure. Those items have no failure, and the next item is the one that raised the reported exception |
| Ingest.FailFastWithoutErrorIsRunAll | main.py:14-16 | a fail-fast run with no exception ends with the isolating run's table, and no item failed |
| Ingest.SampleBatchIsolatesFailure | video_knowledge/cli.py:206-214 | three new items with a failing middle one: isolating stores the first and third (2 succeeded, 1 failed), while failing fast stores only the first |
| ProcessorSupport.ReadLines | video_knowledge/processors.py:37-40 | reading fails exactly when the file cannot be opened, and no line contains a line boundary |
| ProcessorSupport.ReadLinesOfListing | video_knowledge/processors.py:37-40 | a file of entries joined by newlines yields exactly those entries in order, blank ones included; the copies in video_processing.py (lines 26-31) and src/processors/youtube_processor.py (lines 13-18) are the same code |
| YouTubeProcessor.ExtractVideoDetails | video_knowledge/processors.py:69-85 | the id is the regex match and lesson, content and source are empty. With a truthy custom title it succeeds exactly when the regex matches, and then the title is the custom title while creator and upload date are '' |
| YouTubeProcessor.CustomTitleIgnoresPage | video_knowledge/processors.py:72-75 | with a truthy custom title the result does not depend on the page at all: no fetch |
| YouTubeProcessor.PageDetails | video_knowledge/processors.py:76-81 | without a custom title a failed fetch raises; a success takes title, upload date and creator from the three selectors |
| YouTubeProcessor.GetTranscript | video_knowledge/processors.py:88-97 | the transcript is None exactly when the caption lookup raised; the copy in src/processors/youtube_processor.py, lines 50-59, is the same code |
| YouTubeProcessor.TranscriptMissing | video_knowledge/processors.py:57-58 | audio transcription is used exactly when the lookup raised, returned no entries, or returned one empty entry |
| YouTubeProcessor.Record | video_knowledge/processors.py:54-65 | the record is the extracted details (id, title, creator, upload date) with the caption text as content when it is truthy, else the transcription, and source 'YouTube'; a failed extraction is reraised and an id differing from the split key fails the assertion |
| YouTubeProcessor.VideoJob | video_knowledge/processors.py:46-66 | the key exists exactly when the URL holds '=', it is then `split('=')[1]`, otherwise the item raises IndexError; the key and the id of the record agree whenever both exist |
| YouTubeProcessor.NoEqualsFails | video_knowledge/processors.py:49 | a URL without '=' raises IndexError on every table and changes nothing |
| YouTubeProcessor.StoredYouTubeRecord | video_knowledge/processors.py:54-65 | a stored video is the extracted details with source 'YouTube', its content is the truthy caption text or else the transcription, and its id is the split key |
| YouTubeProcessor.ProcessVideoWithTitle | video_knowledge/processors.py:46-66 | the outcome and the new table are the item's step against the old table, and nothing else changes |
| YouTubeProcessor.ProcessVideo | video_knowledge/processors.py:42-44 | process_video is process_video_with_title without a title |
| YouTubeProcessor.StoredIdsAgree | video_knowledge/processors.py:49-55 | a stored video's id equals both the split id and the regex id, and is non-empty and free of '=' and '&' |
| YouTubeProcessor.WatchUrlKey | video_knowledge/processors.py:49-55 | a plain watch URL's key is its video id, and the id assertion cannot fail for it |
| YouTubeProcessor.TrailingParameterNeverStored | video_knowledge/processors.py:49-55 | a URL of the form `...v=x&rest` is never stored, whatever the title and the table |
| LocalProcessor.AppendFileTargets | video_knowledge/processors.py:114-116 | the inner loop appends exactly the accepted files of one directory, joined to its root, in order |
| LocalProcessor.AppendWalkTargets | video_knowledge/processors.py:113-116 | the walk loop appends the targets of every walked directory in traversal order |
| LocalProcessor.GetVideoLocationsWith | video_knowledge/processors.py:103-117 | the collected paths are the targets of the file's lines in line order, and an unreadable file raises |
| LocalProcessor.GetVideoLocations | video_knowledge/processors.py:103-117 | the same with the five extensions `.mp4 .avi .mov .mkv .m4v` |
| LocalProcessor.LocalTargetsAppend | video_knowledge/processors.py:109-116 | the output follows line order: the targets of a + b are a's targets followed by b's |
| LocalProcessor.LocalTargetsMembers | video_knowledge/processors.py:109-116 | a path is found exactly when some line contributes it |
| LocalProcessor.FileTargetsMembers | video_knowledge/processors.py:114-116 | a walked directory contributes exactly its files with an accepted extension, joined to its root |
| LocalProcessor.WalkTargetsMembers | video_knowledge/processors.py:113-116 | a walk contributes exactly the targets of its directories |
| LocalProcessor.PathJoinEndsWith | video_knowledge/processors.py:116 | joining a root to an accepted file name keeps the accepted extension |
| LocalProcessor.LocalTargetShape | video_knowledge/processors.py:109-116 | every found path is either the absolute path of a listed video file, or a video file found by walking a listed directory |
| LocalProcessor.ListedFileFound | video_knowledge/processors.py:110-112 | a listed video file is found; a line that is neither a video file nor a directory contributes nothing |
| LocalProcessor.Record | video_knowledge/processors.py:135-145 | the record exists exactly when transcription succeeds; it then has the given id, the transcription as content, the custom title when truthy and else the file's base name, the parent folder's name as creator and source 'Local' |
| LocalProcessor.VideoJob | video_knowledge/processors.py:127-145 | the key exists exactly when the file can be read, and it is the hash prefix of the file's bytes |
| LocalProcessor.ProcessVideoWithTitle | video_knowledge/processors.py:123-148 | the outcome and the new table are the item's step against the old table, and nothing else changes |
| LocalProcessor.ProcessVideo | video_knowledge/processors.py:119-121 | process_video is process_video_with_title without a title |
| LocalProcessor.SameContentsSkipped | video_knowledge/processors.py:129-133 | once a file is stored, any file with identical contents is skipped, whatever its path and title |
| LocalProcessor.WalkedFileRecord | video_knowledge/processors.py:138-144 | a stored walked file is titled by the custom title when truthy and else by its name, created by its folder's name, has source 'Local' and the transcription as content |
| M3U8Processor.GetVideoLocations | video_knowledge/processors.py:154-165 | the targets are those of the file's lines, titled after the manifest, and an unreadable file raises; the copy in src/processors/m3u8_processor.py, lines 11-21, is the same code |
| M3U8Processor.StreamTargets | video_knowledge/processors.py:159-165 | there are no more targets than lines, each is titled after the manifest, and each order is between 1 and the number of lines |
| M3U8Processor.ManifestTitle | video_knowledge/processors.py:162 | the title taken from the manifest's name holds no '/' |
| M3U8Processor.StreamTargetsSound | video_knowledge/processors.py:159-165 | every target is a stripped line ending in `.m3u8`, numbered by its 1-based position among all lines and titled after the manifest; the numbers strictly increase; the copy in src/processors/m3u8_processor.py, lines 16-19, is the same code |
| M3U8Processor.StreamTargetsComplete | video_knowledge/processors.py:160-163 | every line whose stripped text ends in `.m3u8` yields a target |
| M3U8Processor.ManifestTitleOfConventionalName | video_knowledge/processors.py:162 | a manifest named `m3u8-T.txt` in any directory gives title T |
| M3U8Processor.ManifestTitleRemovesRepeats | video_knowledge/processors.py:162 | every occurrence is removed: `m3u8-m3u8-T.txt` also gives T |
| M3U8Processor.FinalTitle | video_knowledge/processors.py:185 | a truthy title is kept; otherwise the title is "Stream " followed by a decimal numeral that parses back to the order |
| M3U8Processor.Record | video_knowledge/processors.py:182-193 | the record exists exactly when transcription succeeds; it then has the given id and title, the transcription as content, creator 'Unknown' and the URL as source |
| M3U8Processor.TitledJob | video_knowledge/processors.py:175-193 | a stream's key is the hash of its URL and agrees with its record's id |
| M3U8Processor.ProcessVideoWithTitle | video_knowledge/processors.py:172-199 | the outcome and the new table are the item's step against the old table; a raised exception leaves the table unchanged |
| M3U8Processor.ProcessVideo | video_knowledge/processors.py:167-170 | process_video unpacks a target into URL, title and order and processes them |
| M3U8Processor.StoredStream | video_knowledge/processors.py:175-193 | a stored stream has the URL's key as id, the URL as source and creator 'Unknown'. Its title is the given title when truthy, else "Stream " followed by the order |
| M3U8Processor.RepeatedUrlSkipped | video_knowledge/processors.py:175-179 | once a URL is stored, it is skipped whatever title and order come with it later |
| LegacyProcessors.LegacyExtensionsNarrower | video_processing.py:80 | the legacy processors accept a subset of the current extensions, and `.m4v` only the current one |
| LegacyProcessors.YouTubeJobIsUntitled | video_processing.py:33-61 | the legacy YouTube item is the current one with no custom title |
| LegacyProcessors.YouTubeProcessVideo | video_processing.py:33-49 | the outcome and new table are the legacy item's step; the copy in src/processors/youtube_processor.py, lines 20-36, is the same code |
| LegacyProcessors.LocalJobIsUntitled | video_processing.py:89-112 | the legacy local item is the current one with no custom title: the title is the base name |
| LegacyProcessors.LocalGetVideoLocation | video_processing.py:75-87 | the legacy locations are the line targets with the four extensions `.mp4 .avi .mov .mkv`; the copy in src/processors/local_processor.py, lines 11-23, is the same code |
| LegacyProcessors.LocalProcessVideo | video_processing.py:89-112 | the outcome and new table are the legacy local item's step; the copy in src/processors/local_processor.py, lines 25-49, is the same code |
| LegacyProcessors.StreamTitlesDistinct | src/processors/m3u8_processor.py:38 | `"{title} - {order}"` titles of one manifest are distinct for distinct orders, and the order can be read back from the title |
| LegacyProcessors.StreamProcessVideo | src/processors/m3u8_processor.py:23-48 | the outcome and the new table are the URL-keyed item's step, recorded under the numbered title |
| MainScript.SourceOf | main.py:7-12 | YouTube exactly for a `youtube-` prefix, Local exactly for a `local-` prefix, and none otherwise |
| MainScript.DirectoryDefeatsPrefix | main.py:7-12 | a path `dir/name` whose directory part has no '-' is rejected whatever the name: the test is on the whole path |
| MainScript.JobOf | main.py:16 | each location's item is well formed (its key and record id agree) |
| MainScript.JobsOf | main.py:14-16 | one item per location, in the order of the list |
| MainScript.Jobs | main.py:6-14 | an unsupported name raises before anything else is read |
| MainScript.RunLocation | main.py:16 | processing one location extends the fail-fast run by one step |
| MainScript.ProcessLocations | main.py:15-16 | the loop's table and error are those of the fail-fast run over the locations |
| MainScript.ProcessVideos | main.py:6-16 | an unsupported name or unreadable input raises and stores nothing; otherwise the outcome is the fail-fast run |
| MainScript.FailFastStops | main.py:15-16 | once an item has raised, the remaining items change nothing |
| MainScript.RunMain | main.py:18-22 | a missing argument raises before the database is opened; a name not ending in `.txt` opens it and changes nothing; otherwise the outcome is process_videos' |
| MainScript.RerunAfterSuccessAddsNothing | main.py:14-16 | re-running process_videos on an input after a run without exception raises nothing and leaves the table exactly as the first run left it |
| Cli.BaseLevel | video_knowledge/cli.py:29-37 | the base level is looked up in `log_level_map` after `upper()`: DEBUG 10, INFO 20, WARNING 30, ERROR 40, CRITICAL 50, and 20 for any other name |
| Cli.LogLevel | video_knowledge/cli.py:38 | the level is max(10, base - 10*verbose): base - 10*verbose when that is at least 10, else 10; at most the base, a multiple of 10, and the base for verbose 0 |
| Cli.LogLevelMonotone | video_knowledge/cli.py:38 | more verbosity never raises the level |
| Cli.BaseLevelIgnoresCase | video_knowledge/cli.py:37 | the name is looked up after `upper()`, so it and its upper-cased form give the same base level |
| Cli.BaseLevelOfCapitals | video_knowledge/cli.py:29-37 | a name without lower-case letters is looked up as it is in the five-entry map, and gives 20 when absent |
| Cli.ExitCode | video_knowledge/cli.py:73-79 | a command exits 1 exactly when the processor raised |
| Cli.YouTubeCommand | video_knowledge/cli.py:55-79 | a dry run exits 0 and changes nothing; otherwise the table is the processor's step and the exit code reports a raise |
| Cli.LocalCommand | video_knowledge/cli.py:84-113 | a missing path exits 1 before the dry-run test and changes nothing. A dry run exits 0; otherwise the absolute path is processed |
| Cli.UnpackLocationInfo | video_knowledge/processors.py:169 | unpacking a string into three names succeeds exactly for three characters, one each; otherwise it raises ValueError |
| Cli.M3U8JobAsWritten | video_knowledge/cli.py:137 | any argument other than a three-character string raises before the store is consulted |
| Cli.M3U8CommandAsWritten | video_knowledge/cli.py:118-142 | the command as written: dry run exits 0; otherwise the item above is processed and a raise exits 1 |
| Cli.M3U8UrlNeverProcessed | video_knowledge/cli.py:137 | every URL ending in `.m3u8` fails and leaves the table unchanged |
| Cli.M3U8CommandRejectsStream | video_knowledge/cli.py:137 | `https://example.com/live/index.m3u8` is rejected |
| Cli.M3U8ThreeCharacters | video_knowledge/cli.py:137 | "abc" is stored as stream "a" titled "b" |
| Cli.M3U8Job | video_knowledge/cli.py:137 | the corrected item is the URL's stream item, keyed by the URL's hash |
| Cli.M3U8Command | video_knowledge/cli.py:118-142 | the corrected command: dry run exits 0; otherwise the URL is processed with no title and order 1 |
| Cli.M3U8CommandStoresStream | video_knowledge/cli.py:137 | corrected, a new transcribable stream is stored under its URL as "Stream 1", and it fails exactly when it is new and the transcriber raises |
| Cli.YouTubeJobs | video_knowledge/cli.py:204-215 | one well-formed item per `youtube` entry |
| Cli.YouTubeJobsAt | video_knowledge/cli.py:206-210 | entry i becomes the item of its url with its optional title |
| Cli.LocalJobs | video_knowledge/cli.py:218-229 | one well-formed item per `local` entry |
| Cli.LocalJobsAt | video_knowledge/cli.py:220-224 | entry i becomes the item of its path with its optional title |
| Cli.StreamJobs | video_knowledge/cli.py:232-244 | one well-formed item per `m3u8` entry |
| Cli.StreamJobsAt | video_knowledge/cli.py:234-239 | entry i becomes the item of its url with its optional title and its order, 1 when absent |
| Cli.BatchCoversTotal | video_knowledge/cli.py:168-174 | the batch has total_videos items: the sum of the lengths of the lists present |
| Cli.SummaryAddsUp | video_knowledge/cli.py:191-252 | success_count + error_count == total_videos |
| Cli.ProcessTwiceIsProcessOnce | video_knowledge/cli.py:203-244 | processing a configuration twice leaves the table as processing it once |
| Cli.DuplicateEntrySkipped | video_knowledge/cli.py:206-215 | a YouTube entry listed twice stores the same as listing it once |
| Cli.RunYouTubeEntry | video_knowledge/cli.py:207-214 | one entry: the exception is caught and the outcome counted once |
| Cli.RunYouTubeList | video_knowledge/cli.py:204-215 | the loop's table and counters are those of the isolating run over the list |
| Cli.RunLocalEntry | video_knowledge/cli.py:221-228 | one entry: the exception is caught and the outcome counted once |
| Cli.RunLocalList | video_knowledge/cli.py:218-229 | the loop's table and counters are those of the isolating run over the list |
| Cli.RunStreamEntry | video_knowledge/cli.py:235-243 | one entry: the exception is caught and the outcome counted once |
| Cli.RunStreamList | video_knowledge/cli.py:232-244 | the loop's table and counters are those of the isolating run over the list |
| Cli.RunBatch | video_knowledge/cli.py:191-244 | youtube, then local, then m3u8: the table and counters are those of the isolating run over the whole batch |
| Cli.Process | video_knowledge/cli.py:147-254 | a missing file exits 2, an unreadable file or a missing `videos` section exits 1, and a dry run reports the total; all three change nothing. Otherwise the summary reports the isolating run's counts and total |

## Left out

- Transcription: `Transcriber.load_audio` and `transcribe_audio` (yt-dlp, ffmpeg, Whisper, temporary files) are the two functions `loadAudio` and `transcribeAudio`, each of which may fail.
- HTML scraping and the caption service: `requests.get` with BeautifulSoup is `fetchPage`, which gives the three selector values or a failure. `YouTubeTranscriptApi.get_transcript` is `captions`, which gives the entry texts or a failure.
- SHA-256, `os.walk`, `os.path.isfile`/`isdir`/`abspath`, `Path.absolute` and file reads are fields of `Services` and `FileSystem`. All of them are deterministic: the same argument gets the same answer, which a real network or file system need not do.
- Walk order: `os.walk`'s traversal order is whatever the `walk` function gives.
- `datetime.now()`: the time of an insert is the `now` parameter; in batches it is `clock(i)` for item i.
- `video_knowledge/transcription.py`, `vid2text/transcription.py`, `src/utils/transcription.py`, `transcription.py`, `model.py`, `src/processors/base_processor.py` and the config modules are not part of this model.
- Logging, console output, progress bars and the `print` calls of `src/processors/local_processor.py` are left out: they only produce output.
- The `stats` and `view` commands are left out: they only read and display, and `view` launches an external program.
- The group callback's `--model` option is left out: it is stored and never read by the modelled code. The database the callback opens is the `db` parameter of each command.
- YAML loading: the configuration is a `ConfigFile` value and `yaml.safe_load` is not modelled. A document that is not a mapping is not modelled, and neither is a `videos` value that is not a mapping.
- Configuration entries always have their `url` or `path` key. A missing key raises KeyError inside the `try`, and in the real code the clause that handles it reads the key again and crashes the command. The model does not cover that crash.
- A list key that is present with value null (`len(None)` raises in Python) is not modelled. An absent key is `None`.
- An M3U8 entry's `order` is an optional integer, so an explicit `order: null` (which would give the title "Stream None") and non-integer orders are not modelled. Titles are strings; YAML titles that are not strings are not modelled.
- Cli.BaseLevel: `UpperAscii` upper-cases ASCII letters only, whereas Python's `str.upper()` also maps non-ASCII letters.
- Store.VideoDatabase.InsertVideo: sqlite errors other than the primary-key conflict (disk full, locked database) are not modelled.
- Python `assert` is taken as enabled: running with `-O` would skip the id cross-check.

## Findings

| source | as written | input that shows it | evidently intended | confidence | as-written member | corrected member |
|---|---|---|---|---|---|---|
| video_knowledge/cli.py:137 | the `m3u8` command calls `processor.process_video(url, db)` with the URL string, and `process_video` unpacks its argument as a `(location, title, order)` tuple | `https://example.com/live/index.m3u8`, or any URL not exactly three characters long: unpacking raises ValueError, so the command reports an error and exits 1. The string `abc` is instead stored as stream `a` titled `b` | process the URL itself, `process_video_with_title(url, db)`, storing the stream under "Stream 1" | not executed | Cli.M3U8CommandAsWritten | Cli.M3U8Command |

`Cli.M3U8UrlNeverProcessed` and `Cli.M3U8CommandRejectsStream` exhibit the as-written behaviour. `Cli.M3U8CommandStoresStream` proves the corrected one.
