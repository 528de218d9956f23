/**
 * The click commands of video_knowledge/cli.py. The group callback opens the store and fixes the
 * log level; the single-item commands run one processor and exit 1 when it raises; `process`
 * runs every item of a configuration file, catching and counting each item's exception.
 * Exit codes are returned; 0 is a normal return.
 */
module Cli {
  import opened Wrappers
  import opened PyStr
  import opened Identity
  import opened Environment
  import opened Store
  import opened Ingest
  import opened ProcessorSupport
  import YouTubeProcessor
  import LocalProcessor
  import M3U8Processor

  // ---------------------------------------------------------------------------------------
  // Log level

  const LogLevels: map<string, int> := map["DEBUG" := 10, "INFO" := 20, "WARNING" := 30, "ERROR" := 40, "CRITICAL" := 50]

  /** log_level_map.get(LOG_LEVEL.upper(), 20). */
  function BaseLevel(name: string): (level: int)
    ensures level in {10, 20, 30, 40, 50}
    ensures UpperAscii(name) == "DEBUG" ==> level == 10
    ensures UpperAscii(name) == "INFO" ==> level == 20
    ensures UpperAscii(name) == "WARNING" ==> level == 30
    ensures UpperAscii(name) == "ERROR" ==> level == 40
    ensures UpperAscii(name) == "CRITICAL" ==> level == 50
    ensures UpperAscii(name) !in LogLevels ==> level == 20
  {
    var key := UpperAscii(name);
    if key in LogLevels then LogLevels[key] else 20
  }

  /** Each -v lowers the level by one step of ten, never below DEBUG. */
  function LogLevel(name: string, verbose: nat): (level: int)
    ensures 10 <= level <= BaseLevel(name)
    ensures level % 10 == 0
    ensures level == 10 || level == BaseLevel(name) - 10 * verbose
    ensures level == 10 || verbose * 10 < BaseLevel(name) - 10
    ensures verbose == 0 ==> level == BaseLevel(name)
    ensures BaseLevel(name) - 10 * verbose >= 10 ==> level == BaseLevel(name) - 10 * verbose
    ensures BaseLevel(name) - 10 * verbose < 10 ==> level == 10
  {
    var base := BaseLevel(name);
    if base - verbose * 10 > 10 then base - verbose * 10 else 10
  }

  /** More -v flags never raise the level. */
  lemma LogLevelMonotone(name: string, v1: nat, v2: nat)
    requires v1 <= v2
    ensures LogLevel(name, v2) <= LogLevel(name, v1)
  {
  }

  /** The name is matched without regard to the case of ASCII letters. */
  lemma BaseLevelIgnoresCase(name: string)
    ensures BaseLevel(name) == BaseLevel(UpperAscii(name))
  {
    UpperAsciiIdempotent(name);
  }

  /**
   * A name written in capitals is looked up as it is: the five level names give their
   * levels and any other name gives INFO.
   */
  lemma BaseLevelOfCapitals(name: string)
    requires forall i :: 0 <= i < |name| ==> !('a' <= name[i] <= 'z')
    ensures BaseLevel(name) == (if name in LogLevels then LogLevels[name] else 20)
  {
    UpperAsciiKeepsCapitals(name);
  }

  // ---------------------------------------------------------------------------------------
  // Single-item commands

  /** Exit status of a single-item command: 1 exactly when processing raised. */
  function ExitCode(r: Outcome): (code: int)
    ensures code == 1 <==> r.Failed?
    ensures code == 0 <==> !r.Failed?
  {
    if r.Failed? then 1 else 0
  }

  /** `youtube URL`: nothing happens under --dry-run; otherwise process_video without a title. */
  method YouTubeCommand(db: VideoDatabase, svc: Services, url: string, dryRun: bool, now: string) returns (exitCode: int)
    requires db.hasTable
    modifies db
    ensures db.hasTable
    ensures dryRun ==> exitCode == 0 && db.videos == old(db.videos)
    ensures !dryRun ==> exitCode == ExitCode(Step(YouTubeProcessor.VideoJob(svc, url, None), old(db.videos)))
    ensures !dryRun ==> db.videos == After(YouTubeProcessor.VideoJob(svc, url, None), old(db.videos), now)
  {
    if dryRun {
      return 0;
    }
    var r := YouTubeProcessor.ProcessVideo(db, svc, url, now);
    exitCode := if r.Failed? then 1 else 0;
  }

  /**
   * `local PATH`: a path that does not exist exits 1 even under --dry-run; otherwise the
   * absolute form of the path is processed without a title.
   */
  method LocalCommand(db: VideoDatabase, w: World, path: string, dryRun: bool, now: string) returns (exitCode: int)
    requires db.hasTable
    modifies db
    ensures db.hasTable
    ensures !Exists(w.fs, path) ==> exitCode == 1 && db.videos == old(db.videos)
    ensures Exists(w.fs, path) && dryRun ==> exitCode == 0 && db.videos == old(db.videos)
    ensures Exists(w.fs, path) && !dryRun ==>
              exitCode == ExitCode(Step(LocalProcessor.VideoJob(w, w.fs.absolute(path), None), old(db.videos))) &&
              db.videos == After(LocalProcessor.VideoJob(w, w.fs.absolute(path), None), old(db.videos), now)
  {
    if !Exists(w.fs, path) {
      return 1;
    }
    if dryRun {
      return 0;
    }
    var r := LocalProcessor.ProcessVideo(db, w, w.fs.absolute(path), now);
    exitCode := if r.Failed? then 1 else 0;
  }

  /** `location, title, order = location_info` applied to a str: it unpacks exactly three characters. */
  function UnpackLocationInfo(s: string): (r: Result<(string, string, string), Error>)
    ensures r.Success? <==> |s| == 3
    ensures r.Failure? ==> r.error == NotATriple
    ensures r.Success? ==> r.value.0 + r.value.1 + r.value.2 == s
    ensures r.Success? ==> |r.value.0| == |r.value.1| == |r.value.2| == 1
  {
    if |s| == 3 then
      assert [s[0]] + [s[1]] + [s[2]] == s;
      Success(([s[0]], [s[1]], [s[2]]))
    else Failure(NotATriple)
  }

  /**
   * The item the `m3u8 URL` command makes, as written: it hands the URL string to
   * M3U8Processor.process_video, which unpacks it. A three-character string is taken as a
   * one-character location and title (the title is non-empty, so the order is never read);
   * any other string raises before the store is consulted.
   */
  function M3U8JobAsWritten(svc: Services, url: string): (j: Job)
    ensures WellFormed(j)
    ensures |url| != 3 ==> j == Job(Failure(NotATriple), Failure(NotATriple))
  {
    match UnpackLocationInfo(url)
    case Failure(e) => Job(Failure(e), Failure(e))
    case Success(parts) => M3U8Processor.TitledJob(svc, parts.0, parts.1)
  }

  /** `m3u8 URL` as written. */
  method M3U8CommandAsWritten(db: VideoDatabase, svc: Services, url: string, dryRun: bool, now: string) returns (exitCode: int)
    requires db.hasTable
    modifies db
    ensures db.hasTable
    ensures dryRun ==> exitCode == 0 && db.videos == old(db.videos)
    ensures !dryRun ==> exitCode == ExitCode(Step(M3U8JobAsWritten(svc, url), old(db.videos)))
    ensures !dryRun ==> db.videos == After(M3U8JobAsWritten(svc, url), old(db.videos), now)
  {
    if dryRun {
      return 0;
    }
    var unpacked := UnpackLocationInfo(url);
    if unpacked.Failure? {
      return 1;
    }
    var (location, title, order) := unpacked.value;
    assert Truthy(Some(title));
    var r := M3U8Processor.ProcessVideoWithTitle(db, svc, location, Some(title), 1, now);
    exitCode := if r.Failed? then 1 else 0;
  }

  /** No real stream URL gets through the command as written: the command always exits 1 and stores nothing. */
  lemma M3U8UrlNeverProcessed(svc: Services, url: string, t: Table, now: string)
    requires EndsWith(url, ".m3u8")
    ensures Step(M3U8JobAsWritten(svc, url), t) == Failed(NotATriple)
    ensures After(M3U8JobAsWritten(svc, url), t, now) == t
  {
  }

  /** A concrete stream URL that the command as written rejects. */
  lemma M3U8CommandRejectsStream(svc: Services, t: Table)
    ensures Step(M3U8JobAsWritten(svc, "https://example.com/live/index.m3u8"), t) == Failed(NotATriple)
  {
  }

  /** A three-character argument is stored under a one-character URL and title. */
  lemma M3U8ThreeCharacters(svc: Services, t: Table)
    requires StreamVideoId(svc.sha256, "a") !in t
    requires Transcribe(svc, "a").Success?
    ensures Step(M3U8JobAsWritten(svc, "abc"), t).Stored?
    ensures Step(M3U8JobAsWritten(svc, "abc"), t).info.source == "a"
    ensures Step(M3U8JobAsWritten(svc, "abc"), t).info.title == "b"
  {
    assert UnpackLocationInfo("abc") == Success(("a", "b", "c"));
  }

  /** The item the `m3u8 URL` command is evidently meant to make: the URL, no title, order 1. */
  function M3U8Job(svc: Services, url: string): (j: Job)
    ensures WellFormed(j)
    ensures j.key == Success(StreamVideoId(svc.sha256, url))
  {
    M3U8Processor.StreamJob(svc, url, None, 1)
  }

  /** `m3u8 URL`, corrected to call process_video_with_title(url, db). */
  method M3U8Command(db: VideoDatabase, svc: Services, url: string, dryRun: bool, now: string) returns (exitCode: int)
    requires db.hasTable
    modifies db
    ensures db.hasTable
    ensures dryRun ==> exitCode == 0 && db.videos == old(db.videos)
    ensures !dryRun ==> exitCode == ExitCode(Step(M3U8Job(svc, url), old(db.videos)))
    ensures !dryRun ==> db.videos == After(M3U8Job(svc, url), old(db.videos), now)
  {
    if dryRun {
      return 0;
    }
    var r := M3U8Processor.ProcessVideoWithTitle(db, svc, url, None, 1, now);
    exitCode := if r.Failed? then 1 else 0;
  }

  /**
   * With the correction every stream URL is processed: a new, transcribable stream is stored
   * under its own URL as "Stream 1", and a failure comes only from the transcriber.
   */
  lemma M3U8CommandStoresStream(svc: Services, url: string, t: Table)
    ensures StreamVideoId(svc.sha256, url) !in t && Transcribe(svc, url).Success? ==>
              Step(M3U8Job(svc, url), t).Stored? &&
              Step(M3U8Job(svc, url), t).info.source == url &&
              Step(M3U8Job(svc, url), t).info.title == "Stream 1"
    ensures Step(M3U8Job(svc, url), t).Failed? <==> StreamVideoId(svc.sha256, url) !in t && Transcribe(svc, url).Failure?
  {
    assert IntToDecimal(1) == "1";
  }

  // ---------------------------------------------------------------------------------------
  // The `process` command

  /** An entry of the `youtube` list: `url` and an optional `title`. */
  datatype YouTubeEntry = YouTubeEntry(url: string, title: Option<string>)
  /** An entry of the `local` list: `path` and an optional `title`. */
  datatype LocalEntry = LocalEntry(path: string, title: Option<string>)
  /** An entry of the `m3u8` list: `url`, an optional `title` and an optional `order`. */
  datatype StreamEntry = StreamEntry(url: string, title: Option<string>, order: Option<int>)

  /** The `videos` section; a list whose key is absent is None. */
  datatype VideoLists = VideoLists(youtube: Option<seq<YouTubeEntry>>, local: Option<seq<LocalEntry>>, m3u8: Option<seq<StreamEntry>>)

  /**
   * What reading the configuration file gives: an error from open or yaml.safe_load, or the
   * `videos` section (None when the document is empty or has no such key).
   */
  datatype ConfigFile = Unreadable | Loaded(videos: Option<VideoLists>)

  /** What `process` prints: an error, the dry-run count, or the summary table. */
  datatype ProcessReport = ConfigError | DryRun(total: nat) | Summary(succeeded: nat, failed: nat, total: nat)

  function TotalVideos(v: VideoLists): nat {
    |v.youtube.GetOr([])| + |v.local.GetOr([])| + |v.m3u8.GetOr([])|
  }

  /** The `youtube` items, one per entry, each with its optional title. */
  function YouTubeJobs(svc: Services, es: seq<YouTubeEntry>): (r: seq<Job>)
    ensures |r| == |es| && AllWellFormed(r)
    decreases |es|
  {
    if es == [] then []
    else
      var e := es[|es| - 1];
      YouTubeJobs(svc, es[..|es| - 1]) + [YouTubeProcessor.VideoJob(svc, e.url, e.title)]
  }

  lemma {:induction false} YouTubeJobsAt(svc: Services, es: seq<YouTubeEntry>, i: nat)
    requires i < |es|
    ensures var e := es[i]; YouTubeJobs(svc, es)[i] == YouTubeProcessor.VideoJob(svc, e.url, e.title)
    decreases |es|
  {
    if i < |es| - 1 {
      assert es[..|es| - 1][i] == es[i];
      YouTubeJobsAt(svc, es[..|es| - 1], i);
    }
  }

  /** The `local` items, one per entry, each path used as given. */
  function LocalJobs(w: World, es: seq<LocalEntry>): (r: seq<Job>)
    ensures |r| == |es| && AllWellFormed(r)
    decreases |es|
  {
    if es == [] then []
    else
      var e := es[|es| - 1];
      LocalJobs(w, es[..|es| - 1]) + [LocalProcessor.VideoJob(w, e.path, e.title)]
  }

  lemma {:induction false} LocalJobsAt(w: World, es: seq<LocalEntry>, i: nat)
    requires i < |es|
    ensures var e := es[i]; LocalJobs(w, es)[i] == LocalProcessor.VideoJob(w, e.path, e.title)
    decreases |es|
  {
    if i < |es| - 1 {
      assert es[..|es| - 1][i] == es[i];
      LocalJobsAt(w, es[..|es| - 1], i);
    }
  }

  /** The `m3u8` items; an entry without `order` has order 1. */
  function StreamJobs(svc: Services, es: seq<StreamEntry>): (r: seq<Job>)
    ensures |r| == |es| && AllWellFormed(r)
    decreases |es|
  {
    if es == [] then []
    else
      var e := es[|es| - 1];
      StreamJobs(svc, es[..|es| - 1]) + [M3U8Processor.StreamJob(svc, e.url, e.title, e.order.GetOr(1))]
  }

  lemma {:induction false} StreamJobsAt(svc: Services, es: seq<StreamEntry>, i: nat)
    requires i < |es|
    ensures var e := es[i]; StreamJobs(svc, es)[i] == M3U8Processor.StreamJob(svc, e.url, e.title, e.order.GetOr(1))
    decreases |es|
  {
    if i < |es| - 1 {
      assert es[..|es| - 1][i] == es[i];
      StreamJobsAt(svc, es[..|es| - 1], i);
    }
  }

  /** The items of a configuration in processing order: YouTube, then local, then streams. */
  function BatchJobs(w: World, v: VideoLists): seq<Job> {
    YouTubeJobs(w.svc, v.youtube.GetOr([])) + LocalJobs(w, v.local.GetOr([])) + StreamJobs(w.svc, v.m3u8.GetOr([]))
  }

  /** Every item of a configuration is processed once: the progress total is the batch's length. */
  lemma BatchCoversTotal(w: World, v: VideoLists)
    ensures |BatchJobs(w, v)| == TotalVideos(v)
    ensures AllWellFormed(BatchJobs(w, v))
  {
    var y := YouTubeJobs(w.svc, v.youtube.GetOr([]));
    var l := LocalJobs(w, v.local.GetOr([]));
    AllWellFormedAppend(y, l);
    AllWellFormedAppend(y + l, StreamJobs(w.svc, v.m3u8.GetOr([])));
  }


  /** The summary's counts add up to its total. */
  lemma SummaryAddsUp(w: World, v: VideoLists, t: Table, clock: nat -> string)
    ensures RunAll(BatchJobs(w, v), t, clock).succeeded + RunAll(BatchJobs(w, v), t, clock).failed == TotalVideos(v)
  {
    BatchCoversTotal(w, v);
  }

  /** Running a configuration a second time stores nothing new and changes no row. */
  lemma ProcessTwiceIsProcessOnce(w: World, v: VideoLists, t: Table, clock: nat -> string, later: nat -> string)
    ensures RunAll(BatchJobs(w, v), RunAll(BatchJobs(w, v), t, clock).table, later).table == RunAll(BatchJobs(w, v), t, clock).table
  {
    BatchCoversTotal(w, v);
    RunAllIdempotent(BatchJobs(w, v), t, clock, later);
  }

  /** Listing a YouTube entry twice stores what listing it once does; the repeat counts as a success or a failure like the first. */
  lemma DuplicateEntrySkipped(w: World, e: YouTubeEntry, t: Table, clock: nat -> string)
    ensures RunAll(BatchJobs(w, VideoLists(Some([e, e]), None, None)), t, clock).table
            == RunAll(BatchJobs(w, VideoLists(Some([e]), None, None)), t, clock).table
  {
    var j := YouTubeProcessor.VideoJob(w.svc, e.url, e.title);
    var twice := BatchJobs(w, VideoLists(Some([e, e]), None, None));
    var once := BatchJobs(w, VideoLists(Some([e]), None, None));
    assert [e, e][..1] == [e] && [e][..0] == [];
    assert once == [j];
    assert twice == [j, j];
    assert twice[..1] == once;
    assert once[..0] == [];
    StepIdempotent(j, t, clock(0), clock(1));
  }

  /** One YouTube entry of `process`, as item p of `js`, continuing from the tally (db.videos, succeeded, failed). */
  method RunYouTubeEntry(db: VideoDatabase, svc: Services, e: YouTubeEntry, now: string,
      ghost js: seq<Job>, ghost p: nat, ghost t0: Table, ghost clock: nat -> string, succeeded: nat, failed: nat)
    returns (succeeded': nat, failed': nat)
    requires db.hasTable
    requires p < |js| && js[p] == YouTubeProcessor.VideoJob(svc, e.url, e.title) && now == clock(p)
    requires RunAll(js[..p], t0, clock) == Tally(db.videos, succeeded, failed)
    modifies db
    ensures db.hasTable
    ensures RunAll(js[..p + 1], t0, clock) == Tally(db.videos, succeeded', failed')
  {
    ghost var prev := db.videos;
    var r := YouTubeProcessor.ProcessVideoWithTitle(db, svc, e.url, e.title, now);
    TallyStep(js, p, t0, clock, prev, succeeded, failed, r, db.videos);
    if r.Failed? {
      succeeded', failed' := succeeded, failed + 1;
    } else {
      succeeded', failed' := succeeded + 1, failed;
    }
  }

  /** The `youtube` list of `process`, skipped when the key is absent; each entry's exception is caught and counted. */
  method RunYouTubeList(db: VideoDatabase, svc: Services, list: Option<seq<YouTubeEntry>>, clock: nat -> string, succeeded: nat, failed: nat)
    returns (succeeded': nat, failed': nat)
    requires db.hasTable
    modifies db
    ensures db.hasTable
    ensures var run := RunAll(YouTubeJobs(svc, list.GetOr([])), old(db.videos), clock);
            db.videos == run.table && succeeded' == succeeded + run.succeeded && failed' == failed + run.failed
  {
    ghost var js := YouTubeJobs(svc, list.GetOr([]));
    ghost var t0 := db.videos;
    if list.None? {
      return succeeded, failed;
    }
    var es := list.value;
    assert js[..0] == [];
    var ok: nat, errors: nat := 0, 0;
    var i := 0;
    while i < |es|
      invariant 0 <= i <= |es|
      invariant db.hasTable
      invariant RunAll(js[..i], t0, clock) == Tally(db.videos, ok, errors)
    {
      YouTubeJobsAt(svc, es, i);
      ok, errors := RunYouTubeEntry(db, svc, es[i], clock(i), js, i, t0, clock, ok, errors);
      i := i + 1;
    }
    assert js[..i] == js;
    succeeded', failed' := succeeded + ok, failed + errors;
  }

  /** One local entry of `process`, as item p of `js`, continuing from the tally (db.videos, succeeded, failed). */
  method RunLocalEntry(db: VideoDatabase, w: World, e: LocalEntry, now: string,
      ghost js: seq<Job>, ghost p: nat, ghost t0: Table, ghost clock: nat -> string, succeeded: nat, failed: nat)
    returns (succeeded': nat, failed': nat)
    requires db.hasTable
    requires p < |js| && js[p] == LocalProcessor.VideoJob(w, e.path, e.title) && now == clock(p)
    requires RunAll(js[..p], t0, clock) == Tally(db.videos, succeeded, failed)
    modifies db
    ensures db.hasTable
    ensures RunAll(js[..p + 1], t0, clock) == Tally(db.videos, succeeded', failed')
  {
    ghost var prev := db.videos;
    var r := LocalProcessor.ProcessVideoWithTitle(db, w, e.path, e.title, now);
    TallyStep(js, p, t0, clock, prev, succeeded, failed, r, db.videos);
    if r.Failed? {
      succeeded', failed' := succeeded, failed + 1;
    } else {
      succeeded', failed' := succeeded + 1, failed;
    }
  }

  /** The `local` list of `process`; each path is used as given. */
  method RunLocalList(db: VideoDatabase, w: World, list: Option<seq<LocalEntry>>, clock: nat -> string, succeeded: nat, failed: nat)
    returns (succeeded': nat, failed': nat)
    requires db.hasTable
    modifies db
    ensures db.hasTable
    ensures var run := RunAll(LocalJobs(w, list.GetOr([])), old(db.videos), clock);
            db.videos == run.table && succeeded' == succeeded + run.succeeded && failed' == failed + run.failed
  {
    ghost var js := LocalJobs(w, list.GetOr([]));
    ghost var t0 := db.videos;
    if list.None? {
      return succeeded, failed;
    }
    var es := list.value;
    assert js[..0] == [];
    var ok: nat, errors: nat := 0, 0;
    var i := 0;
    while i < |es|
      invariant 0 <= i <= |es|
      invariant db.hasTable
      invariant RunAll(js[..i], t0, clock) == Tally(db.videos, ok, errors)
    {
      LocalJobsAt(w, es, i);
      ok, errors := RunLocalEntry(db, w, es[i], clock(i), js, i, t0, clock, ok, errors);
      i := i + 1;
    }
    assert js[..i] == js;
    succeeded', failed' := succeeded + ok, failed + errors;
  }

  /** One stream entry of `process`, as item p of `js`, continuing from the tally (db.videos, succeeded, failed). */
  method RunStreamEntry(db: VideoDatabase, svc: Services, e: StreamEntry, now: string,
      ghost js: seq<Job>, ghost p: nat, ghost t0: Table, ghost clock: nat -> string, succeeded: nat, failed: nat)
    returns (succeeded': nat, failed': nat)
    requires db.hasTable
    requires p < |js| && js[p] == M3U8Processor.StreamJob(svc, e.url, e.title, e.order.GetOr(1)) && now == clock(p)
    requires RunAll(js[..p], t0, clock) == Tally(db.videos, succeeded, failed)
    modifies db
    ensures db.hasTable
    ensures RunAll(js[..p + 1], t0, clock) == Tally(db.videos, succeeded', failed')
  {
    ghost var prev := db.videos;
    var r := M3U8Processor.ProcessVideoWithTitle(db, svc, e.url, e.title, e.order.GetOr(1), now);
    TallyStep(js, p, t0, clock, prev, succeeded, failed, r, db.videos);
    if r.Failed? {
      succeeded', failed' := succeeded, failed + 1;
    } else {
      succeeded', failed' := succeeded + 1, failed;
    }
  }

  /** The `m3u8` list of `process`; an entry without `order` has order 1. */
  method RunStreamList(db: VideoDatabase, svc: Services, list: Option<seq<StreamEntry>>, clock: nat -> string, succeeded: nat, failed: nat)
    returns (succeeded': nat, failed': nat)
    requires db.hasTable
    modifies db
    ensures db.hasTable
    ensures var run := RunAll(StreamJobs(svc, list.GetOr([])), old(db.videos), clock);
            db.videos == run.table && succeeded' == succeeded + run.succeeded && failed' == failed + run.failed
  {
    ghost var js := StreamJobs(svc, list.GetOr([]));
    ghost var t0 := db.videos;
    if list.None? {
      return succeeded, failed;
    }
    var es := list.value;
    assert js[..0] == [];
    var ok: nat, errors: nat := 0, 0;
    var i := 0;
    while i < |es|
      invariant 0 <= i <= |es|
      invariant db.hasTable
      invariant RunAll(js[..i], t0, clock) == Tally(db.videos, ok, errors)
    {
      StreamJobsAt(svc, es, i);
      ok, errors := RunStreamEntry(db, svc, es[i], clock(i), js, i, t0, clock, ok, errors);
      i := i + 1;
    }
    assert js[..i] == js;
    succeeded', failed' := succeeded + ok, failed + errors;
  }

  /**
   * The three loops of `process`, in order, with one pair of counters; the local list sees the
   * clock from position |youtube| on, the stream list from |youtube| + |local| on.
   */
  method RunBatch(db: VideoDatabase, w: World, videos: VideoLists, clock: nat -> string) returns (succeeded: nat, failed: nat)
    requires db.hasTable
    modifies db
    ensures db.hasTable
    ensures RunAll(BatchJobs(w, videos), old(db.videos), clock) == Tally(db.videos, succeeded, failed)
  {
    ghost var t0 := db.videos;
    ghost var ys := YouTubeJobs(w.svc, videos.youtube.GetOr([]));
    ghost var ls := LocalJobs(w, videos.local.GetOr([]));
    ghost var ss := StreamJobs(w.svc, videos.m3u8.GetOr([]));
    var ny := |videos.youtube.GetOr([])|;
    var nyl := ny + |videos.local.GetOr([])|;
    ghost var r1, r2, r3 := RunAllThree(ys, ls, ss, t0, clock, ny, nyl);
    succeeded, failed := RunYouTubeList(db, w.svc, videos.youtube, clock, 0, 0);
    assert db.videos == r1.table && succeeded == r1.succeeded && failed == r1.failed;
    succeeded, failed := RunLocalList(db, w, videos.local, Shift(clock, ny), succeeded, failed);
    assert db.videos == r2.table && succeeded == r1.succeeded + r2.succeeded && failed == r1.failed + r2.failed;
    succeeded, failed := RunStreamList(db, w.svc, videos.m3u8, Shift(clock, nyl), succeeded, failed);
    assert db.videos == r3.table;
    assert succeeded == r1.succeeded + r2.succeeded + r3.succeeded && failed == r1.failed + r2.failed + r3.failed;
    assert BatchJobs(w, videos) == ys + ls + ss;
  }



  /**
   * `process CONFIG_FILE`. A missing file is refused by click with exit status 2; an unreadable
   * file or one without a `videos` section exits 1; under --dry-run only the total is
   * reported. Otherwise every item runs in order with its exception isolated, item i at
   * clock(i), and the summary reports the counts.
   */
  method Process(db: VideoDatabase, w: World, configFile: string, config: ConfigFile, dryRun: bool, clock: nat -> string)
    returns (exitCode: int, report: ProcessReport)
    requires db.hasTable
    modifies db
    ensures db.hasTable
    ensures !Exists(w.fs, configFile) ==> exitCode == 2 && report == ConfigError && db.videos == old(db.videos)
    ensures Exists(w.fs, configFile) && (config.Unreadable? || config.videos.None?) ==>
              exitCode == 1 && report == ConfigError && db.videos == old(db.videos)
    ensures Exists(w.fs, configFile) && config.Loaded? && config.videos.Some? && dryRun ==>
              exitCode == 0 && report == DryRun(TotalVideos(config.videos.value)) && db.videos == old(db.videos)
    ensures Exists(w.fs, configFile) && config.Loaded? && config.videos.Some? && !dryRun ==>
              var run := RunAll(BatchJobs(w, config.videos.value), old(db.videos), clock);
              exitCode == 0 && db.videos == run.table &&
              report == Summary(run.succeeded, run.failed, TotalVideos(config.videos.value))
  {
    if !Exists(w.fs, configFile) {
      return 2, ConfigError;
    }
    if config.Unreadable? || config.videos.None? {
      return 1, ConfigError;
    }
    var videos := config.videos.value;
    var total := |videos.youtube.GetOr([])| + |videos.local.GetOr([])| + |videos.m3u8.GetOr([])|;
    if dryRun {
      return 0, DryRun(total);
    }
    var succeeded, failed := RunBatch(db, w, videos, clock);
    exitCode, report := 0, Summary(succeeded, failed, total);
  }
}
