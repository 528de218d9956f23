/** What the three processors of video_knowledge/processors.py share. */
module ProcessorSupport {
  import opened Wrappers
  import opened PyStr
  import opened Environment

  /** Python truthiness of an optional string argument: given and non-empty. */
  predicate Truthy(s: Option<string>) {
    s.Some? && s.value != ""
  }

  /**
   * open(input_file, 'r').read().splitlines(), which is all of YouTube get_video_locations: one
   * URL per line, blank lines included. A file that cannot be read raises.
   */
  function ReadLines(fs: FileSystem, inputFile: string): (r: Result<seq<string>, Error>)
    ensures r.Failure? <==> inputFile !in fs.text
    ensures r.Success? ==> forall i :: 0 <= i < |r.value| ==> NoLineBoundary(r.value[i])
  {
    if inputFile in fs.text then
      SplitLinesHaveNoBoundary(fs.text[inputFile]);
      Success(SplitLines(fs.text[inputFile]))
    else Failure(ManifestUnreadable)
  }

  /** A file written as one line per entry, each ended by a newline, reads back as those entries. */
  lemma ReadLinesOfListing(fs: FileSystem, inputFile: string, entries: seq<string>)
    requires inputFile in fs.text && fs.text[inputFile] == Unlines(entries)
    requires forall i :: 0 <= i < |entries| ==> NoLineBoundary(entries[i])
    ensures ReadLines(fs, inputFile) == Success(entries)
  {
    SplitLinesUnlines(entries);
  }

  /** Transcriber.transcribe_audio(Transcriber.load_audio(location)). */
  function Transcribe(svc: Services, location: string): Result<string, Error> {
    match svc.loadAudio(location)
    case None => Failure(AudioFailed)
    case Some(audio) =>
      match svc.transcribeAudio(audio)
      case None => Failure(TranscriptionFailed)
      case Some(text) => Success(text)
  }
}

/** YouTubeProcessor: the key is the `=`-split of the URL, the record comes from the watch page. */
module YouTubeProcessor {
  import opened Wrappers
  import opened PyStr
  import opened Identity
  import opened Environment
  import opened Store
  import opened Ingest
  import opened ProcessorSupport

  /**
   * extract_video_details: a truthy custom title replaces the page fetch (and leaves date and
   * channel empty); otherwise the fetch and the three selectors come first. The id is always the
   * regex match, taken after them.
   */
  function ExtractVideoDetails(fetchPage: string -> Option<PageMeta>, url: string, customTitle: Option<string>): (r: Result<VideoInfo, Error>)
    ensures r.Success? ==> RegexVideoId(url) == Some(r.value.id)
    ensures r.Success? ==> r.value.lesson == "" && r.value.content == "" && r.value.source == ""
    ensures Truthy(customTitle) ==> (r.Success? <==> RegexVideoId(url).Some?)
    ensures Truthy(customTitle) && r.Success? ==>
              r.value.title == customTitle.value && r.value.creator == "" && r.value.uploadDate == ""
  {
    if Truthy(customTitle) then
      match RegexVideoId(url)
      case None => Failure(NoVideoIdMatch)
      case Some(id) => Success(VideoInfo(id, customTitle.value, "", "", "", "", ""))
    else
      match fetchPage(url)
      case None => Failure(PageUnavailable)
      case Some(page) =>
        if page.itemName.None? || page.datePublished.None? || page.channelName.None? then Failure(MissingMetadata)
        else
          match RegexVideoId(url)
          case None => Failure(NoVideoIdMatch)
          case Some(id) => Success(VideoInfo(id, page.itemName.value, "", "", page.channelName.value, "", page.datePublished.value))
  }

  /** With a custom title the page is never fetched: its answer cannot matter. */
  lemma CustomTitleIgnoresPage(f1: string -> Option<PageMeta>, f2: string -> Option<PageMeta>, url: string, title: string)
    requires title != ""
    ensures ExtractVideoDetails(f1, url, Some(title)) == ExtractVideoDetails(f2, url, Some(title))
  {
  }

  /** Without a custom title, title, date and channel are the page's; a failed fetch wins over a bad URL. */
  lemma PageDetails(fetchPage: string -> Option<PageMeta>, url: string, customTitle: Option<string>)
    requires !Truthy(customTitle)
    ensures fetchPage(url).None? ==> ExtractVideoDetails(fetchPage, url, customTitle) == Failure(PageUnavailable)
    ensures ExtractVideoDetails(fetchPage, url, customTitle).Success? ==>
              var page := fetchPage(url).value;
              var info := ExtractVideoDetails(fetchPage, url, customTitle).value;
              fetchPage(url).Some? && page.itemName == Some(info.title)
              && page.datePublished == Some(info.uploadDate) && page.channelName == Some(info.creator)
  {
  }

  /** get_transcript: the caption texts joined by spaces; any exception gives None. */
  function GetTranscript(captions: string -> Option<seq<string>>, videoId: string): (r: Option<string>)
    ensures r.Some? <==> captions(videoId).Some?
  {
    match captions(videoId)
    case None => None
    case Some(texts) => Some(JoinSpace(texts))
  }

  /** The audio fallback is taken exactly when captions fail, are empty, or are one empty entry. */
  lemma TranscriptMissing(captions: string -> Option<seq<string>>, videoId: string)
    ensures !Truthy(GetTranscript(captions, videoId)) <==>
              captions(videoId) == None || captions(videoId) == Some([]) || captions(videoId) == Some([""])
  {
    if captions(videoId).Some? {
      JoinSpaceEmpty(captions(videoId).value);
    }
  }

  /** The content stored: the transcript when truthy, otherwise the transcribed audio. */
  function Content(svc: Services, location: string, videoId: string): Result<string, Error> {
    var transcript := GetTranscript(svc.captions, videoId);
    if Truthy(transcript) then Success(transcript.value) else Transcribe(svc, location)
  }

  /** The record process_video_with_title inserts for an absent key `videoId`. */
  function Record(svc: Services, location: string, customTitle: Option<string>, videoId: string): (r: Result<VideoInfo, Error>)
    ensures r.Success? ==> r.value.id == videoId && r.value.source == "YouTube"
    ensures r.Success? ==>
              (ExtractVideoDetails(svc.fetchPage, location, customTitle).Success?
               && r.value.(content := "", source := "") == ExtractVideoDetails(svc.fetchPage, location, customTitle).value)
    ensures r.Success? ==>
              (if Truthy(GetTranscript(svc.captions, videoId)) then r.value.content == GetTranscript(svc.captions, videoId).value
               else Transcribe(svc, location) == Success(r.value.content))
    ensures ExtractVideoDetails(svc.fetchPage, location, customTitle).Failure? ==>
              r == Failure(ExtractVideoDetails(svc.fetchPage, location, customTitle).error)
    ensures (ExtractVideoDetails(svc.fetchPage, location, customTitle).Success?
             && ExtractVideoDetails(svc.fetchPage, location, customTitle).value.id != videoId) ==> r == Failure(IdMismatch)
  {
    match ExtractVideoDetails(svc.fetchPage, location, customTitle)
    case Failure(e) => Failure(e)
    case Success(info) =>
      if videoId != info.id then Failure(IdMismatch)
      else
        match Content(svc, location, info.id)
        case Failure(e) => Failure(e)
        case Success(text) => Success(info.(content := text, source := "YouTube"))
  }

  function VideoJob(svc: Services, location: string, customTitle: Option<string>): (j: Job)
    ensures WellFormed(j)
    ensures j.key.Success? <==> '=' in location
    ensures j.key.Success? ==> SplitVideoId(location) == Some(j.key.value)
    ensures j.key.Failure? ==> j.key.error == MissingEquals
  {
    match SplitVideoId(location)
    case None => Job(Failure(MissingEquals), Failure(MissingEquals))
    case Some(id) => Job(Success(id), Record(svc, location, customTitle, id))
  }

  /** process_video_with_title, against the store. */
  method ProcessVideoWithTitle(db: VideoDatabase, svc: Services, location: string, customTitle: Option<string>, now: string)
    returns (r: Outcome)
    requires db.hasTable
    modifies db
    ensures db.hasTable
    ensures r == Step(VideoJob(svc, location, customTitle), old(db.videos))
    ensures db.videos == After(VideoJob(svc, location, customTitle), old(db.videos), now)
  {
    var split := SplitVideoId(location);
    if split.None? {
      return Failed(MissingEquals);
    }
    var videoId := split.value;
    var present := db.IsVideoPresent(videoId);
    if present {
      return Skipped;
    }
    var details := ExtractVideoDetails(svc.fetchPage, location, customTitle);
    if details.Failure? {
      return Failed(details.error);
    }
    var info := details.value;
    if videoId != info.id {
      return Failed(IdMismatch);
    }
    var transcription := GetTranscript(svc.captions, info.id);
    var content: string;
    if !Truthy(transcription) {
      var audio := svc.loadAudio(location);
      if audio.None? {
        return Failed(AudioFailed);
      }
      var text := svc.transcribeAudio(audio.value);
      if text.None? {
        return Failed(TranscriptionFailed);
      }
      content := text.value;
    } else {
      content := transcription.value;
    }
    info := info.(content := content, source := "YouTube");
    var inserted := db.InsertVideo(info, now);
    r := if inserted then Stored(info) else Failed(DuplicateId);
  }

  /** process_video: no custom title. */
  method ProcessVideo(db: VideoDatabase, svc: Services, location: string, now: string) returns (r: Outcome)
    requires db.hasTable
    modifies db
    ensures db.hasTable
    ensures r == Step(VideoJob(svc, location, None), old(db.videos))
    ensures db.videos == After(VideoJob(svc, location, None), old(db.videos), now)
  {
    r := ProcessVideoWithTitle(db, svc, location, None, now);
  }

  /**
   * A row is only ever stored under an id on which the `=`-split and the regex agree, and such
   * an id is non-empty and holds neither '=' nor '&'.
   */
  lemma StoredIdsAgree(svc: Services, location: string, customTitle: Option<string>, t: Table)
    requires Step(VideoJob(svc, location, customTitle), t).Stored?
    ensures var id := Step(VideoJob(svc, location, customTitle), t).info.id;
            SplitVideoId(location) == Some(id) && RegexVideoId(location) == Some(id)
            && id != [] && '=' !in id && '&' !in id
  {
    var id := Step(VideoJob(svc, location, customTitle), t).info.id;
    CheckedYouTubeId(location, id);
  }

  /** A URL without '=' raises at `split('=')[1]`, before the store is consulted, on every table. */
  lemma NoEqualsFails(svc: Services, location: string, customTitle: Option<string>, t: Table, now: string)
    requires '=' !in location
    ensures Step(VideoJob(svc, location, customTitle), t) == Failed(MissingEquals)
    ensures After(VideoJob(svc, location, customTitle), t, now) == t
  {
  }

  /**
   * A stored YouTube video carries the details extract_video_details returned (title, creator,
   * upload date, id) with the caption text as content when it is truthy, else the transcribed
   * audio, and 'YouTube' as source.
   */
  lemma StoredYouTubeRecord(svc: Services, location: string, customTitle: Option<string>, t: Table)
    requires Step(VideoJob(svc, location, customTitle), t).Stored?
    ensures var info := Step(VideoJob(svc, location, customTitle), t).info;
            var details := ExtractVideoDetails(svc.fetchPage, location, customTitle);
            var transcript := GetTranscript(svc.captions, info.id);
            details.Success? && info == details.value.(content := info.content, source := "YouTube")
            && (if Truthy(transcript) then info.content == transcript.value
                else Transcribe(svc, location) == Success(info.content))
            && SplitVideoId(location) == Some(info.id)
  {
  }

  /** A plain watch URL `...v=<id>` is keyed by that id. */
  lemma WatchUrlKey(svc: Services, p: string, x: string, customTitle: Option<string>)
    requires '=' !in p && x != [] && '=' !in x && '&' !in x
    ensures VideoJob(svc, p + "v=" + x, customTitle).key == Success(x)
    ensures Record(svc, p + "v=" + x, customTitle, x) != Failure(IdMismatch)
  {
    WatchUrlIds(p, x);
  }

  /**
   * A watch URL with a parameter after the id (`...v=<id>&t=5`) is never stored: the split key
   * runs past the '&', the regex id stops at it, and the equality check fails.
   */
  lemma TrailingParameterNeverStored(svc: Services, p: string, x: string, rest: string, customTitle: Option<string>, t: Table)
    requires '=' !in p && x != [] && '=' !in x && '&' !in x
    ensures !Step(VideoJob(svc, p + "v=" + x + "&" + rest, customTitle), t).Stored?
  {
    var url := p + "v=" + x + "&" + rest;
    TrailingParameterIds(p, x, rest);
    if Step(VideoJob(svc, url, customTitle), t).Stored? {
      StoredIdsAgree(svc, url, customTitle, t);
    }
  }
}

/** LocalProcessor: the key is a hash of the file's bytes; directories are walked. */
module LocalProcessor {
  import opened Wrappers
  import opened PyStr
  import opened Identity
  import opened Environment
  import opened Store
  import opened Ingest
  import opened ProcessorSupport

  const VideoExtensions: seq<string> := [".mp4", ".avi", ".mov", ".mkv", ".m4v"]

  /** The walked files of one directory whose names end with a video extension, joined to it. */
  function FileTargets(root: string, files: seq<string>, exts: seq<string>): seq<string>
    decreases |files|
  {
    if files == [] then []
    else
      var n := |files| - 1;
      FileTargets(root, files[..n], exts) + (if EndsWithAny(files[n], exts) then [PathJoin(root, files[n])] else [])
  }

  /** The video files of an os.walk, directory by directory. */
  function WalkTargets(entries: seq<WalkEntry>, exts: seq<string>): seq<string>
    decreases |entries|
  {
    if entries == [] then []
    else
      var n := |entries| - 1;
      WalkTargets(entries[..n], exts) + FileTargets(entries[n].root, entries[n].files, exts)
  }

  /** What one line of the input file contributes. */
  function LineTargets(fs: FileSystem, exts: seq<string>, line: string): seq<string> {
    if line in fs.files && EndsWithAny(line, exts) then [fs.abspath(line)]
    else if line in fs.dirs then WalkTargets(fs.walk(line), exts)
    else []
  }

  function LocalTargets(fs: FileSystem, exts: seq<string>, lines: seq<string>): seq<string>
    decreases |lines|
  {
    if lines == [] then []
    else
      var n := |lines| - 1;
      LocalTargets(fs, exts, lines[..n]) + LineTargets(fs, exts, lines[n])
  }

  function Locations(fs: FileSystem, inputFile: string, exts: seq<string>): Result<seq<string>, Error> {
    match ReadLines(fs, inputFile)
    case Failure(e) => Failure(e)
    case Success(lines) => Success(LocalTargets(fs, exts, lines))
  }

  /** The innermost loop: appends the video files of one walked directory. */
  method AppendFileTargets(paths: seq<string>, root: string, files: seq<string>, exts: seq<string>) returns (out: seq<string>)
    ensures out == paths + FileTargets(root, files, exts)
  {
    out := paths;
    var m := 0;
    while m < |files|
      invariant 0 <= m <= |files|
      invariant out == paths + FileTargets(root, files[..m], exts)
    {
      if EndsWithAny(files[m], exts) {
        out := out + [PathJoin(root, files[m])];
      }
      assert files[..m + 1][..m] == files[..m];
      m := m + 1;
    }
    assert files[..m] == files;
  }

  /** The loop over os.walk(line): appends the video files of every directory walked. */
  method AppendWalkTargets(paths: seq<string>, entries: seq<WalkEntry>, exts: seq<string>) returns (out: seq<string>)
    ensures out == paths + WalkTargets(entries, exts)
  {
    out := paths;
    var k := 0;
    while k < |entries|
      invariant 0 <= k <= |entries|
      invariant out == paths + WalkTargets(entries[..k], exts)
    {
      out := AppendFileTargets(out, entries[k].root, entries[k].files, exts);
      assert entries[..k + 1][..k] == entries[..k];
      k := k + 1;
    }
    assert entries[..k] == entries;
  }

  /** get_video_locations with the accepted extensions as a parameter. */
  method GetVideoLocationsWith(fs: FileSystem, inputFile: string, exts: seq<string>) returns (r: Result<seq<string>, Error>)
    ensures r == Locations(fs, inputFile, exts)
  {
    if inputFile !in fs.text {
      return Failure(ManifestUnreadable);
    }
    var lines := SplitLines(fs.text[inputFile]);
    var videoPaths: seq<string> := [];
    var i := 0;
    while i < |lines|
      invariant 0 <= i <= |lines|
      invariant videoPaths == LocalTargets(fs, exts, lines[..i])
    {
      var line := lines[i];
      if line in fs.files && EndsWithAny(line, exts) {
        videoPaths := videoPaths + [fs.abspath(line)];
      } else if line in fs.dirs {
        videoPaths := AppendWalkTargets(videoPaths, fs.walk(line), exts);
      }
      assert lines[..i + 1][..i] == lines[..i];
      i := i + 1;
    }
    assert lines[..i] == lines;
    r := Success(videoPaths);
  }

  /** get_video_locations. */
  method GetVideoLocations(fs: FileSystem, inputFile: string) returns (r: Result<seq<string>, Error>)
    ensures r == Locations(fs, inputFile, VideoExtensions)
  {
    r := GetVideoLocationsWith(fs, inputFile, VideoExtensions);
  }

  /** The outputs follow the lines of the input file in order. */
  lemma {:induction false} LocalTargetsAppend(fs: FileSystem, exts: seq<string>, a: seq<string>, b: seq<string>)
    ensures LocalTargets(fs, exts, a + b) == LocalTargets(fs, exts, a) + LocalTargets(fs, exts, b)
    decreases |b|
  {
    if b == [] {
      assert a + b == a;
    } else {
      var n := |b| - 1;
      assert (a + b)[..|a + b| - 1] == a + b[..n];
      assert (a + b)[|a + b| - 1] == b[n];
      LocalTargetsAppend(fs, exts, a, b[..n]);
    }
  }

  /** A path comes from a line exactly when that line contributes it. */
  lemma {:induction false} LocalTargetsMembers(fs: FileSystem, exts: seq<string>, lines: seq<string>, p: string)
    ensures p in LocalTargets(fs, exts, lines) <==> exists i :: 0 <= i < |lines| && p in LineTargets(fs, exts, lines[i])
    decreases |lines|
  {
    if lines != [] {
      var n := |lines| - 1;
      var front := lines[..n];
      assert LocalTargets(fs, exts, lines) == LocalTargets(fs, exts, front) + LineTargets(fs, exts, lines[n]);
      LocalTargetsMembers(fs, exts, front, p);
      if p in LocalTargets(fs, exts, front) {
        var i :| 0 <= i < |front| && p in LineTargets(fs, exts, front[i]);
        assert lines[i] == front[i];
      }
      if exists i :: 0 <= i < |lines| && p in LineTargets(fs, exts, lines[i]) {
        var i :| 0 <= i < |lines| && p in LineTargets(fs, exts, lines[i]);
        if i < n {
          assert front[i] == lines[i];
        }
      }
    }
  }

  /** A walked directory contributes exactly its files with an accepted extension, joined to their root. */
  lemma {:induction false} FileTargetsMembers(root: string, files: seq<string>, exts: seq<string>, p: string)
    ensures p in FileTargets(root, files, exts) <==>
              exists i :: 0 <= i < |files| && EndsWithAny(files[i], exts) && p == PathJoin(root, files[i])
    decreases |files|
  {
    if files != [] {
      var n := |files| - 1;
      var front := files[..n];
      var last := if EndsWithAny(files[n], exts) then [PathJoin(root, files[n])] else [];
      assert FileTargets(root, files, exts) == FileTargets(root, front, exts) + last;
      assert p in last <==> EndsWithAny(files[n], exts) && p == PathJoin(root, files[n]);
      FileTargetsMembers(root, front, exts, p);
      if p in FileTargets(root, front, exts) {
        var i :| 0 <= i < |front| && EndsWithAny(front[i], exts) && p == PathJoin(root, front[i]);
        assert files[i] == front[i];
      }
      if exists i :: 0 <= i < |files| && EndsWithAny(files[i], exts) && p == PathJoin(root, files[i]) {
        var i :| 0 <= i < |files| && EndsWithAny(files[i], exts) && p == PathJoin(root, files[i]);
        if i < n {
          assert front[i] == files[i];
        } else {
          assert p in last;
        }
      }
    }
  }

  lemma {:induction false} WalkTargetsMembers(entries: seq<WalkEntry>, exts: seq<string>, p: string)
    ensures p in WalkTargets(entries, exts) <==>
              exists k :: 0 <= k < |entries| && p in FileTargets(entries[k].root, entries[k].files, exts)
    decreases |entries|
  {
    if entries != [] {
      var n := |entries| - 1;
      var front := entries[..n];
      assert WalkTargets(entries, exts) == WalkTargets(front, exts) + FileTargets(entries[n].root, entries[n].files, exts);
      WalkTargetsMembers(front, exts, p);
      if p in WalkTargets(front, exts) {
        var k :| 0 <= k < |front| && p in FileTargets(front[k].root, front[k].files, exts);
        assert entries[k] == front[k];
      }
      if exists k :: 0 <= k < |entries| && p in FileTargets(entries[k].root, entries[k].files, exts) {
        var k :| 0 <= k < |entries| && p in FileTargets(entries[k].root, entries[k].files, exts);
        if k < n {
          assert front[k] == entries[k];
        }
      }
    }
  }

  lemma PathJoinEndsWith(root: string, name: string, exts: seq<string>)
    requires EndsWithAny(name, exts)
    ensures EndsWithAny(PathJoin(root, name), exts)
  {
    if !StartsWith(name, "/") {
      if root == [] || root[|root| - 1] == '/' {
        EndsWithAnyAppend(root, name, exts);
      } else {
        EndsWithAnyAppend(root + "/", name, exts);
        assert root + "/" + name == (root + "/") + name;
      }
    }
  }

  /**
   * Every path found is either the absolute form of a listed video file, or a path found by
   * walking a listed directory that itself ends with an accepted extension.
   */
  lemma LocalTargetShape(fs: FileSystem, exts: seq<string>, lines: seq<string>, p: string)
    requires p in LocalTargets(fs, exts, lines)
    ensures exists i :: 0 <= i < |lines| &&
              ((lines[i] in fs.files && EndsWithAny(lines[i], exts) && p == fs.abspath(lines[i]))
               || (lines[i] in fs.dirs && EndsWithAny(p, exts) && p in WalkTargets(fs.walk(lines[i]), exts)))
  {
    LocalTargetsMembers(fs, exts, lines, p);
    var i :| 0 <= i < |lines| && p in LineTargets(fs, exts, lines[i]);
    var line := lines[i];
    if !(line in fs.files && EndsWithAny(line, exts)) {
      WalkTargetsMembers(fs.walk(line), exts, p);
      var k :| 0 <= k < |fs.walk(line)| && p in FileTargets(fs.walk(line)[k].root, fs.walk(line)[k].files, exts);
      var e := fs.walk(line)[k];
      FileTargetsMembers(e.root, e.files, exts, p);
      var j :| 0 <= j < |e.files| && EndsWithAny(e.files[j], exts) && p == PathJoin(e.root, e.files[j]);
      PathJoinEndsWith(e.root, e.files[j], exts);
    }
  }

  /** A listed video file is found; a line that is neither a video file nor a directory adds nothing. */
  lemma ListedFileFound(fs: FileSystem, exts: seq<string>, lines: seq<string>, i: nat)
    requires i < |lines|
    ensures lines[i] in fs.files && EndsWithAny(lines[i], exts) ==> fs.abspath(lines[i]) in LocalTargets(fs, exts, lines)
    ensures !(lines[i] in fs.files && EndsWithAny(lines[i], exts)) && lines[i] !in fs.dirs ==>
              LineTargets(fs, exts, lines[i]) == []
  {
    LocalTargetsMembers(fs, exts, lines, fs.abspath(lines[i]));
  }

  /** The record process_video_with_title inserts for an absent key `videoId`. */
  function Record(svc: Services, location: string, customTitle: Option<string>, videoId: string): (r: Result<VideoInfo, Error>)
    ensures r.Failure? <==> Transcribe(svc, location).Failure?
    ensures r.Failure? ==> r.error == Transcribe(svc, location).error
    ensures r.Success? ==>
              (r.value.id == videoId && r.value.content == Transcribe(svc, location).value
               && r.value.source == "Local" && r.value.creator == Basename(Dirname(location))
               && r.value.lesson == "" && r.value.uploadDate == "")
    ensures r.Success? && Truthy(customTitle) ==> r.value.title == customTitle.value
    ensures r.Success? && !Truthy(customTitle) ==> r.value.title == Basename(location)
  {
    match Transcribe(svc, location)
    case Failure(e) => Failure(e)
    case Success(text) =>
      var title := if Truthy(customTitle) then customTitle.value else Basename(location);
      Success(VideoInfo(videoId, title, "", text, Basename(Dirname(location)), "Local", ""))
  }

  function VideoJob(w: World, location: string, customTitle: Option<string>): (j: Job)
    ensures WellFormed(j)
    ensures j.key.Success? <==> location in w.fs.bytes
    ensures j.key.Success? ==> j.key.value == LocalVideoId(w.svc.sha256, w.fs.bytes[location])
  {
    if location in w.fs.bytes then
      var id := LocalVideoId(w.svc.sha256, w.fs.bytes[location]);
      Job(Success(id), Record(w.svc, location, customTitle, id))
    else Job(Failure(FileUnreadable), Failure(FileUnreadable))
  }

  /** process_video_with_title, against the store. */
  method ProcessVideoWithTitle(db: VideoDatabase, w: World, location: string, customTitle: Option<string>, now: string)
    returns (r: Outcome)
    requires db.hasTable
    modifies db
    ensures db.hasTable
    ensures r == Step(VideoJob(w, location, customTitle), old(db.videos))
    ensures db.videos == After(VideoJob(w, location, customTitle), old(db.videos), now)
  {
    if location !in w.fs.bytes {
      return Failed(FileUnreadable);
    }
    var videoId := LocalVideoId(w.svc.sha256, w.fs.bytes[location]);
    var present := db.IsVideoPresent(videoId);
    if present {
      return Skipped;
    }
    var audio := w.svc.loadAudio(location);
    if audio.None? {
      return Failed(AudioFailed);
    }
    var transcription := w.svc.transcribeAudio(audio.value);
    if transcription.None? {
      return Failed(TranscriptionFailed);
    }
    var title := if Truthy(customTitle) then customTitle.value else Basename(location);
    var info := VideoInfo(videoId, title, "", transcription.value, Basename(Dirname(location)), "Local", "");
    assert VideoJob(w, location, customTitle) == Job(Success(videoId), Success(info));
    var inserted := db.InsertVideo(info, now);
    r := if inserted then Stored(info) else Failed(DuplicateId);
  }

  /** process_video: no custom title. */
  method ProcessVideo(db: VideoDatabase, w: World, location: string, now: string) returns (r: Outcome)
    requires db.hasTable
    modifies db
    ensures db.hasTable
    ensures r == Step(VideoJob(w, location, None), old(db.videos))
    ensures db.videos == After(VideoJob(w, location, None), old(db.videos), now)
  {
    r := ProcessVideoWithTitle(db, w, location, None, now);
  }

  /** A copy of a stored file, under any name or title, is skipped: the key is its contents' hash. */
  lemma SameContentsSkipped(w: World, a: string, b: string, ta: Option<string>, tb: Option<string>, t: Table, now: string)
    requires a in w.fs.bytes && b in w.fs.bytes && w.fs.bytes[a] == w.fs.bytes[b]
    requires Step(VideoJob(w, a, ta), t).Stored?
    ensures Step(VideoJob(w, b, tb), After(VideoJob(w, a, ta), t, now)) == Skipped
  {
  }

  /**
   * A file found by walking `root` (no trailing '/') is stored under the custom title when that
   * is truthy and under its file name otherwise, with the name of `root`'s last component as
   * creator.
   */
  lemma WalkedFileRecord(w: World, root: string, name: string, customTitle: Option<string>, t: Table)
    requires '/' !in name && root != [] && root[|root| - 1] != '/'
    requires Step(VideoJob(w, PathJoin(root, name), customTitle), t).Stored?
    ensures var info := Step(VideoJob(w, PathJoin(root, name), customTitle), t).info;
            info.title == (if Truthy(customTitle) then customTitle.value else name)
            && info.creator == Basename(root) && info.source == "Local"
            && info.content == Transcribe(w.svc, PathJoin(root, name)).value
  {
    BasenameOfJoin(root, name);
    DirnameOfJoin(root, name);
  }
}

/** M3U8Processor: the key is a hash of the stream URL; the manifest's name gives the title. */
module M3U8Processor {
  import opened Wrappers
  import opened PyStr
  import opened Identity
  import opened Environment
  import opened Store
  import opened Ingest
  import opened ProcessorSupport

  /** The (location, title, order) tuple get_video_locations yields. */
  datatype StreamTarget = StreamTarget(url: string, title: string, order: int)

  /** basename(input_file).replace('m3u8-', '').replace('.txt', ''): every occurrence goes. */
  function ManifestTitle(inputFile: string): (r: string)
    ensures '/' !in r
  {
    ReplaceAll(ReplaceAll(Basename(inputFile), "m3u8-", ""), ".txt", "")
  }

  predicate IsStreamLine(line: string) {
    EndsWith(Strip(line), ".m3u8")
  }

  /** The stream lines of the manifest, each with its 1-based position among all lines. */
  function StreamTargets(title: string, lines: seq<string>): (r: seq<StreamTarget>)
    ensures |r| <= |lines|
    ensures forall k :: 0 <= k < |r| ==> r[k].title == title && 1 <= r[k].order <= |lines|
    decreases |lines|
  {
    if lines == [] then []
    else
      var n := |lines| - 1;
      StreamTargets(title, lines[..n])
      + (if IsStreamLine(lines[n]) then [StreamTarget(Strip(lines[n]), title, n + 1)] else [])
  }

  function Locations(fs: FileSystem, inputFile: string): Result<seq<StreamTarget>, Error> {
    match ReadLines(fs, inputFile)
    case Failure(e) => Failure(e)
    case Success(lines) => Success(StreamTargets(ManifestTitle(inputFile), lines))
  }

  /** get_video_locations. */
  method GetVideoLocations(fs: FileSystem, inputFile: string) returns (r: Result<seq<StreamTarget>, Error>)
    ensures r == Locations(fs, inputFile)
  {
    if inputFile !in fs.text {
      return Failure(ManifestUnreadable);
    }
    var lines := SplitLines(fs.text[inputFile]);
    var videoLocations: seq<StreamTarget> := [];
    var i := 0;
    while i < |lines|
      invariant 0 <= i <= |lines|
      invariant videoLocations == StreamTargets(ManifestTitle(inputFile), lines[..i])
    {
      var index := i + 1;
      var line := lines[i];
      if EndsWith(Strip(line), ".m3u8") {
        var title := ManifestTitle(inputFile);
        videoLocations := videoLocations + [StreamTarget(Strip(line), title, index)];
      }
      assert lines[..i + 1][..i] == lines[..i];
      i := i + 1;
    }
    assert lines[..i] == lines;
    r := Success(videoLocations);
  }

  /** A target stands for the stream line at its 1-based position, stripped, under `title`. */
  predicate TargetOfLine(title: string, lines: seq<string>, t: StreamTarget) {
    1 <= t.order <= |lines| && IsStreamLine(lines[t.order - 1])
    && t.url == Strip(lines[t.order - 1]) && EndsWith(t.url, ".m3u8") && t.title == title
  }

  /**
   * Every target is a stripped stream line ending in ".m3u8", numbered by its 1-based position
   * in the file, titled after the manifest, and the numbers strictly increase.
   */
  lemma {:induction false} StreamTargetsSound(title: string, lines: seq<string>)
    ensures forall k :: 0 <= k < |StreamTargets(title, lines)| ==>
              TargetOfLine(title, lines, StreamTargets(title, lines)[k])
    ensures forall a, b :: 0 <= a < b < |StreamTargets(title, lines)| ==>
              StreamTargets(title, lines)[a].order < StreamTargets(title, lines)[b].order
    decreases |lines|
  {
    if lines != [] {
      var n := |lines| - 1;
      var prev := StreamTargets(title, lines[..n]);
      var ts := StreamTargets(title, lines);
      StreamTargetsSound(title, lines[..n]);
      assert ts[..|prev|] == prev;
      forall k | 0 <= k < |ts| ensures TargetOfLine(title, lines, ts[k]) {
        if k < |prev| {
          assert ts[k] == prev[k];
          assert TargetOfLine(title, lines[..n], prev[k]);
          assert lines[..n][prev[k].order - 1] == lines[prev[k].order - 1];
        } else {
          assert ts[k] == StreamTarget(Strip(lines[n]), title, n + 1);
        }
      }
      forall a, b | 0 <= a < b < |ts| ensures ts[a].order < ts[b].order {
        if b < |prev| {
          assert ts[a] == prev[a] && ts[b] == prev[b];
        } else {
          assert ts[a] == prev[a];
          assert TargetOfLine(title, lines[..n], prev[a]);
          assert ts[b].order == n + 1;
        }
      }
    }
  }

  /** Every stream line of the file yields a target. */
  lemma StreamTargetsComplete(title: string, lines: seq<string>, i: nat)
    requires i < |lines| && IsStreamLine(lines[i])
    ensures StreamTarget(Strip(lines[i]), title, i + 1) in StreamTargets(title, lines)
  {
    var k := StreamLineTarget(title, lines, i);
    TargetsOfPrefixKept(title, lines, i + 1, k);
  }

  /** The targets of the first j lines stay in place whatever lines follow. */
  lemma {:induction false} TargetsOfPrefixKept(title: string, lines: seq<string>, j: nat, k: nat)
    requires j <= |lines| && k < |StreamTargets(title, lines[..j])|
    ensures k < |StreamTargets(title, lines)|
    ensures StreamTargets(title, lines)[k] == StreamTargets(title, lines[..j])[k]
    decreases |lines| - j
  {
    if j == |lines| {
      assert lines[..j] == lines;
    } else {
      EarlierTargetsKept(title, lines, j, k);
      TargetsOfPrefixKept(title, lines, j + 1, k);
    }
  }

  /** A further line keeps every target of the lines before it in place. */
  lemma EarlierTargetsKept(title: string, lines: seq<string>, j: nat, k: nat)
    requires j < |lines| && k < |StreamTargets(title, lines[..j])|
    ensures k < |StreamTargets(title, lines[..j + 1])|
    ensures StreamTargets(title, lines[..j + 1])[k] == StreamTargets(title, lines[..j])[k]
  {
    assert lines[..j + 1][..j] == lines[..j];
  }

  /** A stream line is the last target of the lines up to it. */
  lemma StreamLineTarget(title: string, lines: seq<string>, i: nat) returns (k: nat)
    requires i < |lines| && IsStreamLine(lines[i])
    ensures k < |StreamTargets(title, lines[..i + 1])|
    ensures StreamTargets(title, lines[..i + 1])[k] == StreamTarget(Strip(lines[i]), title, i + 1)
  {
    assert lines[..i + 1][i] == lines[i];
    assert lines[..i + 1][..i] == lines[..i];
    k := |StreamTargets(title, lines[..i])|;
  }

  lemma NameHasNoSlash(prefix: string, t: string, suffix: string)
    requires '/' !in prefix && '/' !in t && '/' !in suffix
    ensures '/' !in prefix + t + suffix
  {
  }

  /** Removing "m3u8-" from `m3u8-<t>.txt` leaves `<t>.txt` when `t` holds no "m3u8-". */
  lemma DropPrefix(t: string)
    requires NoOccurrence(t, "m3u8-")
    ensures ReplaceAll("m3u8-" + (t + ".txt"), "m3u8-", "") == t + ".txt"
  {
    ReplaceAllLeading(t + ".txt", "m3u8-", "");
    NoOccurrenceExtend(t, ".txt", "m3u8-");
    ReplaceAllWithout(t + ".txt", "m3u8-", "");
  }

  /** Removing ".txt" from `<t>.txt` leaves `<t>` when `t` holds no '.'. */
  lemma DropSuffix(t: string)
    requires '.' !in t
    ensures ReplaceAll(t + ".txt", ".txt", "") == t
  {
    NoEarlyOccurrence(t, ".txt");
    RemoveTrailing(t, ".txt");
  }

  /** A manifest named `m3u8-<t>.txt` is titled `<t>`, in any directory. */
  lemma ManifestTitleOfConventionalName(dir: string, t: string)
    requires dir == [] || dir[|dir| - 1] == '/'
    requires '/' !in t && '.' !in t && NoOccurrence(t, "m3u8-")
    ensures ManifestTitle(dir + "m3u8-" + t + ".txt") == t
  {
    var name := "m3u8-" + (t + ".txt");
    NameHasNoSlash("m3u8-", t, ".txt");
    assert dir + "m3u8-" + t + ".txt" == dir + name;
    BasenameAfterSlash(dir, name);
    DropPrefix(t);
    DropSuffix(t);
  }

  /**
   * Every occurrence is removed, not only one leading "m3u8-": a manifest named
   * `m3u8-m3u8-<t>.txt` is titled `<t>` as well.
   */
  lemma ManifestTitleRemovesRepeats(dir: string, t: string)
    requires dir == [] || dir[|dir| - 1] == '/'
    requires '/' !in t && '.' !in t && NoOccurrence(t, "m3u8-")
    ensures ManifestTitle(dir + "m3u8-m3u8-" + t + ".txt") == t
  {
    var name := "m3u8-" + ("m3u8-" + (t + ".txt"));
    NameHasNoSlash("m3u8-m3u8-", t, ".txt");
    assert dir + "m3u8-m3u8-" + t + ".txt" == dir + name;
    BasenameAfterSlash(dir, name);
    ReplaceAllLeading("m3u8-" + (t + ".txt"), "m3u8-", "");
    DropPrefix(t);
    assert ReplaceAll(name, "m3u8-", "") == t + ".txt";
    DropSuffix(t);
  }

  /** process_video_with_title: a falsy title is replaced by "Stream <order>". */
  function FinalTitle(title: Option<string>, order: int): (t: string)
    ensures t != ""
    ensures Truthy(title) ==> t == title.value
    ensures !Truthy(title) ==> |t| > 7 && t[..7] == "Stream " && ParseInt(t[7..]) == Some(order)
  {
    if Truthy(title) then title.value
    else
      IntToDecimalRoundTrip(order);
      var t := "Stream " + IntToDecimal(order);
      assert t[7..] == IntToDecimal(order);
      t
  }

  /** The record inserted for an absent key `videoId`, under an already chosen title. */
  function Record(svc: Services, location: string, finalTitle: string, videoId: string): (r: Result<VideoInfo, Error>)
    ensures r.Failure? <==> Transcribe(svc, location).Failure?
    ensures r.Failure? ==> r.error == Transcribe(svc, location).error
    ensures r.Success? ==>
              (r.value.id == videoId && r.value.title == finalTitle
               && r.value.content == Transcribe(svc, location).value
               && r.value.creator == "Unknown" && r.value.source == location)
  {
    match Transcribe(svc, location)
    case Failure(e) => Failure(e)
    case Success(text) => Success(VideoInfo(videoId, finalTitle, "", text, "Unknown", location, ""))
  }

  /** A stream keyed by the hash of its URL and recorded under `finalTitle`. */
  function TitledJob(svc: Services, location: string, finalTitle: string): (j: Job)
    ensures WellFormed(j)
    ensures j.key == Success(StreamVideoId(svc.sha256, location))
  {
    var id := StreamVideoId(svc.sha256, location);
    Job(Success(id), Record(svc, location, finalTitle, id))
  }

  function StreamJob(svc: Services, location: string, title: Option<string>, order: int): Job {
    TitledJob(svc, location, FinalTitle(title, order))
  }

  /** process_video_with_title, against the store; the try/except only logs and re-raises. */
  method ProcessVideoWithTitle(db: VideoDatabase, svc: Services, location: string, title: Option<string>, order: int, now: string)
    returns (r: Outcome)
    requires db.hasTable
    modifies db
    ensures db.hasTable
    ensures r == Step(StreamJob(svc, location, title, order), old(db.videos))
    ensures db.videos == After(StreamJob(svc, location, title, order), old(db.videos), now)
  {
    var videoId := StreamVideoId(svc.sha256, location);
    var present := db.IsVideoPresent(videoId);
    if present {
      return Skipped;
    }
    var audio := svc.loadAudio(location);
    if audio.None? {
      return Failed(AudioFailed);
    }
    var transcription := svc.transcribeAudio(audio.value);
    if transcription.None? {
      return Failed(TranscriptionFailed);
    }
    var finalTitle := if Truthy(title) then title.value else "Stream " + IntToDecimal(order);
    var info := VideoInfo(videoId, finalTitle, "", transcription.value, "Unknown", location, "");
    var inserted := db.InsertVideo(info, now);
    r := if inserted then Stored(info) else Failed(DuplicateId);
  }

  /** process_video: unpacks a target produced by get_video_locations. */
  method ProcessVideo(db: VideoDatabase, svc: Services, target: StreamTarget, now: string) returns (r: Outcome)
    requires db.hasTable
    modifies db
    ensures db.hasTable
    ensures r == Step(StreamJob(svc, target.url, Some(target.title), target.order), old(db.videos))
    ensures db.videos == After(StreamJob(svc, target.url, Some(target.title), target.order), old(db.videos), now)
  {
    r := ProcessVideoWithTitle(db, svc, target.url, Some(target.title), target.order, now);
  }

  /** A stored stream records its URL as source and "Unknown" as creator; the title is never empty. */
  lemma StoredStream(svc: Services, location: string, title: Option<string>, order: int, t: Table)
    requires Step(StreamJob(svc, location, title, order), t).Stored?
    ensures var info := Step(StreamJob(svc, location, title, order), t).info;
            info.id == StreamVideoId(svc.sha256, location) && info.source == location
            && info.creator == "Unknown" && info.title != ""
            && (Truthy(title) ==> info.title == title.value)
            && (!Truthy(title) ==> info.title == "Stream " + IntToDecimal(order))
  {
  }

  /** The same URL always has the same key, so listing it twice inserts it once. */
  lemma RepeatedUrlSkipped(svc: Services, url: string, t1: Option<string>, o1: int, t2: Option<string>, o2: int, t: Table, now: string)
    requires Step(StreamJob(svc, url, t1, o1), t).Stored?
    ensures Step(StreamJob(svc, url, t2, o2), After(StreamJob(svc, url, t1, o1), t, now)) == Skipped
  {
  }
}
