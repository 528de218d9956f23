/**
 * The earlier processors of video_processing.py (used by main.py) and their copies under
 * src/processors/: the same key and skip logic as video_knowledge/processors.py, but with no
 * custom title, four video extensions instead of five, and for streams a title that always
 * carries the stream's position.
 */
module LegacyProcessors {
  import opened Wrappers
  import opened PyStr
  import opened Identity
  import opened Environment
  import opened Store
  import opened Ingest
  import opened ProcessorSupport
  import YouTubeProcessor
  import LocalProcessor
  import M3U8Processor

  /** The extensions of the legacy local processors: no ".m4v". */
  const LegacyExtensions: seq<string> := [".mp4", ".avi", ".mov", ".mkv"]

  /** Every extension the legacy processors accept is accepted by the current one, and ".m4v" only by the latter. */
  lemma LegacyExtensionsNarrower(s: string)
    ensures EndsWithAny(s, LegacyExtensions) ==> EndsWithAny(s, LocalProcessor.VideoExtensions)
    ensures EndsWith(s, ".m4v") ==> !EndsWithAny(s, LegacyExtensions) && EndsWithAny(s, LocalProcessor.VideoExtensions)
  {
    if EndsWithAny(s, LegacyExtensions) {
      var i :| 0 <= i < |LegacyExtensions| && EndsWith(s, LegacyExtensions[i]);
      assert LocalProcessor.VideoExtensions[i] == LegacyExtensions[i];
    }
    if EndsWith(s, ".m4v") {
      assert EndsWith(s, LocalProcessor.VideoExtensions[4]);
      forall i | 0 <= i < |LegacyExtensions| ensures !EndsWith(s, LegacyExtensions[i]) {
        assert s[|s| - 4..][2] == '4';
        assert LegacyExtensions[i][2] != '4';
      }
    }
  }

  /** extract_video_details of the legacy YouTube processor: always fetches the page. */
  function ExtractVideoDetails(fetchPage: string -> Option<PageMeta>, url: string): Result<VideoInfo, Error> {
    match fetchPage(url)
    case None => Failure(PageUnavailable)
    case Some(page) =>
      if page.itemName.None? || page.datePublished.None? || page.channelName.None? then Failure(MissingMetadata)
      else
        match RegexVideoId(url)
        case None => Failure(NoVideoIdMatch)
        case Some(id) => Success(VideoInfo(id, page.itemName.value, "", "", page.channelName.value, "", page.datePublished.value))
  }

  /** The legacy YouTube item: split key, page record, transcript or transcribed audio. */
  function YouTubeJob(svc: Services, location: string): Job {
    match SplitVideoId(location)
    case None => Job(Failure(MissingEquals), Failure(MissingEquals))
    case Some(videoId) =>
      var attempt :=
        match ExtractVideoDetails(svc.fetchPage, location)
        case Failure(e) => Failure(e)
        case Success(info) =>
          if videoId != info.id then Failure(IdMismatch)
          else
            match YouTubeProcessor.Content(svc, location, info.id)
            case Failure(e) => Failure(e)
            case Success(text) => Success(info.(content := text, source := "YouTube"));
      Job(Success(videoId), attempt)
  }

  /** The legacy YouTube processor is the current one called without a custom title. */
  lemma YouTubeJobIsUntitled(svc: Services, location: string)
    ensures YouTubeJob(svc, location) == YouTubeProcessor.VideoJob(svc, location, None)
  {
    assert ExtractVideoDetails(svc.fetchPage, location) == YouTubeProcessor.ExtractVideoDetails(svc.fetchPage, location, None);
  }

  /** process_video of the legacy YouTube processor. */
  method YouTubeProcessVideo(db: VideoDatabase, svc: Services, location: string, now: string) returns (r: Outcome)
    requires db.hasTable
    modifies db
    ensures db.hasTable
    ensures r == Step(YouTubeJob(svc, location), old(db.videos))
    ensures db.videos == After(YouTubeJob(svc, location), old(db.videos), now)
  {
    YouTubeJobIsUntitled(svc, location);
    r := YouTubeProcessor.ProcessVideo(db, svc, location, now);
  }

  /** The legacy local item: content hash key, file name as title, folder name as creator. */
  function LocalJob(w: World, location: string): Job {
    if location in w.fs.bytes then
      var videoId := LocalVideoId(w.svc.sha256, w.fs.bytes[location]);
      var attempt :=
        match Transcribe(w.svc, location)
        case Failure(e) => Failure(e)
        case Success(text) => Success(VideoInfo(videoId, Basename(location), "", text, Basename(Dirname(location)), "Local", ""));
      Job(Success(videoId), attempt)
    else Job(Failure(FileUnreadable), Failure(FileUnreadable))
  }

  /** The legacy local processor is the current one called without a custom title. */
  lemma LocalJobIsUntitled(w: World, location: string)
    ensures LocalJob(w, location) == LocalProcessor.VideoJob(w, location, None)
  {
  }

  /** get_video_location of the legacy local processor. */
  method LocalGetVideoLocation(fs: FileSystem, inputFile: string) returns (r: Result<seq<string>, Error>)
    ensures r == LocalProcessor.Locations(fs, inputFile, LegacyExtensions)
  {
    r := LocalProcessor.GetVideoLocationsWith(fs, inputFile, LegacyExtensions);
  }

  /** process_video of the legacy local processor. */
  method LocalProcessVideo(db: VideoDatabase, w: World, location: string, now: string) returns (r: Outcome)
    requires db.hasTable
    modifies db
    ensures db.hasTable
    ensures r == Step(LocalJob(w, location), old(db.videos))
    ensures db.videos == After(LocalJob(w, location), old(db.videos), now)
  {
    LocalJobIsUntitled(w, location);
    r := LocalProcessor.ProcessVideo(db, w, location, now);
  }

  /** src/processors/m3u8_processor.py titles a stream f"{title} - {order}". */
  function StreamTitle(title: string, order: int): string {
    title + " - " + IntToDecimal(order)
  }

  /** Streams of one manifest get distinct titles, and the title gives back the position. */
  lemma StreamTitlesDistinct(title: string, o1: int, o2: int)
    ensures StreamTitle(title, o1) == StreamTitle(title, o2) <==> o1 == o2
    ensures ParseInt(StreamTitle(title, o1)[|title| + 3..]) == Some(o1)
  {
    var p := title + " - ";
    assert StreamTitle(title, o1) == p + IntToDecimal(o1);
    assert StreamTitle(title, o2) == p + IntToDecimal(o2);
    assert (p + IntToDecimal(o1))[|p|..] == IntToDecimal(o1);
    assert (p + IntToDecimal(o2))[|p|..] == IntToDecimal(o2);
    if StreamTitle(title, o1) == StreamTitle(title, o2) {
      IntToDecimalInjective(o1, o2);
    }
    IntToDecimalRoundTrip(o1);
  }

  function StreamJob(svc: Services, target: M3U8Processor.StreamTarget): Job {
    M3U8Processor.TitledJob(svc, target.url, StreamTitle(target.title, target.order))
  }

  /** process_video of src/processors/m3u8_processor.py: unpacks the tuple and inserts under the numbered title. */
  method StreamProcessVideo(db: VideoDatabase, svc: Services, target: M3U8Processor.StreamTarget, now: string) returns (r: Outcome)
    requires db.hasTable
    modifies db
    ensures db.hasTable
    ensures r == Step(StreamJob(svc, target), old(db.videos))
    ensures db.videos == After(StreamJob(svc, target), old(db.videos), now)
  {
    var location := target.url;
    var videoId := StreamVideoId(svc.sha256, location);
    var present := db.IsVideoPresent(videoId);
    if present {
      return Skipped;
    }
    var audio := svc.loadAudio(location);
    if audio.None? {
      return Failed(AudioFailed);
    }
    var transcription := svc.transcribeAudio(audio.value);
    if transcription.None? {
      return Failed(TranscriptionFailed);
    }
    var info := VideoInfo(videoId, StreamTitle(target.title, target.order), "", transcription.value, "Unknown", location, "");
    var inserted := db.InsertVideo(info, now);
    r := if inserted then Stored(info) else Failed(DuplicateId);
  }
}
