/**
 * main.py: the legacy entry point. The input file's name selects a processor by prefix, its
 * locations are processed in order, and the first exception ends the run. main() reads the
 * file name from the command line and only runs for names ending in ".txt".
 */
module MainScript {
  import opened Wrappers
  import opened PyStr
  import opened Environment
  import opened Store
  import opened Ingest
  import opened ProcessorSupport
  import LocalProcessor
  import LegacyProcessors

  datatype Source = YouTubeSource | LocalSource

  /** The processor process_videos picks; the test is on the whole path as given. */
  function SourceOf(inputFile: string): (r: Option<Source>)
    ensures r == Some(YouTubeSource) <==> StartsWith(inputFile, "youtube-")
    ensures r == Some(LocalSource) <==> StartsWith(inputFile, "local-")
    ensures r == None <==> !StartsWith(inputFile, "youtube-") && !StartsWith(inputFile, "local-")
  {
    if StartsWith(inputFile, "youtube-") then
      assert inputFile[0] == inputFile[..8][0] == 'y';
      Some(YouTubeSource)
    else if StartsWith(inputFile, "local-") then Some(LocalSource)
    else None
  }

  /** A prefixed name inside a directory is not recognised: only the start of the path counts. */
  lemma DirectoryDefeatsPrefix(dir: string, name: string)
    requires dir != [] && '-' !in dir
    ensures SourceOf(dir + "/" + name) == None
  {
    var p := dir + "/" + name;
    if |dir| >= 8 {
      assert p[7] == dir[7];
    } else {
      assert p[|dir|] == '/';
    }
    if |dir| >= 6 {
      assert p[5] == dir[5];
    }
  }

  /** The item process_video makes of one location. */
  function JobOf(w: World, source: Source, location: string): (j: Job)
    ensures WellFormed(j)
  {
    match source
    case YouTubeSource =>
      LegacyProcessors.YouTubeJobIsUntitled(w.svc, location);
      LegacyProcessors.YouTubeJob(w.svc, location)
    case LocalSource =>
      LegacyProcessors.LocalJobIsUntitled(w, location);
      LegacyProcessors.LocalJob(w, location)
  }

  function JobsOf(w: World, source: Source, locations: seq<string>): (r: seq<Job>)
    ensures |r| == |locations| && AllWellFormed(r)
    ensures forall i :: 0 <= i < |locations| ==> r[i] == JobOf(w, source, locations[i])
  {
    seq(|locations|, i requires 0 <= i < |locations| => JobOf(w, source, locations[i]))
  }

  /** The locations get_video_location returns for the selected processor. */
  function LocationsOf(fs: FileSystem, source: Source, inputFile: string): Result<seq<string>, Error> {
    match source
    case YouTubeSource => ReadLines(fs, inputFile)
    case LocalSource => LocalProcessor.Locations(fs, inputFile, LegacyProcessors.LegacyExtensions)
  }

  /** The items of a run, in the order process_videos handles them. */
  function Jobs(w: World, inputFile: string): (r: Result<seq<Job>, Error>)
    ensures r.Success? ==> AllWellFormed(r.value)
    ensures SourceOf(inputFile).None? ==> r == Failure(UnsupportedSource)
  {
    match SourceOf(inputFile)
    case None => Failure(UnsupportedSource)
    case Some(source) =>
      match LocationsOf(w.fs, source, inputFile)
      case Failure(e) => Failure(e)
      case Success(locations) => Success(JobsOf(w, source, locations))
  }

  /** One location of process_videos: the selected processor's process_video, one fail-fast step. */
  method RunLocation(db: VideoDatabase, w: World, source: Source, location: string, now: string,
                     ghost js: seq<Job>, ghost p: nat, ghost t0: Table, ghost clock: nat -> string)
    returns (outcome: Outcome)
    requires db.hasTable
    requires p < |js| && js[p] == JobOf(w, source, location) && now == clock(p)
    requires RunFailFast(js[..p], t0, clock) == Halt(db.videos, None)
    modifies db
    ensures db.hasTable
    ensures RunFailFast(js[..p + 1], t0, clock) == Halt(db.videos, if outcome.Failed? then Some(outcome.error) else None)
  {
    ghost var prev := db.videos;
    if source == YouTubeSource {
      outcome := LegacyProcessors.YouTubeProcessVideo(db, w.svc, location, now);
    } else {
      outcome := LegacyProcessors.LocalProcessVideo(db, w, location, now);
    }
    HaltStep(js, p, t0, clock, prev, outcome, db.videos);
  }

  /** The loop of process_videos: each location in order, the first exception ending it. */
  method ProcessLocations(db: VideoDatabase, w: World, source: Source, locations: seq<string>, clock: nat -> string)
    returns (error: Option<Error>)
    requires db.hasTable
    modifies db
    ensures db.hasTable
    ensures Halt(db.videos, error) == RunFailFast(JobsOf(w, source, locations), old(db.videos), clock)
  {
    ghost var js := JobsOf(w, source, locations);
    ghost var t0 := db.videos;
    assert js[..0] == [];
    var i := 0;
    while i < |locations|
      invariant 0 <= i <= |locations|
      invariant db.hasTable
      invariant RunFailFast(js[..i], t0, clock) == Halt(db.videos, None)
    {
      var outcome := RunLocation(db, w, source, locations[i], clock(i), js, i, t0, clock);
      if outcome.Failed? {
        FailFastStops(js, i + 1, t0, clock);
        return Some(outcome.error);
      }
      i := i + 1;
    }
    assert js[..i] == js;
    error := None;
  }

  /**
   * process_videos: an unsupported name or an unreadable input raises before anything is
   * stored; otherwise the run is the fail-fast run of its items.
   */
  method ProcessVideos(db: VideoDatabase, w: World, inputFile: string, clock: nat -> string) returns (error: Option<Error>)
    requires db.hasTable
    modifies db
    ensures db.hasTable
    ensures Jobs(w, inputFile).Failure? ==> error == Some(Jobs(w, inputFile).error) && db.videos == old(db.videos)
    ensures Jobs(w, inputFile).Success? ==> Halt(db.videos, error) == RunFailFast(Jobs(w, inputFile).value, old(db.videos), clock)
  {
    var source := SourceOf(inputFile);
    if source.None? {
      return Some(UnsupportedSource);
    }
    var found: Result<seq<string>, Error>;
    if source.value == YouTubeSource {
      found := ReadLines(w.fs, inputFile);
    } else {
      found := LegacyProcessors.LocalGetVideoLocation(w.fs, inputFile);
    }
    assert found == LocationsOf(w.fs, source.value, inputFile);
    if found.Failure? {
      return Some(found.error);
    }
    error := ProcessLocations(db, w, source.value, found.value, clock);
  }

  /** Once a fail-fast run has failed, the remaining items change nothing. */
  lemma {:induction false} FailFastStops(js: seq<Job>, p: nat, t: Table, clock: nat -> string)
    requires p <= |js|
    requires RunFailFast(js[..p], t, clock).error.Some?
    ensures RunFailFast(js, t, clock) == RunFailFast(js[..p], t, clock)
    decreases |js| - p
  {
    if p == |js| {
      assert js[..p] == js;
    } else {
      assert js[..p + 1][..p] == js[..p];
      FailFastStops(js, p + 1, t, clock);
    }
  }

  /**
   * main(): sys.argv[1] is read before the database is opened, so a missing argument raises
   * with no database; a name not ending in ".txt" opens the database and does nothing else.
   * `existing` is the table already in the database file, and `table` the one it ends with.
   */
  method RunMain(existing: Option<Table>, w: World, argv: seq<string>, clock: nat -> string)
    returns (error: Option<Error>, table: Option<Table>)
    ensures |argv| < 2 ==> error == Some(MissingArgument) && table == None
    ensures |argv| >= 2 && !EndsWith(argv[1], ".txt") ==> error == None && table == Some(existing.GetOr(map[]))
    ensures |argv| >= 2 && EndsWith(argv[1], ".txt") && Jobs(w, argv[1]).Failure? ==>
              error == Some(Jobs(w, argv[1]).error) && table == Some(existing.GetOr(map[]))
    ensures |argv| >= 2 && EndsWith(argv[1], ".txt") && Jobs(w, argv[1]).Success? ==>
              table.Some? && Halt(table.value, error) == RunFailFast(Jobs(w, argv[1]).value, existing.GetOr(map[]), clock)
  {
    if |argv| < 2 {
      return Some(MissingArgument), None;
    }
    var inputFile := argv[1];
    var db := new VideoDatabase(existing);
    error := None;
    if EndsWith(inputFile, ".txt") {
      error := ProcessVideos(db, w, inputFile, clock);
    }
    table := Some(db.videos);
  }

  /**
   * Re-running main.py on the same input after a run without error stores nothing new and
   * raises nothing: every item is then already present and is skipped.
   */
  lemma RerunAfterSuccessAddsNothing(w: World, inputFile: string, t: Table, clock: nat -> string, later: nat -> string)
    requires Jobs(w, inputFile).Success?
    requires RunFailFast(Jobs(w, inputFile).value, t, clock).error.None?
    ensures var js := Jobs(w, inputFile).value;
            var first := RunFailFast(js, t, clock).table;
            RunFailFast(js, first, later) == Halt(first, None)
  {
    var js := Jobs(w, inputFile).value;
    var first := RunFailFast(js, t, clock).table;
    FailFastWithoutErrorIsRunAll(js, t, clock);
    CleanRunStoresEveryKey(js, t, clock);
    assert forall i :: 0 <= i < |js| ==> Step(js[i], first) == Skipped;
    FailFastOnSkipped(js, first, later);
  }
}
