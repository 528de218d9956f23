/**
 * The `videos` table of the SQLite store (video_knowledge/database.py; database.py at the top
 * of the repository is the same code). The table is keyed by `id`, so it is a map from id to
 * the remaining columns: there is at most one row per id by construction.
 */
module Store {
  import opened Wrappers

  /** The record a processor assembles; every field but id and title defaults to ''. */
  datatype VideoInfo = VideoInfo(
    id: string,
    title: string,
    lesson: string,
    content: string,
    creator: string,
    source: string,
    uploadDate: string)

  /** VideoInfo(id=..., title=...) with the optional fields at their defaults. */
  function NewVideoInfo(id: string, title: string): (v: VideoInfo)
    ensures v.id == id && v.title == title
    ensures v.lesson == "" && v.content == "" && v.creator == "" && v.source == "" && v.uploadDate == ""
  {
    VideoInfo(id, title, "", "", "", "", "")
  }

  /** The columns of a stored row other than its key; `lesson` is NULL unless written. */
  datatype Row = Row(
    runDate: string,
    title: string,
    lesson: Option<string>,
    content: string,
    creator: string,
    source: string,
    uploadDate: string)

  type Table = map<string, Row>

  /** The row insert_video writes: run_date from the store's clock, `lesson` left out. */
  function RowOf(info: VideoInfo, now: string): Row {
    Row(now, info.title, None, info.content, info.creator, info.source, info.uploadDate)
  }

  class VideoDatabase {
    /** Whether the `videos` table exists in the database file. */
    var hasTable: bool
    var videos: Table

    /**
     * VideoDatabase(db_path): opens a database file whose `videos` table holds `existing`
     * (None when the file has no such table yet) and runs initialize_db.
     */
    constructor (existing: Option<Table>)
      ensures hasTable
      ensures videos == existing.GetOr(map[])
    {
      hasTable := existing.Some?;
      videos := existing.GetOr(map[]);
      new;
      InitializeDb();
    }

    /** create(..., pk="id", if_not_exists=True): an existing table is left exactly as it is. */
    method InitializeDb()
      modifies this
      ensures hasTable
      ensures old(hasTable) ==> videos == old(videos)
      ensures !old(hasTable) ==> videos == map[]
    {
      if !hasTable {
        hasTable := true;
        videos := map[];
      }
    }

    /** A read-only lookup by primary key. */
    method IsVideoPresent(id: string) returns (present: bool)
      requires hasTable
      ensures present <==> id in videos
    {
      present := id in videos;
    }

    /**
     * Adds exactly one row keyed by info.id, copying title, content, creator, source and
     * upload_date and stamping run_date with `now`, the clock reading at insertion; an id that
     * is already taken raises IntegrityError and leaves the table as it was.
     */
    method InsertVideo(info: VideoInfo, now: string) returns (inserted: bool)
      requires hasTable
      modifies this`videos
      ensures inserted <==> info.id !in old(videos)
      ensures videos == if inserted then old(videos)[info.id := RowOf(info, now)] else old(videos)
    {
      inserted := info.id !in videos;
      if inserted {
        videos := videos[info.id := RowOf(info, now)];
      }
    }
  }

  /** Opening the same file twice sees the same table: initialisation is idempotent. */
  method ReopenKeepsRows(existing: Option<Table>) returns (first: Table, second: Table)
    ensures first == second == existing.GetOr(map[])
  {
    var db := new VideoDatabase(existing);
    first := db.videos;
    db.InitializeDb();
    second := db.videos;
  }
}
