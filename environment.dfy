/**
 * The collaborators the ingestion code calls but does not implement, as values: the file
 * system (os.path.isfile / isdir / abspath, Path.absolute, os.walk, file reads), SHA-256, the
 * YouTube watch page as parsed by BeautifulSoup, the caption service, and the audio loader
 * and speech recogniser of Transcriber. Each is a total function, so every call with the same
 * argument sees the same answer.
 */
module Environment {
  import opened Wrappers
  import opened Identity

  /** The exceptions that end the processing of one item or of a whole run. */
  datatype Error =
    | MissingEquals        // url.split('=')[1] raises IndexError
    | NoVideoIdMatch       // re.search(r'v=([^&]+)', url) is None: AttributeError
    | IdMismatch           // assert video_id == video_info.id
    | PageUnavailable      // requests.get raised
    | MissingMetadata      // a selector found nothing: TypeError on None['content']
    | FileUnreadable       // open(location, 'rb') raised
    | AudioFailed          // Transcriber.load_audio raised
    | TranscriptionFailed  // Transcriber.transcribe_audio raised
    | DuplicateId          // sqlite IntegrityError: the primary key is already taken
    | ManifestUnreadable   // open(input_file, 'r') raised
    | UnsupportedSource    // main.py: ValueError("Unsupported video source")
    | NotATriple           // a str unpacked into (location, title, order): ValueError
    | MissingArgument      // main.py: sys.argv[1] raises IndexError

  /** One (root, dirs, files) triple of os.walk; the dirs part is never read. */
  datatype WalkEntry = WalkEntry(root: string, files: seq<string>)

  datatype FileSystem = FileSystem(
    files: set<string>,             // paths for which os.path.isfile holds
    dirs: set<string>,              // paths for which os.path.isdir holds
    bytes: map<string, seq<byte>>,  // open(p, 'rb').read() for the readable paths
    text: map<string, string>,      // open(p, 'r').read() for the readable paths
    walk: string -> seq<WalkEntry>, // os.walk(p), in traversal order
    abspath: string -> string,      // os.path.abspath
    absolute: string -> string)     // pathlib.Path(p).absolute()

  /** Path(p).exists(). */
  predicate Exists(fs: FileSystem, p: string) {
    p in fs.files || p in fs.dirs
  }

  /** The three values read from a watch page; None where the selector finds nothing. */
  datatype PageMeta = PageMeta(
    itemName: Option<string>,       // meta[itemprop="name"][content]
    datePublished: Option<string>,  // meta[itemprop="datePublished"][content]
    channelName: Option<string>)    // link[itemprop="name"]['content']

  datatype Services = Services(
    sha256: Sha256,
    fetchPage: string -> Option<PageMeta>,        // requests.get + BeautifulSoup; None: it raised
    captions: string -> Option<seq<string>>,      // the 'text' of each caption entry; None: it raised
    loadAudio: string -> Option<string>,          // path of the WAV file; None: it raised
    transcribeAudio: string -> Option<string>)    // recognised text; None: it raised

  datatype World = World(fs: FileSystem, svc: Services)
}
