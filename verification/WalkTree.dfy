/** The file tree a walk sees, its options and filters, and the plain recursive walk over it. */
module WalkTree {

  /** A relative path as its segments; the storage root is the empty path. */
  type Path = seq<string>

  datatype Node =
    | File(size: nat, statOk: bool)
    | Folder(readable: bool, entries: seq<Entry>)
    | Link  // a symbolic link; for a prefix, a name that cannot be opened
  {
    function Size(): nat { if File? then size else 0 }
  }

  /** A directory entry has one segment in its name, a walk prefix any number (none: the root). */
  datatype Entry = Entry(name: Path, node: Node)

  /** The walk options as the caller gives them: zero and negative sizes ask for the defaults. */
  datatype Options = Options(
    maxFiles: int, maxBytes: int,
    maxFolderWorkers: int, maxFileWorkers: int, folderQueueDepth: int,
    extensionAllowed: Path -> bool, excludedFile: Path -> bool, excludedDirectory: Path -> bool,
    root: Node,
    prefixes: seq<Entry>,  // the prefixes before the first one that does not normalise
    badPrefix: bool)       // whether there is one that does not normalise

  datatype Config = Config(
    maxFiles: int, maxBytes: int,
    folderWorkers: nat, fileWorkers: nat, queueDepth: nat,
    extensionAllowed: Path -> bool, excludedFile: Path -> bool, excludedDirectory: Path -> bool,
    prefixes: seq<Entry>, badPrefix: bool)
  {
    ghost predicate Valid() {
      folderWorkers >= 1 && fileWorkers >= 1 && queueDepth >= 1
    }

    function FileQueueDepth(): nat {
      if queueDepth * 4 > 16 then queueDepth * 4 else 16
    }

    /** The root itself is never excluded. */
    predicate Excluded(path: Path) {
      path != [] && excludedDirectory(path)
    }
  }

  /** Zero limits and missing workers and depths get the defaults; no prefix at all means the root. */
  function Normalize(o: Options): (c: Config)
    ensures c.Valid() && c.maxFiles != 0 && c.maxBytes != 0
    ensures c.maxFiles == (if o.maxFiles == 0 then 50 else o.maxFiles)
      && c.maxBytes == if o.maxBytes == 0 then 0x8000_0000 else o.maxBytes
    ensures c.folderWorkers == if o.maxFolderWorkers <= 0 then 4 else o.maxFolderWorkers
    ensures c.fileWorkers == if o.maxFileWorkers <= 0 then 8 else o.maxFileWorkers
    ensures c.queueDepth == if o.folderQueueDepth <= 0 then 64 else o.folderQueueDepth
    ensures c.extensionAllowed == o.extensionAllowed && c.excludedFile == o.excludedFile
    ensures c.excludedDirectory == o.excludedDirectory && c.badPrefix == o.badPrefix
    ensures c.prefixes == [] ==> c.badPrefix
    ensures o.prefixes == [] && !o.badPrefix ==> c.prefixes == [Entry([], o.root)]
    ensures o.prefixes != [] ==> c.prefixes == o.prefixes
  {
    Config(
      if o.maxFiles == 0 then 50 else o.maxFiles,
      if o.maxBytes == 0 then 0x8000_0000 else o.maxBytes,
      if o.maxFolderWorkers <= 0 then 4 else o.maxFolderWorkers,
      if o.maxFileWorkers <= 0 then 8 else o.maxFileWorkers,
      if o.folderQueueDepth <= 0 then 64 else o.folderQueueDepth,
      o.extensionAllowed, o.excludedFile, o.excludedDirectory,
      if o.prefixes == [] && !o.badPrefix then [Entry([], o.root)] else o.prefixes, o.badPrefix)
  }

  // The reference: one goroutine, no queues, no limits.

  function WalkFile(c: Config, path: Path, node: Node): seq<Path> {
    if node.File? && node.statOk && c.extensionAllowed(path) && !c.excludedFile(path) then [path] else []
  }

  /** The files below a path that is walked as a folder (or turns out to be a file). */
  function WalkNode(c: Config, path: Path, node: Node): seq<Path>
    decreases node, 1
  {
    if c.Excluded(path) then []
    else
      match node
      case Link => []
      case File(_, _) => WalkFile(c, path, node)
      case Folder(readable, entries) => if readable then WalkEntries(c, path, entries) else []
  }

  function WalkEntries(c: Config, parent: Path, entries: seq<Entry>): seq<Path>
    decreases entries, 0
  {
    if entries == [] then []
    else
      var path := parent + entries[0].name;
      var here := match entries[0].node
        case Link => []
        case File(_, _) => WalkFile(c, path, entries[0].node)
        case Folder(_, _) => WalkNode(c, path, entries[0].node);
      here + WalkEntries(c, parent, entries[1..])
  }

  function WalkPrefixes(c: Config, prefixes: seq<Entry>): seq<Path> {
    if prefixes == [] then []
    else WalkNode(c, prefixes[0].name, prefixes[0].node) + WalkPrefixes(c, prefixes[1..])
  }
}
