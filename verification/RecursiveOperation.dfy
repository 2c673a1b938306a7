/**
 * A recursive operation on a server: a depth-first work stack per root, driven
 * by the server's replies to one listing at a time.
 */
module RecursiveOperation {
  import opened Options
  import opened ServerPath

  datatype Mode = Inactive | Transfer | TransferFlatten | Delete | Chmod | ListOnly

  /** How a directory came to be a link: not at all, found on the way, or chosen by the user. */
  datatype Link = NoLink | FoundLink | UserLink

  type LocalPath = seq<string>

  /** `recursion_root::new_dir`. */
  datatype Dir = Dir(
    parent: Path, subdir: string, localDir: LocalPath, restricted: Option<string>,
    startDir: Path, link: Link, doVisit: bool, recurse: bool, secondTry: bool)

  datatype Entry = Entry(name: string, isDir: bool, isLink: bool, size: int)

  datatype Listing = Listing(path: Path, entries: seq<Entry>)

  /** What is told of a directory's listing: the listing, a failure, or that a link is no directory. */
  datatype Reply =
    | Listed(listing: Listing)
    | Failed(critical: bool)
    | NotDir(hasSite: bool)
    | Stopped

  /** What the operation does: commands to the engine, calls to its user, and marks of its progress. */
  datatype Effect =
    | ListDir(parent: Path, subdir: string, link: bool)
    | RemoveDir(parent: Path, subdir: string)
    | DeleteFiles(path: Path, names: seq<string>)
    | ChangeMode(path: Path, name: string, permissions: string)
    | HandleFile(name: string, localDir: LocalPath, path: Path, size: int)
    | EmptyDirectory(localDir: LocalPath)
    | InvalidLink(name: string, localDir: LocalPath, path: Path)
    | Enter(path: Path)
    | LinkTarget(path: Path)
    | ListingEnd
    | RootDone
    | Finished

  /** The parts of an operation its user chooses: filters, file name sanitising and permissions. */
  datatype Config = Config(
    filtered: (Path, Entry) -> bool, sanitize: string -> string,
    applyType: nat, permissions: Entry -> string)

  datatype Root = Root(start: Path, allowParent: bool, visited: set<Path>, dirs: seq<Dir>)

  // ----- One entry and one listing

  /** What one entry of a listing adds: work, effects, a file to delete. */
  datatype Work = Work(dirs: seq<Dir>, effects: seq<Effect>, files: seq<string>)

  const NoWork := Work([], [], [])

  predicate Skipped(cfg: Config, path: Path, dir: Dir, e: Entry) {
    if dir.restricted.Some? then e.name != dir.restricted.value else cfg.filtered(path, e)
  }

  predicate Descends(mode: Mode, e: Entry) {
    e.isDir && (!e.isLink || mode != Delete)
  }

  function ChildDir(mode: Mode, cfg: Config, path: Path, dir: Dir, e: Entry): Dir {
    Dir(path, e.name,
        if mode == Transfer then dir.localDir + [cfg.sanitize(e.name)] else dir.localDir,
        None, dir.startDir, if e.isLink then FoundLink else NoLink, true, !e.isLink, false)
  }

  function EntryWork(mode: Mode, cfg: Config, path: Path, dir: Dir, e: Entry): Work {
    if Skipped(cfg, path, dir, e) then NoWork
    else
      var chmod :=
        if mode == Chmod && (cfg.applyType == 0 || (!e.isDir && cfg.applyType == 1) || (e.isDir && cfg.applyType == 2))
        then [ChangeMode(path, e.name, cfg.permissions(e))] else [];
      if Descends(mode, e) then
        Work(if dir.recurse then [ChildDir(mode, cfg, path, dir, e)] else [], chmod, [])
      else if mode == Transfer || mode == TransferFlatten then
        Work([], [HandleFile(e.name, dir.localDir, path, e.size)] + chmod, [])
      else if mode == Delete then
        Work([], chmod, [e.name])
      else
        Work([], chmod, [])
  }

  /**
   * The loop of `process_entries`, which runs from the last entry to the first:
   * work is pushed to the front, so it ends up in the order of the entries.
   */
  function EntriesWork(mode: Mode, cfg: Config, path: Path, dir: Dir, entries: seq<Entry>): Work {
    if entries == [] then NoWork
    else
      var rest := EntriesWork(mode, cfg, path, dir, entries[1..]);
      var w := EntryWork(mode, cfg, path, dir, entries[0]);
      Work(w.dirs + rest.dirs, rest.effects + w.effects, rest.files + w.files)
  }

  /** `process_entries`. */
  function ProcessEntries(mode: Mode, cfg: Config, listing: Listing, dir: Dir): Work {
    var w := EntriesWork(mode, cfg, listing.path, dir, listing.entries);
    if mode == Delete && w.files != [] then w.(effects := w.effects + [DeleteFiles(listing.path, w.files)]) else w
  }

  /** Whether a listing may be processed, the directory as it is then, and the link target it revealed. */
  datatype Verdict = Verdict(below: bool, dir: Dir, target: Option<Path>)

  /** `BelowRecursionRoot`. */
  function Below(root: Root, path: Path, dir: Dir): Verdict {
    if dir.startDir.Path? then Verdict(path.IsSubdirOf(dir.startDir), dir, None)
    else if path.IsSubdirOf(root.start) then Verdict(true, dir, None)
    else if path == root.start && root.allowParent then Verdict(true, dir, None)
    else if dir.link == UserLink then Verdict(true, dir.(startDir := path), Some(path))
    else Verdict(false, dir, None)
  }

  /** The note that a directory itself is to be removed once its contents are. */
  function Marker(mode: Mode, dir: Dir): seq<Dir> {
    if mode == Delete && dir.doVisit && dir.subdir != "" then [dir.(doVisit := false)] else []
  }

  // ----- The reaction to a reply

  /**
   * A root after a reply, with what was done: perhaps a link target noted,
   * perhaps a directory entered, and further effects; `stop` if the whole
   * operation ends.
   */
  datatype Reaction = Reaction(root: Root, target: Option<Path>, entered: Option<Path>, further: seq<Effect>, stop: bool) {
    function Effects(): seq<Effect> {
      (if target.Some? then [LinkTarget(target.value)] else [])
      + ((if entered.Some? then [Enter(entered.value)] else []) + further)
    }
  }

  /** `ProcessDirectoryListing` for the front directory, up to the next operation. */
  function ReactListed(mode: Mode, cfg: Config, root: Root, listing: Listing): Reaction
    requires root.dirs != []
  {
    var rest := root.dirs[1..];
    var Verdict(below, dir, target) := Below(root, listing.path, root.dirs[0]);
    if !below then Reaction(root.(dirs := rest), None, None, [], false)
    else
      var marked := Marker(mode, dir) + rest;
      if (dir.link != NoLink && !dir.recurse) || listing.path in root.visited then
        Reaction(root.(dirs := marked), target, None, [], false)
      else
        var w :=
          if listing.entries == [] && mode == Transfer
          then Work([], [EmptyDirectory(dir.localDir)], [])
          else ProcessEntries(mode, cfg, listing, dir);
        Reaction(root.(dirs := w.dirs + marked, visited := root.visited + {listing.path}),
                 target, Some(listing.path), w.effects + [ListingEnd], false)
  }

  /** `ListingFailed`. */
  function ReactFailed(mode: Mode, root: Root, critical: bool): Reaction
    requires root.dirs != []
  {
    var dir, rest := root.dirs[0], root.dirs[1..];
    if !critical && !dir.secondTry then
      Reaction(root.(dirs := [dir.(secondTry := true)] + rest), None, None, [], false)
    else
      Reaction(root.(dirs := Marker(mode, dir) + rest), None, None, [], false)
  }

  /** `LinkIsNotDir`. */
  function ReactNotDir(mode: Mode, root: Root, hasSite: bool): Reaction
    requires root.dirs != []
  {
    var dir, rest := root.dirs[0], root.dirs[1..];
    var effects :=
      if !hasSite then []
      else if mode == Delete then
        if dir.subdir != "" then [DeleteFiles(dir.parent, [dir.subdir])] else []
      else if mode != ListOnly then
        [InvalidLink(dir.subdir, if mode == TransferFlatten then dir.localDir else ParentOf(dir.localDir), dir.parent)]
      else [];
    Reaction(root.(dirs := rest), None, None, effects, false)
  }

  function ParentOf(path: LocalPath): LocalPath {
    if path == [] then [] else path[..|path| - 1]
  }

  function React(mode: Mode, cfg: Config, root: Root, reply: Reply): Reaction
    requires root.dirs != []
  {
    match reply
    case Listed(listing) => ReactListed(mode, cfg, root, listing)
    case Failed(critical) => ReactFailed(mode, root, critical)
    case NotDir(hasSite) => ReactNotDir(mode, root, hasSite)
    case Stopped => Reaction(root, None, None, [], true)
  }

  // ----- The operation

  /** `remote_recursive_operation`: what it still has to do, and all it did. */
  datatype Op = Op(mode: Mode, roots: seq<Root>, log: seq<Effect>)

  predicate IsMarker(mode: Mode, dir: Dir) {
    mode == Delete && !dir.doVisit
  }

  function ListCommand(dir: Dir): Effect {
    ListDir(dir.parent, dir.subdir, dir.link != NoLink)
  }

  /** `NextOperation`: remove emptied directories until one has to be listed. */
  function Next(op: Op): (r: Op)
    decreases |op.roots|, if op.roots == [] then 0 else |op.roots[0].dirs|
  {
    if op.mode == Inactive then op
    else if op.roots == [] then Op(Inactive, [], op.log + [Finished])
    else
      var root := op.roots[0];
      if root.dirs == [] then
        Next(op.(roots := op.roots[1..], log := op.log + [RootDone]))
      else if IsMarker(op.mode, root.dirs[0]) then
        Next(op.(roots := [root.(dirs := root.dirs[1..])] + op.roots[1..],
                 log := op.log + [RemoveDir(root.dirs[0].parent, root.dirs[0].subdir)]))
      else
        op.(log := op.log + [ListCommand(root.dirs[0])])
  }

  /** A listing has been asked for and its reply is awaited. */
  predicate Waiting(op: Op) {
    && op.mode != Inactive && op.roots != [] && op.roots[0].dirs != []
    && !IsMarker(op.mode, op.roots[0].dirs[0])
  }

  /** The reply to the awaited listing, before the next operation is chosen. */
  function Absorb(cfg: Config, op: Op, reply: Reply): Op
    requires Waiting(op)
  {
    var r := React(op.mode, cfg, op.roots[0], reply);
    if r.stop then Op(Inactive, [], op.log)
    else op.(roots := [r.root] + op.roots[1..], log := op.log + r.Effects())
  }

  /** A reply handled to the end. */
  function Handle(cfg: Config, op: Op, reply: Reply): Op {
    if Waiting(op) then Next(Absorb(cfg, op, reply)) else op
  }

  function Run(cfg: Config, op: Op, replies: seq<Reply>): Op
    decreases |replies|
  {
    if replies == [] then op else Run(cfg, Handle(cfg, op, replies[0]), replies[1..])
  }
}
