/**
 * A recursive operation leaves nothing out: every entry of a directory that is
 * processed is descended into or handled, and on a server that answers with its
 * files every directory below the chosen ones is processed.
 */
module RecursionComplete {
  import opened Options
  import opened ServerPath
  import opened RecursiveOperation
  import opened RecursionOrder
  import opened RecursionReach

  // ----- The entries of one listing

  function Select(entries: seq<Entry>, test: Entry -> bool): (r: seq<Entry>)
    ensures forall e :: e in r <==> e in entries && test(e)
  {
    if entries == [] then [] else (if test(entries[0]) then [entries[0]] else []) + Select(entries[1..], test)
  }

  /** The one entry a directory is restricted to, or those that no filter hides. */
  predicate Chosen(cfg: Config, path: Path, dir: Dir, e: Entry) {
    if dir.restricted.Some? then e.name == dir.restricted.value else !cfg.filtered(path, e)
  }

  /** Directories, but for links when deleting. */
  predicate IsSubdir(mode: Mode, cfg: Config, path: Path, dir: Dir, e: Entry) {
    Chosen(cfg, path, dir, e) && e.isDir && !(e.isLink && mode == Delete)
  }

  /** All other entries. */
  predicate IsFile(mode: Mode, cfg: Config, path: Path, dir: Dir, e: Entry) {
    Chosen(cfg, path, dir, e) && (!e.isDir || (e.isLink && mode == Delete))
  }

  /** Entries with effects of their own: files in a transfer, and those whose permissions are to change. */
  predicate Acts(mode: Mode, cfg: Config, path: Path, dir: Dir, e: Entry) {
    if mode == Transfer || mode == TransferFlatten then IsFile(mode, cfg, path, dir, e)
    else
      && mode == Chmod && Chosen(cfg, path, dir, e)
      && (cfg.applyType == 0 || (cfg.applyType == 1 && !e.isDir) || (cfg.applyType == 2 && e.isDir))
  }

  function Act(mode: Mode, cfg: Config, path: Path, dir: Dir, e: Entry): Effect {
    if mode == Chmod then ChangeMode(path, e.name, cfg.permissions(e)) else HandleFile(e.name, dir.localDir, path, e.size)
  }

  function Subdirs(mode: Mode, cfg: Config, path: Path, dir: Dir): Entry -> bool {
    (e: Entry) => IsSubdir(mode, cfg, path, dir, e)
  }

  function Files(mode: Mode, cfg: Config, path: Path, dir: Dir): Entry -> bool {
    (e: Entry) => IsFile(mode, cfg, path, dir, e)
  }

  function Acting(mode: Mode, cfg: Config, path: Path, dir: Dir): Entry -> bool {
    (e: Entry) => Acts(mode, cfg, path, dir, e)
  }

  /** The work for a subdirectory: it is to be listed, and what is below it unless it is a link. */
  predicate WorkFor(d: Dir, mode: Mode, cfg: Config, path: Path, dir: Dir, e: Entry) {
    && d.parent == path && d.subdir == e.name && d.startDir == dir.startDir
    && d.restricted.None? && d.doVisit && !d.secondTry
    && d.link == (if e.isLink then FoundLink else NoLink) && (d.recurse <==> !e.isLink)
    && d.localDir == dir.localDir + (if mode == Transfer then [cfg.sanitize(e.name)] else [])
  }

  lemma OneEntry(mode: Mode, cfg: Config, path: Path, dir: Dir, e: Entry)
    ensures var w := EntryWork(mode, cfg, path, dir, e);
            && (if dir.recurse && IsSubdir(mode, cfg, path, dir, e) then |w.dirs| == 1 && WorkFor(w.dirs[0], mode, cfg, path, dir, e)
                else w.dirs == [])
            && w.files == (if mode == Delete && IsFile(mode, cfg, path, dir, e) then [e.name] else [])
            && w.effects == (if Acts(mode, cfg, path, dir, e) then [Act(mode, cfg, path, dir, e)] else [])
  {
  }

  /** Each subdirectory is pushed once, in the order of the listing. */
  lemma {:induction false} DirsExactly(mode: Mode, cfg: Config, path: Path, dir: Dir, entries: seq<Entry>)
    ensures var dirs := EntriesWork(mode, cfg, path, dir, entries).dirs;
            var subs := Select(entries, Subdirs(mode, cfg, path, dir));
            if dir.recurse then |dirs| == |subs| && forall i | 0 <= i < |subs| :: WorkFor(dirs[i], mode, cfg, path, dir, subs[i])
            else dirs == []
  {
    hide EntryWork, WorkFor, IsSubdir;
    if entries != [] {
      DirsExactly(mode, cfg, path, dir, entries[1..]);
      OneEntry(mode, cfg, path, dir, entries[0]);
    }
  }

  /** In a deletion each other entry is to be deleted, once, from the last to the first. */
  lemma {:induction false} FilesExactly(mode: Mode, cfg: Config, path: Path, dir: Dir, entries: seq<Entry>)
    ensures var names := EntriesWork(mode, cfg, path, dir, entries).files;
            var files := Select(entries, Files(mode, cfg, path, dir));
            if mode == Delete then |names| == |files| && forall i | 0 <= i < |files| :: names[|files| - 1 - i] == files[i].name
            else names == []
  {
    hide EntryWork, WorkFor, IsFile;
    if entries != [] {
      FilesExactly(mode, cfg, path, dir, entries[1..]);
      OneEntry(mode, cfg, path, dir, entries[0]);
    }
  }

  /** In a transfer each file is handed on, and permissions are changed where they are to be, once and from the last to the first. */
  lemma {:induction false} EffectsExactly(mode: Mode, cfg: Config, path: Path, dir: Dir, entries: seq<Entry>)
    ensures var effects := EntriesWork(mode, cfg, path, dir, entries).effects;
            var acting := Select(entries, Acting(mode, cfg, path, dir));
            |effects| == |acting| && forall i | 0 <= i < |acting| :: effects[|acting| - 1 - i] == Act(mode, cfg, path, dir, acting[i])
  {
    hide EntryWork, WorkFor, Acts, Act, Acted;
    EffectsActed(mode, cfg, path, dir, entries);
    ActedMeans(mode, cfg, path, dir, EntriesWork(mode, cfg, path, dir, entries).effects, Select(entries, Acting(mode, cfg, path, dir)));
  }

  /** The effects of some entries, from the last to the first. */
  predicate Acted(mode: Mode, cfg: Config, path: Path, dir: Dir, effects: seq<Effect>, acting: seq<Entry>) {
    |effects| == |acting| && forall i | 0 <= i < |acting| :: effects[|acting| - 1 - i] == Act(mode, cfg, path, dir, acting[i])
  }

  lemma ActedMeans(mode: Mode, cfg: Config, path: Path, dir: Dir, effects: seq<Effect>, acting: seq<Entry>)
    requires Acted(mode, cfg, path, dir, effects, acting)
    ensures |effects| == |acting| && forall i | 0 <= i < |acting| :: effects[|acting| - 1 - i] == Act(mode, cfg, path, dir, acting[i])
  {
  }

  lemma ActedMore(mode: Mode, cfg: Config, path: Path, dir: Dir, effects: seq<Effect>, acting: seq<Entry>, e: Entry)
    requires Acted(mode, cfg, path, dir, effects, acting)
    ensures Acted(mode, cfg, path, dir, effects + [Act(mode, cfg, path, dir, e)], [e] + acting)
  {
    hide Act;
  }

  lemma {:induction false} EffectsActed(mode: Mode, cfg: Config, path: Path, dir: Dir, entries: seq<Entry>)
    ensures Acted(mode, cfg, path, dir, EntriesWork(mode, cfg, path, dir, entries).effects, Select(entries, Acting(mode, cfg, path, dir)))
  {
    hide EntryWork, WorkFor, Acts, Act;
    if entries != [] {
      hide Acted;
      EffectsActed(mode, cfg, path, dir, entries[1..]);
      OneEntry(mode, cfg, path, dir, entries[0]);
      ActedMore(mode, cfg, path, dir, EntriesWork(mode, cfg, path, dir, entries[1..]).effects,
                Select(entries[1..], Acting(mode, cfg, path, dir)), entries[0]);
    }
  }

  // ----- The reaction to a listing

  /** Where the listing of a directory may lie: inside what bounds it, or anywhere if the user chose a link. */
  predicate MayEnter(root: Root, dir: Dir, path: Path) {
    if dir.startDir.Path? then path.IsSubdirOf(dir.startDir)
    else path.IsSubdirOf(root.start) || (path == root.start && root.allowParent) || dir.link == UserLink
  }

  /** A listing is processed exactly if it lies where it may, is not that of a link to be left alone, and is new. */
  lemma EntersExactly(mode: Mode, cfg: Config, root: Root, listing: Listing)
    requires root.dirs != []
    ensures var r := React(mode, cfg, root, Listed(listing));
            var dir := root.dirs[0];
            && !r.stop
            && r.entered == (if MayEnter(root, dir, listing.path) && (dir.link == NoLink || dir.recurse) && listing.path !in root.visited
                             then Some(listing.path) else None)
  {
    hide ProcessEntries, Marker;
  }

  // ----- Everything on the stack is done

  predicate Attended(mode: Mode, dir: Dir, log: seq<Effect>) {
    (if IsMarker(mode, dir) then RemoveDir(dir.parent, dir.subdir) else ListCommand(dir)) in log
  }

  /** A reply leaves the work below the front directory alone. */
  lemma ReactPushes(mode: Mode, cfg: Config, root: Root, reply: Reply) returns (pushed: seq<Dir>)
    requires root.dirs != []
    ensures var r := React(mode, cfg, root, reply);
            r.stop || r.root.dirs == pushed + root.dirs[1..]
  {
    hide ProcessEntries, Below, Marker;
    var r := React(mode, cfg, root, reply);
    var n := |r.root.dirs| - |root.dirs[1..]|;
    pushed := if n >= 0 then r.root.dirs[..n] else [];
  }

  /** When a root is done, each directory was asked for that was to be listed, and each removed that was to be removed. */
  lemma {:induction false} AllAttended(mode: Mode, cfg: Config, root: Root, replies: seq<Reply>, i: nat)
    requires Exec(mode, cfg, root, replies).end.Done? && i < |root.dirs|
    ensures Attended(mode, root.dirs[i], Exec(mode, cfg, root, replies).log)
    decreases |replies|, |root.dirs|
  {
    hide React;
    if IsMarker(mode, root.dirs[0]) {
      if i > 0 {
        AllAttended(mode, cfg, root.(dirs := root.dirs[1..]), replies, i - 1);
      }
    } else if replies != [] {
      var r := React(mode, cfg, root, replies[0]);
      if !r.stop && i > 0 {
        var pushed := ReactPushes(mode, cfg, root, replies[0]);
        AllAttended(mode, cfg, r.root, replies[1..], |pushed| + i - 1);
      }
    }
  }

  // ----- Every entry is taken care of

  /** What the log has for a listing: subdirectories are listed and all other entries handled. */
  ghost predicate Explores(mode: Mode, cfg: Config, log: seq<Effect>, listing: Listing, dir: Dir) {
    && (forall e | e in listing.entries && dir.recurse && IsSubdir(mode, cfg, listing.path, dir, e) ::
          ListDir(listing.path, e.name, e.isLink) in log)
    && (forall e | e in listing.entries && mode == Delete && IsFile(mode, cfg, listing.path, dir, e) :: Deletes(log, listing.path, e.name))
    && (forall e | e in listing.entries && Acts(mode, cfg, listing.path, dir, e) :: Act(mode, cfg, listing.path, dir, e) in log)
  }

  ghost predicate Deletes(log: seq<Effect>, path: Path, name: string) {
    exists names :: DeleteFiles(path, names) in log && name in names
  }

  lemma ExploresMore(mode: Mode, cfg: Config, log: seq<Effect>, more: seq<Effect>, listing: Listing, dir: Dir)
    requires Explores(mode, cfg, log, listing, dir) && forall e | e in log :: e in more
    ensures Explores(mode, cfg, more, listing, dir)
  {
    hide IsSubdir, IsFile, Acts, Act;
    forall e | e in listing.entries && mode == Delete && IsFile(mode, cfg, listing.path, dir, e) ensures Deletes(more, listing.path, e.name) {
      var names :| DeleteFiles(listing.path, names) in log && e.name in names;
      assert DeleteFiles(listing.path, names) in more;
    }
  }

  /** The work and the effects of a listing, with everything pushed attended to later. */
  lemma EntriesExplored(mode: Mode, cfg: Config, listing: Listing, dir: Dir, later: seq<Effect>)
    requires forall d | d in ProcessEntries(mode, cfg, listing, dir).dirs :: Attended(mode, d, later)
    ensures Explores(mode, cfg, ProcessEntries(mode, cfg, listing, dir).effects + later, listing, dir)
  {
    var path, log := listing.path, ProcessEntries(mode, cfg, listing, dir).effects + later;
    hide ProcessEntries, IsSubdir, IsFile, Acts, Act, Deletes, Attended;
    forall e | e in listing.entries && dir.recurse && IsSubdir(mode, cfg, path, dir, e) ensures ListDir(path, e.name, e.isLink) in log {
      SubdirListed(mode, cfg, listing, dir, later, e);
    }
    forall e | e in listing.entries && mode == Delete && IsFile(mode, cfg, path, dir, e) ensures Deletes(log, path, e.name) {
      FileDeleted(cfg, listing, dir, e);
      var names :| DeleteFiles(path, names) in ProcessEntries(mode, cfg, listing, dir).effects && e.name in names;
      DeletesBy(log, path, e.name, names);
    }
    forall e | e in listing.entries && Acts(mode, cfg, path, dir, e) ensures Act(mode, cfg, path, dir, e) in log {
      EntryActed(mode, cfg, listing, dir, e);
    }
  }

  lemma DeletesBy(log: seq<Effect>, path: Path, name: string, names: seq<string>)
    requires DeleteFiles(path, names) in log && name in names
    ensures Deletes(log, path, name)
  {
  }

  lemma FileDeleted(cfg: Config, listing: Listing, dir: Dir, e: Entry)
    requires e in listing.entries && IsFile(Delete, cfg, listing.path, dir, e)
    ensures exists names :: DeleteFiles(listing.path, names) in ProcessEntries(Delete, cfg, listing, dir).effects && e.name in names
  {
    FilesExactly(Delete, cfg, listing.path, dir, listing.entries);
    var w := EntriesWork(Delete, cfg, listing.path, dir, listing.entries);
    hide IsFile, EntriesWork;
    var files := Select(listing.entries, Files(Delete, cfg, listing.path, dir));
    assert e in files;
    var i :| 0 <= i < |files| && files[i] == e;
    assert w.files[|files| - 1 - i] == e.name;
    assert DeleteFiles(listing.path, w.files) in ProcessEntries(Delete, cfg, listing, dir).effects;
  }

  lemma EntryActed(mode: Mode, cfg: Config, listing: Listing, dir: Dir, e: Entry)
    requires e in listing.entries && Acts(mode, cfg, listing.path, dir, e)
    ensures Act(mode, cfg, listing.path, dir, e) in ProcessEntries(mode, cfg, listing, dir).effects
  {
    EffectsExactly(mode, cfg, listing.path, dir, listing.entries);
    var w := EntriesWork(mode, cfg, listing.path, dir, listing.entries);
    hide Acts, Act, EntriesWork;
    var acting := Select(listing.entries, Acting(mode, cfg, listing.path, dir));
    assert e in acting;
    var i :| 0 <= i < |acting| && acting[i] == e;
    assert w.effects[|acting| - 1 - i] == Act(mode, cfg, listing.path, dir, e);
  }

  lemma SubdirListed(mode: Mode, cfg: Config, listing: Listing, dir: Dir, later: seq<Effect>, e: Entry)
    requires forall d | d in ProcessEntries(mode, cfg, listing, dir).dirs :: Attended(mode, d, later)
    requires e in listing.entries && dir.recurse && IsSubdir(mode, cfg, listing.path, dir, e)
    ensures ListDir(listing.path, e.name, e.isLink) in later
  {
    DirsExactly(mode, cfg, listing.path, dir, listing.entries);
    var dirs := EntriesWork(mode, cfg, listing.path, dir, listing.entries).dirs;
    hide IsSubdir, EntriesWork;
    var subs := Select(listing.entries, Subdirs(mode, cfg, listing.path, dir));
    assert e in subs;
    var i :| 0 <= i < |subs| && subs[i] == e;
    assert dirs[i] in ProcessEntries(mode, cfg, listing, dir).dirs;
    assert Attended(mode, dirs[i], later) && WorkFor(dirs[i], mode, cfg, listing.path, dir, subs[i]);
  }

  /** What is done after a listing was processed takes care of all its entries. */
  lemma ListingExplored(mode: Mode, cfg: Config, root: Root, listing: Listing, replies: seq<Reply>)
    requires root.dirs != []
    requires var r := React(mode, cfg, root, Listed(listing));
             r.entered.Some? && Exec(mode, cfg, r.root, replies).end.Done?
    ensures var r := React(mode, cfg, root, Listed(listing));
            Explores(mode, cfg, r.further + Exec(mode, cfg, r.root, replies).log, listing, Below(root, listing.path, root.dirs[0]).dir)
  {
    var r := React(mode, cfg, root, Listed(listing));
    var dir, later := Below(root, listing.path, root.dirs[0]).dir, Exec(mode, cfg, r.root, replies).log;
    if listing.entries == [] && mode == Transfer {
      hide *;
      NothingToExplore(mode, cfg, r.further + later, listing, dir);
    } else {
      var w := ProcessEntries(mode, cfg, listing, dir);
      assert r.further == w.effects + [ListingEnd] && w.dirs <= r.root.dirs by { hide ProcessEntries, Below, Marker; }
      hide React, ProcessEntries, Below, Exec, Explores, Attended;
      forall d | d in w.dirs ensures Attended(mode, d, later) {
        var i :| 0 <= i < |w.dirs| && w.dirs[i] == d;
        AllAttended(mode, cfg, r.root, replies, i);
      }
      EntriesExplored(mode, cfg, listing, dir, later);
      ExploresMore(mode, cfg, w.effects + later, r.further + later, listing, dir);
    }
  }

  lemma NothingToExplore(mode: Mode, cfg: Config, log: seq<Effect>, listing: Listing, dir: Dir)
    requires listing.entries == []
    ensures Explores(mode, cfg, log, listing, dir)
  {
  }

  // ----- Over a whole run

  /** Where a directory that was asked for came from: it was there at first, or was found as a subdirectory. */
  predicate Origin(dir: Dir, first: seq<Dir>) {
    || (dir.restricted.None? && dir.doVisit && dir.link != UserLink && (dir.recurse <==> dir.link == NoLink))
    || exists d | d in first :: dir == d.(startDir := dir.startDir, secondTry := dir.secondTry)
  }

  /** The command that the listing answered stands right before, but for the note of a link's target. */
  predicate AskedFor(log: seq<Effect>, k: nat, dir: Dir)
    requires k < |log|
  {
    || (k > 0 && log[k - 1] == ListCommand(dir))
    || (k > 1 && log[k - 1].LinkTarget? && log[k - 2] == ListCommand(dir))
  }

  /** A directory that was processed: it was asked for, answered, and all its entries are taken care of afterwards. */
  ghost predicate Thorough(mode: Mode, cfg: Config, first: seq<Dir>, replies: seq<Reply>, log: seq<Effect>, k: nat)
    requires k < |log| && log[k].Enter?
  {
    exists listing, dir ::
      && Listed(listing) in replies && listing.path == log[k].path
      && Origin(dir, first) && AskedFor(log, k, dir)
      && Explores(mode, cfg, log[k..], listing, dir)
  }

  ghost predicate AllThorough(mode: Mode, cfg: Config, first: seq<Dir>, replies: seq<Reply>, log: seq<Effect>) {
    forall k | 0 <= k < |log| && log[k].Enter? :: Thorough(mode, cfg, first, replies, log, k)
  }

  /** Every directory on the stack has its origin. */
  predicate Sourced(mode: Mode, dirs: seq<Dir>, first: seq<Dir>) {
    forall i | 0 <= i < |dirs| :: Origin(dirs[i], first) || IsMarker(mode, dirs[i])
  }

  lemma ThoroughLater(mode: Mode, cfg: Config, first: seq<Dir>, replies: seq<Reply>, before: seq<Effect>, log: seq<Effect>, k: nat,
                      reply: seq<Reply>)
    requires k < |log| && log[k].Enter? && Thorough(mode, cfg, first, replies, log, k)
    ensures Thorough(mode, cfg, first, reply + replies, before + log, |before| + k)
  {
    hide Explores, Origin;
    var listing, dir :|
      && Listed(listing) in replies && listing.path == log[k].path
      && Origin(dir, first) && AskedFor(log, k, dir)
      && Explores(mode, cfg, log[k..], listing, dir);
    assert (before + log)[|before| + k..] == log[k..];
    assert Listed(listing) in reply + replies;
    assert AskedFor(before + log, |before| + k, dir);
  }

  lemma {:induction false} PlainNowhere(log: seq<Effect>, k: nat)
    requires Plain(log) && k < |log|
    ensures !log[k].Enter?
  {
    if k > 0 {
      PlainNowhere(log[1..], k - 1);
    }
  }

  /** The directory that a listing enters. */
  lemma ThoroughNow(mode: Mode, cfg: Config, root: Root, listing: Listing, replies: seq<Reply>, first: seq<Dir>, k: nat)
    requires root.dirs != [] && Origin(root.dirs[0], first)
    requires var r := React(mode, cfg, root, Listed(listing));
             Exec(mode, cfg, r.root, replies).end.Done? && k < |[ListCommand(root.dirs[0])] + r.Effects()|
             && ([ListCommand(root.dirs[0])] + r.Effects())[k].Enter?
    ensures var r := React(mode, cfg, root, Listed(listing));
            var log := [ListCommand(root.dirs[0])] + r.Effects() + Exec(mode, cfg, r.root, replies).log;
            Thorough(mode, cfg, first, [Listed(listing)] + replies, log, k)
  {
    var r := React(mode, cfg, root, Listed(listing));
    var before := [ListCommand(root.dirs[0])] + r.Effects();
    var log := before + Exec(mode, cfg, r.root, replies).log;
    var dir := Below(root, listing.path, root.dirs[0]).dir;
    hide Below, Exec, Origin, Explores, React;
    BelowOrigin(root, listing.path, first);
    EntersExactly(mode, cfg, root, listing);
    ReactPlain(mode, cfg, root, Listed(listing));
    var later := Exec(mode, cfg, r.root, replies).log;
    EnterPlace(r, root.dirs[0], dir, later, k);
    ListingExplored(mode, cfg, root, listing, replies);
    ExploresMore(mode, cfg, r.further + later, log[k..], listing, dir);
    assert Listed(listing) in [Listed(listing)] + replies;
  }

  lemma BelowOrigin(root: Root, path: Path, first: seq<Dir>)
    requires root.dirs != [] && Origin(root.dirs[0], first)
    ensures var dir := Below(root, path, root.dirs[0]).dir;
            dir == root.dirs[0].(startDir := dir.startDir) && Origin(dir, first)
  {
  }

  lemma EnterPlace(r: Reaction, front: Dir, dir: Dir, later: seq<Effect>, k: nat)
    requires Plain(r.further) && ListCommand(dir) == ListCommand(front)
    requires k < |[ListCommand(front)] + r.Effects()| && ([ListCommand(front)] + r.Effects())[k].Enter?
    ensures var log := [ListCommand(front)] + r.Effects() + later;
            && r.entered.Some? && log[k] == Enter(r.entered.value) && AskedFor(log, k, dir)
            && forall e | e in r.further + later :: e in log[k..]
  {
    var head := [ListCommand(front)] + if r.target.Some? then [LinkTarget(r.target.value)] else [];
    var middle := if r.entered.Some? then [Enter(r.entered.value)] else [];
    var before := [ListCommand(front)] + r.Effects();
    assert before == head + middle + r.further;
    EnterIndex(head, middle, r.further, k);
    assert before + later == head + (middle + (r.further + later));
    assert (before + later)[k..] == middle + (r.further + later);
  }

  lemma EnterIndex(head: seq<Effect>, middle: seq<Effect>, further: seq<Effect>, k: nat)
    requires (forall i | 0 <= i < |head| :: !head[i].Enter?) && |middle| <= 1 && Plain(further)
    requires k < |head + middle + further| && (head + middle + further)[k].Enter?
    ensures |middle| == 1 && k == |head|
  {
    var start := |head| + |middle|;
    if k >= start {
      PlainNowhere(further, k - start);
    }
  }

  lemma OthersEnterNothing(mode: Mode, cfg: Config, root: Root, reply: Reply, k: nat)
    requires root.dirs != [] && !reply.Listed? && k < |[ListCommand(root.dirs[0])] + React(mode, cfg, root, reply).Effects()|
    ensures !([ListCommand(root.dirs[0])] + React(mode, cfg, root, reply).Effects())[k].Enter?
  {
  }

  lemma SourcedStill(mode: Mode, cfg: Config, root: Root, reply: Reply, first: seq<Dir>)
    requires root.dirs != [] && Sourced(mode, root.dirs, first) && Origin(root.dirs[0], first)
    ensures Sourced(mode, React(mode, cfg, root, reply).root.dirs, first)
  {
    hide Origin;
    match reply
    case Listed(listing) =>
      hide Below, ProcessEntries;
      var dir := Below(root, listing.path, root.dirs[0]).dir;
      FoundSourced(mode, cfg, listing, dir, first);
      MarkerSourced(mode, dir, first);
      hide Marker, Sourced;
      SourcedTail(mode, root.dirs, first);
      SourcedConcat(mode, Marker(mode, dir), root.dirs[1..], first);
      SourcedConcat(mode, ProcessEntries(mode, cfg, listing, dir).dirs, Marker(mode, dir) + root.dirs[1..], first);
      SourcedConcat(mode, [], Marker(mode, dir) + root.dirs[1..], first);
    case Failed(_) =>
      AgainOrigin(root.dirs[0], first);
    case NotDir(_) =>
    case Stopped =>
  }

  lemma AgainOrigin(dir: Dir, first: seq<Dir>)
    requires Origin(dir, first)
    ensures Origin(dir.(secondTry := true), first)
  {
  }

  lemma SourcedTail(mode: Mode, dirs: seq<Dir>, first: seq<Dir>)
    requires dirs != [] && Sourced(mode, dirs, first)
    ensures Sourced(mode, dirs[1..], first) && Sourced(mode, [], first)
  {
    hide Origin;
  }

  lemma SourcedConcat(mode: Mode, a: seq<Dir>, b: seq<Dir>, first: seq<Dir>)
    requires Sourced(mode, a, first) && Sourced(mode, b, first)
    ensures Sourced(mode, a + b, first)
  {
    hide Origin;
  }

  lemma MarkerSourced(mode: Mode, dir: Dir, first: seq<Dir>)
    ensures Sourced(mode, Marker(mode, dir), first)
  {
    hide Origin;
  }

  lemma FoundSourced(mode: Mode, cfg: Config, listing: Listing, dir: Dir, first: seq<Dir>)
    ensures Sourced(mode, ProcessEntries(mode, cfg, listing, dir).dirs, first)
  {
    DirsExactly(mode, cfg, listing.path, dir, listing.entries);
    hide EntriesWork, Origin;
    var dirs := ProcessEntries(mode, cfg, listing, dir).dirs;
    forall i | 0 <= i < |dirs| ensures Origin(dirs[i], first) {
      var subs := Select(listing.entries, Subdirs(mode, cfg, listing.path, dir));
      assert WorkFor(dirs[i], mode, cfg, listing.path, dir, subs[i]);
      FoundOrigin(dirs[i], first);
    }
  }

  lemma FoundOrigin(dir: Dir, first: seq<Dir>)
    requires dir.restricted.None? && dir.doVisit && dir.link != UserLink && (dir.recurse <==> dir.link == NoLink)
    ensures Origin(dir, first)
  {
  }

  lemma {:induction false} RunThorough(mode: Mode, cfg: Config, root: Root, replies: seq<Reply>, first: seq<Dir>)
    requires Exec(mode, cfg, root, replies).end.Done? && Sourced(mode, root.dirs, first)
    ensures AllThorough(mode, cfg, first, replies, Exec(mode, cfg, root, replies).log)
    decreases |replies|, |root.dirs|
  {
    hide React, Origin, Thorough;
    var log := Exec(mode, cfg, root, replies).log;
    if root.dirs == [] {
    } else if IsMarker(mode, root.dirs[0]) {
      var shorter := root.(dirs := root.dirs[1..]);
      var before, rest := [RemoveDir(root.dirs[0].parent, root.dirs[0].subdir)], Exec(mode, cfg, shorter, replies).log;
      RunThorough(mode, cfg, shorter, replies, first);
      assert [] + replies == replies;
      forall k | 0 <= k < |log| && log[k].Enter? ensures Thorough(mode, cfg, first, replies, log, k) {
        ThoroughLater(mode, cfg, first, replies, before, rest, k - 1, []);
      }
    } else if replies != [] && !React(mode, cfg, root, replies[0]).stop {
      StepThorough(mode, cfg, root, replies, first);
    }
  }

  lemma {:induction false} StepThorough(mode: Mode, cfg: Config, root: Root, replies: seq<Reply>, first: seq<Dir>)
    requires root.dirs != [] && !IsMarker(mode, root.dirs[0]) && replies != [] && !React(mode, cfg, root, replies[0]).stop
    requires Exec(mode, cfg, root, replies).end.Done? && Sourced(mode, root.dirs, first)
    ensures AllThorough(mode, cfg, first, replies, Exec(mode, cfg, root, replies).log)
    decreases |replies|, |root.dirs|, 0
  {
    hide React, Origin, Thorough;
    var reply, rest := replies[0], replies[1..];
    var r := React(mode, cfg, root, reply);
    var before, later := [ListCommand(root.dirs[0])] + r.Effects(), Exec(mode, cfg, r.root, rest).log;
    var log := Exec(mode, cfg, root, replies).log;
    assert log == before + later && [reply] + rest == replies;
    SourcedStill(mode, cfg, root, reply, first);
    RunThorough(mode, cfg, r.root, rest, first);
    hide Exec;
    forall k | 0 <= k < |log| && log[k].Enter? ensures Thorough(mode, cfg, first, replies, log, k) {
      if k >= |before| {
        ThoroughLater(mode, cfg, first, rest, before, later, k - |before|, [reply]);
      } else if reply.Listed? {
        ThoroughNow(mode, cfg, root, reply.listing, rest, first, k);
      } else {
        OthersEnterNothing(mode, cfg, root, reply, k);
      }
    }
  }

  /**
   * Completeness, for all replies: when a root is done, every directory that was
   * processed was asked for and answered with a listing, and after it each
   * subdirectory in that listing is listed, unless only this directory was to
   * be, and each other entry is deleted, handed on or changed as the mode has it.
   */
  lemma NothingLeftOut(mode: Mode, cfg: Config, root: Root, replies: seq<Reply>)
    requires Exec(mode, cfg, root, replies).end.Done?
    ensures AllThorough(mode, cfg, root.dirs, replies, Exec(mode, cfg, root, replies).log)
    ensures forall i | 0 <= i < |root.dirs| :: Attended(mode, root.dirs[i], Exec(mode, cfg, root, replies).log)
  {
    assert Sourced(mode, root.dirs, root.dirs) by {
      forall i | 0 <= i < |root.dirs| ensures Origin(root.dirs[i], root.dirs) {
        var d := root.dirs[i];
        assert d in root.dirs && d == d.(startDir := d.startDir, secondTry := d.secondTry);
      }
    }
    hide *;
    RunThorough(mode, cfg, root, replies, root.dirs);
    forall i | 0 <= i < |root.dirs| ensures Attended(mode, root.dirs[i], Exec(mode, cfg, root, replies).log) {
      AllAttended(mode, cfg, root, replies, i);
    }
  }

  // ----- What becomes of a directory that was asked for

  /** A directory that could not be listed is asked for once more, unless the error is critical. */
  lemma AskedAgain(mode: Mode, cfg: Config, root: Root, replies: seq<Reply>)
    requires root.dirs != [] && !root.dirs[0].secondTry && !IsMarker(mode, root.dirs[0])
    requires Exec(mode, cfg, React(mode, cfg, root, Failed(false)).root, replies).end.Done?
    ensures ListCommand(root.dirs[0]) in Exec(mode, cfg, React(mode, cfg, root, Failed(false)).root, replies).log
  {
    var r := React(mode, cfg, root, Failed(false));
    assert r.root.dirs[0] == root.dirs[0].(secondTry := true);
    AllAttended(mode, cfg, r.root, replies, 0);
  }

  /** The replies after which a directory is not asked for again, and what they say is there to be removed. */
  predicate Settles(root: Root, reply: Reply)
    requires root.dirs != []
  {
    match reply
    case Listed(listing) => MayEnter(root, root.dirs[0], listing.path)
    case Failed(critical) => critical || root.dirs[0].secondTry
    case NotDir(hasSite) => hasSite
    case Stopped => false
  }

  /**
   * In a deletion a directory that was asked for is removed in the end, whether
   * it was listed, had been processed before, is a link to a directory or could
   * not be listed; a link to no directory is deleted as a file.
   */
  lemma RemovedInTheEnd(cfg: Config, root: Root, reply: Reply, replies: seq<Reply>)
    requires root.dirs != [] && root.dirs[0].doVisit && root.dirs[0].subdir != "" && Settles(root, reply)
    requires Exec(Delete, cfg, React(Delete, cfg, root, reply).root, replies).end.Done?
    ensures var (r, dir) := (React(Delete, cfg, root, reply), root.dirs[0]);
            var log := r.Effects() + Exec(Delete, cfg, r.root, replies).log;
            (if reply.NotDir? then DeleteFiles(dir.parent, [dir.subdir]) else RemoveDir(dir.parent, dir.subdir)) in log
  {
    if !reply.NotDir? {
      var i := MarkerPushed(cfg, root, reply);
      hide React, Exec, Settles;
      AllAttended(Delete, cfg, React(Delete, cfg, root, reply).root, replies, i);
    }
  }

  lemma MarkerPushed(cfg: Config, root: Root, reply: Reply) returns (i: nat)
    requires root.dirs != [] && root.dirs[0].doVisit && root.dirs[0].subdir != "" && Settles(root, reply) && !reply.NotDir?
    ensures var dirs := React(Delete, cfg, root, reply).root.dirs;
            i < |dirs| && IsMarker(Delete, dirs[i]) && dirs[i].parent == root.dirs[0].parent && dirs[i].subdir == root.dirs[0].subdir
  {
    hide ProcessEntries;
    match reply
    case Listed(listing) =>
      var r := React(Delete, cfg, root, reply);
      i := |r.root.dirs| - |root.dirs|;
    case Failed(_) =>
      i := 0;
  }

  /** A link that is no directory is handed on as a file, in a transfer or when permissions change. */
  lemma LinkHandedOn(mode: Mode, cfg: Config, root: Root)
    requires root.dirs != [] && mode != Delete && mode != ListOnly
    ensures var (r, dir) := (React(mode, cfg, root, NotDir(true)), root.dirs[0]);
            && |r.Effects()| == 1 && r.Effects()[0].InvalidLink? && r.Effects()[0].name == dir.subdir && r.Effects()[0].path == dir.parent
            && (mode == TransferFlatten || dir.localDir == [] ==> r.Effects()[0].localDir == dir.localDir)
            && (mode != TransferFlatten && dir.localDir != [] ==>
                  exists last :: dir.localDir == r.Effects()[0].localDir + [last])
  {
    var dir := root.dirs[0];
    if dir.localDir != [] {
      assert dir.localDir == dir.localDir[..|dir.localDir| - 1] + [dir.localDir[|dir.localDir| - 1]];
    }
  }

  // ----- On a server that answers with its files

  /** What a server has at its paths, and where it says that a directory is. */
  datatype Server = Server(tree: Path -> seq<Entry>, resolve: (Path, string) -> Path)

  function Place(server: Server, dir: Dir): Path {
    server.resolve(dir.parent, dir.subdir)
  }

  /** A subdirectory that is no link is where its name says. */
  ghost predicate Honest(server: Server) {
    forall p: Path, e: Entry | e in server.tree(p) && e.isDir && !e.isLink :: server.resolve(p, e.name) == p.AddSegment(e.name)
  }

  /** All replies are the listings of what was asked for. */
  ghost predicate Answers(mode: Mode, cfg: Config, root: Root, replies: seq<Reply>, server: Server)
    decreases |replies|, |root.dirs|
  {
    if root.dirs == [] then true
    else if IsMarker(mode, root.dirs[0]) then Answers(mode, cfg, root.(dirs := root.dirs[1..]), replies, server)
    else if replies == [] then true
    else
      var place := Place(server, root.dirs[0]);
      && replies[0] == Listed(Listing(place, server.tree(place)))
      && Answers(mode, cfg, React(mode, cfg, root, replies[0]).root, replies[1..], server)
  }

  /** A directory that is going to be processed, or was. */
  predicate Due(mode: Mode, root: Root, dir: Dir, server: Server) {
    !IsMarker(mode, dir) && (dir.link == NoLink || dir.recurse) && MayEnter(root, dir, Place(server, dir))
  }

  lemma ReactVisits(mode: Mode, cfg: Config, root: Root, server: Server)
    requires root.dirs != []
    ensures var (dir, place) := (root.dirs[0], Place(server, root.dirs[0]));
            var r := React(mode, cfg, root, Listed(Listing(place, server.tree(place)))).root;
            && r.start == root.start && r.allowParent == root.allowParent && root.visited <= r.visited <= root.visited + {place}
            && (Due(mode, root, dir, server) ==> place in r.visited)
  {
    hide ProcessEntries;
  }

  /** When a root is done, all on its stack that were due were visited. */
  lemma {:induction false} DueVisited(mode: Mode, cfg: Config, root: Root, replies: seq<Reply>, server: Server, i: nat)
    requires Exec(mode, cfg, root, replies).end.Done? && Answers(mode, cfg, root, replies, server)
    requires i < |root.dirs| && Due(mode, root, root.dirs[i], server)
    ensures Place(server, root.dirs[i]) in Exec(mode, cfg, root, replies).root.visited
    decreases |replies|, |root.dirs|
  {
    hide React, MayEnter;
    if IsMarker(mode, root.dirs[0]) {
      SameBounds(root, root.(dirs := root.dirs[1..]), root.dirs[i], Place(server, root.dirs[i]));
      DueVisited(mode, cfg, root.(dirs := root.dirs[1..]), replies, server, i - 1);
    } else if replies != [] {
      var r := React(mode, cfg, root, replies[0]).root;
      ReactVisits(mode, cfg, root, server);
      EntersExactly(mode, cfg, root, replies[0].listing);
      if i == 0 {
        EachPathOnce(mode, cfg, r, replies[1..]);
      } else {
        var pushed := ReactPushes(mode, cfg, root, replies[0]);
        SameBounds(root, r, root.dirs[i], Place(server, root.dirs[i]));
        assert r.dirs[|pushed| + i - 1] == root.dirs[i];
        DueVisited(mode, cfg, r, replies[1..], server, |pushed| + i - 1);
      }
    }
  }

  lemma SameBounds(root: Root, r: Root, dir: Dir, path: Path)
    requires r.start == root.start && r.allowParent == root.allowParent
    ensures MayEnter(r, dir, path) == MayEnter(root, dir, path)
  {
  }

  /** What is descended into in every mode. */
  predicate Eligible(cfg: Config, path: Path, e: Entry) {
    !cfg.filtered(path, e) && e.isDir && !e.isLink
  }

  /** Work that is restricted neither to one entry nor to one directory. */
  predicate Open(mode: Mode, dirs: seq<Dir>) {
    forall i | 0 <= i < |dirs| :: IsMarker(mode, dirs[i]) || (dirs[i].restricted.None? && (dirs[i].recurse || dirs[i].link != NoLink))
  }

  lemma OpenStill(mode: Mode, cfg: Config, root: Root, listing: Listing)
    requires root.dirs != [] && Open(mode, root.dirs)
    ensures Open(mode, React(mode, cfg, root, Listed(listing)).root.dirs)
  {
    hide Below, ProcessEntries, Marker, Open;
    var dir, rest := Below(root, listing.path, root.dirs[0]).dir, root.dirs[1..];
    FoundOpen(mode, cfg, listing, dir);
    OpenTail(mode, root.dirs, dir);
    OpenConcat(mode, Marker(mode, dir), rest);
    OpenConcat(mode, ProcessEntries(mode, cfg, listing, dir).dirs, Marker(mode, dir) + rest);
    OpenConcat(mode, [], Marker(mode, dir) + rest);
  }

  lemma OpenConcat(mode: Mode, a: seq<Dir>, b: seq<Dir>)
    requires Open(mode, a) && Open(mode, b)
    ensures Open(mode, a + b)
  {
  }

  lemma OpenTail(mode: Mode, dirs: seq<Dir>, dir: Dir)
    requires dirs != [] && Open(mode, dirs)
    ensures Open(mode, dirs[1..]) && Open(mode, []) && Open(mode, Marker(mode, dir))
  {
  }

  lemma FoundOpen(mode: Mode, cfg: Config, listing: Listing, dir: Dir)
    ensures Open(mode, ProcessEntries(mode, cfg, listing, dir).dirs)
  {
    DirsExactly(mode, cfg, listing.path, dir, listing.entries);
    hide EntriesWork;
    var dirs := ProcessEntries(mode, cfg, listing, dir).dirs;
    forall i | 0 <= i < |dirs| ensures dirs[i].restricted.None? && (dirs[i].recurse || dirs[i].link != NoLink) {
      var subs := Select(listing.entries, Subdirs(mode, cfg, listing.path, dir));
      assert WorkFor(dirs[i], mode, cfg, listing.path, dir, subs[i]);
    }
  }

  /** An eligible subdirectory of a directory that is entered is due. */
  lemma ChildDue(mode: Mode, cfg: Config, root: Root, server: Server, e: Entry) returns (i: nat)
    requires root.dirs != [] && Honest(server) && Open(mode, root.dirs) && !IsMarker(mode, root.dirs[0])
    requires var place := Place(server, root.dirs[0]);
             && React(mode, cfg, root, Listed(Listing(place, server.tree(place)))).entered.Some?
             && e in server.tree(place) && Eligible(cfg, place, e) && place.Path?
    ensures var place := Place(server, root.dirs[0]);
            var r := React(mode, cfg, root, Listed(Listing(place, server.tree(place)))).root;
            i < |r.dirs| && Due(mode, r, r.dirs[i], server) && Place(server, r.dirs[i]) == place.AddSegment(e.name)
  {
    var place := Place(server, root.dirs[0]);
    var listing := Listing(place, server.tree(place));
    var r := React(mode, cfg, root, Listed(listing));
    var dir := Below(root, place, root.dirs[0]).dir;
    EntersExactly(mode, cfg, root, listing);
    assert dir.recurse && dir.restricted.None?;
    var w := ProcessEntries(mode, cfg, listing, dir);
    assert w.dirs <= r.root.dirs by { hide ProcessEntries, Below, Marker; }
    i := SubdirPushed(mode, cfg, listing, dir, e);
    hide ProcessEntries, React;
    assert r.root.dirs[i] == w.dirs[i];
    ReactVisits(mode, cfg, root, server);
    ChildInside(root, r.root, root.dirs[0], dir, w.dirs[i], place, e.name);
  }

  lemma SubdirPushed(mode: Mode, cfg: Config, listing: Listing, dir: Dir, e: Entry) returns (i: nat)
    requires e in listing.entries && dir.recurse && dir.restricted.None? && Eligible(cfg, listing.path, e)
    ensures var dirs := ProcessEntries(mode, cfg, listing, dir).dirs;
            && i < |dirs| && dirs[i].parent == listing.path && dirs[i].subdir == e.name && dirs[i].startDir == dir.startDir
            && dirs[i].doVisit && dirs[i].link == NoLink
  {
    DirsExactly(mode, cfg, listing.path, dir, listing.entries);
    hide EntriesWork;
    var subs := Select(listing.entries, Subdirs(mode, cfg, listing.path, dir));
    assert e in subs;
    i :| 0 <= i < |subs| && subs[i] == e;
    assert WorkFor(ProcessEntries(mode, cfg, listing, dir).dirs[i], mode, cfg, listing.path, dir, subs[i]);
  }

  lemma ChildInside(root: Root, r: Root, front: Dir, dir: Dir, child: Dir, path: Path, name: string)
    requires path.Path? && MayEnter(root, front, path) && dir == Below(root, path, front).dir
    requires r.start == root.start && r.allowParent == root.allowParent && child.startDir == dir.startDir
    ensures MayEnter(r, child, path.AddSegment(name))
  {
  }

  /** What was visited is closed: with a directory all its eligible subdirectories were visited. */
  lemma {:induction false} ClosedBelow(mode: Mode, cfg: Config, root: Root, replies: seq<Reply>, server: Server, p: Path, e: Entry)
    requires Exec(mode, cfg, root, replies).end.Done? && Answers(mode, cfg, root, replies, server)
    requires Honest(server) && Open(mode, root.dirs)
    requires p in Exec(mode, cfg, root, replies).root.visited && p !in root.visited && e in server.tree(p) && Eligible(cfg, p, e)
    ensures p.AddSegment(e.name) in Exec(mode, cfg, root, replies).root.visited
    decreases |replies|, |root.dirs|
  {
    hide React, Eligible, Due, Honest;
    if p.Path? && root.dirs != [] {
      if IsMarker(mode, root.dirs[0]) {
        ClosedBelow(mode, cfg, root.(dirs := root.dirs[1..]), replies, server, p, e);
      } else if replies != [] {
        var r := React(mode, cfg, root, replies[0]);
        ReactVisits(mode, cfg, root, server);
        EntersExactly(mode, cfg, root, replies[0].listing);
        OpenStill(mode, cfg, root, replies[0].listing);
        hide Open;
        if p !in r.root.visited {
          ClosedBelow(mode, cfg, r.root, replies[1..], server, p, e);
        } else {
          ReactVisited(mode, cfg, root, replies[0]);
          var i := ChildDue(mode, cfg, root, server, e);
          DueVisited(mode, cfg, r.root, replies[1..], server, i);
        }
      }
    }
  }

  lemma {:induction false} VisitedEntered(mode: Mode, cfg: Config, root: Root, replies: seq<Reply>, p: Path)
    requires p in Exec(mode, cfg, root, replies).root.visited && p !in root.visited
    ensures Enter(p) in Exec(mode, cfg, root, replies).log
    decreases |replies|, |root.dirs|
  {
    hide React;
    if root.dirs != [] {
      if IsMarker(mode, root.dirs[0]) {
        VisitedEntered(mode, cfg, root.(dirs := root.dirs[1..]), replies, p);
      } else if replies != [] {
        var r := React(mode, cfg, root, replies[0]);
        if !r.stop {
          ReactVisited(mode, cfg, root, replies[0]);
          if p !in r.root.visited {
            VisitedEntered(mode, cfg, r.root, replies[1..], p);
          }
        }
      }
    }
  }

  /** A way down from a path through eligible subdirectories. */
  ghost predicate Leads(cfg: Config, server: Server, p: Path, names: seq<string>)
    decreases |names|
  {
    names != [] ==>
      && (exists e | e in server.tree(p) :: e.name == names[0] && Eligible(cfg, p, e))
      && Leads(cfg, server, p.AddSegment(names[0]), names[1..])
  }

  function Along(p: Path, names: seq<string>): Path
    decreases |names|
  {
    if names == [] then p else Along(p.AddSegment(names[0]), names[1..])
  }

  lemma {:induction false} LeadsInside(mode: Mode, cfg: Config, root: Root, replies: seq<Reply>, server: Server, p: Path, names: seq<string>)
    requires Exec(mode, cfg, root, replies).end.Done? && Answers(mode, cfg, root, replies, server)
    requires Honest(server) && Open(mode, root.dirs) && root.visited == {}
    requires p in Exec(mode, cfg, root, replies).root.visited && Leads(cfg, server, p, names)
    ensures Along(p, names) in Exec(mode, cfg, root, replies).root.visited
    decreases |names|
  {
    hide Exec, Answers, Eligible, Honest, Open;
    if names != [] {
      var e :| e in server.tree(p) && e.name == names[0] && Eligible(cfg, p, e);
      ClosedBelow(mode, cfg, root, replies, server, p, e);
      LeadsInside(mode, cfg, root, replies, server, p.AddSegment(names[0]), names[1..]);
    }
  }

  /**
   * The whole tree is processed: on a server that answers with its files, when a
   * root is done that is restricted to nothing, every directory was processed
   * that is one of the chosen or is reached from there through subdirectories
   * that are neither links nor hidden by a filter.
   */
  lemma WholeTree(mode: Mode, cfg: Config, root: Root, replies: seq<Reply>, server: Server, i: nat, names: seq<string>)
    requires Exec(mode, cfg, root, replies).end.Done? && Answers(mode, cfg, root, replies, server)
    requires Honest(server) && Open(mode, root.dirs) && root.visited == {}
    requires i < |root.dirs| && Due(mode, root, root.dirs[i], server) && Leads(cfg, server, Place(server, root.dirs[i]), names)
    ensures Enter(Along(Place(server, root.dirs[i]), names)) in Exec(mode, cfg, root, replies).log
  {
    hide *;
    DueVisited(mode, cfg, root, replies, server, i);
    LeadsInside(mode, cfg, root, replies, server, Place(server, root.dirs[i]), names);
    VisitedEntered(mode, cfg, root, replies, Along(Place(server, root.dirs[i]), names));
  }
}
