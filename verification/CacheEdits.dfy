/** What the operations of the directory cache make of its listings. */
module CacheEdits {
  import opened Direntries
  import opened Options
  import opened ServerPath
  import opened CachedListing
  import opened LruList
  import opened CacheAccounts

  /** Some of the directories of one server, as the loops over its listings pick them. */
  predicate Picked(k: Key, server: nat, pick: Path -> bool) {
    k.server == server && pick(k.path)
  }

  /** An edit that puts a listing in doubt, with the number of files it adds. */
  ghost predicate Doubting(edit: Listing -> Listing, more: Listing -> int) {
    forall l :: DoubtsOne(edit, more, l)
  }

  ghost predicate DoubtsOne(edit: Listing -> Listing, more: Listing -> int, l: Listing) {
    edit(l).path == l.path && edit(l).doubts != {} && more(l) == |edit(l).files| - |l.files|
  }

  /** The listings after an edit of the picked directories, but for those still to do. */
  ghost predicate EditedAs(entries: map<Key, Listing>, before: map<Key, Listing>, server: nat, pick: Path -> bool,
                           edit: Listing -> Listing, todo: set<Key>)
  {
    && entries.Keys == before.Keys
    && forall k | k in before ::
         entries[k] == if Picked(k, server, pick) && k !in todo then edit(before[k]) else before[k]
  }

  /** The times of last use, if the picked directories but for those still to do were used since `clock`. */
  ghost predicate UsedAs(touched: map<Key, nat>, before: map<Key, nat>, clock: nat, server: nat, pick: Path -> bool,
                         keys: set<Key>, todo: set<Key>)
  {
    forall k | k in keys ::
      && k in touched && k in before
      && if Picked(k, server, pick) && k !in todo then touched[k] >= clock else touched[k] == before[k]
  }

  /** The times of last use, if exactly the given directories were used since `clock`, as far as they are still cached. */
  ghost predicate Since(touched: map<Key, nat>, before: map<Key, nat>, clock: nat, used: set<Key>, keys: set<Key>) {
    forall k | k in keys ::
      && k in touched
      && if k in used then touched[k] >= clock else k in before && touched[k] == before[k]
  }

  /** The directories of a server that are cached under a path, up to case. */
  function Nearby(entries: map<Key, Listing>, server: nat, path: Path, fold: Fold): set<Key> {
    set k | k in entries && Picked(k, server, Near(path, fold))
  }

  /** The directories that `Rename` uses once it has found the old one. */
  function RenameUses(entries: map<Key, Listing>, server: nat, pathFrom: Path, fileFrom: string, pathTo: Path, fold: Fold): set<Key>
    requires Key(server, pathFrom) in entries
  {
    if pathFrom == pathTo then Nearby(entries, server, pathFrom, fold)
    else if FindName(entries[Key(server, pathFrom)].files, fileFrom).None? then {}
    else Nearby(entries, server, pathFrom, fold) + Nearby(entries, server, pathTo, fold)
  }

  lemma SinceUsed(touched: map<Key, nat>, before: map<Key, nat>, clock: nat, server: nat, path: Path, fold: Fold,
                  cached: map<Key, Listing>, keys: set<Key>)
    requires UsedAs(touched, before, clock, server, Near(path, fold), keys, {}) && keys <= cached.Keys
    ensures Since(touched, before, clock, Nearby(cached, server, path, fold), keys)
  {
    hide Near;
  }

  lemma NearbySame(entries: map<Key, Listing>, before: map<Key, Listing>, server: nat, path: Path, fold: Fold)
    requires entries.Keys == before.Keys
    ensures Nearby(entries, server, path, fold) == Nearby(before, server, path, fold)
  {
    assert forall k :: k in entries <==> k in before.Keys;
  }

  /** Nothing but one directory is used. */
  lemma SinceTouched(t: Tables, k: Key)
    requires Accounted(t)
    ensures Since(t.touched, t.touched, t.clock, {}, t.entries.Keys)
    ensures Since(Touched(t, k).touched, t.touched, t.clock, {k}, t.entries.Keys)
  {
    hide Total;
  }

  lemma SinceFewer(touched: map<Key, nat>, before: map<Key, nat>, clock: nat, used: set<Key>, keys: set<Key>, left: set<Key>)
    requires Since(touched, before, clock, used, keys) && left <= keys
    ensures Since(touched, before, clock, used, left)
  {
  }

  /** What is not cached may as well count as used. */
  lemma SinceAbsent(touched: map<Key, nat>, before: map<Key, nat>, clock: nat, k: Key, keys: set<Key>)
    requires Since(touched, before, clock, {}, keys) && k !in keys
    ensures Since(touched, before, clock, {k}, keys)
  {
  }

  lemma EditedKeys(entries: map<Key, Listing>, before: map<Key, Listing>, server: nat, pick: Path -> bool, edit: Listing -> Listing)
    requires EditedAs(entries, before, server, pick, edit, {})
    ensures entries.Keys == before.Keys
  {
  }

  lemma ErasedKeys(entries: map<Key, Listing>, before: map<Key, Listing>, server: nat, pick: Path -> bool)
    requires ErasedAs(entries, before, server, pick, {})
    ensures entries.Keys <= before.Keys
  {
    forall k | k in entries.Keys ensures k in before.Keys {}
  }

  lemma DirRemovedKeys(entries: map<Key, Listing>, before: map<Key, Listing>, server: nat, path: Path, name: string, fold: Fold)
    requires DirRemovedAs(entries, before, server, path, name, fold)
    ensures entries.Keys <= before.Keys
  {
    forall k | k in entries.Keys ensures k in before.Keys {}
  }

  /** Directories that were not used keep their order, and come before those that were. */
  lemma SinceOrder(t: Tables, t': Tables, used: set<Key>)
    requires Accounted(t) && Accounted(t') && Since(t'.touched, t.touched, t.clock, used, t'.entries.Keys)
    requires t'.entries.Keys <= t.entries.Keys + used
    ensures t'.lru == Among(t.lru, t'.entries.Keys - used) + Among(t'.lru, used)
  {
    var rest, recent := Among(t.lru, t'.entries.Keys - used), Among(t'.lru, used);
    AmongRising(t.lru, t'.entries.Keys - used, t.touched);
    AmongRising(t'.lru, used, t'.touched);
    hide Total, Among;
    forall i | 0 <= i < |rest| ensures rest[i] in t'.touched && t'.touched[rest[i]] == t.touched[rest[i]] < t.clock {
      assert rest[i] in rest;
    }
    forall i | 0 <= i < |recent| ensures t.clock <= t'.touched[recent[i]] {
      assert recent[i] in recent;
    }
    assert Rising(rest + recent, t'.touched);
    forall k ensures k in rest + recent <==> k in t'.lru {
      assert k in t'.lru <==> k in t'.entries.Keys;
    }
    RisingUnique(rest + recent, t'.lru, t'.touched);
  }

  /** What is used in one of two stretches of time. */
  lemma SinceTwice(a: map<Key, nat>, b: map<Key, nat>, c: map<Key, nat>, clock: nat, later: nat, first: set<Key>, second: set<Key>,
                   keys: set<Key>, left: set<Key>)
    requires Since(b, a, clock, first, keys) && Since(c, b, later, second, left) && clock <= later && left <= keys
    ensures Since(c, a, clock, first + second, left)
  {
  }

  /** The listings after the picked directories were erased, but for those still to do. */
  ghost predicate ErasedAs(entries: map<Key, Listing>, before: map<Key, Listing>, server: nat, pick: Path -> bool, todo: set<Key>) {
    && (forall k :: k in entries <==> k in before && (Picked(k, server, pick) ==> k in todo))
    && forall k | k in entries :: entries[k] == before[k]
  }

  // ----- What the operations pick, and how they edit it

  function Near(path: Path, fold: Fold): Path -> bool {
    p => SimilarPaths(path, p, fold)
  }

  function AtOrBelow(path: Path, fold: Fold): Path -> bool {
    p => SimilarParent(path, p, fold, true)
  }

  /** What `RemoveDir` erases: the directory itself, and what is below it up to case. */
  function Subtree(path: Path, fold: Fold): Path -> bool {
    p => path != NoPath && (p == path || SimilarParent(path, p, fold, false))
  }

  function Anywhere(): Path -> bool {
    p => true
  }

  function Updating(name: string, mayCreate: bool, kind: Filetype, size: int, owner: string, fold: Fold): Listing -> Listing {
    (l: Listing) => Updated(l, name, mayCreate, kind, size, owner, fold)
  }

  function UpdatingAdds(name: string, mayCreate: bool, kind: Filetype): Listing -> int {
    (l: Listing) => if FindName(l.files, name).None? && kind != UnknownType && mayCreate then 1 else 0
  }

  function Removing(name: string, fold: Fold): Listing -> Listing {
    (l: Listing) => Removed(l, name, fold)
  }

  function RemovingAdds(name: string): Listing -> int {
    (l: Listing) => if FindName(l.files, name).Some? then -1 else 0
  }

  function Doubtful(name: string, fold: Fold): Listing -> Listing {
    (l: Listing) => Doubted(l, name, fold)
  }

  function Suspecting(): Listing -> Listing {
    (l: Listing) => l.(doubts := l.doubts + {Unknown})
  }

  function Nothing(): Listing -> int {
    (l: Listing) => 0
  }

  /** How names are compared: case counts on servers known to be case-sensitive. */
  function Folding(caseSensitive: bool, fold: Fold): Fold {
    if caseSensitive then s => s else fold
  }

  predicate NamesDir(files: seq<Direntry>, name: string, fold: Fold) {
    exists i | 0 <= i < |files| :: fold(files[i].name) == fold(name) && files[i].isDir
  }

  /** Whether one of the picked listings has a directory of that name. */
  predicate HasDir(entries: map<Key, Listing>, server: nat, pick: Path -> bool, name: string, fold: Fold) {
    exists k | k in entries :: Picked(k, server, pick) && NamesDir(entries[k].files, name, fold)
  }

  /** The listings after `InvalidateFile`: if the name was a directory, all from the parent on down are in doubt. */
  ghost predicate Invalidated(entries: map<Key, Listing>, before: map<Key, Listing>, server: nat, path: Path, name: string,
                              fold: Fold, childOk: bool)
  {
    var dir := childOk && HasDir(before, server, Near(path, fold), name, fold);
    && entries.Keys == before.Keys
    && forall k | k in before ::
         var l := if Picked(k, server, Near(path, fold)) then Doubted(before[k], name, fold) else before[k];
         entries[k] == if dir && Picked(k, server, AtOrBelow(path, fold)) then l.(doubts := l.doubts + {Unknown}) else l
  }

  /** The listings after `RemoveDir`. */
  ghost predicate DirRemovedAs(entries: map<Key, Listing>, before: map<Key, Listing>, server: nat, path: Path, name: string, fold: Fold) {
    && (forall k :: k in entries <==> k in before && !Picked(k, server, Subtree(path.AddSegment(name), fold)))
    && forall k | k in entries ::
         entries[k] == if Picked(k, server, Near(path, fold)) then Removed(before[k], name, fold) else before[k]
  }

  lemma InvalidatedBoth(before: map<Key, Listing>, marked: map<Key, Listing>, entries: map<Key, Listing>, server: nat, path: Path,
                        name: string, fold: Fold, childOk: bool)
    requires EditedAs(marked, before, server, Near(path, fold), Doubtful(name, fold), {})
    requires if HasDir(before, server, Near(path, fold), name, fold) && childOk
             then EditedAs(entries, marked, server, AtOrBelow(path, fold), Suspecting(), {})
             else entries == marked
    ensures Invalidated(entries, before, server, path, name, fold, childOk) && entries.Keys == marked.Keys
  {
    hide HasDir, Doubted, Near, AtOrBelow, Picked;
    assert forall l :: Doubtful(name, fold)(l) == Doubted(l, name, fold);
  }

  lemma DirRemovedBoth(before: map<Key, Listing>, left: map<Key, Listing>, entries: map<Key, Listing>, server: nat, path: Path,
                       name: string, fold: Fold)
    requires ErasedAs(left, before, server, Subtree(path.AddSegment(name), fold), {})
    requires EditedAs(entries, left, server, Near(path, fold), Removing(name, fold), {})
    ensures DirRemovedAs(entries, before, server, path, name, fold)
  {
    hide Near, Subtree, Removed, Picked;
    assert forall l :: Removing(name, fold)(l) == Removed(l, name, fold);
    assert forall k :: k in entries <==> k in left;
  }

  /** The listings after `UpdateOwnerGroup`. */
  ghost predicate OwnersUpdated(entries: map<Key, Listing>, before: map<Key, Listing>, server: nat, path: Path, name: string,
                                owner: string)
  {
    var k := Key(server, path);
    if k in before && FindName(before[k].files, name).Some? then
      var i := FindName(before[k].files, name).value;
      entries == if before[k].files[i].isDir then before else before[k := Owned(before[k], i, owner)]
    else ErasedAs(entries, before, server, Anywhere(), {})
  }

  /** The listings after `Rename`. */
  ghost predicate RenamedAs(entries: map<Key, Listing>, before: map<Key, Listing>, server: nat, pathFrom: Path, fileFrom: string,
                            pathTo: Path, fileTo: string, fold: Fold)
  {
    var k := Key(server, pathFrom);
    if k !in before then ErasedAs(entries, before, server, Anywhere(), {})
    else if pathFrom == pathTo then RenamedHere(entries, before, server, pathFrom, fileFrom, fileTo, fold)
    else
      match FindName(before[k].files, fileFrom)
      case None => entries == before
      case Some(i) => RenamedAcross(entries, before, server, pathFrom, fileFrom, pathTo, fileTo, before[k].files[i].isDir, fold)
  }

  ghost predicate RenamedHere(entries: map<Key, Listing>, before: map<Key, Listing>, server: nat, path: Path, fileFrom: string,
                              fileTo: string, fold: Fold)
  {
    var k := Key(server, path);
    exists removed: map<Key, Listing> ::
      && EditedAs(removed, before, server, Near(path, fold), Removing(fileTo, fold), {}) && k in removed
      && RenamedEntry(entries, removed, server, path, fileFrom, fileTo, fold)
  }

  ghost predicate RenamedEntry(entries: map<Key, Listing>, before: map<Key, Listing>, server: nat, path: Path, fileFrom: string,
                               fileTo: string, fold: Fold)
    requires Key(server, path) in before
  {
    var k := Key(server, path);
    match FindName(before[k].files, fileFrom)
    case None => entries == before
    case Some(i) =>
      if before[k].files[i].isDir then RenamedDir(entries, before, server, path, fileFrom, fileTo, fold)
      else entries == before[k := Renamed(before[k], i, fileTo)]
  }

  ghost predicate RenamedDir(entries: map<Key, Listing>, before: map<Key, Listing>, server: nat, path: Path, fileFrom: string,
                             fileTo: string, fold: Fold)
  {
    exists first: map<Key, Listing>, second: map<Key, Listing> ::
      && DirRemovedAs(first, before, server, path, fileFrom, fold)
      && DirRemovedAs(second, first, server, path, fileTo, fold)
      && EditedAs(entries, second, server, Near(path, fold), Updating(fileTo, true, Directory, -1, "", fold), {})
  }

  ghost predicate RenamedAcross(entries: map<Key, Listing>, before: map<Key, Listing>, server: nat, pathFrom: Path, fileFrom: string,
                                pathTo: Path, fileTo: string, dir: bool, fold: Fold)
  {
    exists removed: map<Key, Listing> ::
      && (if dir then DirRemovedAs(removed, before, server, pathFrom, fileFrom, fold)
          else EditedAs(removed, before, server, Near(pathFrom, fold), Removing(fileFrom, fold), {}))
      && EditedAs(entries, removed, server, Near(pathTo, fold),
                  Updating(fileTo, true, if dir then Directory else File, -1, "", fold), {})
  }

  lemma RemovedAt(removed: map<Key, Listing>, before: map<Key, Listing>, server: nat, path: Path, name: string, fold: Fold)
    requires EditedAs(removed, before, server, Near(path, fold), Removing(name, fold), {})
    requires Key(server, path) in before && before[Key(server, path)].path == path
    ensures Key(server, path) in removed && removed[Key(server, path)].path == path
    ensures removed[Key(server, path)].doubts != {}
  {
    assert Picked(Key(server, path), server, Near(path, fold));
  }

  // ----- Turns of the loops

  lemma EditedStep(entries: map<Key, Listing>, before: map<Key, Listing>, server: nat, pick: Path -> bool,
                   edit: Listing -> Listing, todo: set<Key>, k: Key)
    requires EditedAs(entries, before, server, pick, edit, todo) && k in todo && k in entries && k.server == server
    ensures EditedAs(if pick(k.path) then entries[k := edit(entries[k])] else entries, before, server, pick, edit, todo - {k})
  {
  }

  lemma UsedStep(touched: map<Key, nat>, before: map<Key, nat>, start: nat, clock: nat, server: nat, pick: Path -> bool,
                 keys: set<Key>, todo: set<Key>, k: Key)
    requires UsedAs(touched, before, start, server, pick, keys, todo) && k in todo && k.server == server && clock >= start
    ensures UsedAs(if pick(k.path) then touched[k := clock] else touched, before, start, server, pick, keys, todo - {k})
  {
  }

  lemma ErasedStep(entries: map<Key, Listing>, before: map<Key, Listing>, server: nat, pick: Path -> bool, todo: set<Key>, k: Key)
    requires ErasedAs(entries, before, server, pick, todo) && k in todo && k.server == server
    ensures ErasedAs(if pick(k.path) then entries - {k} else entries, before, server, pick, todo - {k})
  {
  }

  lemma DoubtsEach(edit: Listing -> Listing, more: Listing -> int, l: Listing)
    requires Doubting(edit, more)
    ensures DoubtsOne(edit, more, l)
  {
  }

  lemma ListedTimes(t: Tables)
    requires Accounted(t)
    ensures forall k | k in t.entries :: k in t.touched
  {
  }

  // ----- The edits

  lemma UpdatingDoubts(name: string, mayCreate: bool, kind: Filetype, size: int, owner: string, fold: Fold)
    ensures Doubting(Updating(name, mayCreate, kind, size, owner, fold), UpdatingAdds(name, mayCreate, kind))
  {
  }

  lemma RemovingDoubts(name: string, fold: Fold)
    ensures Doubting(Removing(name, fold), RemovingAdds(name))
  {
  }

  lemma DoubtfulDoubts(name: string, fold: Fold)
    ensures Doubting(Doubtful(name, fold), Nothing())
  {
  }

  lemma SuspectingDoubts()
    ensures Doubting(Suspecting(), Nothing())
  {
  }

  // ----- Sets of keys

  lemma KeysOfOneMore(s: seq<Key>, n: nat)
    requires n < |s|
    ensures KeysOf(s[..n + 1]) == KeysOf(s[..n]) + {s[n]}
  {
    assert s[..n + 1] == s[..n] + [s[n]];
  }

  lemma NotListed(t: Tables, k: Key)
    requires Accounted(t) && k !in t.entries
    ensures k !in t.lru
  {
  }

  /** A directory just stored is the last to leave, and the cache is never pruned to nothing. */
  lemma LastStays(s: seq<Key>, k: Key, n: nat, entries: map<Key, Listing>, l: Listing)
    requires n <= |s| + 1 && k !in s && (n > 0 ==> |s| + 1 - n >= 1)
    ensures n <= |s| && (s + [k])[n..] == s[n..] + [k]
    ensures entries[k := l] - KeysOf((s + [k])[..n]) == (entries - KeysOf(s[..n]))[k := l]
  {
    assert (s + [k])[..n] == s[..n];
  }
}
