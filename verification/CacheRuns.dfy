/**
 * Whole runs of the directory cache: a listing it hands out without doubts is
 * the one last stored for that directory, but for owners, and nothing that was
 * reported since then changed the directory.
 */
module CacheRuns {
  import opened Options
  import opened ServerPath
  import opened CachedListing
  import opened LruList
  import opened CacheAccounts
  import opened CacheEdits
  import opened DirectoryCache

  datatype Operation =
    | Store(server: nat, listing: Listing)
    | Lookup(server: nat, path: Path, allowDoubts: bool)
    | UpdateFile(server: nat, path: Path, name: string, mayCreate: bool, kind: Filetype, size: int, owner: string)
    | RemoveFile(server: nat, path: Path, name: string)
    | InvalidateFile(server: nat, path: Path, name: string, caseSensitive: bool, childOk: bool)
    | RemoveDir(server: nat, path: Path, name: string)
    | Rename(server: nat, path: Path, name: string, pathTo: Path, nameTo: string)
    | UpdateOwnerGroup(server: nat, path: Path, name: string, owner: string)
    | InvalidateServer(server: nat)

  /** The report of a change in directory `k`. A move between directories is one only where the cache can tell; see `RenameTrust`. */
  predicate Affects(op: Operation, k: Key, fold: Fold) {
    match op
    case UpdateFile(server, path, _, _, _, _, _) => Picked(k, server, Near(path, fold))
    case RemoveFile(server, path, _) => Picked(k, server, Near(path, fold))
    case InvalidateFile(server, path, _, caseSensitive, _) => Picked(k, server, Near(path, Folding(caseSensitive, fold)))
    case RemoveDir(server, path, name) =>
      Picked(k, server, Near(path, fold)) || Picked(k, server, Subtree(path.AddSegment(name), fold))
    case Rename(server, path, _, pathTo, _) => path == pathTo && k == Key(server, path)
    case InvalidateServer(server) => k.server == server
    case _ => false
  }

  /** What was last stored for a directory, unless a change in it was reported since. */
  function Known(ops: seq<Operation>, k: Key, fold: Fold): Option<Listing> {
    if ops == [] then None
    else
      var op := ops[|ops| - 1];
      if op.Store? && Key(op.server, op.listing.path) == k then Some(op.listing)
      else if Affects(op, k, fold) then None
      else Known(ops[..|ops| - 1], k, fold)
  }

  /** What a single operation may do to the directories that are not in doubt after it. */
  ghost predicate Coherent(op: Operation, before: map<Key, Listing>, after: map<Key, Listing>, fold: Fold) {
    forall k | k in after && after[k].doubts == {} :: CoherentAt(op, before, after[k], k, fold)
  }

  ghost predicate CoherentAt(op: Operation, before: map<Key, Listing>, l: Listing, k: Key, fold: Fold) {
    if op.Store? && Key(op.server, op.listing.path) == k then l == op.listing
    else !Affects(op, k, fold) && k in before && SameButOwners(l, before[k])
  }

  /** Listings that are not in doubt are the known ones, but for owners. */
  ghost predicate Remembers(ops: seq<Operation>, entries: map<Key, Listing>, fold: Fold) {
    forall k | k in entries && entries[k].doubts == {} :: RemembersAt(ops, entries[k], k, fold)
  }

  ghost predicate RemembersAt(ops: seq<Operation>, l: Listing, k: Key, fold: Fold) {
    Known(ops, k, fold).Some? && SameButOwners(l, Known(ops, k, fold).value)
  }

  // ----- Single operations

  lemma KeptAll(op: Operation, before: map<Key, Listing>, after: map<Key, Listing>, fold: Fold)
    requires !op.Store? && forall k | k in after :: k in before && (after[k].doubts == {} ==> SameButOwners(after[k], before[k]))
    requires forall k | k in after && Affects(op, k, fold) :: after[k].doubts != {}
    ensures Coherent(op, before, after, fold)
  {
  }

  lemma EditedCoherent(op: Operation, before: map<Key, Listing>, after: map<Key, Listing>, pick: Path -> bool,
                       edit: Listing -> Listing, more: Listing -> int, fold: Fold)
    requires EditedAs(after, before, op.server, pick, edit, {}) && Doubting(edit, more) && !op.Store?
    requires forall k | k in before && Affects(op, k, fold) :: Picked(k, op.server, pick)
    ensures Coherent(op, before, after, fold)
  {
    forall k | k in before && Picked(k, op.server, pick) ensures after[k].doubts != {} {
      assert DoubtsOne(edit, more, before[k]);
    }
    hide Affects, Picked, Doubting;
    KeptAll(op, before, after, fold);
  }

  lemma InvalidatedCoherent(op: Operation, before: map<Key, Listing>, after: map<Key, Listing>, fold: Fold)
    requires op.InvalidateFile?
    requires Invalidated(after, before, op.server, op.path, op.name, Folding(op.caseSensitive, fold), op.childOk)
    ensures Coherent(op, before, after, fold)
  {
    var folding := Folding(op.caseSensitive, fold);
    forall k | k in before
      ensures Affects(op, k, fold) ==> after[k].doubts != {}
      ensures after[k].doubts == {} ==> SameButOwners(after[k], before[k])
    {
      hide Near, AtOrBelow, HasDir;
    }
    hide Invalidated, Affects;
    KeptAll(op, before, after, fold);
  }

  lemma DirRemovedCoherent(op: Operation, before: map<Key, Listing>, after: map<Key, Listing>, fold: Fold)
    requires op.RemoveDir? && DirRemovedAs(after, before, op.server, op.path, op.name, fold)
    ensures Coherent(op, before, after, fold)
  {
    hide Near, Subtree;
    KeptAll(op, before, after, fold);
  }

  lemma ErasedCoherent(op: Operation, before: map<Key, Listing>, after: map<Key, Listing>, fold: Fold)
    requires !op.Store? && ErasedAs(after, before, op.server, Anywhere(), {})
    requires forall k | Affects(op, k, fold) :: k.server == op.server
    ensures Coherent(op, before, after, fold)
  {
    forall k | k in after ensures k in before && k.server != op.server && after[k] == before[k] {
      assert !Picked(k, op.server, Anywhere());
    }
    KeptAll(op, before, after, fold);
  }

  lemma OwnersCoherent(op: Operation, before: map<Key, Listing>, after: map<Key, Listing>, fold: Fold)
    requires op.UpdateOwnerGroup? && OwnersUpdated(after, before, op.server, op.path, op.name, op.owner)
    ensures Coherent(op, before, after, fold)
  {
    var k := Key(op.server, op.path);
    if k in before && FindName(before[k].files, op.name).Some? {
      KeptAll(op, before, after, fold);
    } else {
      ErasedCoherent(op, before, after, fold);
    }
  }

  lemma UpdatedCoherent(op: Operation, before: map<Key, Listing>, after: map<Key, Listing>, fold: Fold)
    requires op.UpdateFile?
    requires EditedAs(after, before, op.server, Near(op.path, fold),
                      Updating(op.name, op.mayCreate, op.kind, op.size, op.owner, fold), {})
    ensures Coherent(op, before, after, fold)
  {
    UpdatingDoubts(op.name, op.mayCreate, op.kind, op.size, op.owner, fold);
    hide EditedAs, Doubting, Coherent;
    EditedCoherent(op, before, after, Near(op.path, fold), Updating(op.name, op.mayCreate, op.kind, op.size, op.owner, fold),
                   UpdatingAdds(op.name, op.mayCreate, op.kind), fold);
  }

  lemma RemovedCoherent(op: Operation, before: map<Key, Listing>, after: map<Key, Listing>, fold: Fold)
    requires op.RemoveFile? && EditedAs(after, before, op.server, Near(op.path, fold), Removing(op.name, fold), {})
    ensures Coherent(op, before, after, fold)
  {
    RemovingDoubts(op.name, fold);
    hide EditedAs, Doubting, Coherent;
    EditedCoherent(op, before, after, Near(op.path, fold), Removing(op.name, fold), RemovingAdds(op.name), fold);
  }

  lemma StoredCoherent(op: Operation, t: Tables, t': Tables, fold: Fold)
    requires op.Store? && StoredAs(t, t', Key(op.server, op.listing.path), op.listing)
    ensures Coherent(op, t.entries, t'.entries, fold)
  {
    hide Excess, Total, KeysOf;
  }

  lemma LookupCoherent(op: Operation, entries: map<Key, Listing>, fold: Fold)
    requires op.Lookup?
    ensures Coherent(op, entries, entries, fold)
  {
  }

  lemma ServerCoherent(op: Operation, before: map<Key, Listing>, after: map<Key, Listing>, fold: Fold)
    requires op.InvalidateServer? && ErasedAs(after, before, op.server, Anywhere(), {})
    ensures Coherent(op, before, after, fold)
  {
    hide ErasedAs;
    ErasedCoherent(op, before, after, fold);
  }

  // ----- Renaming

  /** Directories only left the cache, fell in doubt or changed owners. */
  ghost predicate Kept(after: map<Key, Listing>, before: map<Key, Listing>) {
    forall k | k in after :: KeptAt(after[k], before, k)
  }

  ghost predicate KeptAt(l: Listing, before: map<Key, Listing>, k: Key) {
    k in before && (l.doubts == {} ==> SameButOwners(l, before[k]))
  }

  predicate Untrusted(entries: map<Key, Listing>, k: Key) {
    k in entries ==> entries[k].doubts != {}
  }

  lemma KeptTrans(a: map<Key, Listing>, b: map<Key, Listing>, c: map<Key, Listing>)
    requires Kept(b, a) && Kept(c, b)
    ensures Kept(c, a)
  {
    forall k | k in c ensures KeptAt(c[k], a, k) {
      assert KeptAt(c[k], b, k) && KeptAt(b[k], a, k);
      if c[k].doubts == {} {
        OwnersTrans(c[k], b[k], a[k]);
      }
    }
  }

  lemma KeptUntrusted(after: map<Key, Listing>, before: map<Key, Listing>, k: Key)
    requires Kept(after, before) && Untrusted(before, k)
    ensures Untrusted(after, k)
  {
    assert k in after ==> KeptAt(after[k], before, k);
  }

  lemma UpdatedKept(after: map<Key, Listing>, before: map<Key, Listing>, server: nat, path: Path, name: string, kind: Filetype, fold: Fold)
    requires EditedAs(after, before, server, Near(path, fold), Updating(name, true, kind, -1, "", fold), {})
    ensures Kept(after, before) && Untrusted(after, Key(server, path))
  {
    forall l ensures Updating(name, true, kind, -1, "", fold)(l).doubts != {} {}
    assert Picked(Key(server, path), server, Near(path, fold));
    hide Updating, Near;
  }

  lemma RemovedKept(after: map<Key, Listing>, before: map<Key, Listing>, server: nat, path: Path, name: string, fold: Fold)
    requires EditedAs(after, before, server, Near(path, fold), Removing(name, fold), {})
    ensures Kept(after, before) && Untrusted(after, Key(server, path))
  {
    forall l ensures Removing(name, fold)(l).doubts != {} {}
    assert Picked(Key(server, path), server, Near(path, fold));
    hide Removing, Near;
  }

  lemma DirRemovedKept(after: map<Key, Listing>, before: map<Key, Listing>, server: nat, path: Path, name: string, fold: Fold)
    requires DirRemovedAs(after, before, server, path, name, fold)
    ensures Kept(after, before) && Untrusted(after, Key(server, path))
  {
    assert Picked(Key(server, path), server, Near(path, fold));
    hide Near, Subtree;
  }

  lemma RenamedHereKept(after: map<Key, Listing>, before: map<Key, Listing>, server: nat, path: Path, fileFrom: string,
                        fileTo: string, fold: Fold)
    requires RenamedHere(after, before, server, path, fileFrom, fileTo, fold)
    ensures Kept(after, before) && Untrusted(after, Key(server, path))
  {
    hide EditedAs, RenamedDir, FindName, Renamed;
    var k := Key(server, path);
    var removed: map<Key, Listing> :|
      && EditedAs(removed, before, server, Near(path, fold), Removing(fileTo, fold), {}) && k in removed
      && RenamedEntry(after, removed, server, path, fileFrom, fileTo, fold);
    RemovedKept(removed, before, server, path, fileTo, fold);
    if RenamedDir(after, removed, server, path, fileFrom, fileTo, fold) {
      RenamedDirKept(after, removed, server, path, fileFrom, fileTo, fold);
    }
    assert Kept(after, removed);
    KeptTrans(before, removed, after);
    KeptUntrusted(after, removed, k);
  }

  lemma RenamedDirKept(after: map<Key, Listing>, before: map<Key, Listing>, server: nat, path: Path, fileFrom: string,
                       fileTo: string, fold: Fold)
    requires RenamedDir(after, before, server, path, fileFrom, fileTo, fold)
    ensures Kept(after, before)
  {
    hide EditedAs, DirRemovedAs;
    var first: map<Key, Listing>, second: map<Key, Listing> :|
      && DirRemovedAs(first, before, server, path, fileFrom, fold)
      && DirRemovedAs(second, first, server, path, fileTo, fold)
      && EditedAs(after, second, server, Near(path, fold), Updating(fileTo, true, Directory, -1, "", fold), {});
    hide Kept;
    DirRemovedKept(first, before, server, path, fileFrom, fold);
    DirRemovedKept(second, first, server, path, fileTo, fold);
    UpdatedKept(after, second, server, path, fileTo, Directory, fold);
    KeptTrans(before, first, second);
    KeptTrans(before, second, after);
  }

  lemma RenamedAcrossKept(after: map<Key, Listing>, before: map<Key, Listing>, server: nat, pathFrom: Path, fileFrom: string,
                          pathTo: Path, fileTo: string, dir: bool, fold: Fold)
    requires RenamedAcross(after, before, server, pathFrom, fileFrom, pathTo, fileTo, dir, fold)
    ensures Kept(after, before) && Untrusted(after, Key(server, pathFrom)) && Untrusted(after, Key(server, pathTo))
  {
    hide EditedAs, DirRemovedAs;
    var removed: map<Key, Listing> :|
      && (if dir then DirRemovedAs(removed, before, server, pathFrom, fileFrom, fold)
          else EditedAs(removed, before, server, Near(pathFrom, fold), Removing(fileFrom, fold), {}))
      && EditedAs(after, removed, server, Near(pathTo, fold),
                  Updating(fileTo, true, if dir then Directory else File, -1, "", fold), {});
    hide Kept, Untrusted;
    if dir {
      DirRemovedKept(removed, before, server, pathFrom, fileFrom, fold);
    } else {
      RemovedKept(removed, before, server, pathFrom, fileFrom, fold);
    }
    UpdatedKept(after, removed, server, pathTo, fileTo, if dir then Directory else File, fold);
    KeptTrans(before, removed, after);
    KeptUntrusted(after, removed, Key(server, pathFrom));
  }

  /** The one case in which `Rename` changes nothing: the old directory is cached, without the file, and the new one is another. */
  predicate Missed(before: map<Key, Listing>, server: nat, pathFrom: Path, fileFrom: string, pathTo: Path) {
    && pathFrom != pathTo && Key(server, pathFrom) in before
    && FindName(before[Key(server, pathFrom)].files, fileFrom).None?
  }

  /** A renaming leaves neither directory trusted exactly if it is not missed, or neither was trusted before. */
  lemma RenameTrust(after: map<Key, Listing>, before: map<Key, Listing>, server: nat, pathFrom: Path, fileFrom: string,
                    pathTo: Path, fileTo: string, fold: Fold)
    requires RenamedAs(after, before, server, pathFrom, fileFrom, pathTo, fileTo, fold)
    ensures Kept(after, before)
    ensures Untrusted(after, Key(server, pathFrom)) && Untrusted(after, Key(server, pathTo))
            <==> (Missed(before, server, pathFrom, fileFrom, pathTo) ==>
                    Untrusted(before, Key(server, pathFrom)) && Untrusted(before, Key(server, pathTo)))
  {
    hide RenamedHere, RenamedAcross;
    var k := Key(server, pathFrom);
    if k !in before {
      assert forall x | x in after :: x.server != server by {
        forall x | x in after ensures x.server != server {
          assert !Picked(x, server, Anywhere());
        }
      }
    } else if pathFrom == pathTo {
      RenamedHereKept(after, before, server, pathFrom, fileFrom, fileTo, fold);
    } else if FindName(before[k].files, fileFrom).Some? {
      var i := FindName(before[k].files, fileFrom).value;
      RenamedAcrossKept(after, before, server, pathFrom, fileFrom, pathTo, fileTo, before[k].files[i].isDir, fold);
    }
  }

  lemma RenamedCoherent(op: Operation, before: map<Key, Listing>, after: map<Key, Listing>, fold: Fold)
    requires op.Rename? && RenamedAs(after, before, op.server, op.path, op.name, op.pathTo, op.nameTo, fold)
    ensures Coherent(op, before, after, fold)
  {
    RenameTrust(after, before, op.server, op.path, op.name, op.pathTo, op.nameTo, fold);
    hide RenamedAs;
    forall k | k in after ensures KeptAt(after[k], before, k) {}
    hide SameButOwners, FindName;
    KeptAll(op, before, after, fold);
  }

  /** The one case in which `Rename` changes nothing, at its smallest: the new directory is still trusted. */
  lemma RenameMissed(before: map<Key, Listing>, after: map<Key, Listing>, a: Path, b: Path, fold: Fold)
    requires a == Path(0, "", ["a"]) && b == Path(0, "", ["b"])
    requires before == map[Key(0, a) := Listing(a, [], {}, 0), Key(0, b) := Listing(b, [], {}, 0)]
    requires RenamedAs(after, before, 0, a, "x", b, "x", fold)
    ensures after == before && !Untrusted(after, Key(0, b))
  {
    hide RenamedHere, RenamedAcross;
  }

  // ----- Runs

  /** What an operation makes of the cache's tables. */
  ghost predicate Stepped(op: Operation, t: Tables, t': Tables, fold: Fold) {
    && Accounted(t') && t'.clock >= t.clock
    && match op
       case Store(server, listing) => StoredAs(t, t', Key(server, listing.path), listing)
       case Lookup(server, path, _) => t' == if Key(server, path) in t.entries then Touched(t, Key(server, path)) else t
       case UpdateFile(server, path, name, mayCreate, kind, size, owner) =>
         && EditedAs(t'.entries, t.entries, server, Near(path, fold), Updating(name, mayCreate, kind, size, owner, fold), {})
         && UsedAs(t'.touched, t.touched, t.clock, server, Near(path, fold), t'.entries.Keys, {})
       case RemoveFile(server, path, name) =>
         && EditedAs(t'.entries, t.entries, server, Near(path, fold), Removing(name, fold), {})
         && UsedAs(t'.touched, t.touched, t.clock, server, Near(path, fold), t'.entries.Keys, {})
       case InvalidateFile(server, path, name, caseSensitive, childOk) =>
         && Invalidated(t'.entries, t.entries, server, path, name, Folding(caseSensitive, fold), childOk)
         && UsedAs(t'.touched, t.touched, t.clock, server, Near(path, Folding(caseSensitive, fold)), t'.entries.Keys, {})
       case RemoveDir(server, path, name) =>
         && DirRemovedAs(t'.entries, t.entries, server, path, name, fold)
         && UsedAs(t'.touched, t.touched, t.clock, server, Near(path, fold), t'.entries.Keys, {})
       case Rename(server, path, name, pathTo, nameTo) =>
         && RenamedAs(t'.entries, t.entries, server, path, name, pathTo, nameTo, fold)
         && t'.entries.Keys <= t.entries.Keys
         && if Key(server, path) in t.entries then
              Since(t'.touched, t.touched[Key(server, path) := t.clock], t.clock + 1,
                    RenameUses(t.entries, server, path, name, pathTo, fold), t'.entries.Keys)
            else t'.touched == t.touched
       case UpdateOwnerGroup(server, path, name, owner) =>
         && OwnersUpdated(t'.entries, t.entries, server, path, name, owner)
         && t'.touched == if Key(server, path) in t.entries then t.touched[Key(server, path) := t.clock] else t.touched
       case InvalidateServer(server) =>
         ErasedAs(t'.entries, t.entries, server, Anywhere(), {}) && t'.touched == t.touched
  }

  /** The answer to a lookup: the cached listing, unless it is in doubt and doubts are not wanted. */
  function AnswerTo(op: Operation, entries: map<Key, Listing>): Option<Listing> {
    if op.Lookup? && Key(op.server, op.path) in entries && (op.allowDoubts || entries[Key(op.server, op.path)].doubts == {})
    then Some(entries[Key(op.server, op.path)]) else None
  }

  const Empty := Tables([], map[], 0, map[], 0)

  /** A run of the cache from its beginning: its tables after every operation. */
  ghost predicate IsRun(states: seq<Tables>, ops: seq<Operation>, fold: Fold) {
    && |states| == |ops| + 1 && states[0] == Empty
    && forall i | 0 <= i < |ops| :: Stepped(ops[i], states[i], states[i + 1], fold)
  }

  lemma SteppedCoherent(op: Operation, t: Tables, t': Tables, fold: Fold)
    requires Stepped(op, t, t', fold)
    ensures Coherent(op, t.entries, t'.entries, fold)
  {
    hide Accounted, EditedAs, ErasedAs, Invalidated, DirRemovedAs, RenamedAs, OwnersUpdated, UsedAs, StoredAs, Coherent;
    match op
    case Store(_, _) => StoredCoherent(op, t, t', fold);
    case Lookup(_, _, _) => LookupCoherent(op, t.entries, fold);
    case UpdateFile(_, _, _, _, _, _, _) => UpdatedCoherent(op, t.entries, t'.entries, fold);
    case RemoveFile(_, _, _) => RemovedCoherent(op, t.entries, t'.entries, fold);
    case InvalidateFile(_, _, _, _, _) => InvalidatedCoherent(op, t.entries, t'.entries, fold);
    case RemoveDir(_, _, _) => DirRemovedCoherent(op, t.entries, t'.entries, fold);
    case Rename(_, _, _, _, _) => RenamedCoherent(op, t.entries, t'.entries, fold);
    case UpdateOwnerGroup(_, _, _, _) => OwnersCoherent(op, t.entries, t'.entries, fold);
    case InvalidateServer(_) => ServerCoherent(op, t.entries, t'.entries, fold);
  }

  lemma RunStep(states: seq<Tables>, ops: seq<Operation>, fold: Fold, i: nat)
    requires IsRun(states, ops, fold) && i < |ops|
    ensures |states| == |ops| + 1 && Stepped(ops[i], states[i], states[i + 1], fold)
  {
    hide Stepped;
  }

  lemma {:induction false} RunRemembers(states: seq<Tables>, ops: seq<Operation>, fold: Fold, n: nat)
    requires IsRun(states, ops, fold) && n <= |ops|
    ensures Remembers(ops[..n], states[n].entries, fold)
  {
    if n > 0 {
      hide *;
      RunStep(states, ops, fold, n - 1);
      RunRemembers(states, ops, fold, n - 1);
      SteppedCoherent(ops[n - 1], states[n - 1], states[n], fold);
      RemembersStep(ops, n - 1, states[n - 1].entries, states[n].entries, fold);
    }
  }

  /**
   * Every run: an answer given to one who wants no doubts has none, and is what
   * was last stored there, but for owners, with no change reported since.
   */
  lemma TrustedAnswers(states: seq<Tables>, ops: seq<Operation>, fold: Fold, i: nat)
    requires IsRun(states, ops, fold) && i < |ops| && ops[i].Lookup? && !ops[i].allowDoubts
    requires AnswerTo(ops[i], states[i].entries).Some?
    ensures var l, k := AnswerTo(ops[i], states[i].entries).value, Key(ops[i].server, ops[i].path);
            l.doubts == {} && Known(ops[..i], k, fold).Some? && SameButOwners(l, Known(ops[..i], k, fold).value)
  {
    hide Stepped, Known, SameButOwners;
    RunRemembers(states, ops, fold, i);
    var k := Key(ops[i].server, ops[i].path);
    assert RemembersAt(ops[..i], states[i].entries[k], k, fold);
  }

  // ----- The order of last use

  /** The directories that an operation uses, as far as they are cached. */
  function UsedBy(op: Operation, entries: map<Key, Listing>, fold: Fold): set<Key> {
    match op
    case Store(server, listing) => {Key(server, listing.path)}
    case Lookup(server, path, _) => {Key(server, path)}
    case UpdateFile(server, path, _, _, _, _, _) => Nearby(entries, server, path, fold)
    case RemoveFile(server, path, _) => Nearby(entries, server, path, fold)
    case InvalidateFile(server, path, _, caseSensitive, _) => Nearby(entries, server, path, Folding(caseSensitive, fold))
    case RemoveDir(server, path, _) => Nearby(entries, server, path, fold)
    case Rename(server, path, name, pathTo, _) =>
      if Key(server, path) in entries then {Key(server, path)} + RenameUses(entries, server, path, name, pathTo, fold) else {}
    case UpdateOwnerGroup(server, path, _, _) => {Key(server, path)}
    case InvalidateServer(_) => {}
  }

  lemma StoredSince(t: Tables, t': Tables, k: Key, l: Listing)
    requires Accounted(t) && StoredAs(t, t', k, l)
    ensures Since(t'.touched, t.touched, t.clock, {k}, t'.entries.Keys) && t'.entries.Keys <= t.entries.Keys + {k}
  {
    hide Total, Excess, KeysOf, Without;
  }

  lemma OwnersSince(t: Tables, t': Tables, server: nat, path: Path, name: string, owner: string)
    requires Accounted(t) && OwnersUpdated(t'.entries, t.entries, server, path, name, owner)
    requires t'.touched == if Key(server, path) in t.entries then t.touched[Key(server, path) := t.clock] else t.touched
    ensures Since(t'.touched, t.touched, t.clock, {Key(server, path)}, t'.entries.Keys) && t'.entries.Keys <= t.entries.Keys
  {
    var k := Key(server, path);
    forall x | x in t'.entries ensures x in t.entries {}
    ListedTimes(t);
    hide Accounted;
  }

  lemma InvalidatedKeys(entries: map<Key, Listing>, before: map<Key, Listing>, server: nat, path: Path, name: string, fold: Fold, childOk: bool)
    requires Invalidated(entries, before, server, path, name, fold, childOk)
    ensures entries.Keys == before.Keys
  {
  }

  /** Exactly the directories that an operation uses are used. */
  lemma SteppedSince(op: Operation, t: Tables, t': Tables, fold: Fold)
    requires Accounted(t) && Stepped(op, t, t', fold)
    ensures Since(t'.touched, t.touched, t.clock, UsedBy(op, t.entries, fold), t'.entries.Keys)
    ensures t'.entries.Keys <= t.entries.Keys + UsedBy(op, t.entries, fold)
  {
    hide Accounted, EditedAs, ErasedAs, Invalidated, DirRemovedAs, RenamedAs, OwnersUpdated, UsedAs, StoredAs, Since, Nearby, RenameUses;
    match op
    case Store(server, listing) =>
      StoredSince(t, t', Key(server, listing.path), listing);
    case Lookup(server, path, _) =>
      SinceTouched(t, Key(server, path));
      if Key(server, path) !in t.entries {
        SinceAbsent(t.touched, t.touched, t.clock, Key(server, path), t.entries.Keys);
      }
    case UpdateFile(server, path, name, mayCreate, kind, size, owner) =>
      EditedKeys(t'.entries, t.entries, server, Near(path, fold), Updating(name, mayCreate, kind, size, owner, fold));
      SinceUsed(t'.touched, t.touched, t.clock, server, path, fold, t.entries, t'.entries.Keys);
    case RemoveFile(server, path, name) =>
      EditedKeys(t'.entries, t.entries, server, Near(path, fold), Removing(name, fold));
      SinceUsed(t'.touched, t.touched, t.clock, server, path, fold, t.entries, t'.entries.Keys);
    case InvalidateFile(server, path, name, caseSensitive, childOk) =>
      InvalidatedKeys(t'.entries, t.entries, server, path, name, Folding(caseSensitive, fold), childOk);
      SinceUsed(t'.touched, t.touched, t.clock, server, path, Folding(caseSensitive, fold), t.entries, t'.entries.Keys);
    case RemoveDir(server, path, name) =>
      DirRemovedKeys(t'.entries, t.entries, server, path, name, fold);
      SinceUsed(t'.touched, t.touched, t.clock, server, path, fold, t.entries, t'.entries.Keys);
    case Rename(server, path, name, pathTo, _) =>
      var k := Key(server, path);
      SinceTouched(t, k);
      if k in t.entries {
        SinceTwice(t.touched, t.touched[k := t.clock], t'.touched, t.clock, t.clock + 1, {k},
                   RenameUses(t.entries, server, path, name, pathTo, fold), t.entries.Keys, t'.entries.Keys);
      } else {
        SinceFewer(t.touched, t.touched, t.clock, {}, t.entries.Keys, t'.entries.Keys);
      }
    case UpdateOwnerGroup(server, path, name, owner) =>
      OwnersSince(t, t', server, path, name, owner);
    case InvalidateServer(server) =>
      ErasedKeys(t'.entries, t.entries, server, Anywhere());
      SinceTouched(t, Key(server, NoPath));
      SinceFewer(t.touched, t.touched, t.clock, {}, t.entries.Keys, t'.entries.Keys);
  }

  /** After an operation the directories it did not use are in the order they had, before those it used. */
  lemma StepOrder(op: Operation, t: Tables, t': Tables, fold: Fold)
    requires Accounted(t) && Stepped(op, t, t', fold)
    ensures var used := UsedBy(op, t.entries, fold);
            t'.lru == Among(t.lru, t'.entries.Keys - used) + Among(t'.lru, used)
  {
    var used := UsedBy(op, t.entries, fold);
    SteppedSince(op, t, t', fold);
    hide Stepped, UsedBy;
    SinceOrder(t, t', used);
  }

  /** When a directory was last used: the number of the operation, counted from one. */
  function LastUse(states: seq<Tables>, ops: seq<Operation>, fold: Fold, n: nat, k: Key): nat
    requires |states| > n && |ops| >= n
  {
    if n == 0 then 0
    else if k in UsedBy(ops[n - 1], states[n - 1].entries, fold) then n
    else LastUse(states, ops, fold, n - 1, k)
  }

  /** The times of last use lie within the operation that used a directory last. */
  ghost predicate Dated(states: seq<Tables>, ops: seq<Operation>, fold: Fold, n: nat, k: Key)
    requires |states| > n && |ops| >= n
  {
    var i := LastUse(states, ops, fold, n, k);
    && 0 < i <= n && k in states[n].touched
    && states[i - 1].clock <= states[n].touched[k] < states[i].clock
  }

  lemma {:induction false} LastUseBound(states: seq<Tables>, ops: seq<Operation>, fold: Fold, n: nat, k: Key)
    requires |states| > n && |ops| >= n
    ensures LastUse(states, ops, fold, n, k) <= n
  {
    if n > 0 {
      LastUseBound(states, ops, fold, n - 1, k);
    }
  }

  lemma {:induction false} RunDated(states: seq<Tables>, ops: seq<Operation>, fold: Fold, n: nat, k: Key)
    requires IsRun(states, ops, fold) && n <= |ops| && k in states[n].entries
    ensures Dated(states, ops, fold, n, k)
  {
    assert |states| == |ops| + 1 && n > 0 by { hide Stepped; }
    hide *;
    var op, t, t' := ops[n - 1], states[n - 1], states[n];
    RunStep(states, ops, fold, n - 1);
    RunAccounted(states, ops, fold, n - 1);
    RunAccounted(states, ops, fold, n);
    SteppedSince(op, t, t', fold);
    InTime(t', k);
    if k in UsedBy(op, t.entries, fold) {
      DatedNow(states, ops, fold, n, k);
    } else {
      assert k in t.entries.Keys + UsedBy(op, t.entries, fold);
      RunDated(states, ops, fold, n - 1, k);
      DatedStill(states, ops, fold, n, k);
    }
  }

  lemma DatedNow(states: seq<Tables>, ops: seq<Operation>, fold: Fold, n: nat, k: Key)
    requires 0 < n < |states| && n <= |ops| && k in UsedBy(ops[n - 1], states[n - 1].entries, fold)
    requires k in states[n].entries && k in states[n].touched && states[n].touched[k] < states[n].clock
    requires Since(states[n].touched, states[n - 1].touched, states[n - 1].clock,
                   UsedBy(ops[n - 1], states[n - 1].entries, fold), states[n].entries.Keys)
    ensures Dated(states, ops, fold, n, k)
  {
    hide UsedBy;
  }

  lemma DatedStill(states: seq<Tables>, ops: seq<Operation>, fold: Fold, n: nat, k: Key)
    requires 0 < n < |states| && n <= |ops| && k !in UsedBy(ops[n - 1], states[n - 1].entries, fold)
    requires k in states[n].entries && Dated(states, ops, fold, n - 1, k)
    requires Since(states[n].touched, states[n - 1].touched, states[n - 1].clock,
                   UsedBy(ops[n - 1], states[n - 1].entries, fold), states[n].entries.Keys)
    ensures Dated(states, ops, fold, n, k)
  {
    hide UsedBy;
  }

  lemma InTime(t: Tables, k: Key)
    requires Accounted(t) && k in t.entries
    ensures k in t.touched && t.touched[k] < t.clock
  {
  }

  lemma RunAccounted(states: seq<Tables>, ops: seq<Operation>, fold: Fold, n: nat)
    requires IsRun(states, ops, fold) && n <= |ops|
    ensures Accounted(states[n])
  {
    if n > 0 {
      RunStep(states, ops, fold, n - 1);
    }
  }

  lemma {:induction false} ClockRises(states: seq<Tables>, ops: seq<Operation>, fold: Fold, i: nat, j: nat)
    requires IsRun(states, ops, fold) && i <= j <= |ops|
    ensures states[i].clock <= states[j].clock
  {
    if i < j {
      ClockRises(states, ops, fold, i, j - 1);
      RunStep(states, ops, fold, j - 1);
      hide IsRun;
    }
  }

  /** At every point of every run the list has each cached directory once, in the order of the operations that used them last. */
  lemma LastUseOrder(states: seq<Tables>, ops: seq<Operation>, fold: Fold, n: nat, i: nat, j: nat)
    requires IsRun(states, ops, fold) && n <= |ops| && i < j < |states[n].lru|
    ensures states[n].lru[i] != states[n].lru[j]
    ensures LastUse(states, ops, fold, n, states[n].lru[i]) <= LastUse(states, ops, fold, n, states[n].lru[j])
  {
    var a, b := states[n].lru[i], states[n].lru[j];
    assert |states| == |ops| + 1;
    hide *;
    RunAccounted(states, ops, fold, n);
    InOrder(states[n], i, j);
    RunDated(states, ops, fold, n, a);
    RunDated(states, ops, fold, n, b);
    DatedOrder(states, ops, fold, n, a, b);
  }

  lemma InOrder(t: Tables, i: nat, j: nat)
    requires Accounted(t) && i < j < |t.lru|
    ensures t.lru[i] in t.entries && t.lru[j] in t.entries && t.lru[i] != t.lru[j]
    ensures t.lru[i] in t.touched && t.lru[j] in t.touched && t.touched[t.lru[i]] < t.touched[t.lru[j]]
  {
    hide Total;
    assert t.lru[i] in t.lru && t.lru[j] in t.lru;
  }

  lemma DatedOrder(states: seq<Tables>, ops: seq<Operation>, fold: Fold, n: nat, a: Key, b: Key)
    requires IsRun(states, ops, fold) && n <= |ops| && |states| == |ops| + 1
    requires Dated(states, ops, fold, n, a) && Dated(states, ops, fold, n, b)
    requires a in states[n].touched && b in states[n].touched && states[n].touched[a] < states[n].touched[b]
    ensures LastUse(states, ops, fold, n, a) <= LastUse(states, ops, fold, n, b)
  {
    hide IsRun, LastUse;
    var u, v := LastUse(states, ops, fold, n, a), LastUse(states, ops, fold, n, b);
    if v < u {
      ClockRises(states, ops, fold, v, u - 1);
    }
  }

  lemma InFront(s: seq<Key>, n: nat, j: nat)
    requires j < n <= |s|
    ensures s[j] in KeysOf(s[..n])
  {
    assert s[..n][j] == s[j];
  }

  /** Where the list had a directory that a store evicts, and one that stays. */
  lemma EvictedBefore(t: Tables, t': Tables, k: Key, l: Listing, gone: Key, stays: Key) returns (i: nat, j: nat)
    requires Accounted(t) && StoredAs(t, t', k, l)
    requires gone in t.entries && gone !in t'.entries && stays in t'.entries && stays != k
    ensures i < j < |t.lru| && t.lru[i] == gone && t.lru[j] == stays
  {
    hide Total, Excess, Without, Rising;
    assert k !in t.entries;
    var n: nat :| PrunedAs(Inserted(t, k, l), t', n);
    var lru := t.lru + [k];
    assert gone in KeysOf(lru[..n]) && stays !in KeysOf(lru[..n]);
    i :| 0 <= i < n && lru[i] == gone;
    assert stays in t.lru;
    j :| 0 <= j < |t.lru| && t.lru[j] == stays;
    if j < n {
      InFront(lru, n, j);
    }
  }

  /** What a store evicts was used no later than anything that stays. */
  lemma EvictsOldest(states: seq<Tables>, ops: seq<Operation>, fold: Fold, n: nat, gone: Key, stays: Key)
    requires IsRun(states, ops, fold) && n < |ops| && ops[n].Store?
    requires gone in states[n].entries && gone !in states[n + 1].entries && stays in states[n + 1].entries
    ensures LastUse(states, ops, fold, n, gone) <= LastUse(states, ops, fold, n + 1, stays)
  {
    var op := ops[n];
    var k := Key(op.server, op.listing.path);
    LastUseBound(states, ops, fold, n, gone);
    if stays != k {
      RunAccounted(states, ops, fold, n);
      assert Stepped(op, states[n], states[n + 1], fold);
      hide Accounted, StoredAs;
      var i, j := EvictedBefore(states[n], states[n + 1], k, op.listing, gone, stays);
      hide Stepped;
      LastUseOrder(states, ops, fold, n, i, j);
    }
  }

  /** One operation on a cache; only a lookup has an answer. */
  method Perform(c: Cache, op: Operation) returns (r: Option<Listing>)
    requires c.Valid()
    modifies c
    ensures c.Valid() && Stepped(op, old(c.Books()), c.Books(), c.fold)
    ensures r == AnswerTo(op, old(c.entries))
  {
    hide Accounted, Trusted, EditedAs, ErasedAs, Invalidated, DirRemovedAs, RenamedAs, OwnersUpdated, UsedAs, StoredAs;
    hide SameButOwners, Without, Excessive, KeysOf, Since, RenameUses;
    r := None;
    match op
    case Store(server, listing) =>
      ghost var _ := c.Store(listing, server);
    case Lookup(server, path, allowDoubts) =>
      r := c.Lookup(server, path, allowDoubts);
    case UpdateFile(server, path, name, mayCreate, kind, size, owner) =>
      var _ := c.UpdateFile(server, path, name, mayCreate, kind, size, owner);
    case RemoveFile(server, path, name) =>
      var _ := c.RemoveFile(server, path, name);
    case InvalidateFile(server, path, name, caseSensitive, childOk) =>
      var _ := c.InvalidateFile(server, path, name, caseSensitive, childOk);
    case RemoveDir(server, path, name) =>
      c.RemoveDir(server, path, name);
    case Rename(server, path, name, pathTo, nameTo) =>
      c.Rename(server, path, name, pathTo, nameTo);
    case UpdateOwnerGroup(server, path, name, owner) =>
      c.UpdateOwnerGroup(server, path, name, owner);
    case InvalidateServer(server) =>
      c.InvalidateServer(server);
  }

  /** A cache that is given operations goes through a run, and answers every lookup from its tables. */
  method Run(fold: Fold, ops: seq<Operation>) returns (answers: seq<Option<Listing>>, ghost states: seq<Tables>)
    ensures IsRun(states, ops, fold) && |answers| == |ops|
    ensures forall i | 0 <= i < |ops| :: answers[i] == AnswerTo(ops[i], states[i].entries)
  {
    hide Stepped, AnswerTo;
    var c := new Cache(fold);
    answers, states := [], [c.Books()];
    for n := 0 to |ops|
      invariant c.Valid() && c.fold == fold && fresh(c) && |answers| == n && |states| == n + 1
      invariant states[0] == Empty && states[n] == c.Books()
      invariant forall i | 0 <= i < n :: Stepped(ops[i], states[i], states[i + 1], fold)
      invariant forall i | 0 <= i < n :: answers[i] == AnswerTo(ops[i], states[i].entries)
    {
      var r := Perform(c, ops[n]);
      answers, states := answers + [r], states + [c.Books()];
    }
  }

  lemma RemembersStep(ops: seq<Operation>, n: nat, before: map<Key, Listing>, after: map<Key, Listing>, fold: Fold)
    requires n < |ops| && Remembers(ops[..n], before, fold) && Coherent(ops[n], before, after, fold)
    ensures Remembers(ops[..n + 1], after, fold)
  {
    var op := ops[n];
    assert ops[..n + 1][..n] == ops[..n];
    forall k | k in after && after[k].doubts == {} ensures RemembersAt(ops[..n + 1], after[k], k, fold) {
      hide Affects;
      assert CoherentAt(op, before, after[k], k, fold);
      if !(op.Store? && Key(op.server, op.listing.path) == k) {
        assert RemembersAt(ops[..n], before[k], k, fold);
        OwnersTrans(after[k], before[k], Known(ops[..n], k, fold).value);
      }
    }
  }
}
