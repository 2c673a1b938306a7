/** How far a report about a directory reaches in the cache, and how large the cache gets. */
module CacheReach {
  import opened Direntries
  import opened ServerPath
  import opened CachedListing
  import opened LruList
  import opened CacheAccounts
  import opened CacheEdits
  import opened CacheRuns

  // ----- Reports about directories

  /** The path is the other one, or leads to it: its names come first in the other's. */
  predicate LeadsTo(path: Path, below: Path) {
    path.Path? && below.Path? && path.kind == below.kind && path.prefix == below.prefix && path.segments <= below.segments
  }

  /** The same up to the case of names, over at least as many of them. */
  predicate LeadsNearly(path: Path, below: Path, fold: Fold) {
    && path.Path? && below.Path? && path.kind == below.kind && fold(path.prefix) == fold(below.prefix)
    && Folded(path.segments, fold) <= Folded(below.segments, fold)
  }

  lemma {:induction false} FoldedPrefix(a: seq<string>, b: seq<string>, fold: Fold)
    requires a <= b
    ensures Folded(a, fold) <= Folded(b, fold)
  {
    forall i | 0 <= i < |a| ensures Folded(a, fold)[i] == Folded(b, fold)[i] {
      assert a[i] == b[i];
    }
  }

  lemma IsNear(path: Path, fold: Fold)
    ensures SimilarPaths(path, path, fold)
  {
  }

  lemma LeadsBelow(path: Path, below: Path, fold: Fold)
    requires LeadsTo(path, below) && below.segments != []
    ensures SimilarParent(path, below, fold, true)
  {
    FoldedPrefix(path.segments, below.segments, fold);
    ParentExactly(path, below, fold, true);
  }

  /**
   * After a doubtful change to an entry that was listed as a directory, that
   * directory and everything else below the one it was listed in is in doubt.
   */
  lemma DirectoryInDoubt(after: map<Key, Listing>, before: map<Key, Listing>, server: nat, path: Path, name: string, fold: Fold,
                         i: nat, below: Path)
    requires Invalidated(after, before, server, path, name, fold, true)
    requires Key(server, path) in before && i < |before[Key(server, path)].files|
    requires before[Key(server, path)].files[i].name == name && before[Key(server, path)].files[i].isDir
    requires Key(server, below) in before && LeadsTo(path, below) && below.segments != []
    ensures Key(server, below) in after && Unknown in after[Key(server, below)].doubts
  {
    var at := Key(server, path);
    IsNear(path, fold);
    LeadsBelow(path, below, fold);
    assert NamesDir(before[at].files, name, fold);
    assert Picked(at, server, Near(path, fold));
    assert HasDir(before, server, Near(path, fold), name, fold);
    hide SimilarPaths, SimilarParent, HasDir, Doubted;
    assert Key(server, below) in after.Keys;
  }

  /** Other servers, and directories that are not below it up to case, keep what they have. */
  lemma OthersUndoubted(after: map<Key, Listing>, before: map<Key, Listing>, server: nat, path: Path, name: string, fold: Fold,
                        childOk: bool, k: Key)
    requires Invalidated(after, before, server, path, name, fold, childOk) && k in before
    requires k.server != server || !(LeadsNearly(path, k.path, fold) || SimilarPaths(path, k.path, fold))
    ensures k in after && after[k] == before[k]
  {
    assert k in after.Keys;
    if path.Path? && k.path.Path? {
      ParentExactly(path, k.path, fold, true);
    }
    hide SimilarPaths, SimilarParent, HasDir, Doubted, Folded;
  }

  /**
   * When a directory is removed, it and all below it leave the cache, up to
   * case; nothing else does, and only where it was listed does a listing change.
   */
  lemma DirectoryGone(after: map<Key, Listing>, before: map<Key, Listing>, server: nat, path: Path, name: string, fold: Fold, k: Key)
    requires DirRemovedAs(after, before, server, path, name, fold) && k in before
    ensures k.server == server && LeadsTo(path.AddSegment(name), k.path) ==> k !in after
    ensures k.server != server || !LeadsNearly(path.AddSegment(name), k.path, fold) ==> k in after
    ensures k in after && (k.server != server || !SimilarPaths(path, k.path, fold)) ==> after[k] == before[k]
  {
    var dir := path.AddSegment(name);
    if dir.Path? && k.path.Path? {
      ParentExactly(dir, k.path, fold, false);
      if LeadsTo(dir, k.path) {
        FoldedPrefix(dir.segments, k.path.segments, fold);
        if |dir.segments| == |k.path.segments| { assert dir.segments == k.path.segments; }
      }
    }
    hide SimilarPaths, SimilarParent, Removed, Folded;
  }

  // ----- The size of the cache

  lemma {:induction false} AsManyKeys(s: seq<Key>)
    requires Distinct(s)
    ensures |KeysOf(s)| == |s|
  {
    if s != [] {
      var n := |s| - 1;
      AsManyKeys(s[..n]);
      assert s == s[..n] + [s[n]];
      assert KeysOf(s) == KeysOf(s[..n]) + {s[n]};
      assert s[n] !in KeysOf(s[..n]);
    }
  }

  lemma Subset(a: set<Key>, b: set<Key>)
    requires a <= b
    ensures |a| <= |b|
  {
    assert b == a + (b - a);
  }

  /** The list has as many directories as there are listings. */
  lemma ListedOnce(t: Tables)
    requires Accounted(t)
    ensures |t.lru| == |t.entries.Keys|
  {
    RisingDistinct(t.lru, t.touched);
    AsManyKeys(t.lru);
    assert KeysOf(t.lru) == t.entries.Keys;
  }

  lemma NoMore(t: Tables, t': Tables)
    requires Accounted(t) && Accounted(t') && t'.entries.Keys <= t.entries.Keys
    ensures |t'.lru| <= |t.lru|
  {
    ListedOnce(t);
    ListedOnce(t');
    Subset(t'.entries.Keys, t.entries.Keys);
  }

  /** No operation but a store brings in a directory. */
  lemma OnlyStoresAdd(op: Operation, t: Tables, t': Tables, fold: Fold)
    requires Stepped(op, t, t', fold) && Accounted(t) && !op.Store?
    ensures t'.entries.Keys <= t.entries.Keys
  {
    match op
    case Lookup(_, _, _) =>
    case UpdateFile(server, path, name, mayCreate, kind, size, owner) =>
      EditedKeys(t'.entries, t.entries, server, Near(path, fold), Updating(name, mayCreate, kind, size, owner, fold));
    case RemoveFile(server, path, name) =>
      EditedKeys(t'.entries, t.entries, server, Near(path, fold), Removing(name, fold));
    case InvalidateFile(server, path, name, caseSensitive, childOk) =>
    case RemoveDir(server, path, name) => DirRemovedKeys(t'.entries, t.entries, server, path, name, fold);
    case Rename(_, _, _, _, _) =>
    case UpdateOwnerGroup(_, _, _, _) =>
    case InvalidateServer(server) => ErasedKeys(t'.entries, t.entries, server, Anywhere());
  }

  /** Whatever is done, the cache never has more than 50000 directories. */
  lemma {:induction false} NeverTooMany(states: seq<Tables>, ops: seq<Operation>, fold: Fold, n: nat)
    requires IsRun(states, ops, fold) && n <= |ops|
    ensures |states[n].lru| <= 50000
  {
    hide Stepped, Accounted;
    if n > 0 {
      NeverTooMany(states, ops, fold, n - 1);
      RunStep(states, ops, fold, n - 1);
      RunAccounted(states, ops, fold, n - 1);
      RunAccounted(states, ops, fold, n);
      if ops[n - 1].Store? {
        StoredFew(ops[n - 1], states[n - 1], states[n], fold);
      } else {
        OnlyStoresAdd(ops[n - 1], states[n - 1], states[n], fold);
        NoMore(states[n - 1], states[n]);
      }
    }
  }

  lemma StoredFew(op: Operation, t: Tables, t': Tables, fold: Fold)
    requires Stepped(op, t, t', fold) && Accounted(t) && op.Store? && |t.lru| <= 50000
    ensures |t'.lru| <= 50000
  {
    var k := Key(op.server, op.listing.path);
    if k in t.entries {
      assert t'.entries.Keys == t.entries.Keys;
      NoMore(t, t');
    }
  }

  /** The limits that hold whenever a new directory was stored. */
  lemma FilesBounded(states: seq<Tables>, ops: seq<Operation>, fold: Fold, n: nat)
    requires IsRun(states, ops, fold) && n < |ops| && ops[n].Store?
    requires Key(ops[n].server, ops[n].listing.path) !in states[n].entries
    ensures var t := states[n + 1];
            && t.files == Total(t.lru, t.entries)
            && (|t.lru| > 1000 ==> t.files <= 1000000) && (|t.lru| > 100 ==> t.files <= 5000000)
  {
    RunStep(states, ops, fold, n);
  }
}
