/**
 * The directory cache: listings by server and path, a list of them by last
 * use, and the number of files they hold.
 */
module DirectoryCache {
  import opened Options
  import opened ServerPath
  import opened CachedListing
  import opened LruList
  import opened CacheAccounts
  import opened CacheEdits

  class Cache {
    const fold: Fold
    var servers: set<nat>
    var entries: map<Key, Listing>
    var lru: seq<Key>
    var totalFiles: int

    // When each directory was last used, and the listing last stored for it.
    ghost var touched: map<Key, nat>
    ghost var clock: nat
    ghost var stored: map<Key, Listing>

    ghost function Books(): Tables
      reads this
    {
      Tables(lru, touched, clock, entries, totalFiles)
    }

    ghost predicate Valid()
      reads this
    {
      Accounted(Books()) && Trusted(entries, servers, stored)
    }

    constructor (fold: Fold)
      ensures Valid() && Books() == Tables([], map[], 0, map[], 0) && servers == {} && this.fold == fold
    {
      this.fold := fold;
      servers, entries, lru, totalFiles := {}, map[], [], 0;
      touched, clock, stored := map[], 0, map[];
    }

    // ----- Single directories

    /** `UpdateLru` for a directory in the cache. */
    method Touch(k: Key)
      requires Valid() && k in entries
      modifies this`lru, this`touched, this`clock
      ensures Valid() && Books() == Touched(old(Books()), k)
    {
      hide Accounted, Trusted, Without;
      TouchedOk(Books(), k);
      lru := Without(lru, k) + [k];
      touched := touched[k := clock];
      clock := clock + 1;
    }

    /** A cached directory gets another listing; the caller says how many files more that makes. */
    method Edit(k: Key, l: Listing, more: int)
      requires Valid() && k in entries && l.path == k.path && more == |l.files| - |entries[k].files|
      requires l.doubts == {} ==> k in stored && SameButOwners(l, stored[k])
      modifies this`entries, this`totalFiles
      ensures Valid() && entries == old(entries)[k := l]
    {
      hide Accounted, Trusted, SameButOwners;
      EditedOk(Books(), k, l);
      EditTrusted(entries, servers, stored, k, l);
      entries := entries[k := l];
      totalFiles := totalFiles + more;
    }

    /** A directory leaves the cache. */
    method Erase(k: Key)
      requires Valid() && k in entries
      modifies this`entries, this`totalFiles, this`lru
      ensures Valid() && Books() == Erased(old(Books()), k)
    {
      hide Accounted, Trusted, Without;
      ErasedOk(Books(), k);
      EraseTrusted(entries, servers, stored, k);
      totalFiles := totalFiles - |entries[k].files|;
      lru := Without(lru, k);
      entries := entries - {k};
    }

    /** The directory that was not used for the longest time leaves the cache, and its server if it was the last there. */
    method EvictFirst()
      requires Valid() && lru != []
      modifies this`entries, this`totalFiles, this`lru, this`servers
      ensures Valid() && lru == old(lru)[1..] && old(lru)[0] in old(entries) && entries == old(entries) - {old(lru)[0]}
    {
      hide Accounted, Trusted;
      var k := lru[0];
      FirstErased(Books());
      Erase(k);
      if forall other | other in entries :: other.server != k.server {
        ServerTrusted(entries, servers, stored, k.server);
        servers := servers - {k.server};
      }
    }

    /** `Prune`: directories leave in the order of last use until the cache is small enough. */
    method Prune() returns (ghost evicted: nat)
      requires Valid()
      modifies this`entries, this`totalFiles, this`lru, this`servers
      ensures Valid() && !Excessive(|lru|, totalFiles)
      ensures evicted <= |old(lru)| && lru == old(lru)[evicted..]
      ensures entries == old(entries) - KeysOf(old(lru)[..evicted])
      ensures PrunedAs(old(Books()), Books(), evicted)
      ensures evicted > 0 ==> |lru| >= TOO_MANY_FILES_DIRS
      ensures touched == old(touched) && clock == old(clock) && stored == old(stored)
    {
      hide Accounted, Trusted, Excess;
      evicted := 0;
      while Excessive(|lru|, totalFiles)
        invariant Valid() && evicted <= |old(lru)| && lru == old(lru)[evicted..]
        invariant entries == old(entries) - KeysOf(old(lru)[..evicted])
        invariant forall i | 0 <= i < evicted :: Excess(old(Books()), i)
        invariant evicted > 0 ==> |lru| >= TOO_MANY_FILES_DIRS
        decreases |lru|
      {
        StillExcessive(old(Books()), Books(), evicted);
        KeysOfOneMore(old(lru), evicted);
        assert lru[0] == old(lru)[evicted];
        EvictFirst();
        evicted := evicted + 1;
      }
    }

    /** `Store` of a directory not cached before, but for the pruning: it is entered as the last used. */
    method Insert(k: Key, l: Listing)
      requires Valid() && k !in entries && l.path == k.path
      modifies this
      ensures Valid() && Books() == Inserted(old(Books()), k, l)
      ensures stored == old(stored)[k := l] && servers == old(servers) + {k.server}
    {
      hide Accounted, Trusted;
      InsertedOk(Books(), k, l);
      StoreTrusted(entries, servers, stored, k, l);
      servers := servers + {k.server};
      totalFiles := totalFiles + |l.files|;
      entries := entries[k := l];
      lru := lru + [k];
      touched := touched[k := clock];
      clock := clock + 1;
      stored := stored[k := l];
    }

    /** `Store` of a directory that is in the cache. */
    method Replace(k: Key, l: Listing)
      requires Valid() && k in entries && l.path == k.path
      modifies this
      ensures Valid() && entries == old(entries)[k := l] && stored == old(stored)[k := l]
      ensures servers == old(servers) + {k.server}
      ensures lru == Without(old(lru), k) + [k] && touched == old(touched)[k := old(clock)] && clock == old(clock) + 1
    {
      hide Accounted, Trusted, Without;
      servers := servers + {k.server};
      StoreTrusted(entries, old(servers), stored, k, l);
      stored := stored[k := l];
      totalFiles := totalFiles + |l.files|;
      TouchedOk(old(Books()), k);
      EditedOk(Touched(old(Books()), k), k, l);
      lru := Without(lru, k) + [k];
      touched := touched[k := clock];
      clock := clock + 1;
      totalFiles := totalFiles - |entries[k].files|;
      entries := entries[k := l];
    }

    /** `Store`. */
    method Store(l: Listing, server: nat) returns (ghost evicted: nat)
      requires Valid()
      modifies this
      ensures Valid() && stored == old(stored)[Key(server, l.path) := l] && clock == old(clock) + 1
      ensures StoredAs(old(Books()), Books(), Key(server, l.path), l)
      ensures Key(server, l.path) in entries && entries[Key(server, l.path)] == l
      ensures Key(server, l.path) in old(entries) ==>
                && entries == old(entries)[Key(server, l.path) := l]
                && lru == Without(old(lru), Key(server, l.path)) + [Key(server, l.path)]
      ensures Key(server, l.path) !in old(entries) ==>
                && !Excessive(|lru|, totalFiles) && evicted <= |old(lru)|
                && entries == (old(entries) - KeysOf(old(lru)[..evicted]))[Key(server, l.path) := l]
                && lru == old(lru)[evicted..] + [Key(server, l.path)]
    {
      hide Accounted, Trusted, Without, KeysOf, PrunedAs;
      evicted := 0;
      var k := Key(server, l.path);
      if k in entries {
        Replace(k, l);
        return;
      }
      NotListed(Books(), k);
      Insert(k, l);
      evicted := Prune();
      LastStays(old(lru), k, evicted, old(entries), l);
    }

    /** `Lookup`: a hit counts as a use, even if the listing is in doubt and not wanted. */
    method Lookup(server: nat, path: Path, allowDoubts: bool) returns (r: Option<Listing>)
      requires Valid()
      modifies this`lru, this`touched, this`clock
      ensures Valid()
      ensures r.Some? <==> Key(server, path) in entries && (allowDoubts || entries[Key(server, path)].doubts == {})
      ensures r.Some? ==> r.value == entries[Key(server, path)]
      ensures r.Some? && !allowDoubts ==> Key(server, path) in stored && SameButOwners(r.value, stored[Key(server, path)])
      ensures if Key(server, path) in entries then Books() == Touched(old(Books()), Key(server, path)) else Books() == old(Books())
    {
      var k := Key(server, path);
      assert k in entries ==> Trusts(k, entries[k], servers, stored);
      hide Accounted, Trusted, SameButOwners, Without;
      if server !in servers || k !in entries {
        return None;
      }
      Touch(k);
      if !allowDoubts && entries[k].doubts != {} {
        return None;
      }
      r := Some(entries[k]);
    }

    // ----- All directories of a server

    /** One turn of the loops that edit. */
    method EditOne(k: Key, edit: Listing -> Listing, more: Listing -> int, use: bool)
      requires Valid() && k in entries && DoubtsOne(edit, more, entries[k])
      modifies this`entries, this`totalFiles, this`lru, this`touched, this`clock
      ensures Valid() && entries == old(entries)[k := edit(old(entries)[k])]
      ensures use ==> touched == old(touched)[k := old(clock)] && clock == old(clock) + 1
      ensures !use ==> lru == old(lru) && touched == old(touched) && clock == old(clock)
    {
      assert Trusts(k, entries[k], servers, stored);
      hide Accounted, Trusted, Without, SameButOwners;
      if use {
        Touch(k);
      }
      Edit(k, edit(entries[k]), more(entries[k]));
    }

    /** The loops that edit the picked directories of a server, in any order; `use` says if that counts as a use. */
    method EditAll(server: nat, pick: Path -> bool, edit: Listing -> Listing, more: Listing -> int, use: bool)
      requires Valid() && Doubting(edit, more)
      modifies this`entries, this`totalFiles, this`lru, this`touched, this`clock
      ensures Valid() && EditedAs(entries, old(entries), server, pick, edit, {})
      ensures use ==> UsedAs(touched, old(touched), old(clock), server, pick, entries.Keys, {}) && clock >= old(clock)
      ensures !use ==> lru == old(lru) && touched == old(touched) && clock == old(clock)
    {
      var todo := set k | k in entries && k.server == server;
      ListedTimes(Books());
      hide Accounted, Trusted;
      assert EditedAs(entries, old(entries), server, pick, edit, todo);
      assert UsedAs(touched, old(touched), old(clock), server, pick, entries.Keys, todo);
      hide *;
      while todo != {}
        invariant Valid() && clock >= old(clock)
        invariant forall k | k in todo :: k in entries && k.server == server
        invariant EditedAs(entries, old(entries), server, pick, edit, todo)
        invariant use ==> UsedAs(touched, old(touched), old(clock), server, pick, entries.Keys, todo)
        invariant !use ==> lru == old(lru) && touched == old(touched) && clock == old(clock)
        decreases |todo|
      {
        var k :| k in todo;
        assert k in entries && k.server == server;
        EditedStep(entries, old(entries), server, pick, edit, todo, k);
        if use {
          UsedStep(touched, old(touched), old(clock), clock, server, pick, entries.Keys, todo, k);
        }
        if pick(k.path) {
          DoubtsEach(edit, more, entries[k]);
          EditOne(k, edit, more, use);
        }
        todo := todo - {k};
      }
    }

    /** The loops that erase the picked directories of a server. */
    method EraseAll(server: nat, pick: Path -> bool)
      requires Valid()
      modifies this`entries, this`totalFiles, this`lru
      ensures Valid() && ErasedAs(entries, old(entries), server, pick, {})
    {
      var todo := set k | k in entries && k.server == server;
      assert ErasedAs(entries, old(entries), server, pick, todo);
      hide Accounted, Trusted, Without, ErasedAs;
      while todo != {}
        invariant Valid() && todo <= entries.Keys
        invariant forall k | k in todo :: k.server == server
        invariant ErasedAs(entries, old(entries), server, pick, todo)
        decreases |todo|
      {
        var k :| k in todo;
        ErasedStep(entries, old(entries), server, pick, todo, k);
        if pick(k.path) {
          Erase(k);
        }
        todo := todo - {k};
      }
    }

    // ----- Reports of changes on the server

    /** `UpdateFile`. */
    method UpdateFile(server: nat, path: Path, name: string, mayCreate: bool, kind: Filetype, size: int, owner: string)
      returns (updated: bool)
      requires Valid()
      modifies this`entries, this`totalFiles, this`lru, this`touched, this`clock
      ensures Valid() && clock >= old(clock)
      ensures EditedAs(entries, old(entries), server, Near(path, fold), Updating(name, mayCreate, kind, size, owner, fold), {})
      ensures UsedAs(touched, old(touched), old(clock), server, Near(path, fold), entries.Keys, {})
      ensures updated <==> exists k :: k in old(entries) && Picked(k, server, Near(path, fold))
    {
      UpdatingDoubts(name, mayCreate, kind, size, owner, fold);
      var near := Near(path, fold);
      updated := exists k | k in entries :: Picked(k, server, near);
      hide *;
      EditAll(server, near, Updating(name, mayCreate, kind, size, owner, fold), UpdatingAdds(name, mayCreate, kind), true);
    }

    /** `RemoveFile`. */
    method RemoveFile(server: nat, path: Path, name: string) returns (known: bool)
      requires Valid()
      modifies this`entries, this`totalFiles, this`lru, this`touched, this`clock
      ensures Valid() && clock >= old(clock)
      ensures EditedAs(entries, old(entries), server, Near(path, fold), Removing(name, fold), {})
      ensures UsedAs(touched, old(touched), old(clock), server, Near(path, fold), entries.Keys, {})
      ensures known <==> server in servers
    {
      RemovingDoubts(name, fold);
      known := server in servers;
      hide *;
      EditAll(server, Near(path, fold), Removing(name, fold), RemovingAdds(name), true);
    }

    /** `InvalidateFile`; `childOk` says if the name makes a path below `path`. */
    method InvalidateFile(server: nat, path: Path, name: string, caseSensitive: bool, childOk: bool) returns (known: bool)
      requires Valid()
      modifies this`entries, this`totalFiles, this`lru, this`touched, this`clock
      ensures Valid() && known == (server in servers) && clock >= old(clock)
      ensures Invalidated(entries, old(entries), server, path, name, Folding(caseSensitive, fold), childOk)
      ensures UsedAs(touched, old(touched), old(clock), server, Near(path, Folding(caseSensitive, fold)), entries.Keys, {})
    {
      var folding := Folding(caseSensitive, fold);
      var near := Near(path, folding);
      known := server in servers;
      var dir := HasDir(entries, server, near, name, folding);
      DoubtfulDoubts(name, folding);
      SuspectingDoubts();
      hide *;
      EditAll(server, near, Doubtful(name, folding), Nothing(), true);
      ghost var marked := entries;
      if dir && childOk {
        EditAll(server, AtOrBelow(path, folding), Suspecting(), Nothing(), false);
      }
      InvalidatedBoth(old(entries), marked, entries, server, path, name, folding, childOk);
    }

    /** `RemoveDir`. */
    method RemoveDir(server: nat, path: Path, name: string)
      requires Valid()
      modifies this`entries, this`totalFiles, this`lru, this`touched, this`clock
      ensures Valid() && clock >= old(clock)
      ensures DirRemovedAs(entries, old(entries), server, path, name, fold)
      ensures UsedAs(touched, old(touched), old(clock), server, Near(path, fold), entries.Keys, {})
    {
      hide *;
      EraseAll(server, Subtree(path.AddSegment(name), fold));
      ghost var left := entries;
      var _ := RemoveFile(server, path, name);
      DirRemovedBoth(old(entries), left, entries, server, path, name, fold);
    }

    /** `InvalidateServer`. */
    method InvalidateServer(server: nat)
      requires Valid()
      modifies this`entries, this`totalFiles, this`lru, this`servers
      ensures Valid() && servers == old(servers) - {server}
      ensures ErasedAs(entries, old(entries), server, Anywhere(), {})
    {
      hide Accounted, Trusted;
      EraseAll(server, Anywhere());
      ServerTrusted(entries, servers, stored, server);
      servers := servers - {server};
    }

    /** `UpdateOwnerGroup`. */
    method UpdateOwnerGroup(server: nat, path: Path, name: string, owner: string)
      requires Valid()
      modifies this`entries, this`totalFiles, this`lru, this`touched, this`clock, this`servers
      ensures Valid()
      ensures OwnersUpdated(entries, old(entries), server, path, name, owner)
      ensures touched == if Key(server, path) in old(entries) then old(touched)[Key(server, path) := old(clock)] else old(touched)
      ensures clock == if Key(server, path) in old(entries) then old(clock) + 1 else old(clock)
    {
      var k := Key(server, path);
      if k in entries {
        assert Trusts(k, entries[k], servers, stored);
        hide Accounted, Trusted, Without, SameButOwners;
        Touch(k);
        var i := FindName(entries[k].files, name);
        if i.Some? {
          if !entries[k].files[i.value].isDir {
            SetOwner(k, i.value, owner);
          }
          return;
        }
      }
      hide Accounted, Trusted, Without, SameButOwners;
      InvalidateServer(server);
    }

    /** The owner of one file changes. */
    method SetOwner(k: Key, i: nat, owner: string)
      requires Valid() && k in entries && i < |entries[k].files|
      modifies this`entries, this`totalFiles
      ensures Valid() && entries == old(entries)[k := Owned(old(entries)[k], i, owner)]
    {
      assert Trusts(k, entries[k], servers, stored);
      if entries[k].doubts == {} {
        OwnersTrans(Owned(entries[k], i, owner), entries[k], stored[k]);
      }
      hide Accounted, Trusted, SameButOwners;
      Edit(k, Owned(entries[k], i, owner), 0);
    }

    /** `Rename` within a directory that is cached. */
    method RenameHere(server: nat, path: Path, fileFrom: string, fileTo: string)
      requires Valid() && Key(server, path) in entries
      modifies this`entries, this`totalFiles, this`lru, this`touched, this`clock
      ensures Valid() && RenamedHere(entries, old(entries), server, path, fileFrom, fileTo, fold)
      ensures Since(touched, old(touched), old(clock), Nearby(old(entries), server, path, fold), entries.Keys)
      ensures clock >= old(clock) && entries.Keys <= old(entries).Keys
    {
      assert Trusts(Key(server, path), entries[Key(server, path)], servers, stored);
      hide Accounted, Trusted, Without, SameButOwners, EditedAs, UsedAs, Removing, RenamedEntry, FindName, Since, Nearby;
      var _ := RemoveFile(server, path, fileTo);
      ghost var removed, used, times, later := entries, Nearby(old(entries), server, path, fold), touched, clock;
      RemovedAt(removed, old(entries), server, path, fileTo, fold);
      EditedKeys(removed, old(entries), server, Near(path, fold), Removing(fileTo, fold));
      NearbySame(removed, old(entries), server, path, fold);
      SinceUsed(times, old(touched), old(clock), server, path, fold, old(entries), removed.Keys);
      RenameEntry(server, path, fileFrom, fileTo);
      if touched == times {
        SinceFewer(times, old(touched), old(clock), used, removed.Keys, entries.Keys);
      } else {
        SinceTwice(old(touched), times, touched, old(clock), later, used, used, removed.Keys, entries.Keys);
        assert used + used == used;
      }
    }

    /** `Rename` of an entry of a directory, once the new name is gone from it. */
    method RenameEntry(server: nat, path: Path, fileFrom: string, fileTo: string)
      requires Valid() && Key(server, path) in entries && entries[Key(server, path)].path == path
      modifies this`entries, this`totalFiles, this`lru, this`touched, this`clock
      ensures Valid() && RenamedEntry(entries, old(entries), server, path, fileFrom, fileTo, fold)
      ensures touched == old(touched) || Since(touched, old(touched), old(clock), Nearby(old(entries), server, path, fold), entries.Keys)
      ensures clock >= old(clock) && entries.Keys <= old(entries).Keys
    {
      hide Accounted, Trusted, Without, SameButOwners, RenamedDir, FindName, Since, Nearby;
      var k := Key(server, path);
      var i := FindName(entries[k].files, fileFrom);
      if i.Some? {
        if entries[k].files[i.value].isDir {
          RenameDir(server, path, fileFrom, fileTo);
        } else {
          Edit(k, Renamed(entries[k], i.value, fileTo), 0);
        }
      }
    }

    method RenameDir(server: nat, path: Path, fileFrom: string, fileTo: string)
      requires Valid()
      modifies this`entries, this`totalFiles, this`lru, this`touched, this`clock
      ensures Valid() && RenamedDir(entries, old(entries), server, path, fileFrom, fileTo, fold)
      ensures Since(touched, old(touched), old(clock), Nearby(old(entries), server, path, fold), entries.Keys)
      ensures clock >= old(clock) && entries.Keys <= old(entries).Keys
    {
      hide Accounted, Trusted, Without, SameButOwners, EditedAs, DirRemovedAs, UsedAs, Updating, Since, Nearby;
      ghost var used := Nearby(old(entries), server, path, fold);
      assert used + used == used;
      RemoveDir(server, path, fileFrom);
      ghost var first, times, later := entries, touched, clock;
      DirRemovedKeys(first, old(entries), server, path, fileFrom, fold);
      SinceUsed(times, old(touched), old(clock), server, path, fold, old(entries), first.Keys);
      RemoveDir(server, path, fileTo);
      ghost var second, times', later' := entries, touched, clock;
      DirRemovedKeys(second, first, server, path, fileTo, fold);
      SinceUsed(times', times, later, server, path, fold, old(entries), second.Keys);
      SinceTwice(old(touched), times, times', old(clock), later, used, used, first.Keys, second.Keys);
      var _ := UpdateFile(server, path, fileTo, true, Directory, -1, "");
      EditedKeys(entries, second, server, Near(path, fold), Updating(fileTo, true, Directory, -1, "", fold));
      SinceUsed(touched, times', later', server, path, fold, old(entries), entries.Keys);
      SinceTwice(old(touched), times', touched, old(clock), later', used, used, second.Keys, entries.Keys);
    }

    /** `Rename` of a file or directory found in a cached directory, to another directory. */
    method RenameAcross(server: nat, pathFrom: Path, fileFrom: string, pathTo: Path, fileTo: string, dir: bool)
      requires Valid()
      modifies this`entries, this`totalFiles, this`lru, this`touched, this`clock
      ensures Valid() && RenamedAcross(entries, old(entries), server, pathFrom, fileFrom, pathTo, fileTo, dir, fold)
      ensures Since(touched, old(touched), old(clock),
                    Nearby(old(entries), server, pathFrom, fold) + Nearby(old(entries), server, pathTo, fold), entries.Keys)
      ensures clock >= old(clock) && entries.Keys <= old(entries).Keys
    {
      hide Accounted, Trusted, Without, SameButOwners, EditedAs, DirRemovedAs, UsedAs, Updating, Removing, Since, Nearby;
      var kind := if dir then Directory else File;
      if dir {
        RemoveDir(server, pathFrom, fileFrom);
        DirRemovedKeys(entries, old(entries), server, pathFrom, fileFrom, fold);
      } else {
        var _ := RemoveFile(server, pathFrom, fileFrom);
        EditedKeys(entries, old(entries), server, Near(pathFrom, fold), Removing(fileFrom, fold));
      }
      ghost var removed, times, later := entries, touched, clock;
      SinceUsed(times, old(touched), old(clock), server, pathFrom, fold, old(entries), removed.Keys);
      var _ := UpdateFile(server, pathTo, fileTo, true, kind, -1, "");
      EditedKeys(entries, removed, server, Near(pathTo, fold), Updating(fileTo, true, kind, -1, "", fold));
      SinceUsed(touched, times, later, server, pathTo, fold, old(entries), entries.Keys);
      SinceTwice(old(touched), times, touched, old(clock), later, Nearby(old(entries), server, pathFrom, fold),
                 Nearby(old(entries), server, pathTo, fold), removed.Keys, entries.Keys);
    }

    /** `Rename`, once the old directory is found. */
    method RenameFound(server: nat, pathFrom: Path, fileFrom: string, pathTo: Path, fileTo: string)
      requires Valid() && Key(server, pathFrom) in entries
      modifies this`entries, this`totalFiles, this`lru, this`touched, this`clock
      ensures Valid() && RenamedAs(entries, old(entries), server, pathFrom, fileFrom, pathTo, fileTo, fold)
      ensures Since(touched, old(touched), old(clock), RenameUses(old(entries), server, pathFrom, fileFrom, pathTo, fold), entries.Keys)
      ensures clock >= old(clock) && entries.Keys <= old(entries).Keys
    {
      var k := Key(server, pathFrom);
      SinceTouched(Books(), k);
      hide Accounted, Trusted, Without, RenamedHere, RenamedAcross, ErasedAs, Since, Nearby, FindName;
      if pathFrom == pathTo {
        RenameHere(server, pathFrom, fileFrom, fileTo);
      } else {
        var i := FindName(entries[k].files, fileFrom);
        if i.Some? {
          RenameAcross(server, pathFrom, fileFrom, pathTo, fileTo, entries[k].files[i.value].isDir);
        }
      }
    }

    /** `Rename`; a cached old directory is used first of all. */
    method Rename(server: nat, pathFrom: Path, fileFrom: string, pathTo: Path, fileTo: string)
      requires Valid()
      modifies this`entries, this`totalFiles, this`lru, this`touched, this`clock, this`servers
      ensures Valid() && RenamedAs(entries, old(entries), server, pathFrom, fileFrom, pathTo, fileTo, fold)
      ensures if Key(server, pathFrom) in old(entries) then
                Since(touched, old(touched)[Key(server, pathFrom) := old(clock)], old(clock) + 1,
                      RenameUses(old(entries), server, pathFrom, fileFrom, pathTo, fold), entries.Keys)
              else touched == old(touched)
      ensures clock >= old(clock) && entries.Keys <= old(entries).Keys
    {
      var k := Key(server, pathFrom);
      if k in entries {
        hide *;
        Touch(k);
        assert touched == old(touched)[k := old(clock)] && clock == old(clock) + 1 by {
          assert Touched(old(Books()), k).touched == old(touched)[k := old(clock)];
        }
        RenameFound(server, pathFrom, fileFrom, pathTo, fileTo);
      } else {
        hide Accounted, Trusted, Without, ErasedAs;
        InvalidateServer(server);
        ErasedKeys(entries, old(entries), server, Anywhere());
      }
    }
  }
}
