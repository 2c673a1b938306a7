/** What a rename makes of the files in the cached directories, file by file. */
module CacheRename {
  import opened Direntries
  import opened Options
  import opened ServerPath
  import opened CachedListing
  import opened LruList
  import opened CacheEdits

  /** The index that a file has once the file at another is gone. */
  function Shifted(i: nat, gone: Option<nat>): int {
    if gone.Some? && gone.value < i then i - 1 else i
  }

  /**
   * The files of a directory after one of them, not a directory, got another
   * name: any first file that had that name is gone; if there was none, files
   * of similar names are unsure; and all else is as it was, in its place.
   */
  predicate RenamedIn(before: seq<Direntry>, after: seq<Direntry>, i: nat, name: string, fold: Fold)
    requires i < |before| && before[i].name != name
  {
    var gone := FindName(before, name);
    && |after| == |before| - (if gone.Some? then 1 else 0)
    && forall j | 0 <= j < |before| && gone != Some(j) ::
         after[Shifted(j, gone)] ==
           if j == i then before[i].(name := name, unsure := true)
           else before[j].(unsure := before[j].unsure || (gone.None? && fold(before[j].name) == fold(name)))
  }

  lemma {:induction false} FirstName(files: seq<Direntry>, name: string, i: nat)
    requires i < |files| && files[i].name == name && forall j | 0 <= j < i :: files[j].name != name
    ensures FindName(files, name) == Some(i)
  {
  }

  /** A file that is renamed within its directory has the new name, and is unsure. */
  lemma RenamedFile(after: map<Key, Listing>, before: map<Key, Listing>, server: nat, path: Path, fileFrom: string, fileTo: string,
                    fold: Fold, i: nat)
    requires RenamedAs(after, before, server, path, fileFrom, path, fileTo, fold) && fileFrom != fileTo
    requires Key(server, path) in before && FindName(before[Key(server, path)].files, fileFrom) == Some(i)
    requires !before[Key(server, path)].files[i].isDir
    ensures Key(server, path) in after && Unknown in after[Key(server, path)].doubts
    ensures RenamedIn(before[Key(server, path)].files, after[Key(server, path)].files, i, fileTo, fold)
  {
    var k := Key(server, path);
    hide EditedAs, RenamedEntry, Removed;
    var removed: map<Key, Listing> :|
      && EditedAs(removed, before, server, Near(path, fold), Removing(fileTo, fold), {}) && k in removed
      && RenamedEntry(after, removed, server, path, fileFrom, fileTo, fold);
    RemovedHere(removed, before, server, path, fileTo, fold);
    EntryRenamed(after, removed, server, path, fileFrom, fileTo, fold, before[k], i);
  }

  lemma RemovedHere(removed: map<Key, Listing>, before: map<Key, Listing>, server: nat, path: Path, name: string, fold: Fold)
    requires EditedAs(removed, before, server, Near(path, fold), Removing(name, fold), {}) && Key(server, path) in before
    ensures Key(server, path) in removed && removed[Key(server, path)] == Removed(before[Key(server, path)], name, fold)
  {
    assert Picked(Key(server, path), server, Near(path, fold));
    hide Removed;
  }

  lemma EntryRenamed(after: map<Key, Listing>, removed: map<Key, Listing>, server: nat, path: Path, fileFrom: string, fileTo: string,
                     fold: Fold, l: Listing, i: nat)
    requires Key(server, path) in removed && removed[Key(server, path)] == Removed(l, fileTo, fold)
    requires RenamedEntry(after, removed, server, path, fileFrom, fileTo, fold) && fileFrom != fileTo
    requires FindName(l.files, fileFrom) == Some(i) && !l.files[i].isDir
    ensures Key(server, path) in after && Unknown in after[Key(server, path)].doubts
    ensures RenamedIn(l.files, after[Key(server, path)].files, i, fileTo, fold)
  {
    var k := Key(server, path);
    var i' := StillThere(l, fileFrom, fileTo, fold, i);
    hide Removed, FindName;
    assert after == removed[k := Renamed(removed[k], i', fileTo)] by { hide RenamedDir; }
    hide RenamedEntry;
    RenamedFiles(l, i, i', fileTo, fold);
  }

  /** The file to be renamed, once the new name is gone. */
  lemma StillThere(l: Listing, fileFrom: string, fileTo: string, fold: Fold, i: nat) returns (i': nat)
    requires fileFrom != fileTo && FindName(l.files, fileFrom) == Some(i)
    ensures var r := Removed(l, fileTo, fold);
            i' == Shifted(i, FindName(l.files, fileTo)) && FindName(r.files, fileFrom) == Some(i') && r.files[i'].isDir == l.files[i].isDir
  {
    RemovedExactly(l, fileTo, fold);
    var r := Removed(l, fileTo, fold);
    hide Removed;
    i' := Shifted(i, FindName(l.files, fileTo));
    forall j | 0 <= j < i' ensures r.files[j].name != fileFrom {}
    FirstName(r.files, fileFrom, i');
  }

  lemma RenamedFiles(l: Listing, i: nat, i': nat, fileTo: string, fold: Fold)
    requires i < |l.files| && l.files[i].name != fileTo && i' == Shifted(i, FindName(l.files, fileTo)) && i' < |Removed(l, fileTo, fold).files|
    ensures RenamedIn(l.files, Renamed(Removed(l, fileTo, fold), i', fileTo).files, i, fileTo, fold)
    ensures Unknown in Renamed(Removed(l, fileTo, fold), i', fileTo).doubts
  {
    RemovedExactly(l, fileTo, fold);
    hide Removed, FindName;
    var gone, r := FindName(l.files, fileTo), Renamed(Removed(l, fileTo, fold), i', fileTo).files;
    forall j | 0 <= j < |l.files| && gone != Some(j)
      ensures r[Shifted(j, gone)] ==
                if j == i then l.files[i].(name := fileTo, unsure := true)
                else l.files[j].(unsure := l.files[j].unsure || (gone.None? && fold(l.files[j].name) == fold(fileTo)))
    {
    }
  }

  // ----- To another directory

  /** A directory as `UpdateFile` leaves it: the file is there, and unsure. */
  predicate Has(files: seq<Direntry>, name: string) {
    exists j | 0 <= j < |files| :: files[j].name == name && files[j].unsure
  }

  lemma UpdatedHas(l: Listing, name: string, kind: Filetype, fold: Fold)
    requires kind != UnknownType
    ensures Has(Updated(l, name, true, kind, -1, "", fold).files, name)
  {
    UpdatedFiles(l, name, true, kind, -1, "", fold);
    hide Updated;
  }

  lemma UpdatedAt(after: map<Key, Listing>, before: map<Key, Listing>, server: nat, path: Path, name: string, kind: Filetype, fold: Fold, k: Key)
    requires EditedAs(after, before, server, Near(path, fold), Updating(name, true, kind, -1, "", fold), {}) && k in before
    ensures k in after
    ensures after[k] == if Picked(k, server, Near(path, fold)) then Updated(before[k], name, true, kind, -1, "", fold) else before[k]
  {
    hide Near, Updated;
  }

  lemma RemovedIn(removed: map<Key, Listing>, before: map<Key, Listing>, server: nat, path: Path, name: string, dir: bool, fold: Fold, k: Key)
    requires if dir then DirRemovedAs(removed, before, server, path, name, fold)
             else EditedAs(removed, before, server, Near(path, fold), Removing(name, fold), {})
    ensures k in removed ==>
              k in before && removed[k] == if Picked(k, server, Near(path, fold)) then Removed(before[k], name, fold) else before[k]
    ensures k in before && (dir ==> !Picked(k, server, Subtree(path.AddSegment(name), fold))) ==> k in removed
    ensures dir && k in removed ==> !Picked(k, server, Subtree(path.AddSegment(name), fold))
  {
    hide Near, Subtree, Removed;
  }

  lemma NotBelowItself(server: nat, path: Path, name: string, fold: Fold)
    ensures !Picked(Key(server, path), server, Subtree(path.AddSegment(name), fold))
    ensures Picked(Key(server, path), server, Near(path, fold))
  {
  }

  /** The files without the one at an index. */
  predicate Without(before: seq<Direntry>, after: seq<Direntry>, i: nat) {
    i < |before| && |after| == |before| - 1 && forall j | 0 <= j < |after| :: after[j] == before[if j < i then j else j + 1]
  }

  /**
   * A file or directory that is moved is gone from its old directory, unless
   * that is similar to the new one; the new directory, if it is cached, has it
   * and is unsure of it; and of a directory nothing is cached under its old path.
   */
  lemma MovedFile(after: map<Key, Listing>, before: map<Key, Listing>, server: nat, pathFrom: Path, fileFrom: string, pathTo: Path,
                  fileTo: string, fold: Fold, i: nat)
    requires RenamedAs(after, before, server, pathFrom, fileFrom, pathTo, fileTo, fold) && pathFrom != pathTo
    requires Key(server, pathFrom) in before && FindName(before[Key(server, pathFrom)].files, fileFrom) == Some(i)
    ensures var dir := before[Key(server, pathFrom)].files[i].isDir;
            var (source, target) := (Key(server, pathFrom), Key(server, pathTo));
            && source in after
            && (!Picked(source, server, Near(pathTo, fold)) ==> Without(before[source].files, after[source].files, i))
            && (target in after ==> Has(after[target].files, fileTo))
            && (!dir ==> after.Keys == before.Keys)
            && (dir ==> forall k | k in after :: !Picked(k, server, Subtree(pathFrom.AddSegment(fileFrom), fold)))
  {
    var source, target := Key(server, pathFrom), Key(server, pathTo);
    var dir := before[source].files[i].isDir;
    var kind := if dir then Directory else File;
    hide EditedAs, DirRemovedAs, Removed, Updated, Near, Subtree, Has, Without;
    var removed: map<Key, Listing> :|
      && (if dir then DirRemovedAs(removed, before, server, pathFrom, fileFrom, fold)
          else EditedAs(removed, before, server, Near(pathFrom, fold), Removing(fileFrom, fold), {}))
      && EditedAs(after, removed, server, Near(pathTo, fold), Updating(fileTo, true, kind, -1, "", fold), {});
    EditedKeys(after, removed, server, Near(pathTo, fold), Updating(fileTo, true, kind, -1, "", fold));
    NotBelowItself(server, pathFrom, fileFrom, fold);
    RemovedIn(removed, before, server, pathFrom, fileFrom, dir, fold, source);
    UpdatedAt(after, removed, server, pathTo, fileTo, kind, fold, source);
    RemovedWithout(before[source], fileFrom, fold, i);
    if target in after {
      UpdatedAt(after, removed, server, pathTo, fileTo, kind, fold, target);
      NotBelowItself(server, pathTo, fileTo, fold);
      UpdatedHas(removed[target], fileTo, kind, fold);
    }
    if dir {
      forall k | k in after ensures !Picked(k, server, Subtree(pathFrom.AddSegment(fileFrom), fold)) {
        assert k in after.Keys && k in removed.Keys;
        RemovedIn(removed, before, server, pathFrom, fileFrom, dir, fold, k);
      }
    } else {
      EditedKeys(removed, before, server, Near(pathFrom, fold), Removing(fileFrom, fold));
    }
  }

  lemma RemovedWithout(l: Listing, name: string, fold: Fold, i: nat)
    requires FindName(l.files, name) == Some(i)
    ensures Without(l.files, Removed(l, name, fold).files, i)
  {
    RemovedExactly(l, name, fold);
  }

  // ----- A directory within its directory

  /** How many files have a name. */
  function Named(files: seq<Direntry>, name: string): nat {
    if files == [] then 0 else Named(files[..|files| - 1], name) + if files[|files| - 1].name == name then 1 else 0
  }

  lemma {:induction false} NamedConcat(a: seq<Direntry>, b: seq<Direntry>, name: string)
    ensures Named(a + b, name) == Named(a, name) + Named(b, name)
  {
    if b == [] {
      assert a + b == a;
    } else {
      assert (a + b)[..|a + b| - 1] == a + b[..|b| - 1];
      NamedConcat(a, b[..|b| - 1], name);
    }
  }

  lemma {:induction false} SameNames(a: seq<Direntry>, b: seq<Direntry>, name: string)
    requires |a| == |b| && forall i | 0 <= i < |a| :: a[i].name == b[i].name
    ensures Named(a, name) == Named(b, name)
  {
    if a != [] { SameNames(a[..|a| - 1], b[..|b| - 1], name); }
  }

  lemma {:induction false} NoneNamed(files: seq<Direntry>, name: string)
    ensures Named(files, name) == 0 <==> forall i | 0 <= i < |files| :: files[i].name != name
  {
    if files != [] { NoneNamed(files[..|files| - 1], name); }
  }

  lemma NamedOne(e: Direntry, name: string)
    ensures Named([e], name) == if e.name == name then 1 else 0
  {
    assert [e][..0] == [];
  }

  /** A removal takes away one file of the name, if there is one, and none of another. */
  lemma RemovedNames(l: Listing, gone: string, fold: Fold, name: string)
    ensures Named(Removed(l, gone, fold).files, name)
         == Named(l.files, name) - if name == gone && Named(l.files, gone) > 0 then 1 else 0
  {
    hide Named;
    NoneNamed(l.files, gone);
    match FindName(l.files, gone)
    case None => SameNames(Removed(l, gone, fold).files, l.files, name);
    case Some(i) =>
      assert l.files == l.files[..i] + ([l.files[i]] + l.files[i + 1..]);
      NamedConcat(l.files[..i], [l.files[i]] + l.files[i + 1..], name);
      NamedConcat([l.files[i]], l.files[i + 1..], name);
      NamedConcat(l.files[..i], l.files[i + 1..], name);
      NamedOne(l.files[i], name);
  }

  /** An update adds a file of the name, if there is none, and none of another. */
  lemma UpdatedNames(l: Listing, there: string, kind: Filetype, fold: Fold, name: string)
    requires kind != UnknownType
    ensures Named(Updated(l, there, true, kind, -1, "", fold).files, name)
         == Named(l.files, name) + if name == there && Named(l.files, there) == 0 then 1 else 0
  {
    hide Named;
    NoneNamed(l.files, there);
    var files := Updated(l, there, true, kind, -1, "", fold).files;
    SameNames(files[..|l.files|], l.files, name);
    if |files| > |l.files| {
      assert files == files[..|l.files|] + [files[|l.files|]];
      NamedConcat(files[..|l.files|], [files[|l.files|]], name);
      NamedOne(files[|l.files|], name);
    } else {
      assert files == files[..|l.files|];
    }
  }

  /** What a rename of a directory does to the names: the old one is there once less, the new one at least once. */
  predicate NamesMoved(before: seq<Direntry>, after: seq<Direntry>, fileFrom: string, fileTo: string, name: string) {
    Named(after, name) ==
      if name == fileFrom then Named(before, name) - 1
      else if name != fileTo then Named(before, name)
      else if Named(before, name) > 2 then Named(before, name) - 2
      else 1
  }

  lemma AllNamesMoved(l: Listing, fileFrom: string, fileTo: string, fold: Fold, name: string)
    requires fileFrom != fileTo && Named(l.files, fileFrom) > 0
    ensures var removed := Removed(Removed(Removed(l, fileTo, fold), fileFrom, fold), fileTo, fold);
            NamesMoved(l.files, Updated(removed, fileTo, true, Directory, -1, "", fold).files, fileFrom, fileTo, name)
  {
    hide Named, Removed, Updated;
    var l1 := Removed(l, fileTo, fold);
    var l2 := Removed(l1, fileFrom, fold);
    var l3 := Removed(l2, fileTo, fold);
    RemovedNames(l, fileTo, fold, name);
    RemovedNames(l, fileTo, fold, fileFrom);
    RemovedNames(l, fileTo, fold, fileTo);
    RemovedNames(l1, fileFrom, fold, name);
    RemovedNames(l1, fileFrom, fold, fileTo);
    RemovedNames(l2, fileTo, fold, name);
    RemovedNames(l2, fileTo, fold, fileTo);
    UpdatedNames(l3, fileTo, Directory, fold, name);
  }

  /**
   * A directory that is renamed within its own: its old name is there once less,
   * its new one at least once, and all others as often as before; and nothing is
   * cached below either name.
   */
  lemma RenamedDirectory(after: map<Key, Listing>, before: map<Key, Listing>, server: nat, path: Path, fileFrom: string, fileTo: string,
                         fold: Fold, i: nat)
    requires RenamedAs(after, before, server, path, fileFrom, path, fileTo, fold) && fileFrom != fileTo
    requires Key(server, path) in before && FindName(before[Key(server, path)].files, fileFrom) == Some(i)
    requires before[Key(server, path)].files[i].isDir
    ensures Key(server, path) in after && Has(after[Key(server, path)].files, fileTo)
    ensures forall name ::
              NamesMoved(before[Key(server, path)].files, after[Key(server, path)].files, fileFrom, fileTo, name)
    ensures forall k | k in after ::
              && k in before && !Picked(k, server, Subtree(path.AddSegment(fileFrom), fold))
              && !Picked(k, server, Subtree(path.AddSegment(fileTo), fold))
  {
    var k := Key(server, path);
    NoneNamed(before[k].files, fileFrom);
    hide EditedAs, RenamedDir, Removed, FindName, Has, Subtree, NamesMoved, Named, Updated;
    var removed: map<Key, Listing> :|
      && EditedAs(removed, before, server, Near(path, fold), Removing(fileTo, fold), {}) && k in removed
      && RenamedEntry(after, removed, server, path, fileFrom, fileTo, fold);
    RemovedHere(removed, before, server, path, fileTo, fold);
    var _ := StillThere(before[k], fileFrom, fileTo, fold, i);
    EditedKeys(removed, before, server, Near(path, fold), Removing(fileTo, fold));
    hide RenamedEntry, RenamedAs;
    DirectoryMoved(after, removed, server, path, fileFrom, fileTo, fold);
    forall x | x in after ensures x in before {
      assert x in removed.Keys;
    }
    forall name ensures NamesMoved(before[k].files, after[k].files, fileFrom, fileTo, name) {
      AllNamesMoved(before[k], fileFrom, fileTo, fold, name);
    }
  }

  lemma DirectoryMoved(after: map<Key, Listing>, before: map<Key, Listing>, server: nat, path: Path, fileFrom: string, fileTo: string, fold: Fold)
    requires RenamedDir(after, before, server, path, fileFrom, fileTo, fold) && Key(server, path) in before
    ensures Key(server, path) in after && Has(after[Key(server, path)].files, fileTo)
    ensures after[Key(server, path)] ==
            Updated(Removed(Removed(before[Key(server, path)], fileFrom, fold), fileTo, fold), fileTo, true, Directory, -1, "", fold)
    ensures forall k | k in after ::
              && k in before && !Picked(k, server, Subtree(path.AddSegment(fileFrom), fold))
              && !Picked(k, server, Subtree(path.AddSegment(fileTo), fold))
  {
    hide EditedAs, DirRemovedAs, Has, Near, Subtree, Updated, Removed;
    var k := Key(server, path);
    var first: map<Key, Listing>, second: map<Key, Listing> :|
      && DirRemovedAs(first, before, server, path, fileFrom, fold)
      && DirRemovedAs(second, first, server, path, fileTo, fold)
      && EditedAs(after, second, server, Near(path, fold), Updating(fileTo, true, Directory, -1, "", fold), {});
    EditedKeys(after, second, server, Near(path, fold), Updating(fileTo, true, Directory, -1, "", fold));
    NotBelowItself(server, path, fileFrom, fold);
    NotBelowItself(server, path, fileTo, fold);
    RemovedIn(first, before, server, path, fileFrom, true, fold, k);
    RemovedIn(second, first, server, path, fileTo, true, fold, k);
    UpdatedAt(after, second, server, path, fileTo, Directory, fold, k);
    UpdatedHas(second[k], fileTo, Directory, fold);
    forall x | x in after
      ensures && x in before && !Picked(x, server, Subtree(path.AddSegment(fileFrom), fold))
              && !Picked(x, server, Subtree(path.AddSegment(fileTo), fold))
    {
      assert x in after.Keys && x in second.Keys;
      RemovedIn(second, first, server, path, fileTo, true, fold, x);
      RemovedIn(first, before, server, path, fileFrom, true, fold, x);
    }
  }
}
