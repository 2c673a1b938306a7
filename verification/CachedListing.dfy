/** Directory listings as the cache keeps and edits them. */
module CachedListing {
  import opened Direntries
  import opened Options
  import opened ServerPath

  /** Why a cached listing may no longer be what the server has. */
  datatype Doubt = FileAdded | FileRemoved | FileChanged | DirAdded | DirRemoved | DirChanged | Unknown | Invalid

  datatype Listing = Listing(path: Path, files: seq<Direntry>, doubts: set<Doubt>, listed: int)

  datatype Filetype = UnknownType | File | Directory

  type Fold = string -> string

  /** The same listing, but for the owners of its files. */
  predicate SameButOwners(a: Listing, b: Listing) {
    && a.path == b.path && a.doubts == b.doubts && a.listed == b.listed && |a.files| == |b.files|
    && forall i | 0 <= i < |a.files| :: a.files[i] == b.files[i].(ownerGroup := a.files[i].ownerGroup)
  }

  // ----- Edits of one listing

  /** The first file with exactly this name. */
  function FindName(files: seq<Direntry>, name: string): (r: Option<nat>)
    ensures r.Some? ==> r.value < |files| && files[r.value].name == name
    ensures r.Some? ==> forall i | 0 <= i < r.value :: files[i].name != name
    ensures r.None? ==> forall i | 0 <= i < |files| :: files[i].name != name
  {
    if files == [] then None
    else if files[0].name == name then Some(0)
    else
      match FindName(files[1..], name)
      case None => None
      case Some(i) => Some(i + 1)
  }

  /** Files whose name is the same up to case, among the first `n`, are marked as unsure. */
  function MarkSimilar(files: seq<Direntry>, name: string, fold: Fold, n: nat): (r: seq<Direntry>)
    requires n <= |files|
    ensures |r| == |files|
    ensures forall i | 0 <= i < |files| ::
              r[i] == if i < n && fold(files[i].name) == fold(name) then files[i].(unsure := true) else files[i]
  {
    seq(|files|, i requires 0 <= i < |files| =>
      if i < n && fold(files[i].name) == fold(name) then files[i].(unsure := true) else files[i])
  }

  /** The body of the loop in `UpdateFile`. */
  function Updated(l: Listing, name: string, mayCreate: bool, kind: Filetype, size: int, owner: string, fold: Fold): (r: Listing)
    ensures r.path == l.path && r.doubts != {} && l.doubts <= r.doubts
    ensures |l.files| <= |r.files| <= |l.files| + 1
  {
    match FindName(l.files, name)
    case Some(i) =>
      var was := if l.files[i].isDir then Directory else File;
      var doubt := if kind != was then Invalid else if kind == Directory then DirChanged else FileChanged;
      l.(files := MarkSimilar(l.files, name, fold, i + 1), doubts := l.doubts + {doubt})
    case None =>
      var marked := MarkSimilar(l.files, name, fold, |l.files|);
      if kind != UnknownType && mayCreate then
        l.(files := marked + [Direntry(name, size, owner, kind == Directory, true)],
           doubts := l.doubts + {if kind == Directory then DirAdded else FileAdded})
      else
        l.(files := marked, doubts := l.doubts + {Unknown})
  }

  /** The body of the loop in `RemoveFile`. */
  function Removed(l: Listing, name: string, fold: Fold): (r: Listing)
    ensures r.path == l.path && r.doubts != {} && l.doubts <= r.doubts
    ensures |l.files| - 1 <= |r.files| <= |l.files|
  {
    match FindName(l.files, name)
    case Some(i) =>
      l.(files := l.files[..i] + l.files[i + 1..],
         doubts := l.doubts + {if l.files[i].isDir then DirRemoved else FileRemoved})
    case None =>
      l.(files := MarkSimilar(l.files, name, fold, |l.files|), doubts := l.doubts + {Invalid})
  }

  /** The body of the loop in `InvalidateFile`. */
  function Doubted(l: Listing, name: string, fold: Fold): (r: Listing)
    ensures r.path == l.path && r.doubts != {} && l.doubts <= r.doubts && |r.files| == |l.files|
  {
    l.(files := MarkSimilar(l.files, name, fold, |l.files|), doubts := l.doubts + {Unknown})
  }

  /**
   * After an update the files that were there are there still, changed at most
   * in that they are unsure; the only new one, if any, has the name reported;
   * and a file of that name is there, and unsure, if it was there or may be created.
   */
  lemma UpdatedFiles(l: Listing, name: string, mayCreate: bool, kind: Filetype, size: int, owner: string, fold: Fold)
    ensures var r := Updated(l, name, mayCreate, kind, size, owner, fold);
            && (forall i | 0 <= i < |l.files| ::
                  r.files[i] == l.files[i].(unsure := r.files[i].unsure) && (l.files[i].unsure ==> r.files[i].unsure))
            && (|r.files| > |l.files| ==>
                  && r.files[|l.files|] == Direntry(name, size, owner, kind == Directory, true)
                  && forall i | 0 <= i < |l.files| :: l.files[i].name != name)
            && (FindName(l.files, name).Some? || (kind != UnknownType && mayCreate) ==>
                  exists j | 0 <= j < |r.files| :: r.files[j].name == name && r.files[j].unsure)
  {
    var r := Updated(l, name, mayCreate, kind, size, owner, fold);
    match FindName(l.files, name)
    case Some(i) =>
      assert r.files[i].name == name && r.files[i].unsure;
    case None =>
      if kind != UnknownType && mayCreate {
        assert r.files[|l.files|].name == name && r.files[|l.files|].unsure;
      }
  }

  /** After a removal one file of that name less is there, and all others are there still. */
  lemma RemovedFiles(l: Listing, name: string, fold: Fold)
    ensures var r := Removed(l, name, fold);
            match FindName(l.files, name)
            case Some(i) => multiset(r.files) == multiset(l.files) - multiset{l.files[i]}
            case None => |r.files| == |l.files| && forall i | 0 <= i < |l.files| :: r.files[i] == l.files[i].(unsure := r.files[i].unsure)
  {
    var found := FindName(l.files, name);
    if found.Some? {
      var i := found.value;
      assert l.files == l.files[..i] + [l.files[i]] + l.files[i + 1..];
    }
  }

  /** Which files an update makes unsure: those of a similar name, up to the one that was meant; and what it puts in doubt. */
  lemma UpdatedExactly(l: Listing, name: string, mayCreate: bool, kind: Filetype, size: int, owner: string, fold: Fold)
    ensures var (r, found) := (Updated(l, name, mayCreate, kind, size, owner, fold), FindName(l.files, name));
            && r == l.(files := r.files, doubts := r.doubts)
            && (forall i | 0 <= i < |l.files| ::
                  r.files[i].unsure <==> l.files[i].unsure || (fold(l.files[i].name) == fold(name) && (found.Some? ==> i <= found.value)))
            && (|r.files| > |l.files| <==> found.None? && kind != UnknownType && mayCreate)
            && (found.Some? && (kind == if l.files[found.value].isDir then Directory else File) ==>
                  r.doubts == l.doubts + {if kind == Directory then DirChanged else FileChanged})
            && (found.Some? && (kind != if l.files[found.value].isDir then Directory else File) ==> r.doubts == l.doubts + {Invalid})
            && (|r.files| > |l.files| ==> r.doubts == l.doubts + {if kind == Directory then DirAdded else FileAdded})
            && (found.None? && |r.files| == |l.files| ==> r.doubts == l.doubts + {Unknown})
  {
  }

  /** A removal takes away the first file of the name and closes the gap, or makes files of similar names unsure. */
  lemma RemovedExactly(l: Listing, name: string, fold: Fold)
    ensures var (r, found) := (Removed(l, name, fold), FindName(l.files, name));
            && r == l.(files := r.files, doubts := r.doubts)
            && (found.Some? ==>
                  && |r.files| == |l.files| - 1 && r.doubts == l.doubts + {if l.files[found.value].isDir then DirRemoved else FileRemoved}
                  && forall j | 0 <= j < |r.files| :: r.files[j] == l.files[if j < found.value then j else j + 1])
            && (found.None? ==>
                  && |r.files| == |l.files| && r.doubts == l.doubts + {Invalid}
                  && forall j | 0 <= j < |r.files| ::
                       r.files[j] == l.files[j].(unsure := l.files[j].unsure || fold(l.files[j].name) == fold(name)))
  {
  }

  /** A doubted file leaves all files in place, those of similar names unsure. */
  lemma DoubtedExactly(l: Listing, name: string, fold: Fold)
    ensures var r := Doubted(l, name, fold);
            && r == l.(files := r.files, doubts := l.doubts + {Unknown})
            && forall j | 0 <= j < |l.files| :: r.files[j] == l.files[j].(unsure := l.files[j].unsure || fold(l.files[j].name) == fold(name))
  {
  }

  /** The renaming of a file within a directory. */
  function Renamed(l: Listing, i: nat, name: string): (r: Listing)
    requires i < |l.files|
    ensures r.path == l.path && r.doubts != {} && |r.files| == |l.files|
  {
    l.(files := l.files[i := l.files[i].(name := name, unsure := true)], doubts := l.doubts + {Unknown})
  }

  /** The change of a file's owner. */
  function Owned(l: Listing, i: nat, owner: string): (r: Listing)
    requires i < |l.files|
    ensures SameButOwners(r, l) && r.files[i].ownerGroup == owner
    ensures forall j | 0 <= j < |l.files| && j != i :: r.files[j] == l.files[j]
  {
    l.(files := l.files[i := l.files[i].(ownerGroup := owner)])
  }

  /** Paths that are the same up to case, as `CmpNoCase` has it. */
  predicate SimilarPaths(a: Path, b: Path, fold: Fold) {
    match (a, b)
    case (NoPath, NoPath) => true
    case (Path(k, p, s), Path(k', p', s')) =>
      k == k' && p == p' && |s| == |s'| && forall i | 0 <= i < |s| :: fold(s[i]) == fold(s'[i])
    case _ => false
  }

  /** `IsParentOf` with names compared as `fold` has it. */
  predicate SimilarParent(parent: Path, child: Path, fold: Fold, allowEqual: bool) {
    && parent.Path? && child.Path? && parent.kind == child.kind && fold(parent.prefix) == fold(child.prefix)
    && child.segments != []
    && (|parent.segments| < |child.segments| || (allowEqual && |parent.segments| == |child.segments|))
    && forall i | 0 <= i < |parent.segments| :: fold(parent.segments[i]) == fold(child.segments[i])
  }

  function Folded(segments: seq<string>, fold: Fold): seq<string> {
    seq(|segments|, i requires 0 <= i < |segments| => fold(segments[i]))
  }

  /** Paths are similar exactly if they differ only in the case of their names. */
  lemma SimilarExactly(a: Path, b: Path, fold: Fold)
    ensures SimilarPaths(a, b, fold) <==>
            (a.NoPath? && b.NoPath?)
            || (a.Path? && b.Path? && a.kind == b.kind && a.prefix == b.prefix && Folded(a.segments, fold) == Folded(b.segments, fold))
  {
    if a.Path? && b.Path? {
      var x, y := Folded(a.segments, fold), Folded(b.segments, fold);
      if x == y {
        forall i | 0 <= i < |a.segments| ensures fold(a.segments[i]) == fold(b.segments[i]) {
          assert x[i] == y[i];
        }
      }
    }
  }

  /** And one is above the other exactly if its names come first in the other, which has more of them, or may have as many. */
  lemma ParentExactly(parent: Path, child: Path, fold: Fold, allowEqual: bool)
    requires parent.Path? && child.Path?
    ensures SimilarParent(parent, child, fold, allowEqual) <==>
            && parent.kind == child.kind && fold(parent.prefix) == fold(child.prefix) && child.segments != []
            && Folded(parent.segments, fold) <= Folded(child.segments, fold)
            && (allowEqual || |parent.segments| < |child.segments|)
  {
    var a, b := Folded(parent.segments, fold), Folded(child.segments, fold);
    forall i | 0 <= i < |a| ensures a[i] == fold(parent.segments[i]) {}
    forall i | 0 <= i < |b| ensures b[i] == fold(child.segments[i]) {}
    if a <= b {
      forall i | 0 <= i < |a| ensures fold(parent.segments[i]) == fold(child.segments[i]) {
        assert a[i] == b[i];
      }
    }
  }

  lemma OwnersTrans(a: Listing, b: Listing, c: Listing)
    requires SameButOwners(a, b) && SameButOwners(b, c)
    ensures SameButOwners(a, c)
  {
  }
}
