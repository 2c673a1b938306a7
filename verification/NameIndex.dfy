/**
 * Looking up names in a directory listing. A search map is filled only as far
 * as searches had to scan, and has to agree with a linear scan all the same.
 */
module NameIndex {
  import opened Direntries
  import opened Options

  /** What is compared: names as they are, or folded to lower case. */
  type Key = string -> string

  // ----- Linear search

  predicate Matches(entries: seq<Direntry>, key: Key, wanted: string, i: nat) {
    i < |entries| && key(entries[i].name) == wanted
  }

  /** The first entry with a key, from an index on. */
  function FirstFrom(entries: seq<Direntry>, key: Key, wanted: string, from: nat): (r: Option<nat>)
    requires from <= |entries|
    ensures r.None? ==> forall i | from <= i < |entries| :: !Matches(entries, key, wanted, i)
    ensures r.Some? ==> from <= r.value && Matches(entries, key, wanted, r.value)
    ensures r.Some? ==> forall i | from <= i < r.value :: !Matches(entries, key, wanted, i)
    decreases |entries| - from
  {
    if from == |entries| then None
    else if key(entries[from].name) == wanted then Some(from)
    else FirstFrom(entries, key, wanted, from + 1)
  }

  /** The least index that matches. */
  function First(entries: seq<Direntry>, key: Key, wanted: string): Option<nat> {
    FirstFrom(entries, key, wanted, 0)
  }

  // ----- Search maps

  datatype Slot = Slot(key: string, index: nat)

  /** A multimap from keys to indices, in the order of insertion. */
  type SearchMap = seq<Slot>

  /** A map holds exactly the entries scanned so far, duplicates included. */
  predicate MapOk(m: SearchMap, entries: seq<Direntry>, key: Key) {
    |m| <= |entries| && forall i | 0 <= i < |m| :: m[i] == Slot(key(entries[i].name), i)
  }

  /** An element the map's `find` may return: any one with the key. */
  predicate MayFind(m: SearchMap, wanted: string, k: nat) {
    exists i | 0 <= i < |m| :: m[i] == Slot(wanted, k)
  }

  predicate Contains(m: SearchMap, wanted: string) {
    exists i | 0 <= i < |m| :: m[i].key == wanted
  }

  /** How often a key occurs among the first entries. */
  function Occurrences(entries: seq<Direntry>, key: Key, wanted: string, n: nat): nat
    requires n <= |entries|
  {
    if n == 0 then 0
    else Occurrences(entries, key, wanted, n - 1) + if key(entries[n - 1].name) == wanted then 1 else 0
  }

  lemma {:induction false} OccurrencesBound(entries: seq<Direntry>, key: Key, wanted: string, n: nat)
    requires n <= |entries|
    ensures (forall i | 0 <= i < n :: !Matches(entries, key, wanted, i)) <==> Occurrences(entries, key, wanted, n) == 0
    ensures (forall i, j | 0 <= i < j < n :: !Matches(entries, key, wanted, i) || !Matches(entries, key, wanted, j))
            <==> Occurrences(entries, key, wanted, n) <= 1
  {
    if n > 0 {
      OccurrencesBound(entries, key, wanted, n - 1);
      if Matches(entries, key, wanted, n - 1) && Occurrences(entries, key, wanted, n - 1) > 0 {
        var i: nat :| i < n - 1 && Matches(entries, key, wanted, i);
        assert i < n - 1 < n;
      }
    }
  }

  /**
   * What a hit in the map is worth: whatever `find` returns matches, and it is
   * the least matching index whatever `find` returns exactly when the key
   * occurs once among the entries scanned so far.
   */
  lemma FoundExactly(entries: seq<Direntry>, key: Key, wanted: string, m: SearchMap)
    requires MapOk(m, entries, key) && Contains(m, wanted)
    ensures forall k: nat | MayFind(m, wanted, k) :: Matches(entries, key, wanted, k)
    ensures (forall k: nat | MayFind(m, wanted, k) :: First(entries, key, wanted) == Some(k))
            <==> Occurrences(entries, key, wanted, |m|) == 1
  {
    OccurrencesBound(entries, key, wanted, |m|);
    var i :| 0 <= i < |m| && m[i].key == wanted;
    assert Matches(entries, key, wanted, i);
    var least := First(entries, key, wanted).value;
    if Occurrences(entries, key, wanted, |m|) == 1 {
      forall k: nat | MayFind(m, wanted, k) ensures k == least {
        assert Matches(entries, key, wanted, k) && Matches(entries, key, wanted, least);
      }
    } else {
      assert exists a: nat, b: nat | a < b < |m| :: Matches(entries, key, wanted, a) && Matches(entries, key, wanted, b);
      var a: nat, b: nat :| a < b < |m| && Matches(entries, key, wanted, a) && Matches(entries, key, wanted, b);
      assert m[a] == Slot(wanted, a) && m[b] == Slot(wanted, b);
      assert MayFind(m, wanted, a) && MayFind(m, wanted, b);
    }
  }

  /** Two entries with the same key, both scanned: the second may be found. */
  lemma DuplicatesMayBeFound(key: Key, a: Direntry, b: Direntry)
    requires key(a.name) == key(b.name)
    ensures var m := [Slot(key(a.name), 0), Slot(key(a.name), 1)];
            MapOk(m, [a, b], key) && MayFind(m, key(a.name), 1) && First([a, b], key, key(a.name)) == Some(0)
  {
    var m := [Slot(key(a.name), 0), Slot(key(a.name), 1)];
    assert m[1] == Slot(key(a.name), 1);
  }

  /** A scan that finds nothing in the map resumes behind it and finds the first match, or none. */
  lemma MissResumes(entries: seq<Direntry>, key: Key, wanted: string, m: SearchMap)
    requires MapOk(m, entries, key) && !Contains(m, wanted)
    ensures First(entries, key, wanted) == FirstFrom(entries, key, wanted, |m|)
  {
    forall i: nat | i < |m| ensures !Matches(entries, key, wanted, i) {
      assert m[i].key != wanted;
    }
    SkipTo(entries, key, wanted, 0, |m|);
  }

  lemma {:induction false} SkipTo(entries: seq<Direntry>, key: Key, wanted: string, from: nat, end: nat)
    requires from <= end <= |entries|
    requires forall i: nat | from <= i < end :: !Matches(entries, key, wanted, i)
    ensures FirstFrom(entries, key, wanted, from) == FirstFrom(entries, key, wanted, end)
    decreases |entries| - from
  {
    if from < end {
      assert !Matches(entries, key, wanted, from);
      SkipTo(entries, key, wanted, from + 1, end);
    }
  }

  /** One search: the map's answer if it has the key, else a scan that extends the map. */
  method Search(entries: seq<Direntry>, key: Key, wanted: string, m0: SearchMap) returns (r: Option<nat>, m: SearchMap)
    requires MapOk(m0, entries, key)
    ensures MapOk(m, entries, key) && m0 <= m
    ensures r.None? <==> First(entries, key, wanted).None?
    ensures r.Some? ==> Matches(entries, key, wanted, r.value) && r.value < |m|
    ensures Occurrences(entries, key, wanted, |m0|) <= 1 ==> r == First(entries, key, wanted)
  {
    OccurrencesBound(entries, key, wanted, |m0|);
    m := m0;
    if Contains(m0, wanted) {
      FoundExactly(entries, key, wanted, m0);
      var p :| p in m0 && p.key == wanted;
      assert MayFind(m0, wanted, p.index) by {
        var i :| 0 <= i < |m0| && m0[i] == p;
      }
      return Some(p.index), m0;
    }
    MissResumes(entries, key, wanted, m0);
    var i := |m0|;
    while i < |entries|
      invariant |m0| <= i <= |entries| && |m| == i && m0 <= m && MapOk(m, entries, key)
      invariant First(entries, key, wanted) == FirstFrom(entries, key, wanted, i)
    {
      m := m + [Slot(key(entries[i].name), i)];
      if key(entries[i].name) == wanted {
        return Some(i), m;
      }
      i := i + 1;
    }
    r := None;
  }

  // ----- The listing

  class Listing {
    const fold: Key
    var entries: seq<Direntry>
    var caseMap: Option<SearchMap>
    var nocaseMap: Option<SearchMap>
    var fileRemoved: bool
    var dirRemoved: bool

    /** Both maps agree with the entries. */
    ghost predicate Valid()
      reads this
    {
      && (caseMap.Some? ==> MapOk(caseMap.value, entries, Same()))
      && (nocaseMap.Some? ==> MapOk(nocaseMap.value, entries, fold))
    }

    /** The case-sensitive search came first: without its map there is no other. */
    ghost predicate CaseFirst()
      reads this
    {
      nocaseMap.Some? ==> caseMap.Some?
    }

    static function Same(): Key {
      (s: string) => s
    }

    constructor (fold: Key)
      ensures Valid() && CaseFirst() && entries == [] && this.fold == fold
    {
      this.fold := fold;
      entries, caseMap, nocaseMap := [], None, None;
      fileRemoved, dirRemoved := false, false;
    }

    /** `FindFile_CmpCase`. */
    method FindCase(name: string) returns (r: Option<nat>)
      requires Valid()
      modifies this`caseMap
      ensures Valid() && (old(CaseFirst()) ==> CaseFirst()) && (entries != [] ==> caseMap.Some?)
      ensures r.None? <==> First(entries, Same(), name).None?
      ensures r.Some? ==> Matches(entries, Same(), name, r.value)
      ensures old(caseMap.None? || Occurrences(entries, Same(), name, |caseMap.value|) <= 1) ==> r == First(entries, Same(), name)
    {
      if entries == [] {
        return None;
      }
      var m := if caseMap.Some? then caseMap.value else [];
      r, m := Search(entries, Same(), name, m);
      caseMap := Some(m);
    }

    /** `FindFile_CmpNoCase`. */
    method FindNoCase(name: string) returns (r: Option<nat>)
      requires Valid()
      modifies this`nocaseMap
      ensures Valid() && (caseMap.Some? || (entries == [] && old(CaseFirst())) ==> CaseFirst())
      ensures r.None? <==> First(entries, fold, fold(name)).None?
      ensures r.Some? ==> Matches(entries, fold, fold(name), r.value) && nocaseMap.Some? && r.value < |nocaseMap.value|
      ensures old(nocaseMap.None? || Occurrences(entries, fold, fold(name), |nocaseMap.value|) <= 1) ==>
                r == First(entries, fold, fold(name))
    {
      if entries == [] {
        return None;
      }
      var m := if nocaseMap.Some? then nocaseMap.value else [];
      r, m := Search(entries, fold, fold(name), m);
      nocaseMap := Some(m);
    }

    /** The lookup of the directory cache: as written first, then in any case. */
    method Find(name: string, anyCase: bool) returns (r: Option<nat>, matchedCase: bool)
      requires Valid()
      modifies this`caseMap, this`nocaseMap
      ensures Valid() && (old(CaseFirst()) ==> CaseFirst())
      ensures matchedCase <==> First(entries, Same(), name).Some?
      ensures r.Some? <==> matchedCase || (anyCase && First(entries, fold, fold(name)).Some?)
      ensures r.Some? ==> r.value < |entries| && if matchedCase then entries[r.value].name == name
                                                 else fold(entries[r.value].name) == fold(name)
      ensures matchedCase && old(caseMap.None? || Occurrences(entries, Same(), name, |caseMap.value|) <= 1) ==>
                r == First(entries, Same(), name)
      ensures !matchedCase && anyCase && old(nocaseMap.None? || Occurrences(entries, fold, fold(name), |nocaseMap.value|) <= 1) ==>
                r == First(entries, fold, fold(name))
    {
      r := FindCase(name);
      matchedCase := r.Some?;
      if r.None? && anyCase {
        r := FindNoCase(name);
      }
    }

    /** `Assign`. */
    method Assign(given: seq<Direntry>)
      modifies this`entries, this`caseMap, this`nocaseMap
      ensures Valid() && CaseFirst() && entries == given && caseMap.None? && nocaseMap.None?
    {
      entries, caseMap, nocaseMap := given, None, None;
    }

    /** `Append`: the maps stay, as they cover a prefix. */
    method Append(e: Direntry)
      requires Valid()
      modifies this`entries
      ensures Valid() && (old(CaseFirst()) ==> CaseFirst()) && entries == old(entries) + [e]
    {
      entries := entries + [e];
    }

    /** `RemoveEntry`. */
    method RemoveEntry(i: nat) returns (removed: bool)
      requires Valid()
      modifies this
      ensures Valid() && (removed || old(CaseFirst()) ==> CaseFirst()) && (removed <==> i < |old(entries)|)
      ensures entries == if removed then old(entries)[..i] + old(entries)[i + 1..] else old(entries)
      ensures removed ==> (dirRemoved <==> old(dirRemoved) || old(entries)[i].isDir)
      ensures removed ==> (fileRemoved <==> old(fileRemoved) || !old(entries)[i].isDir)
    {
      if i >= |entries| {
        return false;
      }
      caseMap, nocaseMap := None, None;
      if entries[i].isDir {
        dirRemoved := true;
      } else {
        fileRemoved := true;
      }
      entries := entries[..i] + entries[i + 1..];
      return true;
    }

    /**
     * A name changed in place and then `ClearFindMap`. The maps still agree with
     * the entries exactly when the case-sensitive search came first, or the
     * other map does not notice the change.
     */
    method Rename(i: nat, name: string)
      requires Valid() && i < |entries|
      modifies this`entries, this`caseMap, this`nocaseMap
      ensures entries == old(entries)[i := old(entries)[i].(name := name)]
      ensures Valid() <==>
              || old(caseMap.Some? || nocaseMap.None?)
              || i >= |old(nocaseMap.value)|
              || fold(name) == fold(old(entries)[i].name)
      ensures old(CaseFirst()) ==> Valid() && CaseFirst()
      ensures old(caseMap.None?) ==> caseMap.None? && nocaseMap == old(nocaseMap)
    {
      ghost var stale := nocaseMap;
      entries := entries[i := entries[i].(name := name)];
      if caseMap.Some? {
        caseMap, nocaseMap := None, None;
      } else if stale.Some? {
        StaleMap(old(entries), entries, i, stale.value, fold);
      }
    }
  }

  /** What the program does with a listing: it never searches in any case alone. */
  datatype Use =
    | Assigning(given: seq<Direntry>)
    | Appending(e: Direntry)
    | RemovingAt(index: nat)
    | Renaming(index: nat, name: string)
    | Finding(name: string, anyCase: bool)

  /** However the program uses a listing, its maps agree with the entries at the end. */
  method Session(fold: Key, uses: seq<Use>) returns (l: Listing)
    ensures fresh(l) && l.Valid() && l.CaseFirst()
  {
    l := new Listing(fold);
    for n := 0 to |uses|
      invariant fresh(l) && l.Valid() && l.CaseFirst()
    {
      match uses[n]
      case Assigning(given) => l.Assign(given);
      case Appending(e) => l.Append(e);
      case RemovingAt(index) => var _ := l.RemoveEntry(index);
      case Renaming(index, name) =>
        if index < |l.entries| {
          l.Rename(index, name);
        }
      case Finding(name, anyCase) => var _, _ := l.Find(name, anyCase);
    }
  }

  /** A search in any case, without one that minds it, and then a rename, as no caller does: the map still has the old name. */
  method StaleName(fold: Key) returns (l: Listing)
    requires fold("a") == "a" && fold("b") == "b"
    ensures fresh(l) && l.entries == [Direntry("b", 0, "", false, false)] && l.fold == fold && !l.Valid()
    ensures l.nocaseMap.Some? && MayFind(l.nocaseMap.value, fold("a"), 0) && First(l.entries, fold, fold("a")) == None
  {
    l := new Listing(fold);
    l.Assign([Direntry("a", 0, "", false, false)]);
    var r := l.FindNoCase("a");
    assert Matches(l.entries, fold, fold("a"), 0);
    ghost var m := l.nocaseMap.value;
    assert m[0] == Slot("a", 0);
    l.Rename(0, "b");
    assert l.nocaseMap.value[0] == Slot("a", 0);
  }

  lemma StaleMap(before: seq<Direntry>, after: seq<Direntry>, i: nat, m: SearchMap, key: Key)
    requires MapOk(m, before, key) && i < |before| && |after| == |before|
    requires forall k | 0 <= k < |before| && k != i :: after[k] == before[k]
    ensures MapOk(m, after, key) <==> i >= |m| || key(after[i].name) == key(before[i].name)
  {
    if i < |m| { assert m[i] == Slot(key(before[i].name), i); }
  }
}
