/** What holds of the directory cache's tables at all times, and how single changes keep it. */
module CacheAccounts {
  import opened ServerPath
  import opened CachedListing
  import opened LruList

  /** The cache's tables: the list by last use with the times of last use, the listings, and the file count. */
  datatype Tables = Tables(lru: seq<Key>, touched: map<Key, nat>, clock: nat, entries: map<Key, Listing>, files: int)

  const MAX_DIRS := 50000
  const MANY_FILES := 1000000
  const MANY_FILES_DIRS := 1000
  const TOO_MANY_FILES := 5000000
  const TOO_MANY_FILES_DIRS := 100

  /** When `Prune` has to evict a directory. */
  predicate Excessive(dirs: nat, files: int) {
    || dirs > MAX_DIRS
    || (files > MANY_FILES && dirs > MANY_FILES_DIRS)
    || (files > TOO_MANY_FILES && dirs > TOO_MANY_FILES_DIRS)
  }

  /** The list by last use has each cached directory once, in the order of last use; the file count is right. */
  ghost predicate Accounted(t: Tables) {
    && Covered(t.lru, t.entries) && (forall k | k in t.entries :: k in t.lru)
    && Rising(t.lru, t.touched) && (forall k | k in t.touched :: t.touched[k] < t.clock)
    && t.files == Total(t.lru, t.entries)
  }

  /** A directory that is not in doubt is as it was last stored, but for owners. */
  ghost predicate Trusted(entries: map<Key, Listing>, servers: set<nat>, stored: map<Key, Listing>) {
    forall k | k in entries :: Trusts(k, entries[k], servers, stored)
  }

  ghost predicate Trusts(k: Key, l: Listing, servers: set<nat>, stored: map<Key, Listing>) {
    && k.path == l.path && k.server in servers
    && k in stored && (l.doubts == {} ==> SameButOwners(l, stored[k]))
  }

  function Touched(t: Tables, k: Key): Tables {
    t.(lru := Without(t.lru, k) + [k], touched := t.touched[k := t.clock], clock := t.clock + 1)
  }

  lemma TouchedOk(t: Tables, k: Key)
    requires Accounted(t) && k in t.entries
    ensures Accounted(Touched(t, k))
  {
    RisingDistinct(t.lru, t.touched);
    WithoutRising(t.lru, t.touched, k);
    TotalWithout(t.lru, k, t.entries);
    TotalConcat(Without(t.lru, k), [k], t.entries);
    RisingAppend(Without(t.lru, k), t.touched, k, t.clock);
    hide Total, Rising, Distinct, Without;
  }

  lemma RisingAppend(s: seq<Key>, times: map<Key, nat>, k: Key, clock: nat)
    requires Rising(s, times) && k !in s && forall x | x in times :: times[x] < clock
    ensures Rising(s + [k], times[k := clock])
  {
    var times' := times[k := clock];
    forall i | 0 <= i < |s| ensures s[i] in times' && times'[s[i]] == times[s[i]] && times[s[i]] < clock {
      assert s[i] in s;
    }
  }

  lemma EditedOk(t: Tables, k: Key, l: Listing)
    requires Accounted(t) && k in t.entries
    ensures Accounted(t.(entries := t.entries[k := l], files := t.files + |l.files| - |t.entries[k].files|))
  {
    RisingDistinct(t.lru, t.touched);
    TotalEdit(t.lru, k, l, t.entries);
    hide Total, Rising, Distinct;
  }

  function Erased(t: Tables, k: Key): Tables
    requires k in t.entries
  {
    t.(lru := Without(t.lru, k), entries := t.entries - {k}, files := t.files - |t.entries[k].files|)
  }

  lemma ErasedOk(t: Tables, k: Key)
    requires Accounted(t) && k in t.entries
    ensures Accounted(Erased(t, k))
  {
    RisingDistinct(t.lru, t.touched);
    WithoutRising(t.lru, t.touched, k);
    TotalWithout(t.lru, k, t.entries);
    hide Total, Rising, Distinct, Without;
    TotalSame(Without(t.lru, k), t.entries, t.entries - {k});
  }

  function Inserted(t: Tables, k: Key, l: Listing): Tables {
    Tables(t.lru + [k], t.touched[k := t.clock], t.clock + 1, t.entries[k := l], t.files + |l.files|)
  }

  lemma InsertedOk(t: Tables, k: Key, l: Listing)
    requires Accounted(t) && k !in t.entries
    ensures Accounted(Inserted(t, k, l))
  {
    assert k !in t.lru;
    RisingAppend(t.lru, t.touched, k, t.clock);
    hide Rising;
    TotalSame(t.lru, t.entries, t.entries[k := l]);
    TotalConcat(t.lru, [k], t.entries[k := l]);
    assert Total([k], t.entries[k := l]) == |l.files|;
  }

  lemma WithoutFirst(s: seq<Key>)
    requires s != [] && Distinct(s)
    ensures Without(s, s[0]) == s[1..]
  {
    assert s[0] !in s[1..];
  }

  lemma FirstErased(t: Tables)
    requires Accounted(t) && t.lru != []
    ensures t.lru[0] in t.entries && Without(t.lru, t.lru[0]) == t.lru[1..]
  {
    RisingDistinct(t.lru, t.touched);
    WithoutFirst(t.lru);
    assert t.lru[0] in t.lru;
  }

  /** Edits that raise doubts, or change owners only, keep the trust. */
  lemma EditTrusted(entries: map<Key, Listing>, servers: set<nat>, stored: map<Key, Listing>, k: Key, l: Listing)
    requires Trusted(entries, servers, stored) && k in entries && l.path == k.path
    requires l.doubts == {} ==> SameButOwners(l, stored[k])
    ensures Trusted(entries[k := l], servers, stored)
  {
    assert Trusts(k, entries[k], servers, stored);
  }

  lemma StoreTrusted(entries: map<Key, Listing>, servers: set<nat>, stored: map<Key, Listing>, k: Key, l: Listing)
    requires Trusted(entries, servers, stored) && l.path == k.path
    ensures Trusted(entries[k := l], servers + {k.server}, stored[k := l])
  {
    assert SameButOwners(l, l);
    forall other | other in entries && other != k ensures Trusts(other, entries[other], servers + {k.server}, stored[k := l]) {
      assert Trusts(other, entries[other], servers, stored);
    }
  }

  lemma EraseTrusted(entries: map<Key, Listing>, servers: set<nat>, stored: map<Key, Listing>, k: Key)
    requires Trusted(entries, servers, stored)
    ensures Trusted(entries - {k}, servers, stored)
  {
    forall other | other in entries - {k} ensures Trusts(other, (entries - {k})[other], servers, stored) {
      assert Trusts(other, entries[other], servers, stored);
    }
  }

  lemma ServerTrusted(entries: map<Key, Listing>, servers: set<nat>, stored: map<Key, Listing>, server: nat)
    requires Trusted(entries, servers, stored) && forall k | k in entries :: k.server != server
    ensures Trusted(entries, servers - {server}, stored)
  {
    forall k | k in entries ensures Trusts(k, entries[k], servers - {server}, stored) {
      assert Trusts(k, entries[k], servers, stored);
    }
  }

  // ----- Pruning

  function KeysOf(s: seq<Key>): set<Key> {
    set k | k in s
  }

  /** There is too much still when so many directories have left. */
  ghost predicate Excess(t: Tables, i: nat) {
    i <= |t.lru| && Covered(t.lru[i..], t.entries) && Excessive(|t.lru| - i, Total(t.lru[i..], t.entries))
  }

  /** Directories left in the order of last use, as many as it took and no more. */
  ghost predicate PrunedAs(t: Tables, t': Tables, n: nat) {
    && n <= |t.lru| && t'.lru == t.lru[n..] && t'.entries == t.entries - KeysOf(t.lru[..n])
    && !Excessive(|t'.lru|, t'.files)
    && forall i | 0 <= i < n :: Excess(t, i)
  }

  lemma StillExcessive(t: Tables, t': Tables, n: nat)
    requires Accounted(t) && Accounted(t') && Excessive(|t'.lru|, t'.files)
    requires n <= |t.lru| && t'.lru == t.lru[n..] && t'.entries == t.entries - KeysOf(t.lru[..n])
    ensures Excess(t, n)
  {
    hide Rising, Total;
    assert Covered(t.lru[n..], t.entries);
    TotalSame(t'.lru, t.entries, t'.entries);
  }

  /** The directory used last always stays. */
  lemma LastOneStays(t: Tables, t': Tables, n: nat)
    requires Accounted(t) && PrunedAs(t, t', n) && t.lru != []
    ensures t'.lru != [] && t'.lru[|t'.lru| - 1] == t.lru[|t.lru| - 1] && t.lru[|t.lru| - 1] in t'.entries
  {
    RisingDistinct(t.lru, t.touched);
    if n > 0 {
      assert Excess(t, n - 1);
    }
    var k := t.lru[|t.lru| - 1];
    assert k in t.lru;
    assert k !in t.lru[..n];
  }

  /** The tables after `Store`: an old listing is replaced; a new one is entered as the last used, and the cache pruned. */
  ghost predicate StoredAs(t: Tables, t': Tables, k: Key, l: Listing) {
    if k in t.entries then
      && t'.entries == t.entries[k := l]
      && t'.lru == Without(t.lru, k) + [k] && t'.touched == t.touched[k := t.clock] && t'.clock == t.clock + 1
    else
      && t'.touched == t.touched[k := t.clock] && t'.clock == t.clock + 1
      && exists n :: PrunedAs(Inserted(t, k, l), t', n)
  }
}
