/** The list of cached directories by last use, and sums along it. */
module LruList {
  import opened ServerPath
  import opened CachedListing

  /** A cached directory: servers with the same content count as one. */
  datatype Key = Key(server: nat, path: Path)

  predicate Distinct(s: seq<Key>) {
    forall i, j | 0 <= i < j < |s| :: s[i] != s[j]
  }

  /** The list without one of its elements. */
  function Without(s: seq<Key>, k: Key): (r: seq<Key>)
    ensures forall x :: x in r <==> x in s && x != k
    ensures k !in s ==> r == s
  {
    if s == [] then []
    else if s[0] == k then Without(s[1..], k)
    else
      var r := Without(s[1..], k);
      assert forall x :: x in [s[0]] + r <==> x == s[0] || x in r;
      [s[0]] + r
  }

  /** Times along a list rise. */
  predicate Rising(s: seq<Key>, times: map<Key, nat>) {
    && (forall i | 0 <= i < |s| :: s[i] in times)
    && forall i, j | 0 <= i < j < |s| :: times[s[i]] < times[s[j]]
  }

  lemma RisingDistinct(s: seq<Key>, times: map<Key, nat>)
    requires Rising(s, times)
    ensures Distinct(s)
  {
  }

  lemma {:induction false} WithoutRising(s: seq<Key>, times: map<Key, nat>, k: Key)
    requires Rising(s, times)
    ensures Rising(Without(s, k), times)
  {
    if s != [] {
      WithoutRising(s[1..], times, k);
      var r := Without(s[1..], k);
      forall j | 0 <= j < |r| ensures times[s[0]] < times[r[j]] {
        assert r[j] in s[1..];
        var i :| 0 <= i < |s[1..]| && s[1..][i] == r[j];
        assert s[i + 1] == r[j];
      }
    }
  }

  /** A list with rising times is determined by its elements. */
  lemma {:induction false} RisingUnique(a: seq<Key>, b: seq<Key>, times: map<Key, nat>)
    requires Rising(a, times) && Rising(b, times) && forall k :: k in a <==> k in b
    ensures a == b
  {
    if a != [] {
      assert a[0] in a;
    }
    if b != [] {
      assert b[0] in b;
    }
    if a != [] && b != [] {
      assert a[0] in b && b[0] in a;
      assert a[0] == b[0];
      forall k ensures k in a[1..] <==> k in b[1..] {
        assert k in a <==> k == a[0] || k in a[1..];
        assert k in b <==> k == b[0] || k in b[1..];
      }
      RisingUnique(a[1..], b[1..], times);
    }
  }

  /** The elements of a list that are in a set, in its order. */
  function Among(s: seq<Key>, keys: set<Key>): (r: seq<Key>)
    ensures forall k :: k in r <==> k in s && k in keys
  {
    if s == [] then []
    else
      var r := Among(s[1..], keys);
      assert forall k :: k in [s[0]] + r <==> k == s[0] || k in r;
      if s[0] in keys then [s[0]] + r else r
  }

  lemma {:induction false} AmongRising(s: seq<Key>, keys: set<Key>, times: map<Key, nat>)
    requires Rising(s, times)
    ensures Rising(Among(s, keys), times)
  {
    if s != [] {
      AmongRising(s[1..], keys, times);
      var r := Among(s[1..], keys);
      forall j | 0 <= j < |r| ensures times[s[0]] < times[r[j]] {
        assert r[j] in s[1..];
        var i :| 0 <= i < |s[1..]| && s[1..][i] == r[j];
        assert s[i + 1] == r[j];
      }
    }
  }

  predicate Covered(s: seq<Key>, entries: map<Key, Listing>) {
    forall k | k in s :: k in entries
  }

  /** The number of files in the listings along a list. */
  function Total(s: seq<Key>, entries: map<Key, Listing>): nat
    requires Covered(s, entries)
  {
    if s == [] then 0 else |entries[s[0]].files| + Total(s[1..], entries)
  }

  lemma {:induction false} TotalConcat(a: seq<Key>, b: seq<Key>, entries: map<Key, Listing>)
    requires Covered(a, entries) && Covered(b, entries)
    ensures Covered(a + b, entries) && Total(a + b, entries) == Total(a, entries) + Total(b, entries)
  {
    if a == [] {
      assert a + b == b;
    } else {
      assert (a + b)[1..] == a[1..] + b;
      TotalConcat(a[1..], b, entries);
    }
  }

  lemma {:induction false} TotalWithout(s: seq<Key>, k: Key, entries: map<Key, Listing>)
    requires Covered(s, entries) && Distinct(s)
    ensures Covered(Without(s, k), entries)
    ensures Total(s, entries) == Total(Without(s, k), entries) + if k in s then |entries[k].files| else 0
  {
    if s != [] {
      assert Distinct(s[1..]);
      TotalWithout(s[1..], k, entries);
      if s[0] == k {
        assert k !in s[1..];
      } else {
        assert ([s[0]] + Without(s[1..], k))[1..] == Without(s[1..], k);
      }
    }
  }

  /** Totals depend only on the listings along the list. */
  lemma {:induction false} TotalSame(s: seq<Key>, a: map<Key, Listing>, b: map<Key, Listing>)
    requires Covered(s, a) && Covered(s, b)
    requires forall k | k in s :: |a[k].files| == |b[k].files|
    ensures Total(s, a) == Total(s, b)
  {
    if s != [] {
      assert s[0] in s;
      TotalSame(s[1..], a, b);
    }
  }

  lemma {:induction false} TotalEdit(s: seq<Key>, k: Key, l: Listing, entries: map<Key, Listing>)
    requires Covered(s, entries) && Distinct(s) && k in s
    ensures Covered(s, entries[k := l])
    ensures Total(s, entries[k := l]) + |entries[k].files| == Total(s, entries) + |l.files|
  {
    assert Distinct(s[1..]);
    if s[0] == k {
      assert k !in s[1..];
      TotalSame(s[1..], entries, entries[k := l]);
    } else {
      TotalEdit(s[1..], k, l, entries);
    }
  }
}
