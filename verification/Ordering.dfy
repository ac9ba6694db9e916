/** The lexicographic order of strings, and sorting a set of strings by it. */
module Ordering {
  import opened Wrappers

  predicate Less(a: string, b: string) {
    b != "" && (a == "" || a[0] < b[0] || (a[0] == b[0] && Less(a[1..], b[1..])))
  }

  /** Up to position i both agree, and there a ends or has the smaller character. */
  ghost predicate BelowAt(a: string, b: string, i: nat) {
    i <= |a| && i < |b| && a[..i] == b[..i] && (i < |a| ==> a[i] < b[i])
  }

  /** The order is the lexicographic one. */
  lemma {:induction false} LessIs(a: string, b: string)
    ensures Less(a, b) <==> exists i :: BelowAt(a, b, i)
    decreases |a|
  {
    if a == "" {
      assert b != "" ==> BelowAt(a, b, 0);
    } else if b != "" {
      if a[0] == b[0] {
        LessIs(a[1..], b[1..]);
        if i: nat :| BelowAt(a[1..], b[1..], i) {
          assert a[..i + 1] == [a[0]] + a[1..][..i] && b[..i + 1] == [b[0]] + b[1..][..i];
          assert BelowAt(a, b, i + 1);
        }
        if i: nat :| BelowAt(a, b, i) {
          assert i > 0;
          assert a[1..][..i - 1] == a[..i][1..] && b[1..][..i - 1] == b[..i][1..];
          assert BelowAt(a[1..], b[1..], i - 1);
        }
      } else {
        if a[0] < b[0] {
          assert BelowAt(a, b, 0);
        }
        if i: nat :| BelowAt(a, b, i) {
          assert i > 0 ==> a[..i][0] == b[..i][0];
        }
      }
    }
  }

  lemma {:induction false} LessTransitive(a: string, b: string, c: string)
    requires Less(a, b) && Less(b, c)
    ensures Less(a, c)
    decreases |a|
  {
    if a != "" && a[0] == b[0] == c[0] {
      LessTransitive(a[1..], b[1..], c[1..]);
    }
  }

  lemma {:induction false} LessIrreflexive(a: string)
    ensures !Less(a, a)
    decreases |a|
  {
    if a != "" {
      LessIrreflexive(a[1..]);
    }
  }

  lemma {:induction false} LessTotal(a: string, b: string)
    ensures a == b || Less(a, b) || Less(b, a)
    decreases |a|
  {
    if a != "" && b != "" {
      LessTotal(a[1..], b[1..]);
      assert a == [a[0]] + a[1..] && b == [b[0]] + b[1..];
    }
  }

  /** Strictly increasing, so also without repetition. */
  predicate Increasing(s: seq<string>) {
    forall i, j | 0 <= i < j < |s| :: Less(s[i], s[j])
  }

  ghost predicate SortedListing(s: seq<string>, keys: set<string>) {
    Increasing(s) && forall k :: k in s <==> k in keys
  }

  /** A set has only one sorted listing. */
  lemma {:induction false} SortedListingUnique(a: seq<string>, b: seq<string>, keys: set<string>)
    requires SortedListing(a, keys) && SortedListing(b, keys)
    ensures a == b
    decreases |a|
  {
    if a == [] || b == [] {
      EmptyListing(a, keys);
      EmptyListing(b, keys);
    } else {
      SameFirst(a, b, keys);
      TailListing(a, keys);
      TailListing(b, keys);
      SortedListingUnique(a[1..], b[1..], keys - {a[0]});
      assert a == [a[0]] + a[1..] && b == [b[0]] + b[1..];
    }
  }

  lemma EmptyListing(a: seq<string>, keys: set<string>)
    requires SortedListing(a, keys)
    ensures a == [] <==> keys == {}
  {
    if a != [] {
      assert a[0] in a;
    }
  }

  lemma SameFirst(a: seq<string>, b: seq<string>, keys: set<string>)
    requires SortedListing(a, keys) && SortedListing(b, keys) && a != [] && b != []
    ensures a[0] == b[0]
  {
    assert a[0] in a && b[0] in b;
    var i :| 0 <= i < |b| && b[i] == a[0];
    var j :| 0 <= j < |a| && a[j] == b[0];
    if i != 0 && j != 0 {
      LessTransitive(a[0], a[j], b[i]);
      LessIrreflexive(a[0]);
    }
  }

  lemma TailListing(a: seq<string>, keys: set<string>)
    requires SortedListing(a, keys) && a != []
    ensures SortedListing(a[1..], keys - {a[0]})
  {
    assert a == [a[0]] + a[1..];
    LessIrreflexive(a[0]);
    forall k
      ensures k in a[1..] <==> k in keys - {a[0]}
    {
      if k in a[1..] {
        assert k in a;
      }
    }
  }

  method SortKeys(keys: set<string>) returns (s: seq<string>)
    ensures SortedListing(s, keys)
  {
    s := [];
    var rest := keys;
    while rest != {}
      invariant rest <= keys && SortedListing(s, keys - rest)
      decreases |rest|
    {
      var k := Pick(rest);
      s := InsertSorted(s, k, keys - rest);
      rest := rest - {k};
      assert keys - rest == keys - (rest + {k}) + {k};
    }
    assert keys - rest == keys;
  }

  method InsertSorted(s: seq<string>, k: string, ghost keys: set<string>) returns (t: seq<string>)
    requires SortedListing(s, keys) && k !in keys
    ensures SortedListing(t, keys + {k})
  {
    var i := 0;
    while i < |s| && Less(s[i], k)
      invariant 0 <= i <= |s|
      invariant forall j | 0 <= j < i :: Less(s[j], k)
    {
      i := i + 1;
    }
    t := s[..i] + [k] + s[i..];
    InsertedIncreasing(s, k, i, keys);
    assert forall x :: x in t <==> x in s || x == k by {
      assert s == s[..i] + s[i..];
    }
  }

  lemma InsertedIncreasing(s: seq<string>, k: string, i: nat, keys: set<string>)
    requires SortedListing(s, keys) && k !in keys && i <= |s|
    requires forall j | 0 <= j < i :: Less(s[j], k)
    requires i < |s| ==> !Less(s[i], k)
    ensures Increasing(s[..i] + [k] + s[i..])
  {
    var t := s[..i] + [k] + s[i..];
    forall a, b | 0 <= a < b < |t|
      ensures Less(t[a], t[b])
    {
      if a == i {
        assert s[i] in s;
        LessTotal(k, s[i]);
        if b - 1 != i {
          LessTransitive(k, s[i], s[b - 1]);
        }
      }
    }
  }

  // ---------- sorting by a number, largest first ----------

  ghost predicate Descending<T>(s: seq<T>, key: T -> int) {
    forall i, j | 0 <= i < j < |s| :: key(s[i]) >= key(s[j])
  }

  method SortDescending<T>(items: seq<T>, key: T -> int) returns (sorted: seq<T>)
    ensures multiset(sorted) == multiset(items) && Descending(sorted, key)
  {
    sorted := [];
    for n := 0 to |items|
      invariant multiset(sorted) == multiset(items[..n]) && Descending(sorted, key)
    {
      assert items[..n + 1] == items[..n] + [items[n]];
      sorted := InsertDescending(sorted, items[n], key);
    }
    assert items[..|items|] == items;
  }

  method InsertDescending<T>(s: seq<T>, x: T, key: T -> int) returns (t: seq<T>)
    requires Descending(s, key)
    ensures multiset(t) == multiset(s) + multiset{x} && Descending(t, key)
  {
    hide Descending;
    var k := 0;
    while k < |s| && key(s[k]) >= key(x)
      invariant k <= |s| && forall i | 0 <= i < k :: key(s[i]) >= key(x)
    {
      k := k + 1;
    }
    assert s == s[..k] + s[k..];
    t := s[..k] + [x] + s[k..];
    InsertKeepsDescending(s, x, k, key);
  }

  lemma InsertKeepsDescending<T>(s: seq<T>, x: T, k: nat, key: T -> int)
    requires Descending(s, key) && k <= |s|
    requires forall i | 0 <= i < k :: key(s[i]) >= key(x)
    requires k < |s| ==> key(s[k]) < key(x)
    ensures Descending(s[..k] + [x] + s[k..], key)
  {
    var t := s[..k] + [x] + s[k..];
    forall i, j | 0 <= i < j < |t|
      ensures key(t[i]) >= key(t[j])
    {
      if i == k && j - 1 > k {
        assert key(s[k]) >= key(s[j - 1]);
      }
    }
  }
}
