/** What the ACL audit reports: exactly which findings, in terms of the match expressions and the buckets. */
module AclFindings {
  import opened Wrappers
  import opened Ordering
  import opened AclMatch
  import opened AclAudit
  import opened AclVerdict

  // ---------- one pair ----------

  /** As the audit reads them, a is at least as broad as b: the constant 1, or conjuncts that are all among b's. */
  ghost predicate Broader(a: string, b: string) {
    a == "1" || (b != "1" && Conjuncts(a) != [] && forall c | c in Conjuncts(a) :: c in Conjuncts(b))
  }

  /** The positions of a that hold an element of b. */
  ghost function Shared(a: seq<string>, b: seq<string>): set<nat> {
    set i: nat | i < |a| && a[i] in b
  }

  lemma {:induction false} CommonCountIs(a: seq<string>, b: seq<string>)
    ensures CommonCount(a, b) == |Shared(a, b)|
  {
    if a != [] {
      var front, n := a[..|a| - 1], |a| - 1;
      CommonCountIs(front, b);
      SharedSnoc(a, b);
    }
  }

  /**
   * What the audit says about two ACLs of a bucket, the first at least as high: equal matches
   * are redundant or shadowed by action; a strictly higher broader one with another action
   * shadows; neither broader but some conjuncts in common, not all of either, is a conflict.
   */
  lemma CompareIs(h: Acl, l: Acl)
    ensures var a, b := Trim(h.match_), Trim(l.match_);
            && (a == b ==> Compare(h, l) == [Finding(if h.action == l.action then Redundant else Shadow, l, h)])
            && (a != b && Broader(a, b) ==>
                  Compare(h, l) ==
                    if h.priority > l.priority && h.action != l.action then [Finding(Shadow, l, h)] else [])
            && (a != b && !Broader(a, b) && Broader(b, a) ==> Compare(h, l) == [])
            && (a != b && !Broader(a, b) && !Broader(b, a) ==>
                  Compare(h, l) == if 0 < |Shared(Conjuncts(a), Conjuncts(b))| < |Conjuncts(a)|
                                      && |Shared(Conjuncts(a), Conjuncts(b))| < |Conjuncts(b)|
                                   then [Finding(Conflicting, l, h)] else [])
  {
    hide Trim, Conjuncts, CommonCount;
    CommonCountIs(Conjuncts(Trim(h.match_)), Conjuncts(Trim(l.match_)));
  }

  ghost predicate Distinct(s: seq<string>) {
    forall i, j | 0 <= i < j < |s| :: s[i] != s[j]
  }

  ghost function Parts(s: seq<string>): set<string> {
    set x | x in s
  }

  lemma {:induction false} SharedOfDistinct(a: seq<string>, b: seq<string>)
    requires Distinct(a)
    ensures |Shared(a, b)| == |Parts(a) * Parts(b)| && |Parts(a)| == |a|
  {
    if a == [] {
      assert Shared(a, b) == {} && Parts(a) == {};
    } else {
      hide Parts, Shared, Distinct;
      DistinctFront(a);
      SharedOfDistinct(a[..|a| - 1], b);
      SharedGrows(a, b);
      PartsGrow(a[..|a| - 1], a[|a| - 1], b);
      assert a[..|a| - 1] + [a[|a| - 1]] == a;
    }
  }

  lemma SharedGrows(a: seq<string>, b: seq<string>)
    requires a != []
    ensures |Shared(a, b)| == |Shared(a[..|a| - 1], b)| + (if a[|a| - 1] in b then 1 else 0)
  {
    SharedSnoc(a, b);
    hide Shared;
  }

  lemma PartsGrow(a: seq<string>, x: string, b: seq<string>)
    requires x !in a
    ensures |Parts(a + [x])| == |Parts(a)| + 1
    ensures |Parts(a + [x]) * Parts(b)| == |Parts(a) * Parts(b)| + (if x in b then 1 else 0)
  {
    PartsSnoc(a, x);
    PartsHas(a, x);
    PartsHas(b, x);
    hide Parts;
    OneMorePart(Parts(a), Parts(b), x);
  }

  lemma OneMorePart(a: set<string>, b: set<string>, x: string)
    requires x !in a
    ensures |a + {x}| == |a| + 1 && |(a + {x}) * b| == |a * b| + (if x in b then 1 else 0)
  {
    assert (a + {x}) * b == if x in b then a * b + {x} else a * b;
  }

  lemma DistinctFront(a: seq<string>)
    requires Distinct(a) && a != []
    ensures Distinct(a[..|a| - 1]) && a[|a| - 1] !in a[..|a| - 1]
  {
  }

  lemma PartsHas(s: seq<string>, x: string)
    ensures x in Parts(s) <==> x in s
  {
  }

  lemma PartsSnoc(s: seq<string>, x: string)
    ensures Parts(s + [x]) == Parts(s) + {x}
  {
  }

  lemma SharedSnoc(a: seq<string>, b: seq<string>)
    requires a != []
    ensures var n := |a| - 1;
            && Shared(a, b) == (if a[n] in b then Shared(a[..n], b) + {n} else Shared(a[..n], b))
            && n !in Shared(a[..n], b)
  {
  }

  /**
   * Two matches that name no conjunct twice, of which neither is the constant 1, are a conflict
   * exactly if they share a conjunct and each has one that the other lacks.
   */
  lemma ConflictIs(h: Acl, l: Acl)
    requires Distinct(Conjuncts(Trim(h.match_))) && Distinct(Conjuncts(Trim(l.match_)))
    requires Trim(h.match_) != "1" && Trim(l.match_) != "1"
    ensures var a, b := Conjuncts(Trim(h.match_)), Conjuncts(Trim(l.match_));
            Compare(h, l) == [Finding(Conflicting, l, h)] <==>
              (exists c :: c in a && c in b) && (exists c :: c in a && c !in b) && (exists c :: c in b && c !in a)
  {
    hide Trim, Conjuncts, Compare, Distinct;
    var a, b := Conjuncts(Trim(h.match_)), Conjuncts(Trim(l.match_));
    CompareIs(h, l);
    SharedOfDistinct(a, b);
    SharedOfDistinct(b, a);
    hide Shared;
    Sizes(Parts(a), Parts(b));
    if exists c :: c in a && c in b {
      var c :| c in a && c in b;
      assert c in Parts(a) * Parts(b);
    }
    if exists c :: c in a && c !in b {
      var c :| c in a && c !in b;
      assert c in Parts(a) - Parts(b);
    }
    if exists c :: c in b && c !in a {
      var c :| c in b && c !in a;
      assert c in Parts(b) - Parts(a);
    }
  }

  lemma Sizes(a: set<string>, b: set<string>)
    ensures |a * b| == 0 <==> a * b == {}
    ensures |a * b| < |a| <==> a - b != {}
    ensures |a * b| < |b| <==> b - a != {}
  {
    assert a == a * b + (a - b) && b == a * b + (b - a);
    assert |a| == |a * b| + |a - b| && |b| == |a * b| + |b - a|;
  }

  /** A conjunct named twice hides a conflict: x, x, y against x, z counts two in common, all of the second. */
  lemma RepeatedConjunctHidesConflict(h: Acl, l: Acl)
    requires Conjuncts(Trim(h.match_)) == ["x", "x", "y"] && Conjuncts(Trim(l.match_)) == ["x", "z"]
    requires Trim(h.match_) != "1" && Trim(l.match_) != "1"
    ensures Compare(h, l) == []
  {
    hide Trim, Conjuncts, Compare;
    var a, b := Conjuncts(Trim(h.match_)), Conjuncts(Trim(l.match_));
    assert a[0] == "x" && a[1] == "x" && a[2] == "y" && b[0] == "x" && b[1] == "z";
    assert "y" in a && "z" in b && "y" != "x" && "y" != "z" && "z" != "x";
    assert Shared(a, b) == {0, 1};
    CompareIs(h, l);
  }

  // ---------- all pairs ----------

  lemma {:induction false} RowHas(s: seq<Acl>, i: nat, j: nat, n: nat)
    requires i < j < n <= |s|
    ensures forall f | f in Compare(s[i], s[j]) :: f in RowFindings(s, i, n)
    decreases n
  {
    hide Compare;
    if j < n - 1 {
      RowHas(s, i, j, n - 1);
    }
  }

  lemma {:induction false} PairsHave(s: seq<Acl>, i: nat, j: nat, m: nat)
    requires i < j < |s| && i < m <= |s|
    ensures forall f | f in Compare(s[i], s[j]) :: f in PairFindings(s, m)
    decreases m
  {
    hide Compare, RowFindings;
    if i < m - 1 {
      PairsHave(s, i, j, m - 1);
    } else {
      RowHas(s, i, j, |s|);
    }
  }

  lemma {:induction false} BucketsHave(groups: seq<seq<Acl>>, k: nat, i: nat, j: nat)
    requires k < |groups| && i < j < |groups[k]|
    ensures forall f | f in Compare(groups[k][i], groups[k][j]) :: f in AllFindings(groups)
    decreases |groups|
  {
    hide Compare, PairFindings;
    var n := |groups| - 1;
    if k < n {
      BucketsHave(groups[..n], k, i, j);
    } else {
      PairsHave(groups[n], i, j, |groups[n]|);
    }
  }

  /** Every pair of every bucket is compared, and nothing else is reported. */
  lemma FindingsAreExactlyPairs(groups: seq<seq<Acl>>, f: Finding)
    ensures f in AllFindings(groups) <==> FromBuckets(groups, f)
  {
    hide Compare, AllFindings;
    AllFromBuckets(groups);
    if FromBuckets(groups, f) {
      var k :| 0 <= k < |groups| && FromPair(groups[k], f);
      var i, j :| 0 <= i < j < |groups[k]| && f in Compare(groups[k][i], groups[k][j]);
      BucketsHave(groups, k, i, j);
    }
  }

  /**
   * Unless it stopped at the cap, the audit reports what comparing two ACLs of one scope,
   * direction and tier yields whenever one has the higher priority.
   */
  lemma AuditReportsEveryPair(acls: seq<Acl>, attachments: seq<Attachment>, r: AuditResult,
                              groups: map<Key, seq<Acl>>, keys: seq<Key>, sorted: seq<seq<Acl>>, key: Key, h: Acl,
                              l: Acl)
    requires forall k, acl :: acl in Bucket(groups, k) <==> Attached(ByUuid(acls), attachments, k, acl)
    requires Arrangement(groups, keys, sorted) && forall k | k in groups :: k in keys
    requires Kept(r.findings, r.truncated, AllFindings(sorted)) && !r.truncated
    requires Attached(ByUuid(acls), attachments, key, h) && Attached(ByUuid(acls), attachments, key, l)
    requires h.priority > l.priority
    ensures forall f | f in Compare(h, l) :: f in r.findings
  {
    hide Compare, AllFindings, Attached, ByUuid;
    assert h in Bucket(groups, key) && l in Bucket(groups, key);
    assert key in groups && key in keys;
    var k :| 0 <= k < |keys| && keys[k] == key;
    var s := sorted[k];
    assert h in multiset(s) && l in multiset(s);
    var i :| 0 <= i < |s| && s[i] == h;
    var j :| 0 <= j < |s| && s[j] == l;
    HigherFirst(s, i, j);
    BucketsHave(sorted, k, i, j);
  }

  lemma HigherFirst(s: seq<Acl>, i: nat, j: nat)
    requires Descending(s, Priority) && i < |s| && j < |s| && s[i].priority > s[j].priority
    ensures i < j
  {
    assert forall a, b | 0 <= a < b < |s| :: Priority(s[a]) >= Priority(s[b]);
  }

  // ---------- tables and counts ----------

  function UuidPairs(acls: seq<Acl>): (p: seq<(string, Acl)>)
    ensures |p| == |acls| && forall i | 0 <= i < |acls| :: p[i] == (acls[i].uuid, acls[i])
  {
    seq(|acls|, i requires 0 <= i < |acls| => (acls[i].uuid, acls[i]))
  }

  /** Of several ACLs with one UUID the audit looks at the last. */
  lemma {:induction false} ByUuidIs(acls: seq<Acl>, u: string, acl: Acl)
    ensures u in ByUuid(acls) && ByUuid(acls)[u] == acl <==> LastEntry(UuidPairs(acls), u, acl)
    decreases |acls|
  {
    if acls != [] {
      hide LastEntry;
      var front, last := acls[..|acls| - 1], acls[|acls| - 1];
      ByUuidIs(front, u, acl);
      assert UuidPairs(acls) == UuidPairs(front) + [(last.uuid, last)];
      LastEntrySnoc(UuidPairs(front), (last.uuid, last), u, acl);
    }
  }

  /** The positions of the findings of a kind. */
  ghost function OfKind(findings: seq<Finding>, kind: Kind): set<nat> {
    set i: nat | i < |findings| && findings[i].kind == kind
  }

  /** The summary counts the findings of each kind. */
  lemma {:induction false} CountOfIs(findings: seq<Finding>, kind: Kind)
    ensures CountOf(findings, kind) == |OfKind(findings, kind)|
  {
    if findings != [] {
      CountOfIs(findings[..|findings| - 1], kind);
      OfKindSnoc(findings, kind);
      hide OfKind;
    }
  }

  lemma OfKindSnoc(findings: seq<Finding>, kind: Kind)
    requires findings != []
    ensures var n := |findings| - 1;
            && OfKind(findings, kind) == OfKind(findings[..n], kind) + (if findings[n].kind == kind then {n} else {})
            && n !in OfKind(findings[..n], kind)
  {
  }

  // ---------- text ----------

  ghost predicate AllSpace(s: string) {
    forall i | 0 <= i < |s| :: IsSpace(s[i])
  }

  lemma {:induction false} TrimLeftIs(s: string) returns (before: string)
    ensures s == before + TrimLeft(s) && AllSpace(before)
    ensures TrimLeft(s) != "" ==> !IsSpace(TrimLeft(s)[0])
  {
    hide IsSpace;
    if s != "" && IsSpace(s[0]) {
      before := TrimLeftIs(s[1..]);
      before := [s[0]] + before;
    } else {
      before := "";
    }
  }

  lemma {:induction false} TrimRightIs(s: string) returns (behind: string)
    ensures s == TrimRight(s) + behind && AllSpace(behind)
    ensures TrimRight(s) != "" ==> !IsSpace(TrimRight(s)[|TrimRight(s)| - 1])
  {
    hide IsSpace;
    if s != "" && IsSpace(s[|s| - 1]) {
      hide AllSpace;
      var front, last := s[..|s| - 1], s[|s| - 1];
      var before := TrimRightIs(front);
      behind := before + [last];
      MoreSpace(before, last);
      assert s == front + [last] && TrimRight(s) == TrimRight(front);
      assert s == TrimRight(s) + (before + [last]);
    } else {
      behind := "";
    }
  }

  lemma MoreSpace(s: string, c: char)
    requires AllSpace(s) && IsSpace(c)
    ensures AllSpace(s + [c])
  {
    hide IsSpace;
  }

  /** Trimming drops the space around a string, all of it and nothing else. */
  lemma TrimIs(s: string) returns (before: string, behind: string)
    ensures s == before + Trim(s) + behind && AllSpace(before) && AllSpace(behind)
    ensures Trim(s) != "" ==> !IsSpace(Trim(s)[0]) && !IsSpace(Trim(s)[|Trim(s)| - 1])
  {
    hide IsSpace;
    before := TrimLeftIs(s);
    behind := TrimRightIs(TrimLeft(s));
    if Trim(s) != "" {
      assert Trim(s)[0] == TrimLeft(s)[0];
    }
  }

  /** Splitting loses nothing, and no part contains the separator. */
  lemma {:induction false} SplitIs(s: string)
    ensures Split(s) != [] && Join(Split(s)) == s
    ensures forall p | p in Split(s) :: !HasAnd(p)
    decreases |s|
  {
    var i := FindAnd(s);
    NoAndBefore(s);
    if i < |s| {
      SplitIs(s[i + 2..]);
      assert Split(s) == [s[..i]] + Split(s[i + 2..]) && Split(s)[1..] == Split(s[i + 2..]);
      assert s == s[..i] + "&&" + s[i + 2..];
    } else {
      assert s[..i] == s;
    }
  }

  lemma {:induction false} NoAndBefore(s: string)
    ensures !HasAnd(s[..FindAnd(s)])
    decreases |s|
  {
    if |s| >= 2 && !(s[0] == '&' && s[1] == '&') {
      NoAndBefore(s[1..]);
      var i := FindAnd(s[1..]);
      var t := s[..i + 1];
      assert t[1..] == s[1..][..i];
      forall k | 0 <= k < |t| - 1
        ensures !(t[k] == '&' && t[k + 1] == '&')
      {
        if k > 0 {
          assert t[k] == s[1..][..i][k - 1] && t[k + 1] == s[1..][..i][k];
        }
      }
    }
  }

  /** The conjuncts of a match are the parts between the separators, trimmed, the empty ones left out. */
  lemma ConjunctsAre(match_: string, c: string)
    ensures c in Conjuncts(match_) <==> c != "" && exists p :: p in Split(match_) && Trim(p) == c
  {
    hide Trim, Split, Sorted;
    SortedHas(NonEmptyTrimmed(Split(match_)));
    TrimmedParts(Split(match_), c);
  }

  lemma {:induction false} TrimmedParts(parts: seq<string>, c: string)
    ensures c in NonEmptyTrimmed(parts) <==> c != "" && exists p :: p in parts && Trim(p) == c
    decreases |parts|
  {
    hide Trim;
    if parts != [] {
      var front, last := parts[..|parts| - 1], parts[|parts| - 1];
      assert parts == front + [last];
      TrimmedParts(front, c);
    }
  }

  ghost predicate Ascending(s: seq<string>) {
    forall i, j | 0 <= i < j < |s| :: !Less(s[j], s[i])
  }

  lemma {:induction false} InsertedAscends(s: seq<string>, x: string)
    requires Ascending(s)
    ensures Ascending(Inserted(s, x))
    decreases |s|
  {
    hide Less;
    InsertedHas(s, x);
    if s != [] {
      if Less(x, s[0]) {
        forall j | 0 <= j < |s|
          ensures !Less(s[j], x)
        {
          LessNot(x, s[0], s[j]);
        }
      } else {
        InsertedAscends(s[1..], x);
        InsertedHas(s[1..], x);
        var t := Inserted(s[1..], x);
        forall j | 0 <= j < |t|
          ensures !Less(t[j], s[0])
        {
          assert t[j] in t;
        }
      }
    }
  }

  /** What is not below b is not below anything below b. */
  lemma LessNot(a: string, b: string, c: string)
    requires Less(a, b) && (c == b || !Less(c, b))
    ensures !Less(c, a)
  {
    if Less(c, a) {
      LessTransitive(c, a, b);
      LessIrreflexive(b);
    }
  }

  /** The conjuncts come in ascending order. */
  lemma {:induction false} SortedAscends(s: seq<string>)
    ensures Ascending(Sorted(s))
    decreases |s|
  {
    if s != [] {
      SortedAscends(s[..|s| - 1]);
      InsertedAscends(Sorted(s[..|s| - 1]), s[|s| - 1]);
    }
  }
}
