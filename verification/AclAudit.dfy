/** The ACL audit: bucketing, the pairwise comparison, and what its findings mean. */
module AclAudit {
  import opened Wrappers
  import opened Ordering
  import opened AclMatch

  const MAX_FINDINGS := 500

  datatype Acl = Acl(uuid: string, priority: int, direction: string, tier: int, match_: string, action: string)

  datatype Kind = Shadow | Conflicting | Redundant

  /** The audit found something about acl because of related. */
  datatype Finding = Finding(kind: Kind, acl: Acl, related: Acl)

  datatype Scope = SwitchScope(uuid: string) | PortGroupScope(uuid: string)

  /** A switch or port group and the ACLs it lists. */
  datatype Attachment = Attachment(scope: Scope, acls: seq<string>)

  datatype Key = Key(scope: Scope, direction: string, tier: int)

  // ---------- comparing two ACLs ----------

  function Compare(higher: Acl, lower: Acl): seq<Finding> {
    match RelationOf(higher.match_, lower.match_)
    case Equal => [Finding(if higher.action == lower.action then Redundant else Shadow, lower, higher)]
    case Superset =>
      if higher.priority > lower.priority && higher.action != lower.action then [Finding(Shadow, lower, higher)] else []
    case Conflict => [Finding(Conflicting, lower, higher)]
    case _ => []
  }

  method CompareAcls(higher: Acl, lower: Acl) returns (findings: seq<Finding>)
    ensures findings == Compare(higher, lower)
  {
    var relation := MatchRelation(higher.match_, lower.match_);
    if relation == Equal {
      return if higher.action == lower.action then [Finding(Redundant, lower, higher)]
          else [Finding(Shadow, lower, higher)];
    } else if relation == Superset && higher.priority > lower.priority {
      return if higher.action != lower.action then [Finding(Shadow, lower, higher)] else [];
    } else if relation == Conflict {
      return [Finding(Conflicting, lower, higher)];
    }
    return [];
  }

  // ---------- buckets ----------

  /** The listed ACLs by UUID; a later one with the same UUID wins. */
  function ByUuid(acls: seq<Acl>): map<string, Acl> {
    if acls == [] then map[] else ByUuid(acls[..|acls| - 1])[acls[|acls| - 1].uuid := acls[|acls| - 1]]
  }

  /** The key under which an attached ACL is compared. */
  function KeyOf(scope: Scope, acl: Acl): Key {
    Key(scope, acl.direction, acl.tier)
  }

  /** The scope, listing these UUIDs, puts the ACL in the bucket. */
  ghost predicate Listing(byUuid: map<string, Acl>, scope: Scope, uuids: seq<string>, key: Key, acl: Acl) {
    && acl.uuid in uuids && acl.uuid in byUuid && byUuid[acl.uuid] == acl
    && key == Key(scope, acl.direction, acl.tier)
  }

  ghost predicate Attached(byUuid: map<string, Acl>, attachments: seq<Attachment>, key: Key, acl: Acl) {
    exists a :: a in attachments && Listing(byUuid, a.scope, a.acls, key, acl)
  }

  /** Every ACL is filed under its own UUID. */
  ghost predicate FiledByUuid(byUuid: map<string, Acl>) {
    forall u | u in byUuid :: byUuid[u].uuid == u
  }

  function Bucket(groups: map<Key, seq<Acl>>, key: Key): seq<Acl> {
    if key in groups then groups[key] else []
  }

  /** add: every listed ACL goes to its bucket. */
  method AddAttachment(byUuid: map<string, Acl>, a: Attachment, before: map<Key, seq<Acl>>)
    returns (groups: map<Key, seq<Acl>>)
    requires FiledByUuid(byUuid)
    ensures forall key, acl :: acl in Bucket(groups, key) <==>
              acl in Bucket(before, key) || Listing(byUuid, a.scope, a.acls, key, acl)
  {
    groups := before;
    for i := 0 to |a.acls|
      invariant forall key, acl :: acl in Bucket(groups, key) <==>
                  acl in Bucket(before, key) || Listing(byUuid, a.scope, a.acls[..i], key, acl)
    {
      hide Bucket;
      assert a.acls[..i + 1] == a.acls[..i] + [a.acls[i]];
      if a.acls[i] !in byUuid {
        continue;
      }
      var acl := byUuid[a.acls[i]];
      var key := KeyOf(a.scope, acl);
      BucketSnoc(groups, key, acl);
      groups := groups[key := Bucket(groups, key) + [acl]];
    }
    assert a.acls[..|a.acls|] == a.acls;
  }

  lemma BucketSnoc(groups: map<Key, seq<Acl>>, key: Key, acl: Acl)
    ensures forall k, x :: x in Bucket(groups[key := Bucket(groups, key) + [acl]], k) <==>
              x in Bucket(groups, k) || (k == key && x == acl)
  {
    var all := groups[key := Bucket(groups, key) + [acl]];
    assert Bucket(all, key) == Bucket(groups, key) + [acl];
    assert forall k | k != key :: Bucket(all, k) == Bucket(groups, k);
  }

  method BuildGroups(acls: seq<Acl>, attachments: seq<Attachment>) returns (groups: map<Key, seq<Acl>>)
    ensures forall key, acl :: acl in Bucket(groups, key) <==> Attached(ByUuid(acls), attachments, key, acl)
  {
    var byUuid: map<string, Acl> := map[];
    for i := 0 to |acls|
      invariant byUuid == ByUuid(acls[..i]) && FiledByUuid(byUuid)
    {
      assert acls[..i + 1][..i] == acls[..i];
      byUuid := byUuid[acls[i].uuid := acls[i]];
    }
    assert acls[..|acls|] == acls;
    groups := map[];
    for i := 0 to |attachments|
      invariant forall key, acl :: acl in Bucket(groups, key) <==> Attached(byUuid, attachments[..i], key, acl)
    {
      hide Bucket, Listing, FiledByUuid;
      groups := AddAttachment(byUuid, attachments[i], groups);
      assert attachments[..i + 1] == attachments[..i] + [attachments[i]];
    }
    assert attachments[..|attachments|] == attachments;
  }

  // ---------- the pair loop ----------

  function Priority(x: Acl): int {
    x.priority
  }

  /** The findings about ACLs i + 1 .. n because of ACL i. */
  function RowFindings(s: seq<Acl>, i: nat, n: nat): seq<Finding>
    requires i < |s| && n <= |s|
  {
    if n <= i + 1 then [] else RowFindings(s, i, n - 1) + Compare(s[i], s[n - 1])
  }

  /** The findings of the first m rows of the pair loop. */
  function PairFindings(s: seq<Acl>, m: nat): seq<Finding>
    requires m <= |s|
  {
    if m == 0 then [] else PairFindings(s, m - 1) + RowFindings(s, m - 1, |s|)
  }

  function AllFindings(groups: seq<seq<Acl>>): seq<Finding> {
    if groups == [] then []
    else AllFindings(groups[..|groups| - 1]) + PairFindings(groups[|groups| - 1], |groups[|groups| - 1]|)
  }

  function Cut(findings: seq<Finding>): seq<Finding> {
    if |findings| >= MAX_FINDINGS then findings[..MAX_FINDINGS] else findings
  }

  /** findings is what the audit keeps of all the findings so far. */
  predicate Kept(findings: seq<Finding>, truncated: bool, all: seq<Finding>) {
    findings == Cut(all) && (truncated <==> |all| >= MAX_FINDINGS)
  }

  lemma KeptIs(findings: seq<Finding>, truncated: bool, all: seq<Finding>)
    requires Kept(findings, truncated, all)
    ensures truncated <==> |all| >= 500
    ensures findings == if truncated then all[..500] else all
  {
  }

  lemma KeptWhenFull(findings: seq<Finding>, all: seq<Finding>, more: seq<Finding>)
    requires Kept(findings, true, all)
    ensures Kept(findings, true, all + more)
  {
  }

  /** The inner loop. */
  method CompareRow(s: seq<Acl>, i: nat, before: seq<Finding>) returns (findings: seq<Finding>, truncated: bool)
    requires i < |s| && |before| < MAX_FINDINGS
    ensures Kept(findings, truncated, before + RowFindings(s, i, |s|))
  {
    hide Compare, RowFindings;
    findings, truncated := before, false;
    var j := i + 1;
    RowSteps(s, i, j);
    while j < |s|
      invariant i < j <= |s| && !truncated
      invariant findings == before + RowFindings(s, i, j) && |findings| < MAX_FINDINGS
    {
      var more := CompareAcls(s[i], s[j]);
      RowSteps(s, i, j + 1);
      findings := findings + more;
      j := j + 1;
      if |findings| >= MAX_FINDINGS {
        RowPrefix(s, i, j, before);
        findings := findings[..MAX_FINDINGS];
        truncated := true;
        return;
      }
    }
  }

  lemma RowSteps(s: seq<Acl>, i: nat, n: nat)
    requires i < n <= |s|
    ensures n == i + 1 ==> RowFindings(s, i, n) == []
    ensures n > i + 1 ==> RowFindings(s, i, n) == RowFindings(s, i, n - 1) + Compare(s[i], s[n - 1])
  {
  }

  lemma {:induction false} RowGrows(s: seq<Acl>, i: nat, n: nat, m: nat)
    requires i < |s| && i < n <= m <= |s|
    ensures RowFindings(s, i, n) <= RowFindings(s, i, m)
    decreases m
  {
    if n < m {
      RowGrows(s, i, n, m - 1);
    }
  }

  lemma RowPrefix(s: seq<Acl>, i: nat, n: nat, before: seq<Finding>)
    requires i < |s| && i < n <= |s| && |before + RowFindings(s, i, n)| >= MAX_FINDINGS
    ensures Cut(before + RowFindings(s, i, n)) == Cut(before + RowFindings(s, i, |s|))
    ensures |before + RowFindings(s, i, |s|)| >= MAX_FINDINGS
  {
    RowGrows(s, i, n, |s|);
  }

  /** The outer loop over one bucket. */
  method ComparePairs(s: seq<Acl>, before: seq<Finding>, full: bool, ghost all: seq<Finding>)
    returns (findings: seq<Finding>, truncated: bool)
    requires Kept(before, full, all)
    ensures Kept(findings, truncated, all + PairFindings(s, |s|))
  {
    hide RowFindings;
    findings, truncated := before, full;
    var i := 0;
    while i < |s| && !truncated
      invariant i <= |s| && Kept(findings, truncated, all + PairFindings(s, i))
    {
      ghost var sofar := all + PairFindings(s, i);
      findings, truncated := CompareRow(s, i, findings);
      assert sofar + RowFindings(s, i, |s|) == all + PairFindings(s, i + 1);
      i := i + 1;
    }
    if i < |s| {
      KeptToTheEnd(s, i, findings, all);
    }
  }

  lemma KeptToTheEnd(s: seq<Acl>, i: nat, findings: seq<Finding>, all: seq<Finding>)
    requires i <= |s| && Kept(findings, true, all + PairFindings(s, i))
    ensures Kept(findings, true, all + PairFindings(s, |s|))
  {
    hide PairFindings;
    PairsGrow(s, i, |s|);
    var rest := PairFindings(s, |s|)[|PairFindings(s, i)|..];
    KeptWhenFull(findings, all + PairFindings(s, i), rest);
    assert all + PairFindings(s, i) + rest == all + PairFindings(s, |s|);
  }

  lemma {:induction false} PairsGrow(s: seq<Acl>, n: nat, m: nat)
    requires n <= m <= |s|
    ensures PairFindings(s, n) <= PairFindings(s, m)
    decreases m
  {
    hide RowFindings;
    if n < m {
      PairsGrow(s, n, m - 1);
    }
  }

  function CountOf(findings: seq<Finding>, kind: Kind): nat {
    if findings == [] then 0
    else CountOf(findings[..|findings| - 1], kind) + (if findings[|findings| - 1].kind == kind then 1 else 0)
  }

  datatype AuditResult = AuditResult(total: nat, findings: seq<Finding>, shadows: nat, conflicts: nat, redundant: nat,
                                     truncated: bool)

  /** Each bucket once, in some order, sorted by descending priority. */
  ghost predicate Arrangement(groups: map<Key, seq<Acl>>, keys: seq<Key>, sorted: seq<seq<Acl>>) {
    && |sorted| == |keys|
    && (forall i, j | 0 <= i < j < |keys| :: keys[i] != keys[j])
    && (forall i | 0 <= i < |keys| ::
          keys[i] in groups && Descending(sorted[i], Priority) && multiset(sorted[i]) == multiset(groups[keys[i]]))
  }

  /** The audit: every pair of every bucket, up to the cap on findings. */
  method Audit(acls: seq<Acl>, attachments: seq<Attachment>)
    returns (r: AuditResult, ghost groups: map<Key, seq<Acl>>, ghost keys: seq<Key>, ghost sorted: seq<seq<Acl>>)
    ensures forall key, acl :: acl in Bucket(groups, key) <==> Attached(ByUuid(acls), attachments, key, acl)
    ensures Arrangement(groups, keys, sorted) && forall key | key in groups :: key in keys
    ensures Kept(r.findings, r.truncated, AllFindings(sorted)) && r.total == |acls|
    ensures r.truncated <==> |AllFindings(sorted)| >= 500
    ensures r.findings == if r.truncated then AllFindings(sorted)[..500] else AllFindings(sorted)
    ensures r.shadows == CountOf(r.findings, Shadow) && r.conflicts == CountOf(r.findings, Conflicting)
    ensures r.redundant == CountOf(r.findings, Redundant)
  {
    hide Attached, Bucket, ByUuid, Arrangement, Kept, AllFindings, CountOf;
    var buckets := BuildGroups(acls, attachments);
    groups := buckets;
    var findings, truncated;
    findings, truncated, keys, sorted := CompareGroups(buckets);
    var shadows, conflicts, redundant := Summarize(findings);
    r := AuditResult(|acls|, findings, shadows, conflicts, redundant, truncated);
    KeptIs(findings, truncated, AllFindings(sorted));
  }

  /** The loop that counts findings by type. */
  method Summarize(findings: seq<Finding>) returns (shadows: nat, conflicts: nat, redundant: nat)
    ensures shadows == CountOf(findings, Shadow) && conflicts == CountOf(findings, Conflicting)
    ensures redundant == CountOf(findings, Redundant)
  {
    shadows, conflicts, redundant := 0, 0, 0;
    for i := 0 to |findings|
      invariant shadows == CountOf(findings[..i], Shadow) && conflicts == CountOf(findings[..i], Conflicting)
      invariant redundant == CountOf(findings[..i], Redundant)
    {
      assert findings[..i + 1][..i] == findings[..i];
      match findings[i].kind
      case Shadow => shadows := shadows + 1;
      case Conflicting => conflicts := conflicts + 1;
      case Redundant => redundant := redundant + 1;
    }
    assert findings[..|findings|] == findings;
  }

  method CompareGroups(buckets: map<Key, seq<Acl>>)
    returns (findings: seq<Finding>, truncated: bool, ghost keys: seq<Key>, ghost sorted: seq<seq<Acl>>)
    ensures Arrangement(buckets, keys, sorted) && forall key | key in buckets :: key in keys
    ensures Kept(findings, truncated, AllFindings(sorted))
  {
    findings, truncated, keys, sorted := [], false, [], [];
    var rest := buckets.Keys;
    while rest != {}
      invariant rest <= buckets.Keys
      invariant Arrangement(buckets, keys, sorted)
      invariant forall key :: key in keys <==> key in buckets && key !in rest
      invariant Kept(findings, truncated, AllFindings(sorted))
      decreases |rest|
    {
      hide Descending, Kept, PairFindings, Arrangement, AllFindings;
      var key := Pick(rest);
      rest := rest - {key};
      var s := SortDescending(buckets[key], Priority);
      findings, truncated := ComparePairs(s, findings, truncated, AllFindings(sorted));
      OneMoreBucket(buckets, keys, sorted, key, s);
      keys, sorted := keys + [key], sorted + [s];
    }
  }

  lemma OneMoreBucket(buckets: map<Key, seq<Acl>>, keys: seq<Key>, sorted: seq<seq<Acl>>, key: Key, s: seq<Acl>)
    requires Arrangement(buckets, keys, sorted) && key in buckets && key !in keys
    requires Descending(s, Priority) && multiset(s) == multiset(buckets[key])
    ensures Arrangement(buckets, keys + [key], sorted + [s])
    ensures AllFindings(sorted + [s]) == AllFindings(sorted) + PairFindings(s, |s|)
  {
    hide AllFindings, Arrangement, PairFindings, Descending;
    OneMoreArranged(buckets, keys, sorted, key, s);
    FindingsSnoc(sorted, s);
  }

  lemma FindingsSnoc(sorted: seq<seq<Acl>>, s: seq<Acl>)
    ensures AllFindings(sorted + [s]) == AllFindings(sorted) + PairFindings(s, |s|)
  {
    hide PairFindings;
    assert (sorted + [s])[..|sorted|] == sorted;
  }

  lemma OneMoreArranged(buckets: map<Key, seq<Acl>>, keys: seq<Key>, sorted: seq<seq<Acl>>, key: Key, s: seq<Acl>)
    requires Arrangement(buckets, keys, sorted) && key in buckets && key !in keys
    requires Descending(s, Priority) && multiset(s) == multiset(buckets[key])
    ensures Arrangement(buckets, keys + [key], sorted + [s])
  {
    hide Descending;
    var keys1, sorted1 := keys + [key], sorted + [s];
    forall i, j | 0 <= i < j < |keys1|
      ensures keys1[i] != keys1[j]
    {
      assert keys1[i] == keys[i] && keys[i] in keys;
    }
    forall i | 0 <= i < |keys1|
      ensures keys1[i] in buckets && Descending(sorted1[i], Priority)
                && multiset(sorted1[i]) == multiset(buckets[keys1[i]])
    {
      if i < |keys| {
        assert keys1[i] == keys[i] && sorted1[i] == sorted[i];
      }
    }
  }
}
