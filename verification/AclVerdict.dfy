/** Dropping what the ACL audit flags: when it changes which ACLs, or which actions, decide a packet. */
module AclVerdict {
  import opened Ordering
  import opened AclMatch
  import opened AclAudit

  /** The ACL is one of those of highest priority among the ones that match the packet. */
  ghost predicate Decisive(bucket: set<Acl>, packet: Packet, acl: Acl) {
    && acl in bucket && Matches(acl.match_, packet)
    && forall b | b in bucket && Matches(b.match_, packet) :: b.priority <= acl.priority
  }

  /** The same ACLs decide every packet in both. */
  ghost predicate SameVerdicts(a: set<Acl>, b: set<Acl>) {
    forall packet: Packet, acl | Decides(packet) :: Decisive(a, packet, acl) <==> Decisive(b, packet, acl)
  }

  /** The actions that decide a packet. */
  ghost predicate Acts(bucket: set<Acl>, packet: Packet, action: string) {
    exists acl :: Decisive(bucket, packet, acl) && acl.action == action
  }

  /** The same actions decide every packet in both. */
  ghost predicate SameActions(a: set<Acl>, b: set<Acl>) {
    forall packet: Packet, action | Decides(packet) :: Acts(a, packet, action) <==> Acts(b, packet, action)
  }

  /** An audit finding says that related, of strictly higher priority, makes the ACL pointless. */
  ghost predicate Pointless(findings: seq<Finding>, bucket: set<Acl>, acl: Acl) {
    exists f :: f in findings && f.acl == acl && f.kind != Conflicting && f.related in bucket
      && f.related.priority > acl.priority
  }

  /** Every finding is what comparing its two ACLs yields. */
  ghost predicate Genuine(findings: seq<Finding>) {
    forall f | f in findings :: f in Compare(f.related, f.acl)
  }

  /** The finding is about two members of the bucket, the related one listed before the other. */
  ghost predicate FromPair(s: seq<Acl>, f: Finding) {
    exists i, j :: 0 <= i < j < |s| && f in Compare(s[i], s[j])
  }

  // ---------- where findings come from ----------

  lemma {:induction false} RowFromPairs(s: seq<Acl>, i: nat, n: nat)
    requires i < |s| && n <= |s|
    ensures forall f | f in RowFindings(s, i, n) :: FromPair(s, f)
  {
    hide Compare;
    if n > i + 1 {
      RowFromPairs(s, i, n - 1);
    }
  }

  lemma {:induction false} FindingsFromPairs(s: seq<Acl>, m: nat)
    requires m <= |s|
    ensures forall f | f in PairFindings(s, m) :: FromPair(s, f)
  {
    hide FromPair, RowFindings;
    if m > 0 {
      FindingsFromPairs(s, m - 1);
      RowFromPairs(s, m - 1, |s|);
    }
  }

  /** Some bucket holds the two ACLs of the finding, in this order. */
  ghost predicate FromBuckets(groups: seq<seq<Acl>>, f: Finding) {
    exists k :: 0 <= k < |groups| && FromPair(groups[k], f)
  }

  lemma {:induction false} AllFromBuckets(groups: seq<seq<Acl>>)
    ensures forall f | f in AllFindings(groups) :: FromBuckets(groups, f)
    decreases |groups|
  {
    hide FromPair, PairFindings;
    if groups != [] {
      var front, last := groups[..|groups| - 1], groups[|groups| - 1];
      AllFromBuckets(front);
      FindingsFromPairs(last, |last|);
      forall f | f in AllFindings(groups)
        ensures FromBuckets(groups, f)
      {
        if f in AllFindings(front) {
          var k :| 0 <= k < |front| && FromPair(front[k], f);
          assert groups[k] == front[k];
        } else {
          assert FromPair(groups[|groups| - 1], f);
        }
      }
    }
  }

  /** Every kept finding comes from comparing its two ACLs within one bucket. */
  lemma KeptAreGenuine(findings: seq<Finding>, truncated: bool, groups: seq<seq<Acl>>)
    requires Kept(findings, truncated, AllFindings(groups))
    ensures Genuine(findings) && forall f | f in findings :: FromBuckets(groups, f)
  {
    hide Compare;
    AllFromBuckets(groups);
    forall f | f in findings
      ensures f in AllFindings(groups) && f in Compare(f.related, f.acl)
    {
      assert FromBuckets(groups, f);
      PairedIsGenuine(groups, f);
    }
  }

  lemma PairedIsGenuine(groups: seq<seq<Acl>>, f: Finding)
    requires FromBuckets(groups, f)
    ensures f in Compare(f.related, f.acl)
  {
    hide RelationOf;
    var k :| 0 <= k < |groups| && FromPair(groups[k], f);
    var i, j :| 0 <= i < j < |groups[k]| && f in Compare(groups[k][i], groups[k][j]);
  }

  // ---------- removing flagged ACLs ----------

  /** Some matching ACL has the highest priority. */
  lemma {:induction false} SomeAclDecides(bucket: set<Acl>, packet: Packet, b: Acl) returns (top: Acl)
    requires b in bucket && Matches(b.match_, packet)
    ensures Decisive(bucket, packet, top) && top.priority >= b.priority
    decreases bucket
  {
    if exists x :: x in bucket && Matches(x.match_, packet) && x.priority > b.priority {
      var x :| x in bucket && Matches(x.match_, packet) && x.priority > b.priority;
      top := SomeAclDecides(bucket - {b}, packet, x);
    } else {
      top := b;
    }
  }

  /** A pointless ACL decides nothing: the ACL that makes it so also matches. */
  lemma PointlessIsNotDecisive(findings: seq<Finding>, bucket: set<Acl>, packet: Packet, acl: Acl)
    requires Genuine(findings) && Pointless(findings, bucket, acl) && acl in bucket && Decides(packet)
    requires forall a | a in bucket :: Conjunctive(a.match_)
    ensures !Decisive(bucket, packet, acl)
  {
    hide RelationOf, Matches, Conjunctive;
    var f :| f in findings && f.acl == acl && f.kind != Conflicting && f.related in bucket
        && f.related.priority > acl.priority;
    assert f in Compare(f.related, f.acl);
    RelationIsSound(f.related.match_, acl.match_, packet);
  }

  /**
   * Deleting at once any set of ACLs that findings of the audit say are shadowed or redundant
   * because of an ACL of strictly higher priority in the same bucket changes no verdict.
   */
  lemma RemovingFlaggedKeepsVerdicts(findings: seq<Finding>, bucket: set<Acl>, removed: set<Acl>)
    requires Genuine(findings) && forall a | a in bucket :: Conjunctive(a.match_)
    requires removed <= bucket && forall a | a in removed :: Pointless(findings, bucket, a)
    ensures SameVerdicts(bucket, bucket - removed)
  {
    hide Matches, Conjunctive, Pointless, Genuine;
    forall packet: Packet, acl | Decides(packet)
      ensures Decisive(bucket, packet, acl) <==> Decisive(bucket - removed, packet, acl)
    {
      if Decisive(bucket, packet, acl) {
        if acl in removed {
          PointlessIsNotDecisive(findings, bucket, packet, acl);
        }
      } else if Decisive(bucket - removed, packet, acl) {
        var top := SomeAclDecides(bucket, packet, acl);
        if top in removed {
          PointlessIsNotDecisive(findings, bucket, packet, top);
        }
      }
    }
  }

  // ---------- actions: equal priorities included ----------

  /** The finding is harmless to act on: redundant at any priority, shadowed from a strictly higher one. */
  ghost predicate Droppable(findings: seq<Finding>, s: seq<Acl>, acl: Acl) {
    exists f :: f in findings && FromPair(s, f) && f.acl == acl
                && (f.kind == Redundant || (f.kind == Shadow && f.related.priority > acl.priority))
  }

  /** A sorted bucket that lists no ACL twice. */
  ghost predicate SortedBucket(s: seq<Acl>) {
    Descending(s, Priority) && (forall i, j | 0 <= i < j < |s| :: s[i] != s[j])
      && forall a | a in s :: Conjunctive(a.match_)
  }

  ghost function Members(s: seq<Acl>): set<Acl> {
    set a | a in s
  }

  lemma FindingMeans(h: Acl, l: Acl, f: Finding, packet: Packet)
    requires f in Compare(h, l) && f.kind != Conflicting
    requires Conjunctive(h.match_) && Conjunctive(l.match_) && Decides(packet) && Matches(l.match_, packet)
    ensures f.acl == l && f.related == h && (f.kind == Redundant ==> h.action == l.action)
    ensures Matches(h.match_, packet)
  {
    hide RelationOf, Matches, Conjunctive, Decides;
    RelationIsSound(h.match_, l.match_, packet);
  }

  lemma FindingIsAbout(h: Acl, l: Acl, f: Finding)
    requires f in Compare(h, l)
    ensures f.acl == l && f.related == h
  {
    hide RelationOf;
  }

  /** A droppable ACL that decides a packet has an earlier one with the same action that decides it too. */
  lemma EarlierTwin(findings: seq<Finding>, s: seq<Acl>, packet: Packet, j: nat) returns (i: nat)
    requires SortedBucket(s) && Decides(packet) && j < |s|
    requires Decisive(Members(s), packet, s[j]) && Droppable(findings, s, s[j])
    ensures i < j && Decisive(Members(s), packet, s[i]) && s[i].action == s[j].action
  {
    hide Compare, Matches, Conjunctive, Decides;
    var f :| f in findings && FromPair(s, f) && f.acl == s[j]
             && (f.kind == Redundant || (f.kind == Shadow && f.related.priority > s[j].priority));
    var k, l :| 0 <= k < l < |s| && f in Compare(s[k], s[l]);
    FindingIsAbout(s[k], s[l], f);
    assert l == j;
    i := k;
    assert s[j] in s && s[i] in s;
    FindingMeans(s[i], s[j], f, packet);
    assert s[i].priority >= s[j].priority && s[i] in Members(s);
  }

  /** Following the twins ends at an ACL that stays. */
  lemma {:induction false} KeptTwin(findings: seq<Finding>, s: seq<Acl>, removed: set<Acl>, packet: Packet, j: nat)
    returns (kept: Acl)
    requires SortedBucket(s) && Decides(packet) && j < |s| && Decisive(Members(s), packet, s[j])
    requires forall a | a in removed :: Droppable(findings, s, a)
    ensures kept in Members(s) - removed && Decisive(Members(s), packet, kept) && kept.action == s[j].action
    decreases j
  {
    hide Decisive, Droppable, SortedBucket, Decides;
    if s[j] in removed {
      var i := EarlierTwin(findings, s, packet, j);
      kept := KeptTwin(findings, s, removed, packet, i);
    } else {
      kept := s[j];
      assert Decisive(Members(s), packet, kept);
      DecisiveIsMember(Members(s), packet, kept);
    }
  }

  lemma DecisiveIsMember(bucket: set<Acl>, packet: Packet, acl: Acl)
    requires Decisive(bucket, packet, acl)
    ensures acl in bucket
  {
  }

  /**
   * Deleting at once any set of ACLs that the audit calls redundant, equal priorities included,
   * or shadowed from a strictly higher priority leaves the actions that decide each packet.
   */
  lemma RemovingFlaggedKeepsActions(findings: seq<Finding>, s: seq<Acl>, removed: set<Acl>)
    requires SortedBucket(s) && forall a | a in removed :: Droppable(findings, s, a)
    ensures SameActions(Members(s), Members(s) - removed)
  {
    hide SortedBucket, Droppable;
    var all := Members(s);
    forall packet: Packet, action | Decides(packet)
      ensures Acts(all, packet, action) <==> Acts(all - removed, packet, action)
    {
      if Acts(all, packet, action) {
        var acl :| Decisive(all, packet, acl) && acl.action == action;
        var j :| 0 <= j < |s| && s[j] == acl;
        var kept := KeptTwin(findings, s, removed, packet, j);
        assert Decisive(all - removed, packet, kept);
      }
      if Acts(all - removed, packet, action) {
        var acl :| Decisive(all - removed, packet, acl) && acl.action == action;
        var top := SomeAclDecides(all, packet, acl);
        var j :| 0 <= j < |s| && s[j] == top;
        var kept := KeptTwin(findings, s, removed, packet, j);
        assert Decisive(all, packet, acl);
      }
    }
  }

  // ---------- dropping one ACL: the exact conditions ----------

  /** Every conjunct of a is one of b or the constant 1, so a is true wherever b is. */
  ghost predicate Covers(a: string, b: string) {
    forall c | c in Conjuncts(Trim(a)) :: c in Conjuncts(Trim(b)) || c == "1"
  }

  lemma CoversIsSound(a: string, b: string, packet: Packet)
    requires Covers(a, b) && Conjunctive(a) && Conjunctive(b) && Decides(packet) && Matches(b, packet)
    ensures Matches(a, packet)
  {
    MatchesByConjuncts(a, packet);
    MatchesByConjuncts(b, packet);
  }

  /** The packet for which nothing is true but what this match says. */
  ghost function Least(match_: string): Packet {
    c => c in Conjuncts(Trim(match_)) || c == "1"
  }

  /** It tells which matches cover this one. */
  lemma LeastPacket(match_: string, a: string)
    requires Conjunctive(match_) && Conjunctive(a)
    ensures Decides(Least(match_)) && Matches(match_, Least(match_))
    ensures Matches(a, Least(match_)) <==> Covers(a, match_)
  {
    MatchesByConjuncts(match_, Least(match_));
    MatchesByConjuncts(a, Least(match_));
  }

  /** Dropping one ACL leaves the deciding ACLs exactly if another covers it from a strictly higher priority. */
  lemma DroppingKeepsVerdicts(bucket: set<Acl>, l: Acl)
    requires l in bucket && forall a | a in bucket :: Conjunctive(a.match_)
    ensures SameVerdicts(bucket, bucket - {l}) <==>
              exists b :: b in bucket - {l} && b.priority > l.priority && Covers(b.match_, l.match_)
  {
    hide Matches, Conjunctive, Covers, Decides;
    if b :| b in bucket - {l} && b.priority > l.priority && Covers(b.match_, l.match_) {
      forall packet: Packet, acl | Decides(packet)
        ensures Decisive(bucket, packet, acl) <==> Decisive(bucket - {l}, packet, acl)
      {
        if Matches(l.match_, packet) {
          CoversIsSound(b.match_, l.match_, packet);
        }
      }
    } else {
      var packet := Least(l.match_);
      forall a | a in bucket
        ensures Matches(a.match_, packet) ==> a == l || a.priority <= l.priority
      {
        LeastPacket(l.match_, a.match_);
      }
      LeastPacket(l.match_, l.match_);
      assert Decisive(bucket, packet, l) && !Decisive(bucket - {l}, packet, l);
    }
  }

  /** Dropping l is made up for by b. */
  ghost predicate MakesUpFor(b: Acl, l: Acl) {
    Covers(b.match_, l.match_) && (b.priority > l.priority || (b.priority == l.priority && b.action == l.action))
  }

  /**
   * What the audit flags because of an ACL of the same priority can be dropped without changing
   * the actions that decide packets exactly if some other ACL covers it from a strictly higher
   * priority, or from the same one with the same action.
   */
  lemma DroppingTiedKeepsActions(bucket: set<Acl>, h: Acl, l: Acl, f: Finding)
    requires h in bucket && l in bucket && h != l && h.priority == l.priority
              && forall a | a in bucket :: Conjunctive(a.match_)
    requires f in Compare(h, l) && f.kind != Conflicting
    ensures SameActions(bucket, bucket - {l}) <==> exists b :: b in bucket - {l} && MakesUpFor(b, l)
    ensures f.kind == Redundant ==> SameActions(bucket, bucket - {l})
  {
    TiedFindingCovers(h, l, f);
    hide Conjunctive, Covers, Compare, SameActions;
    if exists b :: b in bucket - {l} && MakesUpFor(b, l) {
      var b :| b in bucket - {l} && MakesUpFor(b, l);
      MakingUpKeepsActions(bucket, l, b);
    } else {
      NothingMakesUp(bucket, h, l);
    }
    if f.kind == Redundant {
      assert MakesUpFor(h, l);
    }
  }

  /** With nothing else to make up for it, the last of a tie takes its action along. */
  lemma NothingMakesUp(bucket: set<Acl>, h: Acl, l: Acl)
    requires h in bucket && l in bucket && h != l && h.priority == l.priority
              && forall a | a in bucket :: Conjunctive(a.match_)
    requires Covers(h.match_, l.match_) && !exists b :: b in bucket - {l} && MakesUpFor(b, l)
    ensures !SameActions(bucket, bucket - {l})
  {
    hide Matches, Conjunctive, Covers, Decides;
    var packet := Least(l.match_);
    LeastPacket(l.match_, l.match_);
    forall a | a in bucket
      ensures Matches(a.match_, packet) ==> Covers(a.match_, l.match_) && a.priority <= l.priority
      ensures a == h ==> Matches(a.match_, packet)
    {
      LeastPacket(l.match_, a.match_);
      assert a.priority > l.priority ==> !(a in bucket - {l} && MakesUpFor(a, l));
    }
    assert Decisive(bucket, packet, l) && Acts(bucket, packet, l.action);
    forall x | Decisive(bucket - {l}, packet, x)
      ensures x.action != l.action
    {
      assert x in bucket - {l} && !MakesUpFor(x, l);
    }
    assert !Acts(bucket - {l}, packet, l.action);
  }

  lemma TiedFindingCovers(h: Acl, l: Acl, f: Finding)
    requires h.priority == l.priority && f in Compare(h, l) && f.kind != Conflicting
    ensures Covers(h.match_, l.match_) && (f.kind == Redundant <==> h.action == l.action)
  {
    hide Trim, Conjuncts;
  }

  lemma MakingUpKeepsActions(bucket: set<Acl>, l: Acl, b: Acl)
    requires l in bucket && b in bucket - {l} && MakesUpFor(b, l) && forall a | a in bucket :: Conjunctive(a.match_)
    ensures SameActions(bucket, bucket - {l})
  {
    hide Matches, Conjunctive, Covers, Decides;
    forall packet: Packet, action | Decides(packet)
      ensures Acts(bucket, packet, action) <==> Acts(bucket - {l}, packet, action)
    {
      if Matches(l.match_, packet) {
        CoversIsSound(b.match_, l.match_, packet);
      }
      if Acts(bucket, packet, action) {
        var x :| Decisive(bucket, packet, x) && x.action == action;
        assert Decisive(bucket - {l}, packet, if x == l then b else x);
      }
      if Acts(bucket - {l}, packet, action) {
        var x :| Decisive(bucket - {l}, packet, x) && x.action == action;
        assert Decisive(bucket, packet, x);
      }
    }
  }

  /**
   * Two ACLs of one priority with the same match and different actions: dropping the flagged one
   * changes what happens.
   */
  lemma TiedShadowDecides(h: Acl, l: Acl)
    requires h.priority == l.priority && h.action != l.action
    requires RelationOf(h.match_, l.match_) == Equal && Conjunctive(h.match_) && Conjunctive(l.match_)
    ensures Compare(h, l) == [Finding(Shadow, l, h)]
    ensures !SameActions({h, l}, {h, l} - {l})
  {
    hide Conjunctive, Covers;
    assert Compare(h, l)[0] == Finding(Shadow, l, h);
    DroppingTiedKeepsActions({h, l}, h, l, Finding(Shadow, l, h));
  }

  // ---------- findings hold per bucket ----------

  lemma AllTrueMatches(match_: string)
    requires Conjunctive(match_)
    ensures Matches(match_, x => true)
  {
    var pieces :| IsConjunction(Trim(match_), pieces);
    assert forall p | p in pieces :: (x => true)(Trim(p));
  }

  /**
   * A finding holds for the bucket it was made in only: an ACL shadowed on one switch may
   * decide alone on another that lists it too.
   */
  lemma FlaggedElsewhereStillDecides(h: Acl, l: Acl, first: Scope, second: Scope)
    requires h.uuid != l.uuid && first != second && h.direction == l.direction && h.tier == l.tier
    requires RelationOf(h.match_, l.match_) == Equal && h.priority > l.priority && Conjunctive(l.match_)
    ensures var attachments := [Attachment(first, [h.uuid, l.uuid]), Attachment(second, [l.uuid])];
            && Attached(ByUuid([h, l]), attachments, KeyOf(first, l), h)
                  && Attached(ByUuid([h, l]), attachments, KeyOf(first, l), l)
            && Compare(h, l) != [] && Compare(h, l)[0].acl == l
            && (forall a :: Attached(ByUuid([h, l]), attachments, KeyOf(second, l), a) <==> a == l)
    ensures !SameVerdicts({l}, {l} - {l})
  {
    hide RelationOf, Conjunctive, Matches;
    var attachments := [Attachment(first, [h.uuid, l.uuid]), Attachment(second, [l.uuid])];
    var byUuid := ByUuid([h, l]);
    TwoByUuid(h, l);
    assert Listing(byUuid, first, attachments[0].acls, KeyOf(first, l), h);
    assert Listing(byUuid, first, attachments[0].acls, KeyOf(first, l), l);
    assert Listing(byUuid, second, attachments[1].acls, KeyOf(second, l), l);
    assert attachments[0] in attachments && attachments[1] in attachments;
    AllTrueMatches(l.match_);
    assert Decisive({l}, x => true, l) && !Decisive({l} - {l}, x => true, l);
  }

  lemma TwoByUuid(h: Acl, l: Acl)
    requires h.uuid != l.uuid
    ensures ByUuid([h, l]) == map[h.uuid := h, l.uuid := l]
  {
    assert [h, l][..1] == [h] && [h][..0] == [];
    assert ByUuid([h]) == map[h.uuid := h];
  }
}
