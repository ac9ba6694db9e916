/** How the ACL audit compares match expressions, and what the comparison means for packets. */
module AclMatch {
  import opened Ordering

  // ---------- strings ----------

  /** unicode.IsSpace. */
  predicate IsSpace(c: char) {
    var n := c as int;
    || 0x09 <= n <= 0x0d || n == 0x20 || n == 0x85 || n == 0xa0 || n == 0x1680 || 0x2000 <= n <= 0x200a
    || n == 0x2028 || n == 0x2029 || n == 0x202f || n == 0x205f || n == 0x3000
  }

  function TrimLeft(s: string): string {
    if s != "" && IsSpace(s[0]) then TrimLeft(s[1..]) else s
  }

  function TrimRight(s: string): string {
    if s != "" && IsSpace(s[|s| - 1]) then TrimRight(s[..|s| - 1]) else s
  }

  function Trim(s: string): string {
    TrimRight(TrimLeft(s))
  }

  /** The first position of "&&" in s, or |s|. */
  function FindAnd(s: string): (i: nat)
    ensures i <= |s| && (i < |s| ==> i + 1 < |s| && s[i] == '&' && s[i + 1] == '&')
  {
    if |s| < 2 then |s|
    else if s[0] == '&' && s[1] == '&' then 0
    else 1 + FindAnd(s[1..])
  }

  function Split(s: string): seq<string>
    decreases |s|
  {
    var i := FindAnd(s);
    if i == |s| then [s] else [s[..i]] + Split(s[i + 2..])
  }

  function Join(pieces: seq<string>): string
    requires pieces != []
    decreases |pieces|
  {
    if |pieces| == 1 then pieces[0] else pieces[0] + "&&" + Join(pieces[1..])
  }

  // ---------- sorting ----------

  function Inserted(s: seq<string>, x: string): seq<string> {
    if s == [] || Less(x, s[0]) then [x] + s else [s[0]] + Inserted(s[1..], x)
  }

  function Sorted(s: seq<string>): seq<string> {
    if s == [] then [] else Inserted(Sorted(s[..|s| - 1]), s[|s| - 1])
  }

  lemma {:induction false} InsertedHas(s: seq<string>, x: string)
    ensures |Inserted(s, x)| == |s| + 1 && forall y :: y in Inserted(s, x) <==> y in s || y == x
    decreases |s|
  {
    if s != [] && !Less(x, s[0]) {
      InsertedHas(s[1..], x);
      assert s == [s[0]] + s[1..];
    }
  }

  lemma {:induction false} SortedHas(s: seq<string>)
    ensures |Sorted(s)| == |s| && forall y :: y in Sorted(s) <==> y in s
    decreases |s|
  {
    if s != [] {
      var front, last := s[..|s| - 1], s[|s| - 1];
      assert s == front + [last];
      SortedHas(front);
      InsertedHas(Sorted(front), last);
    }
  }

  // ---------- conjuncts ----------

  function NonEmptyTrimmed(parts: seq<string>): seq<string> {
    if parts == [] then []
    else
      NonEmptyTrimmed(parts[..|parts| - 1])
      + (if Trim(parts[|parts| - 1]) != "" then [Trim(parts[|parts| - 1])] else [])
  }

  function Conjuncts(match_: string): seq<string> {
    Sorted(NonEmptyTrimmed(Split(match_)))
  }

  method ParseConjuncts(match_: string) returns (result: seq<string>)
    ensures result == Conjuncts(match_)
  {
    var parts := Split(match_);
    var found: seq<string> := [];
    for i := 0 to |parts|
      invariant found == NonEmptyTrimmed(parts[..i])
    {
      assert parts[..i + 1][..i] == parts[..i];
      var p := Trim(parts[i]);
      if p != "" {
        found := found + [p];
      }
    }
    assert parts[..|parts|] == parts;
    result := [];
    for i := 0 to |found|
      invariant result == Sorted(found[..i])
    {
      assert found[..i + 1][..i] == found[..i];
      result := Inserted(result, found[i]);
    }
    assert found[..|found|] == found;
  }

  predicate SubsetOf(a: seq<string>, b: seq<string>) {
    a != [] && forall c | c in a :: c in b
  }

  method IsSubsetOfConjuncts(a: seq<string>, b: seq<string>) returns (subset: bool)
    ensures subset == SubsetOf(a, b)
  {
    if |a| == 0 {
      return false;
    }
    var bSet := set c | c in b;
    for i := 0 to |a|
      invariant forall j | 0 <= j < i :: a[j] in b
    {
      if a[i] !in bSet {
        return false;
      }
    }
    return true;
  }

  function CommonCount(a: seq<string>, b: seq<string>): nat {
    if a == [] then 0 else CommonCount(a[..|a| - 1], b) + (if a[|a| - 1] in b then 1 else 0)
  }

  method CountCommonConjuncts(a: seq<string>, b: seq<string>) returns (count: nat)
    ensures count == CommonCount(a, b)
  {
    var bSet := set c | c in b;
    count := 0;
    for i := 0 to |a|
      invariant count == CommonCount(a[..i], b)
    {
      assert a[..i + 1][..i] == a[..i];
      if a[i] in bSet {
        count := count + 1;
      }
    }
    assert a[..|a|] == a;
  }

  datatype Relation = Disjoint | Equal | Superset | Subset | Conflict

  function RelationOf(a: string, b: string): Relation {
    var a, b := Trim(a), Trim(b);
    if a == b then Equal
    else if a == "1" then Superset
    else if b == "1" then Subset
    else
      var ca, cb := Conjuncts(a), Conjuncts(b);
      if SubsetOf(ca, cb) then Superset
      else if SubsetOf(cb, ca) then Subset
      else
        var common := CommonCount(ca, cb);
        if 0 < common < |ca| && common < |cb| then Conflict else Disjoint
  }

  method MatchRelation(x: string, y: string) returns (r: Relation)
    ensures r == RelationOf(x, y)
  {
    hide Trim, Conjuncts, CommonCount;
    var a, b := Trim(x), Trim(y);
    if a == b {
      return Equal;
    }
    if a == "1" {
      return Superset;
    }
    if b == "1" {
      return Subset;
    }
    var conjA := ParseConjuncts(a);
    var conjB := ParseConjuncts(b);
    var broader := IsSubsetOfConjuncts(conjA, conjB);
    if broader {
      return Superset;
    }
    var narrower := IsSubsetOfConjuncts(conjB, conjA);
    if narrower {
      return Subset;
    }
    var common := CountCommonConjuncts(conjA, conjB);
    return if common > 0 && common < |conjA| && common < |conjB| then Conflict else Disjoint;
  }

  // ---------- what a match means ----------

  predicate HasAnd(s: string) {
    exists i :: 0 <= i < |s| - 1 && s[i] == '&' && s[i + 1] == '&'
  }

  /** One operand of a conjunction, with the space around it. */
  predicate Piece(p: string) {
    !HasAnd(p) && Trim(p) != "" && p[|p| - 1] != '&'
  }

  /** The match is the conjunction of these pieces, none of which contains "&&". */
  predicate IsConjunction(match_: string, pieces: seq<string>) {
    pieces != [] && (forall p | p in pieces :: Piece(p)) && match_ == Join(pieces)
  }

  /** A packet decides every atom; the atom 1 is always true. */
  type Packet = string -> bool

  ghost predicate Decides(packet: Packet) {
    packet("1")
  }

  /** The match is true of the packet: all operands of the conjunction are. */
  ghost predicate Matches(match_: string, packet: Packet) {
    exists pieces :: IsConjunction(Trim(match_), pieces) && forall p | p in pieces :: packet(Trim(p))
  }

  ghost predicate Conjunctive(match_: string) {
    exists pieces :: IsConjunction(Trim(match_), pieces)
  }

  // ---------- splitting undoes joining ----------

  lemma TailHasNoAnd(p: string)
    requires !HasAnd(p) && p != ""
    ensures !HasAnd(p[1..])
  {
    assert forall i | 0 <= i < |p| - 1 :: !(p[i] == '&' && p[i + 1] == '&');
  }

  lemma {:induction false} FindInPiece(p: string, rest: string)
    requires !HasAnd(p) && (p != "" ==> p[|p| - 1] != '&')
    ensures FindAnd(p + "&&" + rest) == |p|
    decreases |p|
  {
    var s := p + "&&" + rest;
    if p == "" {
      assert s[0] == '&' && s[1] == '&';
    } else {
      assert s[1..] == p[1..] + "&&" + rest;
      TailHasNoAnd(p);
      FindInPiece(p[1..], rest);
    }
  }

  lemma {:induction false} FindNothing(p: string)
    requires !HasAnd(p)
    ensures FindAnd(p) == |p|
    decreases |p|
  {
    if |p| >= 2 {
      TailHasNoAnd(p);
      FindNothing(p[1..]);
    }
  }

  lemma {:induction false} SplitJoin(pieces: seq<string>)
    requires pieces != [] && forall p | p in pieces :: Piece(p)
    ensures Split(Join(pieces)) == pieces
    decreases |pieces|
  {
    var p := pieces[0];
    assert Piece(p);
    if |pieces| == 1 {
      FindNothing(p);
    } else {
      var rest := Join(pieces[1..]);
      FindInPiece(p, rest);
      SplitJoin(pieces[1..]);
      assert Join(pieces)[..|p|] == p && Join(pieces)[|p| + 2..] == rest;
      assert pieces == [p] + pieces[1..];
    }
  }

  lemma {:induction false} TrimmedPieces(pieces: seq<string>)
    requires forall p | p in pieces :: Trim(p) != ""
    ensures forall a :: a in NonEmptyTrimmed(pieces) <==> exists p :: p in pieces && Trim(p) == a
    decreases |pieces|
  {
    if pieces != [] {
      var front, last := pieces[..|pieces| - 1], pieces[|pieces| - 1];
      assert pieces == front + [last];
      TrimmedPieces(front);
      assert last in pieces;
    }
  }

  /** The audit reads off a conjunction exactly its operands. */
  lemma ConjunctsOfConjunction(match_: string, pieces: seq<string>)
    requires IsConjunction(match_, pieces)
    ensures forall a :: a in Conjuncts(match_) <==> exists p :: p in pieces && Trim(p) == a
    ensures Conjuncts(match_) != []
  {
    SplitJoin(pieces);
    TrimmedPieces(pieces);
    SortedHas(NonEmptyTrimmed(pieces));
    assert pieces[0] in pieces;
    assert Trim(pieces[0]) in Conjuncts(match_);
  }

  /** A conjunction is true of a packet exactly if all conjuncts the audit reads off it are. */
  lemma MatchesByConjuncts(match_: string, packet: Packet)
    requires Conjunctive(match_)
    ensures Matches(match_, packet) <==> forall a | a in Conjuncts(Trim(match_)) :: packet(a)
  {
    hide Conjuncts, Trim, IsConjunction;
    if Matches(match_, packet) {
      var pieces :| IsConjunction(Trim(match_), pieces) && forall p | p in pieces :: packet(Trim(p));
      ConjunctsOfConjunction(Trim(match_), pieces);
    } else {
      var pieces :| IsConjunction(Trim(match_), pieces);
      ConjunctsOfConjunction(Trim(match_), pieces);
      var p :| p in pieces && !packet(Trim(p));
      assert Trim(p) in Conjuncts(Trim(match_));
    }
  }

  lemma OneIsTrue(match_: string, packet: Packet)
    requires Conjunctive(match_) && Trim(match_) == "1" && Decides(packet)
    ensures Matches(match_, packet)
  {
    var pieces :| IsConjunction(Trim(match_), pieces);
    SplitJoin(pieces);
    FindNothing("1");
    assert pieces == ["1"];
    assert Trim("1") == "1";
  }

  /** What the audit concludes about two conjunctions is true of every packet. */
  lemma RelationIsSound(a: string, b: string, packet: Packet)
    requires Conjunctive(a) && Conjunctive(b) && Decides(packet)
    ensures RelationOf(a, b) == Equal ==> (Matches(a, packet) <==> Matches(b, packet))
    ensures RelationOf(a, b) == Superset ==> (Matches(b, packet) ==> Matches(a, packet))
    ensures RelationOf(a, b) == Subset ==> (Matches(a, packet) ==> Matches(b, packet))
  {
    hide Conjuncts, Trim, Conjunctive, Matches, Decides;
    MatchesByConjuncts(a, packet);
    MatchesByConjuncts(b, packet);
    if Trim(a) == "1" {
      OneIsTrue(a, packet);
    }
    if Trim(b) == "1" {
      OneIsTrue(b, packet);
    }
  }
}
