/** The cluster registry: a map of named clusters plus their registration order. */
module ClusterRegistry {
  import opened Wrappers

  /** The contents of a registry as a value. */
  datatype Members<C> = Members(clusters: map<string, C>, order: seq<string>)

  ghost predicate Distinct(s: seq<string>) {
    forall i, j | 0 <= i < j < |s| :: s[i] != s[j]
  }

  /** Every cluster appears in the order exactly once, and nothing else does. */
  ghost predicate WellFormed<C>(m: Members<C>) {
    && Distinct(m.order)
    && (forall i | 0 <= i < |m.order| :: m.order[i] in m.clusters)
    && (forall n | n in m.clusters :: n in m.order)
  }

  function Registered<C>(m: Members<C>, name: string, c: C): Members<C> {
    Members(m.clusters[name := c], if name in m.clusters then m.order else m.order + [name])
  }

  function RemoveFirst(s: seq<string>, x: string): seq<string> {
    if s == [] then [] else if s[0] == x then s[1..] else [s[0]] + RemoveFirst(s[1..], x)
  }

  function Unregistered<C>(m: Members<C>, name: string): Members<C> {
    if name !in m.clusters then m
    else Members(m.clusters - {name}, RemoveFirst(m.order, name))
  }

  lemma {:induction false} RemoveFirstAt(s: seq<string>, x: string, i: nat)
    requires i < |s| && s[i] == x && x !in s[..i]
    ensures RemoveFirst(s, x) == s[..i] + s[i + 1..]
  {
    if i > 0 {
      assert s[0] in s[..i];
      assert s[1..][..i - 1] == s[..i][1..];
      RemoveFirstAt(s[1..], x, i - 1);
    }
  }

  lemma FirstIndex(s: seq<string>, x: string) returns (i: nat)
    requires x in s
    ensures i < |s| && s[i] == x && x !in s[..i]
  {
    i := 0;
    while s[i] != x
      invariant i < |s| && x !in s[..i] && x in s[i..]
      decreases |s| - i
    {
      i := i + 1;
    }
  }

  lemma RegisterKeepsWellFormed<C>(m: Members<C>, name: string, c: C)
    requires WellFormed(m)
    ensures WellFormed(Registered(m, name, c))
    ensures m.order <= Registered(m, name, c).order
    ensures name in Registered(m, name, c).clusters && Registered(m, name, c).clusters[name] == c
    ensures forall n | n != name :: n in Registered(m, name, c).clusters <==> n in m.clusters
    ensures forall n | n != name && n in m.clusters :: Registered(m, name, c).clusters[n] == m.clusters[n]
    ensures forall n :: n in Registered(m, name, c).order <==> n in m.order || n == name
  {
    var r := Registered(m, name, c);
    forall n | n in r.clusters
      ensures n in r.order
    {
      if n == name && name !in m.clusters {
        assert r.order[|m.order|] == name;
      } else {
        var i :| 0 <= i < |m.order| && m.order[i] == n;
        assert r.order[i] == n;
      }
    }
  }

  /** In a duplicate-free sequence, dropping the first occurrence drops exactly that element. */
  lemma RemoveFirstDistinct(s: seq<string>, x: string, i: nat)
    requires Distinct(s) && i < |s| && s[i] == x
    ensures RemoveFirst(s, x) == s[..i] + s[i + 1..]
    ensures Distinct(RemoveFirst(s, x))
    ensures forall n :: n in RemoveFirst(s, x) <==> n in s && n != x
  {
    assert x !in s[..i];
    RemoveFirstAt(s, x, i);
    var r := s[..i] + s[i + 1..];
    forall n | n in s && n != x
      ensures n in r
    {
      var k :| 0 <= k < |s| && s[k] == n;
      assert r[if k < i then k else k - 1] == n;
    }
  }

  lemma PrefixSurvives(s: seq<string>, prefix: seq<string>, i: nat)
    requires prefix <= s && i < |s| && s[i] !in prefix
    ensures prefix <= s[..i] + s[i + 1..]
  {
    assert forall k | 0 <= k < |prefix| :: prefix[k] == s[k] && prefix[k] in prefix;
  }

  /**
   * Unregistering keeps the registry well formed, removes exactly the named
   * cluster, and keeps in place any prefix of the order that does not name it.
   */
  lemma UnregisterKeepsWellFormed<C>(m: Members<C>, name: string, prefix: seq<string>)
    requires WellFormed(m)
    requires prefix <= m.order && name !in prefix
    ensures WellFormed(Unregistered(m, name))
    ensures Unregistered(m, name).clusters == m.clusters - {name}
    ensures prefix <= Unregistered(m, name).order
  {
    if name in m.clusters {
      var i := FirstIndex(m.order, name);
      RemoveFirstDistinct(m.order, name, i);
      PrefixSurvives(m.order, prefix, i);
    } else {
      assert m.clusters - {name} == m.clusters;
    }
  }

  lemma LastRemoved(s: seq<string>, x: string)
    requires x !in s
    ensures RemoveFirst(s + [x], x) == s
  {
    assert (s + [x])[..|s|] == s && (s + [x])[|s| + 1..] == [];
    RemoveFirstAt(s + [x], x, |s|);
  }

  /** Unregistering a cluster undoes registering it under a name that was free. */
  lemma UnregisterUndoesRegister<C>(m: Members<C>, name: string, c: C)
    requires WellFormed(m) && name !in m.clusters
    ensures Unregistered(Registered(m, name, c), name) == m
  {
    var r := Registered(m, name, c);
    LastRemoved(m.order, name);
    assert r.clusters - {name} == m.clusters;
  }

  class Registry<C(==)> {
    var clusters: map<string, C>
    var order: seq<string>

    ghost function View(): Members<C>
      reads this
    {
      Members(clusters, order)
    }

    constructor ()
      ensures View() == Members(map[], []) && WellFormed(View())
    {
      clusters, order := map[], [];
    }

    method Register(name: string, c: C)
      modifies this
      ensures View() == Registered(old(View()), name, c)
    {
      if name !in clusters {
        order := order + [name];
      }
      clusters := clusters[name := c];
    }

    method Unregister(name: string)
      requires WellFormed(View())
      modifies this
      ensures View() == Unregistered(old(View()), name)
    {
      if name !in clusters {
        return;
      }
      clusters := clusters - {name};
      var i := 0;
      while i < |order| && order[i] != name
        invariant 0 <= i <= |order| && name !in order[..i]
      {
        i := i + 1;
      }
      if i < |order| {
        RemoveFirstAt(order, name, i);
        order := order[..i] + order[i + 1..];
      }
    }

    method Default() returns (c: Option<C>)
      requires WellFormed(View())
      ensures c == if order == [] then None else Some(clusters[order[0]])
    {
      if |order| == 0 {
        return None;
      }
      return Some(clusters[order[0]]);
    }

    method List() returns (result: seq<C>)
      requires WellFormed(View())
      ensures |result| == |order|
      ensures forall i | 0 <= i < |order| :: result[i] == clusters[order[i]]
    {
      result := [];
      for k := 0 to |order|
        invariant |result| == k
        invariant forall i | 0 <= i < k :: result[i] == clusters[order[i]]
      {
        result := result + [clusters[order[k]]];
      }
    }
  }
}
