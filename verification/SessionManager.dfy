/**
 * The session manager as an object. Each method is one critical section of the manager
 * and is proved to be the function of that name in SessionProtocol.
 */
module SessionManager {
  import opened Wrappers
  import opened ClusterRegistry
  import opened LiveMonitors
  import P = SessionProtocol

  class Manager {
    const registry: Registry<P.Backend>
    const live: OVNDatabases
    var routes: map<string, P.Backend>
    var maxLoaded: int
    var loaded: map<int, nat>
    var loading: set<int>
    var pendingDrains: set<nat>
    var drainSeq: nat
    var tails: seq<P.Tail>
    var liveSuspended: bool
    ghost var closes: seq<nat>

    ghost function View(): P.Shared
      reads this, registry, live
    {
      P.Shared(maxLoaded, loaded, loading, pendingDrains, drainSeq, tails, liveSuspended,
               live.View(), registry.View(), routes, closes)
    }

    ghost predicate Valid()
      reads this, registry
    {
      WellFormed(registry.View())
    }

    constructor (registry: Registry<P.Backend>, live: OVNDatabases, routes: map<string, P.Backend>, maxLoaded: int)
      requires WellFormed(registry.View())
      ensures Valid() && this.registry == registry && this.live == live
      ensures View() == P.Shared(maxLoaded, map[], {}, {}, 0, [], false, live.View(), registry.View(), routes, [])
    {
      this.registry, this.live, this.routes, this.maxLoaded := registry, live, routes, maxLoaded;
      loaded, loading, pendingDrains, drainSeq, tails := map[], {}, {}, 0, [];
      liveSuspended, closes := false, [];
    }

    method Reserve(id: int) returns (r: P.ReserveResult)
      modifies this
      ensures (View(), r) == P.Reserve(old(View()), id)
    {
      if id in loaded {
        return P.AlreadyLoaded(loaded[id]);
      }
      if id in loading {
        return P.InProgress;
      }
      if |loaded| + |loading| >= maxLoaded {
        return P.TooMany;
      }
      loading := loading + {id};
      return P.Reserved;
    }

    method SetMaxLoaded(n: int)
      modifies this`maxLoaded
      ensures maxLoaded == if n > 0 then n else old(maxLoaded)
    {
      if n > 0 {
        maxLoaded := n;
      }
    }

    method ReleaseLoading(id: int)
      modifies this
      ensures View() == P.ReleaseLoading(old(View()), id)
    {
      loading := loading - {id};
    }

    method Commit(id: int, sid: nat) returns (won: bool)
      requires Valid()
      modifies this, registry
      ensures (View(), won) == P.Commit(old(View()), id, sid)
      ensures Valid()
    {
      if id in loaded {
        return false;
      }
      RegisterKeepsWellFormed(registry.View(), P.ClusterName(id), P.Session(sid));
      registry.Register(P.ClusterName(id), P.Session(sid));
      routes := routes[P.ClusterName(id) := P.Session(sid)];
      loaded := loaded[id := sid];
      return true;
    }

    method StopRouting(id: int)
      requires Valid()
      modifies this, registry
      ensures View() == P.StopRouting(old(View()), id)
      ensures Valid()
    {
      UnregisterKeepsWellFormed(registry.View(), P.ClusterName(id), []);
      routes := routes - {P.ClusterName(id)};
      registry.Unregister(P.ClusterName(id));
      loaded := loaded - {id};
    }

    method Eject(id: int) returns (q: Option<nat>)
      requires Valid()
      modifies this, registry
      ensures (View(), q) == P.Eject(old(View()), id)
      ensures Valid()
    {
      if id !in loaded {
        return None;
      }
      var sid := loaded[id];
      StopRouting(id);
      tails := tails + [P.Tail(sid, false)];
      q := Some(drainSeq);
      pendingDrains := pendingDrains + {drainSeq};
      drainSeq := drainSeq + 1;
    }

    ghost method CloseSession(sid: nat)
      modifies this`closes
      ensures View() == P.CloseSession(old(View()), sid)
    {
      if sid < |closes| {
        closes := closes[sid := closes[sid] + 1];
      }
    }

    method RunTail(q: nat)
      modifies this`tails, this`closes
      ensures View() == P.RunTail(old(View()), q)
    {
      if q < |tails| && !tails[q].ran {
        CloseSession(tails[q].session);
        tails := tails[q := tails[q].(ran := true)];
      }
    }

    method DropDrain(q: nat)
      modifies this`pendingDrains
      ensures View() == P.DropDrain(old(View()), q)
    {
      pendingDrains := pendingDrains - {q};
    }

    /** reconcileLive run without interference from the read of the count to the release of liveMu. */
    method ReconcileLive(re: Replies)
      modifies this`liveSuspended, live
      ensures var want := P.WantSuspended(old(View()));
              var (after, ok) := P.Transition(old(View()), want, re);
              View() == if want == old(liveSuspended) then old(View())
                        else if ok then after.(liveSuspended := want)
                        else after
    {
      var want := |loaded| > 0;
      if want == liveSuspended {
        return;
      }
      var ok: bool;
      if want {
        ok := live.SuspendMonitors(re);
      } else {
        ok := live.ResumeMonitors(re);
      }
      if ok {
        liveSuspended := want;
      }
    }

    method CloseOneLoaded(id: int)
      requires Valid() && id in loaded
      modifies this, registry
      ensures View() == P.CloseLoaded(old(View()), id)
      ensures Valid()
    {
      var sid := loaded[id];
      StopRouting(id);
      CloseSession(sid);
    }

    method FlushOneDrain(q: nat)
      modifies this`tails, this`closes, this`pendingDrains
      ensures View() == P.FlushDrain(old(View()), q)
    {
      RunTail(q);
      DropDrain(q);
    }

    method CloseLoadedSessions() returns (ghost ids: seq<int>)
      requires Valid()
      modifies this, registry
      ensures View() == CloseAll(old(View()), ids)
      ensures Valid() && loaded == map[] && pendingDrains == old(pendingDrains)
      ensures forall id :: id in ids <==> id in old(loaded)
    {
      ids := [];
      var rest := loaded.Keys;
      while rest != {}
        invariant rest == loaded.Keys
        invariant Valid() && loaded.Keys <= old(loaded).Keys
        invariant pendingDrains == old(pendingDrains)
        invariant View() == CloseAll(old(View()), ids)
        invariant forall id :: id in ids <==> id in old(loaded) && id !in loaded
        decreases |rest|
      {
        var id := Pick(rest);
        CloseAllSnoc(old(View()), ids, id);
        CloseOneLoaded(id);
        ids, rest := ids + [id], rest - {id};
      }
    }

    method FlushPendingDrains() returns (ghost drains: seq<nat>)
      modifies this`tails, this`closes, this`pendingDrains
      ensures View() == FlushAll(old(View()), drains)
      ensures pendingDrains == {}
      ensures forall q :: q in drains <==> q in old(pendingDrains)
    {
      drains := [];
      while pendingDrains != {}
        invariant pendingDrains <= old(pendingDrains)
        invariant View() == FlushAll(old(View()), drains)
        invariant forall q :: q in drains <==> q in old(pendingDrains) && q !in pendingDrains
        decreases |pendingDrains|
      {
        var q := Pick(pendingDrains);
        FlushAllSnoc(old(View()), drains, q);
        FlushOneDrain(q);
        drains := drains + [q];
      }
    }

    /** Close: every loaded session, then every pending drain, in whatever order the maps yield. */
    method Close() returns (ghost ids: seq<int>, ghost drains: seq<nat>)
      requires Valid()
      modifies this, registry
      ensures View() == FlushAll(CloseAll(old(View()), ids), drains)
      ensures Valid() && loaded == map[] && pendingDrains == {}
      ensures forall id :: id in ids <==> id in old(loaded)
      ensures forall q :: q in drains <==> q in old(pendingDrains)
    {
      ids := CloseLoadedSessions();
      drains := FlushPendingDrains();
    }
  }

  /** The iterations of Close over the loaded sessions, in this order. */
  function CloseAll(sh: P.Shared, ids: seq<int>): P.Shared {
    if ids == [] then sh else P.CloseLoaded(CloseAll(sh, ids[..|ids| - 1]), ids[|ids| - 1])
  }

  /** The iterations of Close over the pending drains, in this order. */
  function FlushAll(sh: P.Shared, drains: seq<nat>): P.Shared {
    if drains == [] then sh else P.FlushDrain(FlushAll(sh, drains[..|drains| - 1]), drains[|drains| - 1])
  }

  lemma CloseAllSnoc(sh: P.Shared, ids: seq<int>, id: int)
    ensures CloseAll(sh, ids + [id]) == P.CloseLoaded(CloseAll(sh, ids), id)
  {
    assert (ids + [id])[..|ids|] == ids;
  }

  lemma FlushAllSnoc(sh: P.Shared, drains: seq<nat>, q: nat)
    ensures FlushAll(sh, drains + [q]) == P.FlushDrain(FlushAll(sh, drains), q)
  {
    assert (drains + [q])[..|drains|] == drains;
  }
}
