/**
 * The inductive invariant of the session protocol, one group of facts at a time. The
 * groups are predicates on the few components they concern.
 */
module SessionInvariant {
  import opened Wrappers
  import opened ClusterRegistry
  import opened SessionProtocol

  // ---------- loads in flight ----------

  predicate Early(th: Thread) {
    th.at.Building? || th.at.Built?
  }

  /**
   * The placeholders are exactly the ids of the Load calls in flight, one call each;
   * an id whose load has not committed is not loaded; the commit race never happens.
   */
  ghost predicate LoadingOk(th: map<nat, Thread>, holder: map<int, nat>, loading: set<int>, loaded: set<int>) {
    && holder.Keys == loading
    && (forall id | id in loading :: holder[id] in th && th[holder[id]].job == Load(id))
    && (forall t | t in th && th[t].job.Load? :: th[t].job.id in loading && holder[th[t].job.id] == t)
    && (forall t | t in th && Early(th[t]) :: th[t].job.Load? && th[t].job.id !in loaded)
    && (forall t | t in th :: !th[t].at.Discarding?)
  }

  /** Counting each id once, what is loaded or loading fits the highest cap ever in force. */
  ghost predicate CapOk(loaded: set<int>, loading: set<int>, cap: int, capSeen: int) {
    cap <= capSeen && |loaded + loading| <= capSeen
  }

  lemma CapReserve(loaded: set<int>, loading: set<int>, cap: int, capSeen: int, id: int)
    requires CapOk(loaded, loading, cap, capSeen) && |loaded| + |loading| < cap
    ensures CapOk(loaded, loading + {id}, cap, capSeen)
  {
    var all := loaded + (loading + {id});
    assert all == loaded + (all - loaded);
    SubsetSize(all - loaded, loading + {id});
  }

  // ---------- sessions and their resources ----------

  /** The place of a session agrees with the part of the system that answers for it. */
  ghost predicate PlaceOk(p: Place, n: nat, closed: nat, th: map<nat, Thread>, loaded: map<int, nat>,
                          tails: seq<Tail>, committed: set<nat>) {
    match p
    case InBuild(t) => t in th && th[t].at == Built(n) && closed == 0 && n !in committed
    case InLoaded(id) => id in loaded && loaded[id] == n && closed == 0 && n in committed
    case InTail(q) =>
      q < |tails| && tails[q].session == n && closed == (if tails[q].ran then 1 else 0) && n in committed
    case Released => closed == 1
  }

  ghost predicate PlacesOk(place: seq<Place>, closes: seq<nat>, th: map<nat, Thread>, loaded: map<int, nat>,
                           tails: seq<Tail>, committed: set<nat>) {
    && |place| == |closes|
    && (forall n | n in committed :: n < |place|)
    && (forall n | 0 <= n < |place| :: PlaceOk(place[n], n, closes[n], th, loaded, tails, committed))
    && (forall t | t in th && th[t].at.Built? :: th[t].at.sid < |place| && place[th[t].at.sid] == InBuild(t))
    && (forall id | id in loaded :: loaded[id] < |place| && place[loaded[id]] == InLoaded(id))
    && (forall q | 0 <= q < |tails| :: tails[q].session < |place| && place[tails[q].session] == InTail(q))
  }

  /**
   * A tail that has not run is still in the pending map, where Close finds it; an entry of
   * the pending map belongs to an Unload whose timer has not finished.
   */
  ghost predicate DrainsOk(tails: seq<Tail>, pending: set<nat>, drainSeq: nat, th: map<nat, Thread>,
                           unloader: seq<nat>) {
    && |tails| == drainSeq == |unloader|
    && (forall q | q in pending :: q < |tails| && unloader[q] in th && th[unloader[q]].job == Unload(q))
    && (forall q | 0 <= q < |tails| && !tails[q].ran :: q in pending)
    && (forall t | t in th && th[t].job.Unload? :: th[t].job.q < |tails| && unloader[th[t].job.q] == t)
    && (forall t | t in th && th[t].at.Fired? :: th[t].job.Unload? && tails[th[t].job.q].ran)
  }

  // ---------- routing ----------

  ghost predicate RoutesOk(names: seq<string>, loaded: map<int, nat>, registry: Members<Backend>,
                           routes: map<string, Backend>) {
    && LiveNames(names)
    && WellFormed(registry) && names <= registry.order
    && registry.clusters == routes
    && (forall n | n in names :: n in routes && routes[n] == LiveCluster)
    && (forall id | id in loaded :: ClusterName(id) in routes && routes[ClusterName(id)] == Session(loaded[id]))
    && (forall n | n in routes && n !in names :: exists id :: id in loaded && n == ClusterName(id))
  }

  lemma RoutesCommit(names: seq<string>, loaded: map<int, nat>, registry: Members<Backend>,
                     routes: map<string, Backend>, id: int, sid: nat)
    requires RoutesOk(names, loaded, registry, routes) && id !in loaded
    ensures RoutesOk(names, loaded[id := sid], Registered(registry, ClusterName(id), Session(sid)),
              routes[ClusterName(id) := Session(sid)])
  {
    var name := ClusterName(id);
    var loaded' := loaded[id := sid];
    var routes' := routes[name := Session(sid)];
    RegisterKeepsWellFormed(registry, name, Session(sid));
    forall i | i in loaded'
      ensures ClusterName(i) in routes' && routes'[ClusterName(i)] == Session(loaded'[i])
    {
      if ClusterName(i) == name {
        ClusterNameInjective(i, id);
      }
    }
    forall n | n in routes' && n !in names
      ensures exists i :: i in loaded' && n == ClusterName(i)
    {
      if n == name {
        assert id in loaded';
      } else {
        var i :| i in loaded && n == ClusterName(i);
        assert i in loaded';
      }
    }
  }

  lemma RoutesStop(names: seq<string>, loaded: map<int, nat>, registry: Members<Backend>,
                   routes: map<string, Backend>, id: int)
    requires RoutesOk(names, loaded, registry, routes) && id in loaded
    ensures RoutesOk(names, loaded - {id}, Unregistered(registry, ClusterName(id)), routes - {ClusterName(id)})
  {
    hide ClusterName, Unregistered, WellFormed;
    var name := ClusterName(id);
    UnregisterKeepsWellFormed(registry, name, names);
    forall i | i in loaded - {id}
      ensures ClusterName(i) != name
    {
      if ClusterName(i) == name {
        ClusterNameInjective(i, id);
      }
    }
    forall n | n in routes - {name} && n !in names
      ensures exists i :: i in loaded - {id} && n == ClusterName(i)
    {
      var i :| i in loaded && n == ClusterName(i);
      assert i in loaded - {id};
    }
  }

  // ---------- the live monitors ----------

  predicate BeforeRead(th: Thread) {
    th.at.Reconciling? || th.at.HoldsLive?
  }

  predicate Critical(th: Thread) {
    th.at.HoldsLive? || th.at.Calling? || th.at.Setting?
  }

  /** Some call still has to re-read the loaded count under liveMu. */
  ghost predicate Owed(th: map<nat, Thread>) {
    exists t :: t in th && BeforeRead(th[t])
  }

  /** The value liveSuspended has, or will get from a monitor call that succeeds. */
  function Heading(th: map<nat, Thread>, liveMu: Option<nat>, liveSuspended: bool): bool {
    if liveMu.Some? && liveMu.value in th && th[liveMu.value].at.Calling? then th[liveMu.value].at.want
    else if liveMu.Some? && liveMu.value in th && th[liveMu.value].at.Setting? then th[liveMu.value].at.want
    else liveSuspended
  }

  predicate InCall(th: map<nat, Thread>, liveMu: Option<nat>) {
    liveMu.Some? && liveMu.value in th && (th[liveMu.value].at.Calling? || th[liveMu.value].at.Setting?)
  }

  ghost predicate LockOk(th: map<nat, Thread>, liveMu: Option<nat>, hasLive: bool) {
    && (liveMu.Some? ==> liveMu.value in th && Critical(th[liveMu.value]))
    && (forall t | t in th && Critical(th[t]) :: liveMu == Some(t))
    && (!hasLive ==> forall t | t in th :: !BeforeRead(th[t]) && !Critical(th[t]))
  }

  ghost predicate FlagOk(th: map<nat, Thread>, liveMu: Option<nat>, liveSuspended: bool, suspended: bool,
                         rpcFailed: bool) {
    && (forall t | t in th && th[t].at.Calling? :: th[t].at.want != liveSuspended)
    && (forall t | t in th && th[t].at.Setting? :: th[t].at.want == suspended != liveSuspended && !rpcFailed)
    && ((forall t | t in th :: !th[t].at.Setting?) ==> suspended == (liveSuspended || rpcFailed))
  }

  ghost predicate ConvergeOk(th: map<nat, Thread>, liveMu: Option<nat>, liveSuspended: bool, rpcFailed: bool,
                             want: bool) {
    || Owed(th)
    || Heading(th, liveMu, liveSuspended) == want
    || (rpcFailed && !InCall(th, liveMu))
  }

  // ---------- all groups ----------

  ghost predicate LoadingInv(s: State) {
    LoadingOk(s.threads, s.h.holder, s.sh.loading, s.sh.loaded.Keys)
  }

  ghost predicate CapInv(s: State) {
    CapOk(s.sh.loaded.Keys, s.sh.loading, s.sh.maxLoaded, s.h.capSeen)
  }

  ghost predicate PlacesInv(s: State) {
    PlacesOk(s.h.place, s.sh.closes, s.threads, s.sh.loaded, s.sh.tails, s.h.committed)
  }

  ghost predicate DrainsInv(s: State) {
    DrainsOk(s.sh.tails, s.sh.pendingDrains, s.sh.drainSeq, s.threads, s.h.unloader)
  }

  ghost predicate RoutesInv(s: State, names: seq<string>) {
    RoutesOk(names, s.sh.loaded, s.sh.registry, s.sh.routes)
  }

  ghost predicate LockInv(s: State) {
    && LockOk(s.threads, s.liveMu, s.hasLive)
    && FlagOk(s.threads, s.liveMu, s.sh.liveSuspended, s.sh.live.suspended, s.h.rpcFailed)
  }

  ghost predicate ConvergeInv(s: State) {
    s.hasLive && !s.h.closing ==>
      ConvergeOk(s.threads, s.liveMu, s.sh.liveSuspended, s.h.rpcFailed, WantSuspended(s.sh))
  }

  ghost predicate Inv(s: State, names: seq<string>) {
    && LoadingInv(s) && CapInv(s)
    && PlacesInv(s) && DrainsInv(s) && RoutesInv(s, names)
    && LockInv(s) && ConvergeInv(s)
  }
}
