/** Every atomic step of the session protocol keeps the invariant. */
module SessionSteps {
  import opened Wrappers
  import opened ClusterRegistry
  import opened LiveMonitors
  import opened SessionProtocol
  import opened SessionInvariant

  // ---------- calls that only move through reconcileLive ----------

  predicate Late(at: Stage) {
    at.Reconciling? || at.HoldsLive? || at.Calling? || at.Setting? || at.Finishing?
  }

  /** A committed or ejected call moves on; of the rest only the live side may change. */
  ghost predicate LateMove(s: State, n: State, t: nat) {
    && t in s.threads && t in n.threads && Late(s.threads[t].at) && Late(n.threads[t].at)
    && n.threads == s.threads[t := s.threads[t].(at := n.threads[t].at)]
    && n.sh == s.sh.(live := n.sh.live, liveSuspended := n.sh.liveSuspended)
    && n.h == s.h.(rpcFailed := n.h.rpcFailed)
  }

  lemma LateMoveLoading(s: State, n: State, t: nat)
    requires LoadingInv(s) && LateMove(s, n, t)
    ensures LoadingInv(n)
  {
  }

  lemma LateMovePlaces(s: State, n: State, t: nat)
    requires PlacesInv(s) && LateMove(s, n, t)
    ensures PlacesInv(n)
  {
  }

  lemma LateMoveDrains(s: State, n: State, t: nat)
    requires DrainsInv(s) && LateMove(s, n, t)
    ensures DrainsInv(n)
  {
  }

  // ---------- loads in flight ----------

  lemma LoadingReserve(th: map<nat, Thread>, holder: map<int, nat>, loading: set<int>, loaded: set<int>, t: nat,
                       id: int)
    requires LoadingOk(th, holder, loading, loaded) && t !in th && id !in loading && id !in loaded
    ensures LoadingOk(th[t := Thread(Load(id), Building)], holder[id := t], loading + {id}, loaded)
  {
  }

  lemma StartLoadLoading(s: State, t: nat, id: int)
    requires LoadingInv(s) && t !in s.threads
    ensures LoadingInv(StartLoad(s, t, id))
  {
    hide LoadingOk;
    if Reserve(s.sh, id).1 == Reserved {
      LoadingReserve(s.threads, s.h.holder, s.sh.loading, s.sh.loaded.Keys, t, id);
    }
  }

  lemma BuildFailsLoading(s: State, t: nat, served: bool)
    requires LoadingInv(s) && Is(s, t, Building)
    ensures LoadingInv(BuildFails(s, t, served))
  {
  }

  lemma BuildSucceedsLoading(s: State, t: nat)
    requires LoadingInv(s) && Is(s, t, Building)
    ensures LoadingInv(BuildSucceeds(s, t))
  {
  }

  lemma CommitStepLoading(s: State, t: nat)
    requires LoadingInv(s) && t in s.threads && s.threads[t].at.Built? && s.threads[t].job.Load?
    ensures LoadingInv(CommitStep(s, t))
  {
  }

  lemma StartUnloadLoading(s: State, t: nat, id: int)
    requires LoadingInv(s) && t !in s.threads
    ensures LoadingInv(StartUnload(s, t, id))
  {
  }

  lemma ClearLoading(s: State, t: nat)
    requires LoadingInv(s) && Is(s, t, Finishing) && s.threads[t].job.Load?
    ensures LoadingInv(Clear(s, t))
  {
  }

  lemma FireTimerLoading(s: State, t: nat)
    requires LoadingInv(s) && Is(s, t, Finishing) && s.threads[t].job.Unload?
    ensures LoadingInv(FireTimer(s, t))
  {
  }

  lemma DropTimerLoading(s: State, t: nat)
    requires LoadingInv(s) && Is(s, t, Fired) && s.threads[t].job.Unload?
    ensures LoadingInv(DropTimer(s, t))
  {
  }

  lemma CloseOneLoadedLoading(s: State, id: int)
    requires LoadingInv(s)
    ensures LoadingInv(CloseOneLoaded(s, id))
  {
  }

  lemma FlushOneDrainLoading(s: State, q: nat)
    requires LoadingInv(s)
    ensures LoadingInv(FlushOneDrain(s, q))
  {
  }

  // ---------- the cap ----------

  lemma CapShrinks(s: State, n: State)
    requires CapInv(s) && n.sh.loaded.Keys + n.sh.loading <= s.sh.loaded.Keys + s.sh.loading
    requires n.sh.maxLoaded == s.sh.maxLoaded && n.h.capSeen == s.h.capSeen
    ensures CapInv(n)
  {
    SubsetSize(n.sh.loaded.Keys + n.sh.loading, s.sh.loaded.Keys + s.sh.loading);
  }

  lemma StartLoadCap(s: State, t: nat, id: int)
    requires CapInv(s) && t !in s.threads
    ensures CapInv(StartLoad(s, t, id))
  {
    if Reserve(s.sh, id).1 == Reserved {
      CapReserve(s.sh.loaded.Keys, s.sh.loading, s.sh.maxLoaded, s.h.capSeen, id);
    }
  }

  lemma CommitStepCap(s: State, t: nat)
    requires LoadingInv(s) && CapInv(s) && t in s.threads && s.threads[t].at.Built? && s.threads[t].job.Load?
    ensures CapInv(CommitStep(s, t))
  {
    CapShrinks(s, CommitStep(s, t));
  }

  // ---------- sessions ----------

  lemma PlacesNewThread(place: seq<Place>, closes: seq<nat>, th: map<nat, Thread>, loaded: map<int, nat>,
                        tails: seq<Tail>, committed: set<nat>, t: nat, x: Thread)
    requires PlacesOk(place, closes, th, loaded, tails, committed) && t !in th && !x.at.Built?
    ensures PlacesOk(place, closes, th[t := x], loaded, tails, committed)
  {
    forall n | 0 <= n < |place|
      ensures PlaceOk(place[n], n, closes[n], th[t := x], loaded, tails, committed)
    {
      assert PlaceOk(place[n], n, closes[n], th, loaded, tails, committed);
    }
  }

  /** A loaded session moves into a new tail. */
  lemma PlacesEject(place: seq<Place>, closes: seq<nat>, th: map<nat, Thread>, loaded: map<int, nat>, tails: seq<Tail>,
                    committed: set<nat>, id: int)
    requires PlacesOk(place, closes, th, loaded, tails, committed) && id in loaded
    ensures loaded[id] < |place|
    ensures PlacesOk(place[loaded[id] := InTail(|tails|)], closes, th, loaded - {id},
              tails + [Tail(loaded[id], false)], committed)
  {
    var sid := loaded[id];
    var place1, tails1 := place[sid := InTail(|tails|)], tails + [Tail(sid, false)];
    assert PlaceOk(place[sid], sid, closes[sid], th, loaded, tails, committed);
    forall n | 0 <= n < |place1|
      ensures PlaceOk(place1[n], n, closes[n], th, loaded - {id}, tails1, committed)
    {
      assert PlaceOk(place[n], n, closes[n], th, loaded, tails, committed);
    }
  }

  lemma StartLoadPlaces(s: State, t: nat, id: int)
    requires PlacesInv(s) && t !in s.threads
    ensures PlacesInv(StartLoad(s, t, id))
  {
    hide PlacesOk;
    PlacesNewThread(s.h.place, s.sh.closes, s.threads, s.sh.loaded, s.sh.tails, s.h.committed, t,
      Thread(Load(id), Building));
  }

  lemma BuildFailsPlaces(s: State, t: nat, served: bool)
    requires PlacesInv(s) && Is(s, t, Building)
    ensures PlacesInv(BuildFails(s, t, served))
  {
  }

  lemma BuildSucceedsPlaces(s: State, t: nat)
    requires PlacesInv(s) && Is(s, t, Building)
    ensures PlacesInv(BuildSucceeds(s, t))
  {
  }

  lemma CommitStepPlaces(s: State, t: nat)
    requires LoadingInv(s) && PlacesInv(s) && t in s.threads && s.threads[t].at.Built? && s.threads[t].job.Load?
    ensures PlacesInv(CommitStep(s, t))
  {
    hide ClusterName, Registered;
  }

  lemma StartUnloadPlaces(s: State, t: nat, id: int)
    requires PlacesInv(s) && DrainsInv(s) && t !in s.threads
    ensures PlacesInv(StartUnload(s, t, id))
  {
    hide PlacesOk, ClusterName, Unregistered;
    if id in s.sh.loaded {
      PlacesEject(s.h.place, s.sh.closes, s.threads, s.sh.loaded, s.sh.tails, s.h.committed, id);
      PlacesNewThread(s.h.place[s.sh.loaded[id] := InTail(|s.sh.tails|)], s.sh.closes, s.threads, s.sh.loaded - {id},
                      s.sh.tails + [Tail(s.sh.loaded[id], false)], s.h.committed, t,
                        Thread(Unload(s.sh.drainSeq), AfterCommit(s)));
    }
  }

  lemma ClearPlaces(s: State, t: nat)
    requires PlacesInv(s) && Is(s, t, Finishing) && s.threads[t].job.Load?
    ensures PlacesInv(Clear(s, t))
  {
  }

  lemma FireTimerPlaces(s: State, t: nat)
    requires PlacesInv(s) && DrainsInv(s) && Is(s, t, Finishing) && s.threads[t].job.Unload?
    ensures PlacesInv(FireTimer(s, t))
  {
  }

  lemma DropTimerPlaces(s: State, t: nat)
    requires PlacesInv(s) && Is(s, t, Fired) && s.threads[t].job.Unload?
    ensures PlacesInv(DropTimer(s, t))
  {
  }

  lemma CloseOneLoadedPlaces(s: State, id: int)
    requires PlacesInv(s)
    ensures PlacesInv(CloseOneLoaded(s, id))
  {
  }

  lemma FlushOneDrainPlaces(s: State, q: nat)
    requires PlacesInv(s) && DrainsInv(s)
    ensures PlacesInv(FlushOneDrain(s, q))
  {
  }

  // ---------- pending drains ----------

  lemma StartLoadDrains(s: State, t: nat, id: int)
    requires DrainsInv(s) && t !in s.threads
    ensures DrainsInv(StartLoad(s, t, id))
  {
    hide DrainsOk;
    DrainsNewLoad(s.sh.tails, s.sh.pendingDrains, s.sh.drainSeq, s.threads, s.h.unloader, t, id);
  }

  lemma DrainsNewLoad(tails: seq<Tail>, pending: set<nat>, drainSeq: nat, th: map<nat, Thread>, unloader: seq<nat>,
                      t: nat, id: int)
    requires DrainsOk(tails, pending, drainSeq, th, unloader) && t !in th
    ensures DrainsOk(tails, pending, drainSeq, th[t := Thread(Load(id), Building)], unloader)
  {
  }

  lemma BuildFailsDrains(s: State, t: nat, served: bool)
    requires DrainsInv(s) && Is(s, t, Building)
    ensures DrainsInv(BuildFails(s, t, served))
  {
  }

  lemma BuildSucceedsDrains(s: State, t: nat)
    requires DrainsInv(s) && Is(s, t, Building)
    ensures DrainsInv(BuildSucceeds(s, t))
  {
  }

  lemma CommitStepDrains(s: State, t: nat)
    requires DrainsInv(s) && t in s.threads && s.threads[t].at.Built? && s.threads[t].job.Load?
    ensures DrainsInv(CommitStep(s, t))
  {
  }

  lemma StartUnloadDrains(s: State, t: nat, id: int)
    requires PlacesInv(s) && DrainsInv(s) && t !in s.threads
    ensures DrainsInv(StartUnload(s, t, id))
  {
    hide ClusterName, Unregistered;
  }

  lemma ClearDrains(s: State, t: nat)
    requires DrainsInv(s) && Is(s, t, Finishing) && s.threads[t].job.Load?
    ensures DrainsInv(Clear(s, t))
  {
  }

  lemma FireTimerDrains(s: State, t: nat)
    requires PlacesInv(s) && DrainsInv(s) && Is(s, t, Finishing) && s.threads[t].job.Unload?
    ensures DrainsInv(FireTimer(s, t))
  {
  }

  lemma DropTimerDrains(s: State, t: nat)
    requires DrainsInv(s) && Is(s, t, Fired) && s.threads[t].job.Unload?
    ensures DrainsInv(DropTimer(s, t))
  {
  }

  lemma CloseOneLoadedDrains(s: State, id: int)
    requires DrainsInv(s)
    ensures DrainsInv(CloseOneLoaded(s, id))
  {
  }

  lemma FlushOneDrainDrains(s: State, q: nat)
    requires PlacesInv(s) && DrainsInv(s)
    ensures DrainsInv(FlushOneDrain(s, q))
  {
  }

  // ---------- routing ----------

  lemma CommitStepRoutes(s: State, names: seq<string>, t: nat)
    requires RoutesInv(s, names) && t in s.threads && s.threads[t].at.Built? && s.threads[t].job.Load?
    ensures RoutesInv(CommitStep(s, t), names)
  {
    if s.threads[t].job.id !in s.sh.loaded {
      RoutesCommit(names, s.sh.loaded, s.sh.registry, s.sh.routes, s.threads[t].job.id, s.threads[t].at.sid);
    }
  }

  lemma StartUnloadRoutes(s: State, names: seq<string>, t: nat, id: int)
    requires RoutesInv(s, names) && t !in s.threads
    ensures RoutesInv(StartUnload(s, t, id), names)
  {
    if id in s.sh.loaded {
      RoutesStop(names, s.sh.loaded, s.sh.registry, s.sh.routes, id);
    }
  }

  lemma CloseOneLoadedRoutes(s: State, names: seq<string>, id: int)
    requires RoutesInv(s, names)
    ensures RoutesInv(CloseOneLoaded(s, id), names)
  {
    if id in s.sh.loaded {
      RoutesStop(names, s.sh.loaded, s.sh.registry, s.sh.routes, id);
    }
  }

  // ---------- liveMu and the flag ----------

  /** A thread that is nowhere in reconcileLive appears, moves or leaves; the live side stays put. */
  ghost predicate QuietMove(s: State, n: State, t: nat) {
    && (t in s.threads ==> !BeforeRead(s.threads[t]) && !Critical(s.threads[t]))
    && (t in n.threads ==> !BeforeRead(n.threads[t]) && !Critical(n.threads[t]))
    && n.threads - {t} == s.threads - {t}
    && n.liveMu == s.liveMu && n.hasLive == s.hasLive
    && n.sh.live == s.sh.live && n.sh.liveSuspended == s.sh.liveSuspended && n.h.rpcFailed == s.h.rpcFailed
  }

  lemma SameOthers(th: map<nat, Thread>, th': map<nat, Thread>, t: nat)
    requires th' - {t} == th - {t}
    ensures forall u | u != t :: (u in th <==> u in th') && (u in th ==> th[u] == th'[u])
  {
    assert forall u | u != t && u in th :: u in th - {t} && (th - {t})[u] == th[u];
    assert forall u | u != t && u in th' :: u in th' - {t} && (th' - {t})[u] == th'[u];
  }

  lemma QuietMoveLock(s: State, n: State, t: nat)
    requires LockInv(s) && QuietMove(s, n, t)
    ensures LockInv(n)
  {
    SameOthers(s.threads, n.threads, t);
  }

  lemma OwedKept(s: State, n: State, t: nat)
    requires n.threads - {t} == s.threads - {t} && (t in s.threads ==> !BeforeRead(s.threads[t]))
    ensures Owed(s.threads) ==> Owed(n.threads)
  {
    SameOthers(s.threads, n.threads, t);
    if Owed(s.threads) {
      var u :| u in s.threads && BeforeRead(s.threads[u]);
      assert u in n.threads && BeforeRead(n.threads[u]);
    }
  }

  lemma QuietMoveConverge(s: State, n: State, t: nat)
    requires LockInv(s) && ConvergeInv(s) && QuietMove(s, n, t)
    requires n.h.closing == s.h.closing && (n.hasLive ==> n.sh.loaded == s.sh.loaded)
    ensures ConvergeInv(n)
  {
    SameOthers(s.threads, n.threads, t);
    OwedKept(s, n, t);
  }

  lemma CommitStepLock(s: State, t: nat)
    requires LockInv(s) && t in s.threads && s.threads[t].at.Built? && s.threads[t].job.Load?
    ensures LockInv(CommitStep(s, t))
  {
    hide ClusterName, Registered;
  }

  lemma StartUnloadLock(s: State, t: nat, id: int)
    requires LockInv(s) && t !in s.threads
    ensures LockInv(StartUnload(s, t, id))
  {
    hide ClusterName, Unregistered;
  }

  lemma LockLiveLock(s: State, t: nat)
    requires LockInv(s) && Is(s, t, Reconciling) && s.liveMu.None?
    ensures LockInv(LockLive(s, t))
  {
  }

  lemma ReadCountLock(s: State, t: nat)
    requires LockInv(s) && Is(s, t, HoldsLive)
    ensures LockInv(ReadCount(s, t))
  {
  }

  lemma CallLock(s: State, t: nat, re: Replies)
    requires LockInv(s) && t in s.threads && s.threads[t].at.Calling?
    ensures LockInv(Call(s, t, re))
  {
  }

  lemma SetFlagLock(s: State, t: nat)
    requires LockInv(s) && t in s.threads && s.threads[t].at.Setting?
    ensures LockInv(SetFlag(s, t))
  {
  }

  // ---------- convergence ----------

  lemma OwedBy(s: State, t: nat)
    requires t in s.threads && BeforeRead(s.threads[t])
    ensures Owed(s.threads)
  {
  }

  lemma CommitStepConverge(s: State, t: nat)
    requires LoadingInv(s) && ConvergeInv(s) && t in s.threads && s.threads[t].at.Built? && s.threads[t].job.Load?
    ensures ConvergeInv(CommitStep(s, t))
  {
    if s.hasLive {
      OwedBy(CommitStep(s, t), t);
    }
  }

  lemma StartUnloadConverge(s: State, t: nat, id: int)
    requires ConvergeInv(s) && t !in s.threads
    ensures ConvergeInv(StartUnload(s, t, id))
  {
    if s.hasLive && id in s.sh.loaded {
      OwedBy(StartUnload(s, t, id), t);
    }
  }

  lemma LockLiveConverge(s: State, t: nat)
    requires Is(s, t, Reconciling) && s.liveMu.None?
    ensures ConvergeInv(LockLive(s, t))
  {
    OwedBy(LockLive(s, t), t);
  }

  lemma ReadCountConverge(s: State, t: nat)
    requires LockInv(s) && Is(s, t, HoldsLive)
    ensures ConvergeInv(ReadCount(s, t))
  {
  }

  lemma CallConverge(s: State, t: nat, re: Replies)
    requires LockInv(s) && ConvergeInv(s) && t in s.threads && s.threads[t].at.Calling?
    ensures ConvergeInv(Call(s, t, re))
  {
    OwedKept(s, Call(s, t, re), t);
  }

  lemma SetFlagConverge(s: State, t: nat)
    requires LockInv(s) && ConvergeInv(s) && t in s.threads && s.threads[t].at.Setting?
    ensures ConvergeInv(SetFlag(s, t))
  {
    OwedKept(s, SetFlag(s, t), t);
  }
}
