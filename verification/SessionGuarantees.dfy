/** The guarantees of the session manager, for every run from start-up in any interleaving. */
module SessionGuarantees {
  import opened Wrappers
  import opened ClusterRegistry
  import opened LiveMonitors
  import opened SessionProtocol
  import opened SessionInvariant
  import opened SessionRuns

  /** s is reached from a start-up state with these live clusters. */
  ghost predicate Reaches(init: State, names: seq<string>, actions: seq<Action>, s: State) {
    Init(init, names) && Run(init, actions) == Some(s)
  }

  lemma ReachesInv(init: State, names: seq<string>, actions: seq<Action>, s: State)
    requires Reaches(init, names, actions, s)
    ensures Inv(s, names)
  {
    hide Inv;
    InitInv(init, names);
    RunKeepsInv(init, actions, names);
  }

  // ---------- sessions ----------

  ghost predicate IsLoaded(sh: Shared, n: nat) {
    exists id :: id in sh.loaded && sh.loaded[id] == n
  }

  ghost predicate IsPending(sh: Shared, n: nat) {
    exists q :: q in sh.pendingDrains && q < |sh.tails| && sh.tails[q] == Tail(n, false)
  }

  ghost predicate IsRouted(sh: Shared, n: nat) {
    exists name :: name in sh.routes && sh.routes[name] == Session(n)
  }

  /** A committed session is loaded, or waits for its drain, or was closed exactly once: one of the three. */
  lemma EachSessionInOnePlace(init: State, names: seq<string>, actions: seq<Action>, s: State, n: nat)
    requires Reaches(init, names, actions, s) && n in s.h.committed
    ensures n < |s.sh.closes| && s.sh.closes[n] <= 1
    ensures IsLoaded(s.sh, n) ==> !IsPending(s.sh, n) && s.sh.closes[n] == 0
    ensures IsPending(s.sh, n) ==> s.sh.closes[n] == 0
    ensures IsLoaded(s.sh, n) || IsPending(s.sh, n) || s.sh.closes[n] == 1
  {
    ReachesInv(init, names, actions, s);
    assert PlaceOk(s.h.place[n], n, s.sh.closes[n], s.threads, s.sh.loaded, s.sh.tails, s.h.committed);
    match s.h.place[n] {
      case InLoaded(id) => assert id in s.sh.loaded;
      case InTail(q) => assert q in s.sh.pendingDrains || s.sh.tails[q].ran;
      case _ =>
    }
  }

  /** A session that the proxy or the registry still serves is loaded, committed and not closed. */
  lemma RoutedSessionIsOpen(init: State, names: seq<string>, actions: seq<Action>, s: State, n: nat)
    requires Reaches(init, names, actions, s) && IsRouted(s.sh, n)
    ensures n in s.h.committed && IsLoaded(s.sh, n) && n < |s.sh.closes| && s.sh.closes[n] == 0
  {
    ReachesInv(init, names, actions, s);
    var name :| name in s.sh.routes && s.sh.routes[name] == Session(n);
    assert name !in names;
    var id :| id in s.sh.loaded && name == ClusterName(id);
    assert s.h.place[n] == InLoaded(id);
  }

  /** Once every call has returned and every timer is done, nothing is in flight and no resource leaks. */
  lemma NothingLeaks(init: State, names: seq<string>, actions: seq<Action>, s: State, n: nat)
    requires Reaches(init, names, actions, s) && s.threads == map[]
    ensures s.sh.loading == {} && s.sh.pendingDrains == {} && s.liveMu == None
    ensures n < |s.sh.closes| ==> IsLoaded(s.sh, n) || s.sh.closes[n] == 1
  {
    ReachesInv(init, names, actions, s);
    NothingLoading(s.threads, s.h.holder, s.sh.loading, s.sh.loaded.Keys);
    if n < |s.sh.closes| {
      assert PlaceOk(s.h.place[n], n, s.sh.closes[n], s.threads, s.sh.loaded, s.sh.tails, s.h.committed);
      match s.h.place[n] {
        case InLoaded(id) => assert id in s.sh.loaded;
        case InTail(q) => assert s.sh.tails[q].ran;
        case _ =>
      }
    }
  }

  lemma NothingLoading(th: map<nat, Thread>, holder: map<int, nat>, loading: set<int>, loaded: set<int>)
    requires LoadingOk(th, holder, loading, loaded)
    ensures th == map[] ==> loading == {}
  {
    assert forall id | id in loading :: holder[id] in th;
  }

  // ---------- routing ----------

  /** The routed clusters are the live ones and exactly the names of the loaded ids, in registry and proxy alike. */
  lemma RoutedExactlyLoaded(init: State, names: seq<string>, actions: seq<Action>, s: State)
    requires Reaches(init, names, actions, s)
    ensures s.sh.registry.clusters == s.sh.routes
    ensures forall n :: n in s.sh.routes <==> n in names || exists id :: id in s.sh.loaded && n == ClusterName(id)
    ensures forall n | n in names :: s.sh.routes[n] == LiveCluster
    ensures forall id | id in s.sh.loaded :: s.sh.routes[ClusterName(id)] == Session(s.sh.loaded[id])
    ensures forall id :: ClusterName(id) in s.sh.routes <==> id in s.sh.loaded
  {
    ReachesInv(init, names, actions, s);
    forall id | ClusterName(id) in s.sh.routes
      ensures id in s.sh.loaded
    {
      var i :| i in s.sh.loaded && ClusterName(id) == ClusterName(i);
      ClusterNameInjective(id, i);
    }
  }

  /** The live clusters keep their places at the head of the registration order, so the default never changes. */
  lemma DefaultStaysLive(init: State, names: seq<string>, actions: seq<Action>, s: State)
    requires Reaches(init, names, actions, s)
    ensures WellFormed(s.sh.registry) && names <= s.sh.registry.order
    ensures names != [] ==> s.sh.registry.order[0] == names[0] && s.sh.registry.clusters[names[0]] == LiveCluster
  {
    ReachesInv(init, names, actions, s);
    if names != [] {
      assert names[0] in names;
    }
  }

  // ---------- loads ----------

  /** Two calls never work on the same snapshot id, and the commit-race branch is never entered. */
  lemma OneBuildPerId(init: State, names: seq<string>, actions: seq<Action>, s: State, t: nat, u: nat)
    requires Reaches(init, names, actions, s) && t in s.threads && u in s.threads
    ensures s.threads[t].job.Load? && s.threads[t].job == s.threads[u].job ==> t == u
    ensures !s.threads[t].at.Discarding?
    ensures s.threads[t].at.Built? ==> s.threads[t].job.Load? && s.threads[t].job.id !in s.sh.loaded
  {
    ReachesInv(init, names, actions, s);
  }

  /** No run without a cap change ever has more distinct ids loaded or loading than the cap. */
  lemma CapHolds(init: State, names: seq<string>, actions: seq<Action>, s: State)
    requires Reaches(init, names, actions, s)
    ensures |s.sh.loaded.Keys + s.sh.loading| <= s.h.capSeen
    ensures (forall i | 0 <= i < |actions| :: !actions[i].ASetMaxLoaded?) ==>
              |s.sh.loaded.Keys + s.sh.loading| <= s.sh.maxLoaded == init.sh.maxLoaded
  {
    ReachesInv(init, names, actions, s);
    if forall i | 0 <= i < |actions| :: !actions[i].ASetMaxLoaded? {
      CapFixed(init, actions);
    }
  }

  lemma {:induction false} CapFixed(s: State, actions: seq<Action>)
    requires Run(s, actions).Some?
    requires forall i | 0 <= i < |actions| :: !actions[i].ASetMaxLoaded?
    ensures Run(s, actions).value.sh.maxLoaded == s.sh.maxLoaded
    ensures Run(s, actions).value.h.capSeen == s.h.capSeen
    decreases |actions|
  {
    if actions != [] {
      CapFixedByStep(s, actions[0]);
      CapFixed(Step(s, actions[0]).value, actions[1..]);
    }
  }

  lemma CapFixedByStep(s: State, a: Action)
    requires Step(s, a).Some? && !a.ASetMaxLoaded?
    ensures Step(s, a).value.sh.maxLoaded == s.sh.maxLoaded && Step(s, a).value.h.capSeen == s.h.capSeen
  {
    hide Step;
    if a.AStartLoad? || a.ABuildFails? || a.ABuildSucceeds? || a.ACommit? || a.ADiscard? || a.AClear? {
      LoadKeepsCap(s, a);
    } else if a.AStartUnload? || a.AFireTimer? || a.ADropTimer? || a.ACloseOneLoaded? || a.AFlushOneDrain? {
      UnloadKeepsCap(s, a);
    } else {
      ReconcileKeepsCap(s, a);
    }
  }

  lemma LoadKeepsCap(s: State, a: Action)
    requires a.AStartLoad? || a.ABuildFails? || a.ABuildSucceeds? || a.ACommit? || a.ADiscard? || a.AClear?
    ensures Step(s, a).Some? ==>
              Step(s, a).value.sh.maxLoaded == s.sh.maxLoaded && Step(s, a).value.h.capSeen == s.h.capSeen
  {
    hide ClusterName, Registered;
  }

  lemma UnloadKeepsCap(s: State, a: Action)
    requires a.AStartUnload? || a.AFireTimer? || a.ADropTimer? || a.ACloseOneLoaded? || a.AFlushOneDrain?
    ensures Step(s, a).Some? ==>
              Step(s, a).value.sh.maxLoaded == s.sh.maxLoaded && Step(s, a).value.h.capSeen == s.h.capSeen
  {
    hide ClusterName, Unregistered;
  }

  lemma ReconcileKeepsCap(s: State, a: Action)
    requires a.ALockLive? || a.AReadCount? || a.ACall? || a.ASetFlag?
    ensures Step(s, a).Some? ==>
              Step(s, a).value.sh.maxLoaded == s.sh.maxLoaded && Step(s, a).value.h.capSeen == s.h.capSeen
  {
    hide Suspend, Resume;
  }

  // ---------- the live monitors ----------

  /** No call is inside reconcileLive; drain timers and placeholders may still be pending. */
  ghost predicate Settled(s: State) {
    forall t | t in s.threads :: !BeforeRead(s.threads[t]) && !Critical(s.threads[t])
  }

  /**
   * At any moment before shutdown, if no monitor call failed last and the flag differs from
   * "some snapshot is loaded", then a call that has not re-read the count still has to
   * reconcile, or the monitor call in flight is the one that is needed.
   */
  lemma MismatchIsOwed(init: State, names: seq<string>, actions: seq<Action>, s: State)
    requires Reaches(init, names, actions, s) && s.hasLive && !s.h.closing && !s.h.rpcFailed
    requires s.sh.liveSuspended != WantSuspended(s.sh)
    ensures Owed(s.threads)
         || exists t :: s.liveMu == Some(t) && t in s.threads
              && (s.threads[t].at == Calling(WantSuspended(s.sh)) || s.threads[t].at == Setting(WantSuspended(s.sh)))
  {
    ReachesInv(init, names, actions, s);
  }

  /**
   * Once the calls have settled, live is suspended exactly when a snapshot is loaded if and
   * only if a snapshot is loaded or the last monitor call did not report an error.
   */
  lemma LiveMatchesLoaded(init: State, names: seq<string>, actions: seq<Action>, s: State)
    requires Reaches(init, names, actions, s) && s.hasLive && !s.h.closing && Settled(s)
    ensures (s.sh.live.suspended == (|s.sh.loaded| > 0)) <==> (|s.sh.loaded| > 0 || !s.h.rpcFailed)
    ensures !s.h.rpcFailed ==> s.sh.liveSuspended == s.sh.live.suspended == (|s.sh.loaded| > 0)
  {
    ReachesInv(init, names, actions, s);
  }

  /** The last monitor call failed only if some monitor call of the run met a refusal. */
  lemma {:induction false} FailureNeedsRefusal(s: State, actions: seq<Action>)
    requires Run(s, actions).Some? && !s.h.rpcFailed
    requires forall i | 0 <= i < |actions| && actions[i].ACall? ::
               actions[i].re.refused == {} && actions[i].re.nb.ok && actions[i].re.sb.ok
    ensures !Run(s, actions).value.h.rpcFailed
    decreases |actions|
  {
    if actions != [] {
      CallAnsweredSucceeds(s, actions[0]);
      FailureNeedsRefusal(Step(s, actions[0]).value, actions[1..]);
    }
  }

  lemma CallAnsweredSucceeds(s: State, a: Action)
    requires Step(s, a).Some? && !s.h.rpcFailed
    requires a.ACall? ==> a.re.refused == {} && a.re.nb.ok && a.re.sb.ok
    ensures !Step(s, a).value.h.rpcFailed
  {
  }

  /** The next step of a thread. */
  function NextAction(t: nat, th: Thread): Action {
    match th.at
    case Building => ABuildSucceeds(t)
    case Built(_) => ACommit(t)
    case Discarding(_) => ADiscard(t)
    case Reconciling => ALockLive(t)
    case HoldsLive => AReadCount(t)
    case Calling(_) => ACall(t, Replies({}, NO_ANSWER, NO_ANSWER))
    case Setting(_) => ASetFlag(t)
    case Finishing => if th.job.Load? then AClear(t) else AFireTimer(t)
    case Fired => ADropTimer(t)
  }

  lemma CanMove(s: State, t: nat)
    requires t in s.threads
    requires s.threads[t].at.Built? ==> s.threads[t].job.Load?
    requires s.threads[t].at.Fired? ==> s.threads[t].job.Unload?
    requires s.threads[t].at.Reconciling? ==> s.liveMu.None?
    ensures Step(s, NextAction(t, s.threads[t])).Some?
  {
  }

  /** There is no deadlock: while calls are in progress, one of them can take its next step. */
  lemma NoDeadlock(init: State, names: seq<string>, actions: seq<Action>, s: State)
    requires Reaches(init, names, actions, s) && s.threads != map[]
    ensures exists t :: t in s.threads && Step(s, NextAction(t, s.threads[t])).Some?
  {
    ReachesInv(init, names, actions, s);
    assert s.threads.Keys != {};
    var t :| t in s.threads.Keys;
    CanMove(s, if s.liveMu.Some? then s.liveMu.value else t);
  }

  // ---------- a failed suspend leaves live dark ----------

  lemma {:induction false} RunAppend(s: State, front: seq<Action>, back: seq<Action>)
    requires Run(s, front).Some?
    ensures Run(s, front + back) == Run(Run(s, front).value, back)
    decreases |front|
  {
    hide Step;
    if front == [] {
      assert front + back == back;
    } else {
      assert (front + back)[1..] == front[1..] + back;
      RunAppend(Step(s, front[0]).value, front[1..], back);
    }
  }

  ghost predicate Idle(s: State) {
    s.threads == map[] && s.liveMu == None && s.hasLive
  }

  lemma CommitWithoutRefusal(s: State, id: int) returns (n: State)
    requires Idle(s) && s.sh.loaded == map[] && s.sh.loading == {} && s.sh.maxLoaded > 0
    ensures Run(s, [AStartLoad(0, id), ABuildSucceeds(0), ACommit(0)]) == Some(n)
    ensures n.threads == map[0 := Thread(Load(id), Reconciling)] && n.liveMu == None && n.hasLive
    ensures n.sh.loaded.Keys == {id} && n.sh.live == s.sh.live && n.sh.liveSuspended == s.sh.liveSuspended
    ensures n.h.closing == s.h.closing
  {
    var s1 := Step(s, AStartLoad(0, id)).value;
    var s2 := Step(s1, ABuildSucceeds(0)).value;
    n := Step(s2, ACommit(0)).value;
    assert Run(s2, [ACommit(0)]) == Some(n);
    assert Run(s1, [ABuildSucceeds(0), ACommit(0)]) == Some(n);
  }

  lemma SuspendRefused(s: State, id: int, cookie: nat) returns (n: State)
    requires s.threads == map[0 := Thread(Load(id), Reconciling)] && s.liveMu == None && s.hasLive
    requires s.sh.loaded.Keys == {id} && cookie in s.sh.live.nbCookies
    requires !s.sh.live.suspended && !s.sh.liveSuspended
    ensures Run(s, [ALockLive(0), AReadCount(0), ACall(0, Replies({cookie}, NO_ANSWER, NO_ANSWER)), AClear(0)]) ==
              Some(n)
    ensures Idle(n) && n.sh.loaded.Keys == {id} && n.sh.live.suspended && !n.sh.liveSuspended
    ensures n.h.closing == s.h.closing
  {
    var call := ACall(0, Replies({cookie}, NO_ANSWER, NO_ANSWER));
    assert |s.sh.loaded| == |{id}|;
    var s1 := Step(s, ALockLive(0)).value;
    var s2 := Step(s1, AReadCount(0)).value;
    assert s2.threads[0].at == Calling(true);
    var s3 := Step(s2, call).value;
    n := Step(s3, AClear(0)).value;
    assert Run(s3, [AClear(0)]) == Some(n);
    assert Run(s2, [call, AClear(0)]) == Some(n);
    assert Run(s1, [AReadCount(0), call, AClear(0)]) == Some(n);
  }

  lemma UnloadSeesNothingToDo(s: State, id: int) returns (n: State)
    requires Idle(s) && s.sh.loaded.Keys == {id} && !s.sh.liveSuspended
    ensures Run(s, [AStartUnload(1, id), ALockLive(1), AReadCount(1)]) == Some(n)
    ensures n.threads == map[1 := Thread(Unload(s.sh.drainSeq), Finishing)]
    ensures n.sh.loaded == map[] && n.sh.live == s.sh.live && n.h.closing == s.h.closing
  {
    hide ClusterName, Unregistered;
    var s1 := Step(s, AStartUnload(1, id)).value;
    assert s1.sh.loaded == map[];
    var s2 := Step(s1, ALockLive(1)).value;
    n := Step(s2, AReadCount(1)).value;
    assert Run(s2, [AReadCount(1)]) == Some(n);
    assert Run(s1, [ALockLive(1), AReadCount(1)]) == Some(n);
  }

  lemma DrainRuns(s: State, q: nat) returns (n: State)
    requires s.threads == map[1 := Thread(Unload(q), Finishing)]
    ensures Run(s, [AFireTimer(1), ADropTimer(1)]) == Some(n)
    ensures n.threads == map[] && n.sh.loaded == s.sh.loaded && n.sh.live == s.sh.live && n.h.closing == s.h.closing
  {
    var s1 := Step(s, AFireTimer(1)).value;
    n := Step(s1, ADropTimer(1)).value;
    assert Run(s1, [ADropTimer(1)]) == Some(n);
  }

  /**
   * The failing input of live convergence: a monitor cancel is refused while a snapshot loads.
   * SuspendMonitors is suspended all the same but reports an error, so the manager's flag stays
   * unset; the last unload then sees nothing to do, and live stays suspended with nothing loaded.
   */
  lemma LiveCanStayDark(init: State, names: seq<string>)
    requires Init(init, names) && init.hasLive && init.sh.live.nbCookies != []
    ensures exists actions, s :: Reaches(init, names, actions, s)
              && s.threads == map[] && !s.h.closing && s.sh.loaded == map[] && s.sh.live.suspended
  {
    hide Run, Step, Init;
    var cookie := init.sh.live.nbCookies[0];
    StartsIdle(init, names);
    var a := [AStartLoad(0, 1), ABuildSucceeds(0), ACommit(0)];
    var b := [ALockLive(0), AReadCount(0), ACall(0, Replies({cookie}, NO_ANSWER, NO_ANSWER)), AClear(0)];
    var c := [AStartUnload(1, 1), ALockLive(1), AReadCount(1)];
    var d := [AFireTimer(1), ADropTimer(1)];
    var s1 := CommitWithoutRefusal(init, 1);
    var s2 := SuspendRefused(s1, 1, cookie);
    var s3 := UnloadSeesNothingToDo(s2, 1);
    var s4 := DrainRuns(s3, s2.sh.drainSeq);
    RunAppend(init, a, b);
    RunAppend(init, a + b, c);
    RunAppend(init, a + b + c, d);
    assert Reaches(init, names, a + b + c + d, s4);
  }

  lemma StartsIdle(init: State, names: seq<string>)
    requires Init(init, names) && init.hasLive
    ensures Idle(init) && init.sh.loaded == map[] && init.sh.loading == {} && init.sh.maxLoaded > 0
    ensures !init.sh.live.suspended && !init.sh.liveSuspended && !init.h.closing
  {
  }
}
