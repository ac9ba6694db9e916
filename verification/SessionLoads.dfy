/** When a load is let in, what it and an unload lead to, and which cap is in force. */
module SessionLoads {
  import opened Wrappers
  import opened ClusterRegistry
  import opened SessionProtocol
  import opened SessionInvariant
  import opened SessionGuarantees

  /** Some call in progress is loading the id. */
  ghost predicate BeingLoaded(s: State, id: int) {
    exists t :: t in s.threads && s.threads[t].job == Load(id)
  }

  ghost predicate HasRoom(s: State) {
    |s.sh.loaded| + |s.sh.loading| < s.sh.maxLoaded
  }

  // ---------- loads ----------

  lemma LoadingMeansBeingLoaded(s: State, id: int)
    requires LoadingInv(s)
    ensures id in s.sh.loading <==> BeingLoaded(s, id)
  {
  }

  /**
   * The answer a load gets: the session its cluster name is routed to, if there is one; in
   * progress exactly if another call is loading the id; too many exactly if it is new and the
   * loaded and the loading ids are at the cap; else it is let in. Otherwise nothing changes.
   */
  lemma LoadAnswers(init: State, names: seq<string>, actions: seq<Action>, s: State, id: int)
    requires Reaches(init, names, actions, s)
    ensures var name, r := ClusterName(id), Reserve(s.sh, id).1;
            && (forall sid :: r == AlreadyLoaded(sid) <==> name in s.sh.routes && s.sh.routes[name] == Session(sid))
            && (r == InProgress <==> name !in s.sh.routes && BeingLoaded(s, id))
            && (r == TooMany <==> name !in s.sh.routes && !BeingLoaded(s, id) && !HasRoom(s))
            && (r == Reserved <==> name !in s.sh.routes && !BeingLoaded(s, id) && HasRoom(s))
    ensures Reserve(s.sh, id).1 != Reserved ==> Reserve(s.sh, id).0 == s.sh
  {
    hide Reaches;
    ReachesInv(init, names, actions, s);
    RoutedExactlyLoaded(init, names, actions, s);
    hide Inv, LoadingOk;
    InvHasLoading(s, names);
    LoadingMeansBeingLoaded(s, id);
  }

  lemma InvHasLoading(s: State, names: seq<string>)
    requires Inv(s, names)
    ensures LoadingInv(s)
  {
  }

  /**
   * A load that is let in, and whose build succeeds whatever other calls do meanwhile, commits: its
   * session is served.
   */
  lemma BuiltLoadCommits(init: State, names: seq<string>, actions: seq<Action>, s: State, t: nat) returns (n: State)
    requires Reaches(init, names, actions, s) && t in s.threads && s.threads[t].at.Built?
    ensures s.threads[t].job.Load? && Step(s, ACommit(t)) == Some(n)
    ensures var id, sid := s.threads[t].job.id, s.threads[t].at.sid;
            && n.sh.loaded == s.sh.loaded[id := sid] && n.sh.routes == s.sh.routes[ClusterName(id) := Session(sid)]
            && n.sh.registry.clusters == n.sh.routes && n.sh.closes == s.sh.closes
            && n.threads == s.threads[t := Thread(Load(id), AfterCommit(s))]
            && sid < |n.sh.closes| && n.sh.closes[sid] == 0
  {
    OneBuildPerId(init, names, actions, s, t, t);
    n := CommitStep(s, t);
    Extends(init, names, actions, s, ACommit(t), n);
    RoutedExactlyLoaded(init, names, actions + [ACommit(t)], n);
    ReachesInv(init, names, actions, s);
  }

  lemma Extends(init: State, names: seq<string>, actions: seq<Action>, s: State, a: Action, n: State)
    requires Reaches(init, names, actions, s) && Step(s, a) == Some(n)
    ensures Reaches(init, names, actions + [a], n)
  {
    hide Step;
    RunAppend(init, actions, [a]);
    assert Run(s, [a]) == Some(n) by {
      assert Run(n, []) == Some(n) && [a][1..] == [];
    }
  }

  /** With room, a load of an id that is neither loaded nor being loaded ends with a session of its own being served. */
  lemma LoadWithRoomSucceeds(init: State, names: seq<string>, actions: seq<Action>, s: State, t: nat, id: int)
    returns (n: State)
    requires Reaches(init, names, actions, s) && t !in s.threads
    requires ClusterName(id) !in s.sh.routes && !BeingLoaded(s, id) && HasRoom(s)
    ensures Reaches(init, names, actions + [AStartLoad(t, id)] + [ABuildSucceeds(t)] + [ACommit(t)], n)
    ensures n.sh.loaded == s.sh.loaded[id := |s.sh.closes|] && n.sh.closes == s.sh.closes + [0]
    ensures n.sh.routes == s.sh.routes[ClusterName(id) := Session(|s.sh.closes|)]
    ensures n.sh.registry.clusters == n.sh.routes
  {
    hide Reaches, BeingLoaded, HasRoom, ClusterName;
    LoadAnswers(init, names, actions, s, id);
    var s1 := StartLoad(s, t, id);
    var s2 := BuildSucceeds(s1, t);
    Extends(init, names, actions, s, AStartLoad(t, id), s1);
    Extends(init, names, actions + [AStartLoad(t, id)], s1, ABuildSucceeds(t), s2);
    n := BuiltLoadCommits(init, names, actions + [AStartLoad(t, id)] + [ABuildSucceeds(t)], s2, t);
    Extends(init, names, actions + [AStartLoad(t, id)] + [ABuildSucceeds(t)], s2, ACommit(t), n);
  }

  /**
   * An id that is committed but whose load has not returned counts twice: too many is answered
   * although the cap has room for another id exactly if such ids make up the difference.
   */
  lemma TooManyIsPremature(init: State, names: seq<string>, actions: seq<Action>, s: State, id: int)
    requires Reaches(init, names, actions, s)
    ensures var held, twice := s.sh.loaded.Keys + s.sh.loading, s.sh.loaded.Keys * s.sh.loading;
            Reserve(s.sh, id).1 == TooMany && |held| < s.sh.maxLoaded <==>
              id !in held && |held| < s.sh.maxLoaded <= |held| + |twice|
  {
    var held, twice := s.sh.loaded.Keys + s.sh.loading, s.sh.loaded.Keys * s.sh.loading;
    CountTwice(s.sh.loaded.Keys, s.sh.loading);
    assert |s.sh.loaded| == |s.sh.loaded.Keys|;
  }

  lemma CountTwice(a: set<int>, b: set<int>)
    ensures |a| + |b| == |a + b| + |a * b|
  {
    assert a + b == (a - b) + b && a == (a - b) + (a * b);
    assert (a - b) !! b && (a - b) !! (a * b);
  }

  /** The failing run: with a cap of two and one snapshot just committed, a second one is turned away. */
  lemma SecondLoadTurnedAway(init: State, names: seq<string>) returns (s: State)
    requires Init(init, names) && init.sh.maxLoaded == 2
    ensures Reaches(init, names, [] + [AStartLoad(0, 1)] + [ABuildSucceeds(0)] + [ACommit(0)], s)
    ensures s.sh.loaded.Keys == {1} && s.sh.loading == {1} && Reserve(s.sh, 2).1 == TooMany
  {
    assert Reaches(init, names, [], init);
    assert ClusterName(1) !in LiveRoutes(names);
    s := LoadWithRoomSucceeds(init, names, [], init, 0, 1);
    StillHeld(init, s);
    assert |s.sh.loaded| == |{1}| == 1;
  }

  lemma StillHeld(init: State, s: State)
    requires init.threads == map[] && init.sh.loading == {} && init.sh.loaded == map[] && init.sh.maxLoaded == 2
    requires Run(init, [] + [AStartLoad(0, 1)] + [ABuildSucceeds(0)] + [ACommit(0)]) == Some(s)
    ensures s.sh.loading == {1} && s.sh.maxLoaded == 2
  {
    hide ClusterName, Registered;
    var s1 := Step(init, AStartLoad(0, 1)).value;
    var s2 := Step(s1, ABuildSucceeds(0)).value;
    assert [] + [AStartLoad(0, 1)] + [ABuildSucceeds(0)] + [ACommit(0)] ==
              [AStartLoad(0, 1), ABuildSucceeds(0), ACommit(0)];
    assert Run(s1, [ABuildSucceeds(0), ACommit(0)]) == Run(s2, [ACommit(0)]);
    assert Run(s2, [ACommit(0)]) == Step(s2, ACommit(0));
  }

  // ---------- unloads ----------

  /**
   * An unload of an id that is not loaded changes nothing; any other takes it out of service at
   * once and leaves its drain pending.
   */
  lemma UnloadStopsServing(init: State, names: seq<string>, actions: seq<Action>, s: State, t: nat, id: int)
    returns (n: State)
    requires Reaches(init, names, actions, s) && t !in s.threads
    ensures Step(s, AStartUnload(t, id)) == Some(n)
    ensures ClusterName(id) !in s.sh.routes ==> n == s
    ensures ClusterName(id) in s.sh.routes ==>
              && id in s.sh.loaded && n.sh.loaded == s.sh.loaded - {id}
              && n.sh.routes == s.sh.routes - {ClusterName(id)} && n.sh.registry.clusters == n.sh.routes
              && n.sh.closes == s.sh.closes && IsPending(n.sh, s.sh.loaded[id])
              && n.threads == s.threads[t := Thread(Unload(s.sh.drainSeq), AfterCommit(s))]
              && s.sh.drainSeq < |n.sh.tails| && n.sh.tails[s.sh.drainSeq].session == s.sh.loaded[id]
  {
    hide Reaches, Inv, ClusterName, Unregistered;
    n := StartUnload(s, t, id);
    RoutedExactlyLoaded(init, names, actions, s);
    ReachesInv(init, names, actions, s);
    TailsNumbered(s, names);
    Extends(init, names, actions, s, AStartUnload(t, id), n);
    RoutedExactlyLoaded(init, names, actions + [AStartUnload(t, id)], n);
    if id in s.sh.loaded {
      assert n.sh.tails[s.sh.drainSeq] == Tail(s.sh.loaded[id], false);
    }
  }

  lemma TailsNumbered(s: State, names: seq<string>)
    requires Inv(s, names)
    ensures |s.sh.tails| == s.sh.drainSeq
  {
  }

  /** When its drain timer has run, the session of an unload is closed, exactly once. */
  lemma DrainCloses(init: State, names: seq<string>, actions: seq<Action>, s: State, t: nat) returns (n: State)
    requires Reaches(init, names, actions, s) && t in s.threads && s.threads[t].at.Finishing?
              && s.threads[t].job.Unload?
    ensures Step(s, AFireTimer(t)) == Some(n)
    ensures var q := s.threads[t].job.q;
            && q < |s.sh.tails| && q < |n.sh.tails| && n.sh.tails[q].ran
                  && n.sh.tails[q].session == s.sh.tails[q].session
            && n.sh.tails[q].session < |n.sh.closes| && n.sh.closes[n.sh.tails[q].session] == 1
    ensures forall id | id in s.sh.loaded :: s.sh.loaded[id] < |n.sh.closes| && n.sh.closes[s.sh.loaded[id]] == 0
  {
    hide Reaches;
    n := FireTimer(s, t);
    Extends(init, names, actions, s, AFireTimer(t), n);
    ReachesInv(init, names, actions, s);
    ReachesInv(init, names, actions + [AFireTimer(t)], n);
    TimerOfTail(s, names, t);
    var q := s.threads[t].job.q;
    ClosedTail(n, names, q);
    OpenLoaded(n, names);
  }

  lemma TimerOfTail(s: State, names: seq<string>, t: nat)
    requires Inv(s, names) && t in s.threads && s.threads[t].job.Unload?
    ensures s.threads[t].job.q < |s.sh.tails|
  {
  }

  lemma ClosedTail(s: State, names: seq<string>, q: nat)
    requires Inv(s, names) && q < |s.sh.tails| && s.sh.tails[q].ran
    ensures s.sh.tails[q].session < |s.sh.closes| && s.sh.closes[s.sh.tails[q].session] == 1
  {
    assert s.h.place[s.sh.tails[q].session] == InTail(q);
  }

  lemma OpenLoaded(s: State, names: seq<string>)
    requires Inv(s, names)
    ensures forall id | id in s.sh.loaded :: s.sh.loaded[id] < |s.sh.closes| && s.sh.closes[s.sh.loaded[id]] == 0
  {
    forall id | id in s.sh.loaded
      ensures s.sh.loaded[id] < |s.sh.closes| && s.sh.closes[s.sh.loaded[id]] == 0
    {
      assert s.h.place[s.sh.loaded[id]] == InLoaded(id);
    }
  }

  // ---------- the cap ----------

  /** The last positive cap that was set, or the one before. */
  function CapAfter(cap: int, actions: seq<Action>): int
    decreases |actions|
  {
    if actions == [] then cap
    else CapAfter(if actions[0].ASetMaxLoaded? && actions[0].n > 0 then actions[0].n else cap, actions[1..])
  }

  lemma {:induction false} CapIsLastSet(s: State, actions: seq<Action>)
    requires Run(s, actions).Some?
    ensures Run(s, actions).value.sh.maxLoaded == CapAfter(s.sh.maxLoaded, actions)
    decreases |actions|
  {
    if actions != [] {
      if !actions[0].ASetMaxLoaded? {
        CapFixedByStep(s, actions[0]);
      }
      CapIsLastSet(Step(s, actions[0]).value, actions[1..]);
    }
  }
}
