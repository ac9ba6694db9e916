/** What the session protocol guarantees in every state that any run reaches. */
module SessionRuns {
  import opened LiveMonitors
  import opened SessionProtocol
  import opened SessionInvariant
  import opened SessionSteps

  lemma InitInv(s: State, names: seq<string>)
    requires Init(s, names)
    ensures Inv(s, names)
  {
    assert s.sh.loaded.Keys + s.sh.loading == {};
  }

  /** A call in reconcileLive moves on: everything but the live side is as before. */
  lemma LateMoveKeeps(s: State, n: State, t: nat, names: seq<string>)
    requires Inv(s, names) && LateMove(s, n, t)
    ensures LoadingInv(n) && CapInv(n) && PlacesInv(n) && DrainsInv(n) && RoutesInv(n, names)
  {
    LateMoveLoading(s, n, t);
    LateMovePlaces(s, n, t);
    LateMoveDrains(s, n, t);
  }

  lemma StartLoadIsQuiet(s: State, t: nat, id: int)
    requires t !in s.threads
    ensures QuietMove(s, StartLoad(s, t, id), t)
  {
  }

  lemma StartLoadKeeps(s: State, names: seq<string>, t: nat, id: int)
    requires Inv(s, names) && t !in s.threads
    ensures Inv(StartLoad(s, t, id), names)
  {
    hide LoadingOk, CapOk, PlacesOk, DrainsOk, RoutesOk, LockOk, FlagOk, ConvergeOk;
    StartLoadLoading(s, t, id);
    StartLoadCap(s, t, id);
    StartLoadPlaces(s, t, id);
    StartLoadDrains(s, t, id);
    StartLoadIsQuiet(s, t, id);
    hide QuietMove;
    QuietMoveLock(s, StartLoad(s, t, id), t);
    QuietMoveConverge(s, StartLoad(s, t, id), t);
  }

  lemma BuildFailsKeeps(s: State, names: seq<string>, t: nat, served: bool)
    requires Inv(s, names) && Is(s, t, Building)
    ensures Inv(BuildFails(s, t, served), names)
  {
    hide LoadingOk, CapOk, PlacesOk, DrainsOk, RoutesOk, LockOk, FlagOk, ConvergeOk;
    BuildFailsLoading(s, t, served);
    BuildFailsPlaces(s, t, served);
    BuildFailsDrains(s, t, served);
    QuietMoveLock(s, BuildFails(s, t, served), t);
    QuietMoveConverge(s, BuildFails(s, t, served), t);
  }

  lemma BuildSucceedsKeeps(s: State, names: seq<string>, t: nat)
    requires Inv(s, names) && Is(s, t, Building)
    ensures Inv(BuildSucceeds(s, t), names)
  {
    hide LoadingOk, CapOk, PlacesOk, DrainsOk, RoutesOk, LockOk, FlagOk, ConvergeOk;
    BuildSucceedsLoading(s, t);
    BuildSucceedsPlaces(s, t);
    BuildSucceedsDrains(s, t);
    QuietMoveLock(s, BuildSucceeds(s, t), t);
    QuietMoveConverge(s, BuildSucceeds(s, t), t);
  }

  lemma CommitStepKeeps(s: State, names: seq<string>, t: nat)
    requires Inv(s, names) && t in s.threads && s.threads[t].at.Built? && s.threads[t].job.Load?
    ensures Inv(CommitStep(s, t), names)
  {
    hide LoadingOk, CapOk, PlacesOk, DrainsOk, RoutesOk, LockOk, FlagOk, ConvergeOk;
    CommitStepLoading(s, t);
    CommitStepCap(s, t);
    CommitStepPlaces(s, t);
    CommitStepDrains(s, t);
    CommitStepRoutes(s, names, t);
    CommitStepLock(s, t);
    CommitStepConverge(s, t);
  }

  lemma StartUnloadKeeps(s: State, names: seq<string>, t: nat, id: int)
    requires Inv(s, names) && t !in s.threads
    ensures Inv(StartUnload(s, t, id), names)
  {
    hide LoadingOk, CapOk, PlacesOk, DrainsOk, RoutesOk, LockOk, FlagOk, ConvergeOk;
    StartUnloadLoading(s, t, id);
    StartUnloadPlaces(s, t, id);
    StartUnloadDrains(s, t, id);
    StartUnloadRoutes(s, names, t, id);
    StartUnloadLock(s, t, id);
    StartUnloadConverge(s, t, id);
    CapShrinks(s, StartUnload(s, t, id));
  }

  lemma LockLiveKeeps(s: State, names: seq<string>, t: nat)
    requires Inv(s, names) && Is(s, t, Reconciling) && s.liveMu.None?
    ensures Inv(LockLive(s, t), names)
  {
    hide LoadingOk, CapOk, PlacesOk, DrainsOk, RoutesOk, LockOk, FlagOk, ConvergeOk;
    LateMoveKeeps(s, LockLive(s, t), t, names);
    LockLiveLock(s, t);
    LockLiveConverge(s, t);
  }

  lemma ReadCountKeeps(s: State, names: seq<string>, t: nat)
    requires Inv(s, names) && Is(s, t, HoldsLive)
    ensures Inv(ReadCount(s, t), names)
  {
    hide LoadingOk, CapOk, PlacesOk, DrainsOk, RoutesOk, LockOk, FlagOk, ConvergeOk;
    LateMoveKeeps(s, ReadCount(s, t), t, names);
    ReadCountLock(s, t);
    ReadCountConverge(s, t);
  }

  lemma CallKeeps(s: State, names: seq<string>, t: nat, re: Replies)
    requires Inv(s, names) && t in s.threads && s.threads[t].at.Calling?
    ensures Inv(Call(s, t, re), names)
  {
    hide LoadingOk, CapOk, PlacesOk, DrainsOk, RoutesOk, LockOk, FlagOk, ConvergeOk;
    LateMoveKeeps(s, Call(s, t, re), t, names);
    CallLock(s, t, re);
    CallConverge(s, t, re);
  }

  lemma SetFlagKeeps(s: State, names: seq<string>, t: nat)
    requires Inv(s, names) && t in s.threads && s.threads[t].at.Setting?
    ensures Inv(SetFlag(s, t), names)
  {
    hide LoadingOk, CapOk, PlacesOk, DrainsOk, RoutesOk, LockOk, FlagOk, ConvergeOk;
    LateMoveKeeps(s, SetFlag(s, t), t, names);
    SetFlagLock(s, t);
    SetFlagConverge(s, t);
  }

  lemma ClearKeeps(s: State, names: seq<string>, t: nat)
    requires Inv(s, names) && Is(s, t, Finishing) && s.threads[t].job.Load?
    ensures Inv(Clear(s, t), names)
  {
    hide LoadingOk, CapOk, PlacesOk, DrainsOk, RoutesOk, LockOk, FlagOk, ConvergeOk;
    ClearLoading(s, t);
    ClearPlaces(s, t);
    ClearDrains(s, t);
    CapShrinks(s, Clear(s, t));
    QuietMoveLock(s, Clear(s, t), t);
    QuietMoveConverge(s, Clear(s, t), t);
  }

  lemma FireTimerKeeps(s: State, names: seq<string>, t: nat)
    requires Inv(s, names) && Is(s, t, Finishing) && s.threads[t].job.Unload?
    ensures Inv(FireTimer(s, t), names)
  {
    hide LoadingOk, CapOk, PlacesOk, DrainsOk, RoutesOk, LockOk, FlagOk, ConvergeOk;
    FireTimerLoading(s, t);
    FireTimerPlaces(s, t);
    FireTimerDrains(s, t);
    QuietMoveLock(s, FireTimer(s, t), t);
    QuietMoveConverge(s, FireTimer(s, t), t);
  }

  lemma DropTimerKeeps(s: State, names: seq<string>, t: nat)
    requires Inv(s, names) && Is(s, t, Fired) && s.threads[t].job.Unload?
    ensures Inv(DropTimer(s, t), names)
  {
    hide LoadingOk, CapOk, PlacesOk, DrainsOk, RoutesOk, LockOk, FlagOk, ConvergeOk;
    DropTimerLoading(s, t);
    DropTimerPlaces(s, t);
    DropTimerDrains(s, t);
    QuietMoveLock(s, DropTimer(s, t), t);
    QuietMoveConverge(s, DropTimer(s, t), t);
  }

  lemma CloseOneLoadedKeeps(s: State, names: seq<string>, id: int)
    requires Inv(s, names)
    ensures Inv(CloseOneLoaded(s, id), names)
  {
    hide LoadingOk, CapOk, PlacesOk, DrainsOk, RoutesOk, LockOk, FlagOk, ConvergeOk;
    CloseOneLoadedLoading(s, id);
    CloseOneLoadedPlaces(s, id);
    CloseOneLoadedDrains(s, id);
    CloseOneLoadedRoutes(s, names, id);
    CapShrinks(s, CloseOneLoaded(s, id));
  }

  lemma FlushOneDrainKeeps(s: State, names: seq<string>, q: nat)
    requires Inv(s, names)
    ensures Inv(FlushOneDrain(s, q), names)
  {
    hide LoadingOk, CapOk, PlacesOk, DrainsOk, RoutesOk, LockOk, FlagOk, ConvergeOk;
    FlushOneDrainLoading(s, q);
    FlushOneDrainPlaces(s, q);
    FlushOneDrainDrains(s, q);
  }

  lemma SetMaxLoadedKeeps(s: State, names: seq<string>, n: int)
    requires Inv(s, names)
    ensures Inv(SetMaxLoaded(s, n), names)
  {
    hide LoadingOk, PlacesOk, DrainsOk, RoutesOk, LockOk, FlagOk, ConvergeOk;
  }

  /** The commit race never happens, so there is nothing to discard. */
  lemma NeverDiscards(s: State, names: seq<string>, t: nat)
    requires Inv(s, names) && t in s.threads
    ensures !s.threads[t].at.Discarding?
  {
  }

  lemma StepKeepsInv(s: State, a: Action, names: seq<string>)
    requires Inv(s, names) && Step(s, a).Some?
    ensures Inv(Step(s, a).value, names)
  {
    hide Inv;
    match a {
      case AStartLoad(t, id) => StartLoadKeeps(s, names, t, id);
      case ABuildFails(t, served) => BuildFailsKeeps(s, names, t, served);
      case ABuildSucceeds(t) => BuildSucceedsKeeps(s, names, t);
      case ACommit(t) => CommitStepKeeps(s, names, t);
      case ADiscard(t) => NeverDiscards(s, names, t);
      case AStartUnload(t, id) => StartUnloadKeeps(s, names, t, id);
      case ALockLive(t) => LockLiveKeeps(s, names, t);
      case AReadCount(t) => ReadCountKeeps(s, names, t);
      case ACall(t, re) => CallKeeps(s, names, t, re);
      case ASetFlag(t) => SetFlagKeeps(s, names, t);
      case AClear(t) => ClearKeeps(s, names, t);
      case AFireTimer(t) => FireTimerKeeps(s, names, t);
      case ADropTimer(t) => DropTimerKeeps(s, names, t);
      case ASetMaxLoaded(n) => SetMaxLoadedKeeps(s, names, n);
      case ACloseOneLoaded(id) => CloseOneLoadedKeeps(s, names, id);
      case AFlushOneDrain(q) => FlushOneDrainKeeps(s, names, q);
    }
  }

  /** Every state that any run reaches satisfies the invariant. */
  lemma {:induction false} RunKeepsInv(s: State, actions: seq<Action>, names: seq<string>)
    requires Inv(s, names) && Run(s, actions).Some?
    ensures Inv(Run(s, actions).value, names)
    decreases |actions|
  {
    hide Inv;
    if actions != [] {
      StepKeepsInv(s, actions[0], names);
      RunKeepsInv(Step(s, actions[0]).value, actions[1..], names);
    }
  }
}
