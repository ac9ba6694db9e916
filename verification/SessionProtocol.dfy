/**
 * The snapshot-session protocol as a state machine.
 *
 * The functions on Shared are the critical sections of the session manager (each
 * runs under the manager's mutex). State adds the threads: every Load or Unload
 * call is a thread that advances one atomic step at a time, in any interleaving.
 */
module SessionProtocol {
  import opened Wrappers
  import opened ClusterRegistry
  import opened LiveMonitors
  import Decimal

  const NAME_PREFIX := "snapshot-"

  /** The registry name of a loaded snapshot. */
  function ClusterName(id: int): string {
    NAME_PREFIX + Decimal.Itoa(id)
  }

  lemma ClusterNameInjective(a: int, b: int)
    requires ClusterName(a) == ClusterName(b)
    ensures a == b
  {
    assert ClusterName(a)[|NAME_PREFIX|..] == Decimal.Itoa(a);
    assert ClusterName(b)[|NAME_PREFIX|..] == Decimal.Itoa(b);
    Decimal.ItoaInjective(a, b);
  }

  /** What serves a cluster: the live OVN databases, or the servers of a numbered session. */
  datatype Backend = LiveCluster | Session(sid: nat)

  /** The deferred, run-once tail of an Unload: it closes one session's resources. */
  datatype Tail = Tail(session: nat, ran: bool)

  /**
   * The manager's fields, with the registry, the proxy routes and the live client it drives.
   * Sessions are numbered as they are built; closes[n] counts how often session n was closed.
   * The tail created with sequence number q is tails[q].
   */
  datatype Shared = Shared(
    maxLoaded: int,
    loaded: map<int, nat>,
    loading: set<int>,
    pendingDrains: set<nat>,
    drainSeq: nat,
    tails: seq<Tail>,
    liveSuspended: bool,
    live: LiveState,
    registry: Members<Backend>,
    routes: map<string, Backend>,
    closes: seq<nat>)

  // ---------- critical sections ----------

  datatype ReserveResult = AlreadyLoaded(sid: nat) | InProgress | TooMany | Reserved

  function Reserve(sh: Shared, id: int): (Shared, ReserveResult) {
    if id in sh.loaded then (sh, AlreadyLoaded(sh.loaded[id]))
    else if id in sh.loading then (sh, InProgress)
    else if |sh.loaded| + |sh.loading| >= sh.maxLoaded then (sh, TooMany)
    else (sh.(loading := sh.loading + {id}), Reserved)
  }

  function ReleaseLoading(sh: Shared, id: int): Shared {
    sh.(loading := sh.loading - {id})
  }

  /** Serving the snapshot opens a new session's resources. */
  function OpenSession(sh: Shared): Shared {
    sh.(closes := sh.closes + [0])
  }

  function CloseSession(sh: Shared, sid: nat): Shared {
    if sid < |sh.closes| then sh.(closes := sh.closes[sid := sh.closes[sid] + 1]) else sh
  }

  /** The commit of a Load; false when the id was committed by another load meanwhile. */
  function Commit(sh: Shared, id: int, sid: nat): (Shared, bool) {
    if id in sh.loaded then (sh, false)
    else
      (sh.(registry := Registered(sh.registry, ClusterName(id), Session(sid)),
           routes := sh.routes[ClusterName(id) := Session(sid)],
           loaded := sh.loaded[id := sid]), true)
  }

  /** The stop functions of a session: out of the proxy, then out of the registry. */
  function StopRouting(sh: Shared, id: int): Shared {
    sh.(routes := sh.routes - {ClusterName(id)},
        registry := Unregistered(sh.registry, ClusterName(id)),
        loaded := sh.loaded - {id})
  }

  /** The critical section of Unload: the new tail's sequence number, or None if not loaded. */
  function Eject(sh: Shared, id: int): (Shared, Option<nat>) {
    if id !in sh.loaded then (sh, None)
    else
      (StopRouting(sh, id).(
         tails := sh.tails + [Tail(sh.loaded[id], false)],
         pendingDrains := sh.pendingDrains + {sh.drainSeq},
         drainSeq := sh.drainSeq + 1), Some(sh.drainSeq))
  }

  function RunTail(sh: Shared, q: nat): Shared {
    if q < |sh.tails| && !sh.tails[q].ran then
      CloseSession(sh, sh.tails[q].session).(tails := sh.tails[q := sh.tails[q].(ran := true)])
    else sh
  }

  function DropDrain(sh: Shared, q: nat): Shared {
    sh.(pendingDrains := sh.pendingDrains - {q})
  }

  /** One iteration of Close over the loaded sessions. */
  function CloseLoaded(sh: Shared, id: int): Shared {
    if id !in sh.loaded then sh else CloseSession(StopRouting(sh, id), sh.loaded[id])
  }

  /** One iteration of Close over the pending drains. */
  function FlushDrain(sh: Shared, q: nat): Shared {
    DropDrain(RunTail(sh, q), q)
  }

  function WantSuspended(sh: Shared): bool {
    |sh.loaded| > 0
  }

  /** The monitor call reconcileLive makes, and whether it reported success. */
  function Transition(sh: Shared, want: bool, re: Replies): (Shared, bool) {
    var r := if want then Suspend(sh.live, re) else Resume(sh.live, re);
    (sh.(live := r.0), r.1)
  }

  // ---------- threads ----------

  /** A call in progress: a Load of a snapshot id, or an Unload that created tail q. */
  datatype Job = Load(id: int) | Unload(q: nat)

  /** Where a call stands between two atomic steps. */
  datatype Stage =
    | Building               // reserved the id; the slow build runs without the mutex
    | Built(sid: nat)        // servers and clients are up, not committed yet
    | Discarding(sid: nat)   // lost the commit race; must discard the partial build
    | Reconciling            // about to take liveMu
    | HoldsLive              // holds liveMu, has not read the loaded count
    | Calling(want: bool)    // holds liveMu, the monitor call is in flight
    | Setting(want: bool)    // holds liveMu, the monitor call succeeded
    | Finishing              // a Load about to drop its placeholder, an Unload whose drain timer runs
    | Fired                  // the drain timer ran the tail; the map entry is still there

  datatype Thread = Thread(job: Job, at: Stage)

  /** Which part of the system answers for the resources of a session. */
  datatype Place = InBuild(t: nat) | InLoaded(id: int) | InTail(q: nat) | Released

  /**
   * What happened so far, for stating properties; no step looks at it. The place of each
   * session, the sessions ever committed, the thread behind each placeholder, the thread
   * behind each tail, the highest cap ever in force, whether the last monitor call
   * reported an error, and whether Close was called.
   */
  datatype History = History(
    place: seq<Place>,
    committed: set<nat>,
    holder: map<int, nat>,
    unloader: seq<nat>,
    capSeen: int,
    rpcFailed: bool,
    closing: bool)

  /**
   * The whole system. A call that has returned is no longer among the threads, except
   * that an Unload stays until its drain timer is done. hasLive says whether the manager
   * drives a live client.
   */
  datatype State = State(
    sh: Shared,
    liveMu: Option<nat>,
    threads: map<nat, Thread>,
    hasLive: bool,
    h: History)

  ghost predicate Is(s: State, t: nat, at: Stage) {
    t in s.threads && s.threads[t].at == at
  }

  function Move(s: State, t: nat, at: Stage): State
    requires t in s.threads
  {
    s.(threads := s.threads[t := s.threads[t].(at := at)])
  }

  function Exit(s: State, t: nat): State {
    s.(threads := s.threads - {t})
  }

  /** reconcileLive returns at once when there is no live source. */
  function AfterCommit(s: State): Stage {
    if s.hasLive then Reconciling else Finishing
  }

  function StartLoad(s: State, t: nat, id: int): State
    requires t !in s.threads
  {
    var (sh, r) := Reserve(s.sh, id);
    if r == Reserved then
      s.(sh := sh, threads := s.threads[t := Thread(Load(id), Building)], h := s.h.(holder := s.h.holder[id := t]))
    else s
  }

  /** A failure after the servers came up closes them again. */
  function BuildFails(s: State, t: nat, served: bool): State
    requires Is(s, t, Building)
  {
    Move(if served then
           s.(sh := CloseSession(OpenSession(s.sh), |s.sh.closes|), h := s.h.(place := s.h.place + [Released]))
         else s, t, Finishing)
  }

  function BuildSucceeds(s: State, t: nat): State
    requires Is(s, t, Building)
  {
    Move(s.(sh := OpenSession(s.sh), h := s.h.(place := s.h.place + [InBuild(t)])), t, Built(|s.sh.closes|))
  }

  function SetPlace(h: History, sid: nat, p: Place): History {
    if sid < |h.place| then h.(place := h.place[sid := p]) else h
  }

  function CommitStep(s: State, t: nat): State
    requires t in s.threads && s.threads[t].at.Built? && s.threads[t].job.Load?
  {
    var id, sid := s.threads[t].job.id, s.threads[t].at.sid;
    var (sh, won) := Commit(s.sh, id, sid);
    if won then
      Move(s.(sh := sh, h := SetPlace(s.h, sid, InLoaded(id)).(committed := s.h.committed + {sid})), t, AfterCommit(s))
    else Move(s, t, Discarding(sid))
  }

  function Discard(s: State, t: nat): State
    requires t in s.threads && s.threads[t].at.Discarding?
  {
    var sid := s.threads[t].at.sid;
    Move(s.(sh := CloseSession(s.sh, sid), h := SetPlace(s.h, sid, Released)), t, Finishing)
  }

  function StartUnload(s: State, t: nat, id: int): State
    requires t !in s.threads
  {
    var (sh, q) := Eject(s.sh, id);
    if q.Some? then
      s.(sh := sh,
         threads := s.threads[t := Thread(Unload(q.value), AfterCommit(s))],
         h := SetPlace(s.h, s.sh.loaded[id], InTail(q.value)).(unloader := s.h.unloader + [t]))
    else s
  }

  function LockLive(s: State, t: nat): State
    requires Is(s, t, Reconciling) && s.liveMu.None?
  {
    Move(s.(liveMu := Some(t)), t, HoldsLive)
  }

  function ReadCount(s: State, t: nat): State
    requires Is(s, t, HoldsLive)
  {
    var want := WantSuspended(s.sh);
    if want == s.sh.liveSuspended then Move(s.(liveMu := None), t, Finishing)
    else Move(s, t, Calling(want))
  }

  function Call(s: State, t: nat, re: Replies): State
    requires t in s.threads && s.threads[t].at.Calling?
  {
    var want := s.threads[t].at.want;
    var (sh, ok) := Transition(s.sh, want, re);
    if ok then Move(s.(sh := sh, h := s.h.(rpcFailed := false)), t, Setting(want))
    else Move(s.(sh := sh, h := s.h.(rpcFailed := true), liveMu := None), t, Finishing)
  }

  function SetFlag(s: State, t: nat): State
    requires t in s.threads && s.threads[t].at.Setting?
  {
    Move(s.(sh := s.sh.(liveSuspended := s.threads[t].at.want), liveMu := None), t, Finishing)
  }

  function Clear(s: State, t: nat): State
    requires Is(s, t, Finishing) && s.threads[t].job.Load?
  {
    var id := s.threads[t].job.id;
    Exit(s.(sh := ReleaseLoading(s.sh, id), h := s.h.(holder := s.h.holder - {id})), t)
  }

  function FireTimer(s: State, t: nat): State
    requires Is(s, t, Finishing) && s.threads[t].job.Unload?
  {
    Move(s.(sh := RunTail(s.sh, s.threads[t].job.q)), t, Fired)
  }

  function DropTimer(s: State, t: nat): State
    requires Is(s, t, Fired) && s.threads[t].job.Unload?
  {
    Exit(s.(sh := DropDrain(s.sh, s.threads[t].job.q)), t)
  }

  function SetMaxLoaded(s: State, n: int): State {
    if n > 0 then
      s.(sh := s.sh.(maxLoaded := n), h := s.h.(capSeen := if n > s.h.capSeen then n else s.h.capSeen))
    else s
  }

  function CloseOneLoaded(s: State, id: int): State {
    var h := if id in s.sh.loaded then SetPlace(s.h, s.sh.loaded[id], Released) else s.h;
    s.(sh := CloseLoaded(s.sh, id), h := h.(closing := true))
  }

  function FlushOneDrain(s: State, q: nat): State {
    s.(sh := FlushDrain(s.sh, q), h := s.h.(closing := true))
  }

  datatype Action =
    | AStartLoad(t: nat, id: int)
    | ABuildFails(t: nat, served: bool)
    | ABuildSucceeds(t: nat)
    | ACommit(t: nat)
    | ADiscard(t: nat)
    | AStartUnload(t: nat, id: int)
    | ALockLive(t: nat)
    | AReadCount(t: nat)
    | ACall(t: nat, re: Replies)
    | ASetFlag(t: nat)
    | AClear(t: nat)
    | AFireTimer(t: nat)
    | ADropTimer(t: nat)
    | ASetMaxLoaded(n: int)
    | ACloseOneLoaded(id: int)
    | AFlushOneDrain(q: nat)

  /** One atomic step, or None when the thread is not at that point. */
  function Step(s: State, a: Action): Option<State> {
    match a
    case AStartLoad(t, id) => if t !in s.threads then Some(StartLoad(s, t, id)) else None
    case ABuildFails(t, served) =>
      if t in s.threads && s.threads[t].at.Building? then Some(BuildFails(s, t, served)) else None
    case ABuildSucceeds(t) => if t in s.threads && s.threads[t].at.Building? then Some(BuildSucceeds(s, t)) else None
    case ACommit(t) =>
      if t in s.threads && s.threads[t].at.Built? && s.threads[t].job.Load? then Some(CommitStep(s, t)) else None
    case ADiscard(t) => if t in s.threads && s.threads[t].at.Discarding? then Some(Discard(s, t)) else None
    case AStartUnload(t, id) => if t !in s.threads then Some(StartUnload(s, t, id)) else None
    case ALockLive(t) =>
      if t in s.threads && s.threads[t].at.Reconciling? && s.liveMu.None? then Some(LockLive(s, t)) else None
    case AReadCount(t) => if t in s.threads && s.threads[t].at.HoldsLive? then Some(ReadCount(s, t)) else None
    case ACall(t, re) => if t in s.threads && s.threads[t].at.Calling? then Some(Call(s, t, re)) else None
    case ASetFlag(t) => if t in s.threads && s.threads[t].at.Setting? then Some(SetFlag(s, t)) else None
    case AClear(t) =>
      if t in s.threads && s.threads[t].at.Finishing? && s.threads[t].job.Load? then Some(Clear(s, t)) else None
    case AFireTimer(t) =>
      if t in s.threads && s.threads[t].at.Finishing? && s.threads[t].job.Unload? then Some(FireTimer(s, t)) else None
    case ADropTimer(t) =>
      if t in s.threads && s.threads[t].at.Fired? && s.threads[t].job.Unload? then Some(DropTimer(s, t)) else None
    case ASetMaxLoaded(n) => Some(SetMaxLoaded(s, n))
    case ACloseOneLoaded(id) => Some(CloseOneLoaded(s, id))
    case AFlushOneDrain(q) => Some(FlushOneDrain(s, q))
  }

  /** A finite run: the state after the actions, or None when one of them was not possible. */
  function Run(s: State, actions: seq<Action>): Option<State>
    decreases |actions|
  {
    if actions == [] then Some(s)
    else
      match Step(s, actions[0])
      case Some(next) => Run(next, actions[1..])
      case None => None
  }

  /** The live clusters, in registration order, are all that exists at start-up. */
  ghost predicate LiveNames(names: seq<string>) {
    Distinct(names) && forall i, id | 0 <= i < |names| :: names[i] != ClusterName(id)
  }

  function LiveRoutes(names: seq<string>): map<string, Backend> {
    map n | n in names :: LiveCluster
  }

  ghost predicate Init(s: State, names: seq<string>) {
    && LiveNames(names)
    && s.sh.maxLoaded > 0
    && s.sh.loaded == map[] && s.sh.loading == {}
    && s.sh.pendingDrains == {} && s.sh.drainSeq == 0 && s.sh.tails == []
    && !s.sh.liveSuspended && !s.sh.live.suspended
    && s.sh.registry == Members(LiveRoutes(names), names)
    && s.sh.routes == LiveRoutes(names)
    && s.sh.closes == []
    && s.liveMu == None && s.threads == map[]
    && s.h == History([], {}, map[], [], s.sh.maxLoaded, false, false)
  }
}
