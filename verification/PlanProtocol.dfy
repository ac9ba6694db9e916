/**
 * Preview, apply, cancel, expiry and cleanup as a state machine over any number of calls.
 * An apply holds the engine's mutex from entry to return, but the plan cache has its own
 * mutex, so other calls reach the cache between the steps of an apply.
 */
module PlanProtocol {
  import opened Wrappers
  import opened PlanCache
  import Decimal

  const ID_LENGTH := 32

  datatype Plan = Plan(id: string, snapshot: int)

  /** The message an apply token authenticates; the MAC itself is taken to tell messages apart. */
  function ApplyToken(p: Plan): string {
    p.id + Decimal.Itoa(p.snapshot)
  }

  /** Plan ids have a fixed length, so a token belongs to one plan and one snapshot only. */
  lemma TokenPinsPlan(p: Plan, q: Plan)
    requires |p.id| == ID_LENGTH && |q.id| == ID_LENGTH && ApplyToken(p) == ApplyToken(q)
    ensures p == q
  {
    assert p.id == ApplyToken(p)[..ID_LENGTH] && q.id == ApplyToken(q)[..ID_LENGTH];
    assert Decimal.Itoa(p.snapshot) == ApplyToken(p)[ID_LENGTH..];
    assert Decimal.Itoa(q.snapshot) == ApplyToken(q)[ID_LENGTH..];
    Decimal.ItoaInjective(p.snapshot, q.snapshot);
  }

  /** What an apply has still to do after it took its plan out of the cache. */
  datatype Phase = Unchecked | Unvalidated | Unsaved | Unbuilt | Unsent

  datatype Stage =
    | Waiting(planId: string, token: string)
    | Entered(planId: string, token: string)
    | Found(plan: Plan, token: string, at: int)
    | Working(plan: Plan, token: string, at: int, phase: Phase)
    | Settled(plan: Plan, success: bool)
    | Cancelling(planId: string)
    | Closed(ok: bool)

  /** A transaction sent to the database: with which token, when its plan was taken, and how it went. */
  datatype Attempt = Attempt(token: string, takenAt: int, committed: bool, delivered: bool)

  datatype Logged<V> = Logged(planId: string, what: V)

  /**
   * attempts and audits are the transactions sent and the audit records written (true for
   * "success"). issued, taken, sent, recorded and lost are history: the plans ever stored,
   * those an apply took, the attempt and the record of a plan, and the records lost.
   */
  datatype State = State(
    now: int,
    plans: Plans<Plan>,
    lock: Option<nat>,
    calls: map<nat, Stage>,
    attempts: seq<Logged<Attempt>>,
    audits: seq<Logged<bool>>,
    issued: Plans<Plan>,
    taken: set<string>,
    sent: map<string, Attempt>,
    recorded: map<string, bool>,
    lost: set<string>)

  datatype Action =
    | Tick(dt: nat)
    | Store(plan: Plan, ttl: int)
    | Look(planId: string)
    | Sweep
    | StartCancel(t: nat, planId: string)
    | FinishCancel(t: nat)
    | StartApply(t: nat, planId: string, token: string)
    | Enter(t: nat)
    | Take(t: nat)
    | Remove(t: nat)
    | CheckToken(t: nat)
    | Validate(t: nat, ok: bool)
    | SaveSnapshot(t: nat, ok: bool)
    | Build(t: nat, ok: bool)
    | Send(t: nat, commits: bool, delivered: bool)
    | Record(t: nat, inserted: bool)

  function At(s: State, t: nat): Stage {
    if t in s.calls then s.calls[t] else Closed(false)
  }

  function Go(s: State, t: nat, stage: Stage): State {
    s.(calls := s.calls[t := stage])
  }

  function Return(s: State, t: nat, ok: bool): State {
    s.(calls := s.calls[t := Closed(ok)], lock := None)
  }

  /** Plan ids are random, so a preview always stores under an id not used before. */
  function StorePlan(s: State, p: Plan, ttl: int): State {
    if p.id in s.issued || |p.id| != ID_LENGTH then s
    else s.(plans := Stored(s.plans, p.id, p, s.now, ttl), issued := Stored(s.issued, p.id, p, s.now, ttl))
  }

  function BeginCancel(s: State, t: nat, planId: string): State {
    if t in s.calls then s
    else
      var r := Got(s.plans, planId, s.now);
      Go(s.(plans := r.0), t, if r.1.Some? then Cancelling(planId) else Closed(false))
  }

  function EndCancel(s: State, t: nat): State {
    if !At(s, t).Cancelling? then s
    else Go(s.(plans := s.plans - {At(s, t).planId}), t, Closed(true))
  }

  function BeginApply(s: State, t: nat, planId: string, token: string): State {
    if t in s.calls then s else Go(s, t, Waiting(planId, token))
  }

  function EnterApply(s: State, t: nat): State {
    if !At(s, t).Waiting? || s.lock.Some? then s
    else Go(s.(lock := Some(t)), t, Entered(At(s, t).planId, At(s, t).token))
  }

  function TakePlan(s: State, t: nat): State {
    if !At(s, t).Entered? then s
    else
      var r := Got(s.plans, At(s, t).planId, s.now);
      match r.1
      case None => Return(s.(plans := r.0), t, false)
      case Some(p) => Go(s.(plans := r.0), t, Found(p, At(s, t).token, s.now))
  }

  function RemovePlan(s: State, t: nat): State {
    match At(s, t)
    case Found(p, token, at) =>
      Go(s.(plans := s.plans - {p.id}, taken := s.taken + {p.id}), t, Working(p, token, at, Unchecked))
    case _ => s
  }

  /** The steps between removing the plan and sending the transaction. */
  function Proceed(s: State, t: nat, phase: Phase, ok: bool): State {
    match At(s, t)
    case Working(p, token, at, ph) =>
      if ph != phase then s
      else
        (match phase
         case Unchecked =>
           if token == ApplyToken(p) then Go(s, t, Working(p, token, at, Unvalidated)) else Return(s, t, false)
         case Unvalidated => Go(s, t, if ok then Working(p, token, at, Unsaved) else Settled(p, false))
         case Unsaved => if ok then Go(s, t, Working(p, token, at, Unbuilt)) else Return(s, t, false)
         case Unbuilt => Go(s, t, if ok then Working(p, token, at, Unsent) else Settled(p, false))
         case Unsent => s)
    case _ => s
  }

  function SendPlan(s: State, t: nat, commits: bool, delivered: bool): State {
    match At(s, t)
    case Working(p, token, at, ph) =>
      if ph != Unsent then s
      else
        var a := Attempt(token, at, commits, delivered);
        Go(s.(attempts := s.attempts + [Logged(p.id, a)], sent := s.sent[p.id := a]), t,
          Settled(p, commits && delivered))
    case _ => s
  }

  function RecordAudit(s: State, t: nat, inserted: bool): State {
    match At(s, t)
    case Settled(p, success) =>
      if inserted then
        Return(s.(audits := s.audits + [Logged(p.id, success)], recorded := s.recorded[p.id := success]), t, success)
      else Return(s.(lost := s.lost + {p.id}), t, success)
    case _ => s
  }

  function Next(s: State, a: Action): State {
    match a
    case Tick(dt) => s.(now := s.now + dt)
    case Store(p, ttl) => StorePlan(s, p, ttl)
    case Look(planId) => s.(plans := Got(s.plans, planId, s.now).0)
    case Sweep => s.(plans := Swept(s.plans, s.now))
    case StartCancel(t, planId) => BeginCancel(s, t, planId)
    case FinishCancel(t) => EndCancel(s, t)
    case StartApply(t, planId, token) => BeginApply(s, t, planId, token)
    case Enter(t) => EnterApply(s, t)
    case Take(t) => TakePlan(s, t)
    case Remove(t) => RemovePlan(s, t)
    case CheckToken(t) => Proceed(s, t, Unchecked, true)
    case Validate(t, ok) => Proceed(s, t, Unvalidated, ok)
    case SaveSnapshot(t, ok) => Proceed(s, t, Unsaved, ok)
    case Build(t, ok) => Proceed(s, t, Unbuilt, ok)
    case Send(t, commits, delivered) => SendPlan(s, t, commits, delivered)
    case Record(t, inserted) => RecordAudit(s, t, inserted)
  }

  function Run(s: State, actions: seq<Action>): State
    decreases |actions|
  {
    if actions == [] then s else Next(Run(s, actions[..|actions| - 1]), actions[|actions| - 1])
  }

  function Start(now: int): State {
    State(now, map[], None, map[], [], [], map[], {}, map[], map[], {})
  }

  // ---------- the invariant ----------

  ghost predicate IssuedOk(issued: Plans<Plan>) {
    forall id | id in issued :: issued[id].plan.id == id && |id| == ID_LENGTH
  }

  ghost predicate CacheOk(plans: Plans<Plan>, issued: Plans<Plan>, taken: set<string>) {
    && (forall id | id in plans :: id in issued && plans[id] == issued[id] && id !in taken)
    && taken <= issued.Keys
  }

  ghost predicate PlanKnown(p: Plan, issued: Plans<Plan>) {
    p.id in issued && issued[p.id].plan == p
  }

  ghost predicate StageOk(stage: Stage, holds: bool, issued: Plans<Plan>, taken: set<string>) {
    match stage
    case Waiting(_, _) => !holds
    case Cancelling(planId) => !holds && planId in issued
    case Closed(_) => !holds
    case Entered(_, _) => holds
    case Found(p, token, at) => holds && PlanKnown(p, issued) && at <= issued[p.id].expiresAt && p.id !in taken
    case Working(p, token, at, phase) =>
      && holds && PlanKnown(p, issued) && at <= issued[p.id].expiresAt && p.id in taken
      && (phase != Unchecked ==> token == ApplyToken(p))
    case Settled(p, success) => holds && PlanKnown(p, issued) && p.id in taken
  }

  ghost predicate CallsOk(calls: map<nat, Stage>, lock: Option<nat>, issued: Plans<Plan>, taken: set<string>) {
    && (lock.Some? ==> lock.value in calls)
    && (forall t | t in calls :: StageOk(calls[t], lock == Some(t), issued, taken))
  }

  /** The plan an apply is working on before it sent anything. */
  function InWork(calls: map<nat, Stage>, lock: Option<nat>): Option<string> {
    if lock.Some? && lock.value in calls && calls[lock.value].Working? then Some(calls[lock.value].plan.id) else None
  }

  /** The plan whose audit record an apply still has to write, with its result. */
  function InDebt(calls: map<nat, Stage>, lock: Option<nat>): Option<(string, bool)> {
    if lock.Some? && lock.value in calls && calls[lock.value].Settled?
    then Some((calls[lock.value].plan.id, calls[lock.value].success)) else None
  }

  /** The log holds each entry of m once, and nothing else. */
  ghost predicate Lists<V(!new)>(log: seq<Logged<V>>, m: map<string, V>) {
    && (forall e | e in log :: e.planId in m && m[e.planId] == e.what)
    && (forall id | id in m :: Logged(id, m[id]) in log)
    && (forall i, j | 0 <= i < j < |log| :: log[i].planId != log[j].planId)
  }

  lemma ListsSnoc<V(!new)>(log: seq<Logged<V>>, m: map<string, V>, id: string, v: V)
    requires Lists(log, m) && id !in m
    ensures Lists(log + [Logged(id, v)], m[id := v])
  {
    var log1 := log + [Logged(id, v)];
    assert forall e | e in log1 :: e in log || e == Logged(id, v);
    assert forall i | 0 <= i < |log| :: log[i] in log;
    var m1 := m[id := v];
    forall x | x in m1
      ensures Logged(x, m1[x]) in log1
    {
      if x == id {
        assert log1[|log|] == Logged(id, v);
      }
    }
  }

  /** What the history says about plans an apply took. */
  ghost predicate SentOk(sent: map<string, Attempt>, issued: Plans<Plan>, taken: set<string>) {
    forall id | id in sent ::
      id in taken && id in issued && sent[id].token == ApplyToken(issued[id].plan)
        && sent[id].takenAt <= issued[id].expiresAt
  }

  predicate Succeeded(sent: map<string, Attempt>, id: string) {
    id in sent && sent[id].committed && sent[id].delivered
  }

  ghost predicate RecordsOk(sent: map<string, Attempt>, recorded: map<string, bool>, lost: set<string>,
                            taken: set<string>) {
    && (forall id | id in recorded :: id in taken && recorded[id] == Succeeded(sent, id))
    && recorded.Keys !! lost && lost <= taken
  }

  /** Every attempt has its record, lost it, or is about to write it. */
  ghost predicate BooksOk(sent: map<string, Attempt>, recorded: map<string, bool>, lost: set<string>,
                          work: Option<string>, debt: Option<(string, bool)>) {
    && (forall id | id in sent :: id in recorded || id in lost || (debt.Some? && debt.value.0 == id))
    && (work.Some? ==> work.value !in sent && work.value !in recorded && work.value !in lost)
    && (debt.Some? ==>
          debt.value.0 !in recorded && debt.value.0 !in lost && debt.value.1 == Succeeded(sent, debt.value.0))
  }

  ghost predicate Inv(s: State) {
    && IssuedOk(s.issued) && CacheOk(s.plans, s.issued, s.taken) && CallsOk(s.calls, s.lock, s.issued, s.taken)
    && Lists(s.attempts, s.sent) && Lists(s.audits, s.recorded)
    && SentOk(s.sent, s.issued, s.taken) && RecordsOk(s.sent, s.recorded, s.lost, s.taken)
    && BooksOk(s.sent, s.recorded, s.lost, InWork(s.calls, s.lock), InDebt(s.calls, s.lock))
  }

  // ---------- each step keeps it ----------

  lemma StoreKeeps(s: State, p: Plan, ttl: int)
    requires Inv(s)
    ensures Inv(StorePlan(s, p, ttl))
  {
    hide Lists, ApplyToken;
  }

  lemma CacheStepsKeep(s: State, planId: string)
    requires Inv(s)
    ensures Inv(s.(plans := Got(s.plans, planId, s.now).0)) && Inv(s.(plans := Swept(s.plans, s.now)))
  {
    hide Lists, ApplyToken, CallsOk, IssuedOk, SentOk, RecordsOk, BooksOk;
  }

  lemma CancelKeeps(s: State, t: nat, planId: string)
    requires Inv(s)
    ensures Inv(BeginCancel(s, t, planId)) && Inv(EndCancel(s, t))
  {
    hide Lists, ApplyToken, SentOk, RecordsOk, IssuedOk, BooksOk;
  }

  lemma EntryKeeps(s: State, t: nat, planId: string, token: string)
    requires Inv(s)
    ensures Inv(BeginApply(s, t, planId, token)) && Inv(EnterApply(s, t))
  {
    hide Lists, ApplyToken, SentOk, RecordsOk, IssuedOk, CacheOk;
  }

  lemma TakeKeeps(s: State, t: nat)
    requires Inv(s)
    ensures Inv(TakePlan(s, t))
  {
    hide Lists, ApplyToken, SentOk, RecordsOk;
  }

  lemma RemoveKeeps(s: State, t: nat)
    requires Inv(s)
    ensures Inv(RemovePlan(s, t))
  {
    hide Lists, ApplyToken;
  }

  lemma ProceedKeeps(s: State, t: nat, phase: Phase, ok: bool)
    requires Inv(s)
    ensures Inv(Proceed(s, t, phase, ok))
  {
    hide Lists, ApplyToken, SentOk, IssuedOk, CacheOk, RecordsOk;
  }

  lemma SendKeeps(s: State, t: nat, commits: bool, delivered: bool)
    requires Inv(s)
    ensures Inv(SendPlan(s, t, commits, delivered))
  {
    hide Lists, ApplyToken, CacheOk, IssuedOk;
    match At(s, t)
    case Working(p, token, at, ph) =>
      ListsSnoc(s.attempts, s.sent, p.id, Attempt(token, at, commits, delivered));
    case _ =>
  }

  lemma RecordKeeps(s: State, t: nat, inserted: bool)
    requires Inv(s)
    ensures Inv(RecordAudit(s, t, inserted))
  {
    hide Lists, ApplyToken, CacheOk, IssuedOk, SentOk;
    match At(s, t)
    case Settled(p, success) =>
      ListsSnoc(s.audits, s.recorded, p.id, success);
    case _ =>
  }

  lemma NextKeeps(s: State, a: Action)
    requires Inv(s)
    ensures Inv(Next(s, a))
  {
    hide Inv, StorePlan, BeginCancel, EndCancel, BeginApply, EnterApply, TakePlan, RemovePlan, Proceed, SendPlan,
      RecordAudit;
    match a
    case Tick(dt) => TickKeeps(s, dt);
    case Store(p, ttl) => StoreKeeps(s, p, ttl);
    case Look(planId) => CacheStepsKeep(s, planId);
    case Sweep => CacheStepsKeep(s, "");
    case StartCancel(t, planId) => CancelKeeps(s, t, planId);
    case FinishCancel(t) => CancelKeeps(s, t, "");
    case StartApply(t, planId, token) => EntryKeeps(s, t, planId, token);
    case Enter(t) => EntryKeeps(s, t, "", "");
    case Take(t) => TakeKeeps(s, t);
    case Remove(t) => RemoveKeeps(s, t);
    case CheckToken(t) => ProceedKeeps(s, t, Unchecked, true);
    case Validate(t, ok) => ProceedKeeps(s, t, Unvalidated, ok);
    case SaveSnapshot(t, ok) => ProceedKeeps(s, t, Unsaved, ok);
    case Build(t, ok) => ProceedKeeps(s, t, Unbuilt, ok);
    case Send(t, commits, delivered) => SendKeeps(s, t, commits, delivered);
    case Record(t, inserted) => RecordKeeps(s, t, inserted);
  }

  lemma TickKeeps(s: State, dt: nat)
    requires Inv(s)
    ensures Inv(s.(now := s.now + dt))
  {
    hide IssuedOk, CacheOk, CallsOk, Lists, SentOk, RecordsOk, BooksOk;
  }

  lemma {:induction false} RunKeeps(now: int, actions: seq<Action>)
    ensures Inv(Run(Start(now), actions))
    decreases |actions|
  {
    if actions != [] {
      RunKeeps(now, actions[..|actions| - 1]);
      NextKeeps(Run(Start(now), actions[..|actions| - 1]), actions[|actions| - 1]);
    }
  }
}
