/** What holds in every reachable state of the plan protocol. */
module PlanGuarantees {
  import opened Wrappers
  import opened PlanCache
  import opened PlanProtocol

  ghost predicate Reachable(s: State) {
    exists now, actions :: s == Run(Start(now), actions)
  }

  lemma ReachableInv(s: State)
    requires Reachable(s)
    ensures Inv(s)
  {
    var now, actions :| s == Run(Start(now), actions);
    RunKeeps(now, actions);
  }

  /**
   * No plan reaches the database twice; one that does was issued by a preview, was presented
   * with its own token and no other plan's, and had not expired when the apply took it.
   */
  lemma EachPlanSentOnce(s: State)
    requires Reachable(s)
    ensures forall i, j | 0 <= i < j < |s.attempts| :: s.attempts[i].planId != s.attempts[j].planId
    ensures forall e | e in s.attempts ::
              e.planId in s.issued && e.what.token == ApplyToken(s.issued[e.planId].plan)
                && e.what.takenAt <= s.issued[e.planId].expiresAt
    ensures forall e, id | e in s.attempts && id in s.issued && e.what.token == ApplyToken(s.issued[id].plan) ::
              id == e.planId
  {
    ReachableInv(s);
    forall e, id | e in s.attempts && id in s.issued && e.what.token == ApplyToken(s.issued[id].plan)
      ensures id == e.planId
    {
      TokenPinsPlan(s.issued[id].plan, s.issued[e.planId].plan);
    }
  }

  /** Once an apply took a plan out of the cache, no later read finds it. */
  lemma TakenPlanIsGone(s: State, id: string, later: seq<Action>)
    requires Reachable(s) && id in s.taken
    ensures Got(Run(s, later).plans, id, Run(s, later).now).1 == None
  {
    ReachableInv(s);
    RunOnKeeps(s, later, id);
  }

  lemma {:induction false} RunOnKeeps(s: State, later: seq<Action>, id: string)
    requires Inv(s) && id in s.taken
    ensures Inv(Run(s, later)) && id in Run(s, later).taken
    decreases |later|
  {
    hide Inv, Next;
    if later != [] {
      var before := Run(s, later[..|later| - 1]);
      RunOnKeeps(s, later[..|later| - 1], id);
      NextKeeps(before, later[|later| - 1]);
      TakenGrows(before, later[|later| - 1]);
    }
  }

  lemma TakenGrows(s: State, a: Action)
    ensures s.taken <= Next(s, a).taken
  {
    hide Got, Swept, ApplyToken;
  }

  /** The records of a plan. */
  ghost predicate RecordedAs(audits: seq<Logged<bool>>, id: string, success: bool) {
    exists i :: 0 <= i < |audits| && audits[i] == Logged(id, success)
      && forall j | 0 <= j < |audits| && j != i :: audits[j].planId != id
  }

  /**
   * When no apply is running, every transaction sent has exactly one audit record, unless
   * writing it failed; the record says success exactly if the transaction committed and its
   * reply arrived.
   */
  lemma EveryAttemptIsRecorded(s: State, e: Logged<Attempt>)
    requires Reachable(s) && s.lock == None && e in s.attempts && e.planId !in s.lost
    ensures RecordedAs(s.audits, e.planId, e.what.committed && e.what.delivered)
  {
    ReachableInv(s);
    var id := e.planId;
    assert s.sent[id] == e.what;
    assert Logged(id, s.recorded[id]) in s.audits;
    var i :| 0 <= i < |s.audits| && s.audits[i] == Logged(id, s.recorded[id]);
    forall j | 0 <= j < |s.audits| && j != i
      ensures s.audits[j].planId != id
    {
      assert s.audits[if i < j then i else j].planId != s.audits[if i < j then j else i].planId;
    }
  }

  /** The record tells the truth about the commit exactly if no committed reply was lost. */
  lemma RecordIsTruthful(s: State, e: Logged<Attempt>)
    requires Reachable(s) && s.lock == None && e in s.attempts && e.planId !in s.lost
    ensures RecordedAs(s.audits, e.planId, e.what.committed) <==> (e.what.committed ==> e.what.delivered)
  {
    EveryAttemptIsRecorded(s, e);
  }

  /** A record that says success stands for a transaction that committed. */
  lemma SuccessMeansCommitted(s: State, r: Logged<bool>)
    requires Reachable(s) && r in s.audits && r.what
    ensures exists e :: e in s.attempts && e.planId == r.planId && e.what.committed
  {
    ReachableInv(s);
    assert s.recorded[r.planId] == r.what;
    assert Logged(r.planId, s.sent[r.planId]) in s.attempts;
  }

  /** A record is lost only if the audit store refused one. */
  lemma {:induction false} NothingIsLostUnlessRefused(now: int, actions: seq<Action>)
    requires forall t :: Record(t, false) !in actions
    ensures Run(Start(now), actions).lost == {}
    decreases |actions|
  {
    if actions != [] {
      var front, a := actions[..|actions| - 1], actions[|actions| - 1];
      assert actions == front + [a];
      NothingIsLostUnlessRefused(now, front);
      KeepsNothingLost(Run(Start(now), front), a);
    }
  }

  lemma KeepsNothingLost(s: State, a: Action)
    requires s.lost == {} && (a.Record? ==> a.inserted)
    ensures Next(s, a).lost == {}
  {
    hide ApplyToken, Got, Swept;
  }

  // ---------- runs ----------

  lemma {:induction false} RunAppend(s: State, xs: seq<Action>, ys: seq<Action>)
    ensures Run(s, xs + ys) == Run(Run(s, xs), ys)
    decreases |ys|
  {
    hide Next;
    if ys == [] {
      assert xs + ys == xs;
    } else {
      var n := |ys| - 1;
      assert (xs + ys)[..|xs| + n] == xs + ys[..n];
      RunAppend(s, xs, ys[..n]);
    }
  }

  lemma RunOne(s: State, a: Action)
    ensures Run(s, [a]) == Next(s, a)
  {
    hide Next;
    assert [a][..0] == [];
  }

  lemma RunThree(s: State, a: Action, b: Action, c: Action)
    ensures Run(s, [a, b, c]) == Next(Next(Next(s, a), b), c)
  {
    hide Next;
    RunOne(s, a);
    RunAppend(s, [a], [b]);
    RunOne(Next(s, a), b);
    RunAppend(s, [a] + [b], [c]);
    RunOne(Next(Next(s, a), b), c);
    assert [a] + [b] + [c] == [a, b, c];
  }

  // ---------- when an apply can still send its plan ----------

  /** The steps of an apply from removing its plan to sending it, all answers favourable. */
  function CommitSteps(u: nat, delivered: bool): seq<Action> {
    [Remove(u), CheckToken(u), Validate(u, true)] + [SaveSnapshot(u, true), Build(u, true), Send(u, true, delivered)]
  }

  function Rank(phase: Phase): nat {
    match phase
    case Unchecked => 1
    case Unvalidated => 2
    case Unsaved => 3
    case Unbuilt => 4
    case Unsent => 5
  }

  /** Call u found p, presented with its own token, at time at, and is at least n steps on its way to sending it. */
  predicate OnItsWay(s: State, u: nat, p: Plan, at: int, n: nat) {
    match At(s, u)
    case Found(q, token, when) => q == p && token == ApplyToken(p) && when == at && n == 0
    case Working(q, token, when, phase) => q == p && token == ApplyToken(p) && when == at && n <= Rank(phase)
    case _ => false
  }

  /** s1 differs from s by steps of call u that sent nothing and recorded nothing. */
  predicate OnlyMoved(s: State, s1: State, u: nat) {
    s1.attempts == s.attempts && s1.audits == s.audits && s1.calls - {u} == s.calls - {u}
  }

  /** A step of the apply that it has already made does nothing, its next one brings it further. */
  lemma RemoveMoves(s: State, u: nat, p: Plan, at: int)
    requires OnItsWay(s, u, p, at, 0)
    ensures OnItsWay(RemovePlan(s, u), u, p, at, 1) && OnlyMoved(s, RemovePlan(s, u), u)
  {
    hide ApplyToken;
  }

  lemma ProceedMoves(s: State, u: nat, p: Plan, at: int, phase: Phase)
    requires OnItsWay(s, u, p, at, Rank(phase)) && phase != Unsent
    ensures OnItsWay(Proceed(s, u, phase, true), u, p, at, Rank(phase) + 1)
              && OnlyMoved(s, Proceed(s, u, phase, true), u)
  {
    hide ApplyToken;
  }

  lemma SendMoves(s: State, u: nat, p: Plan, at: int, delivered: bool)
    requires OnItsWay(s, u, p, at, 5)
    ensures var s1 := SendPlan(s, u, true, delivered);
            && s1.attempts == s.attempts + [Logged(p.id, Attempt(ApplyToken(p), at, true, delivered))]
            && At(s1, u) == Settled(p, delivered) && s1.audits == s.audits && s1.calls - {u} == s.calls - {u}
  {
    hide ApplyToken;
  }

  lemma MovedTwice(s: State, s1: State, s2: State, u: nat)
    requires OnlyMoved(s, s1, u) && OnlyMoved(s1, s2, u)
    ensures OnlyMoved(s, s2, u)
  {
  }

  lemma FirstHalf(s: State, u: nat, p: Plan, at: int) returns (s3: State)
    requires OnItsWay(s, u, p, at, 0)
    ensures s3 == Run(s, [Remove(u), CheckToken(u), Validate(u, true)])
    ensures OnItsWay(s3, u, p, at, 3) && OnlyMoved(s, s3, u)
  {
    hide ApplyToken, Run, Proceed, RemovePlan, OnItsWay, OnlyMoved;
    RunThree(s, Remove(u), CheckToken(u), Validate(u, true));
    var s1 := RemovePlan(s, u);
    var s2 := Proceed(s1, u, Unchecked, true);
    s3 := Proceed(s2, u, Unvalidated, true);
    RemoveMoves(s, u, p, at);
    ProceedMoves(s1, u, p, at, Unchecked);
    ProceedMoves(s2, u, p, at, Unvalidated);
    MovedTwice(s, s1, s2, u);
    MovedTwice(s, s2, s3, u);
  }

  lemma SecondHalf(s: State, u: nat, p: Plan, at: int, delivered: bool) returns (s3: State)
    requires OnItsWay(s, u, p, at, 3)
    ensures s3 == Run(s, [SaveSnapshot(u, true), Build(u, true), Send(u, true, delivered)])
    ensures s3.attempts == s.attempts + [Logged(p.id, Attempt(ApplyToken(p), at, true, delivered))]
    ensures At(s3, u) == Settled(p, delivered) && s3.audits == s.audits && s3.calls - {u} == s.calls - {u}
  {
    hide ApplyToken, Run, Proceed, SendPlan, OnItsWay;
    RunThree(s, SaveSnapshot(u, true), Build(u, true), Send(u, true, delivered));
    var s1 := Proceed(s, u, Unsaved, true);
    var s2 := Proceed(s1, u, Unbuilt, true);
    s3 := SendPlan(s2, u, true, delivered);
    ProceedMoves(s, u, p, at, Unsaved);
    ProceedMoves(s1, u, p, at, Unbuilt);
    SendMoves(s2, u, p, at, delivered);
    MovedTwice(s, s1, s2, u);
  }

  /** An apply that found its plan can always go on to commit it, however far it already is. */
  lemma Commits(s: State, u: nat, p: Plan, at: int, delivered: bool) returns (s1: State)
    requires OnItsWay(s, u, p, at, 0)
    ensures s1 == Run(s, CommitSteps(u, delivered))
    ensures s1.attempts == s.attempts + [Logged(p.id, Attempt(ApplyToken(p), at, true, delivered))]
    ensures At(s1, u) == Settled(p, delivered) && s1.audits == s.audits && s1.calls - {u} == s.calls - {u}
  {
    hide ApplyToken, Run, OnItsWay;
    RunAppend(s, [Remove(u), CheckToken(u), Validate(u, true)],
      [SaveSnapshot(u, true), Build(u, true), Send(u, true, delivered)]);
    var half := FirstHalf(s, u, p, at);
    s1 := SecondHalf(half, u, p, at, delivered);
  }

  // ---------- when a cancel is binding ----------

  /** Some apply found the plan, was given its own token, and has not sent it yet. */
  ghost predicate InHand(calls: map<nat, Stage>, id: string) {
    exists u :: u in calls && Holding(calls[u], id)
  }

  predicate Holding(stage: Stage, id: string) {
    match stage
    case Found(p, token, _) => p.id == id && token == ApplyToken(p)
    case Working(p, token, _, _) => p.id == id && token == ApplyToken(p)
    case _ => false
  }

  /** The plan was issued, is not cached, and no apply holds it: nothing can send it any more. */
  ghost predicate OutOfReach(s: State, id: string) {
    id in s.issued && id !in s.plans && !InHand(s.calls, id)
  }

  /** The attempts for the plan. */
  function AttemptsFor(log: seq<Logged<Attempt>>, id: string): seq<Logged<Attempt>> {
    if log == [] then []
    else AttemptsFor(log[..|log| - 1], id) + (if log[|log| - 1].planId == id then [log[|log| - 1]] else [])
  }

  lemma AttemptsForSnoc(log: seq<Logged<Attempt>>, e: Logged<Attempt>, id: string)
    ensures AttemptsFor(log + [e], id) == AttemptsFor(log, id) + (if e.planId == id then [e] else [])
  {
    assert (log + [e])[..|log|] == log;
  }

  lemma CacheKeepsOut(s: State, id: string, a: Action)
    requires Inv(s) && OutOfReach(s, id) && (a.Tick? || a.Store? || a.Look? || a.Sweep?)
    ensures OutOfReach(Next(s, a), id) && Next(s, a).attempts == s.attempts
  {
    hide ApplyToken, Inv, InHand;
  }

  lemma CancelKeepsOut(s: State, id: string, a: Action)
    requires Inv(s) && OutOfReach(s, id) && (a.StartCancel? || a.FinishCancel?)
    ensures OutOfReach(Next(s, a), id) && Next(s, a).attempts == s.attempts
  {
    hide ApplyToken, Inv;
  }

  lemma EntryKeepsOut(s: State, id: string, a: Action)
    requires Inv(s) && OutOfReach(s, id) && (a.StartApply? || a.Enter?)
    ensures OutOfReach(Next(s, a), id) && Next(s, a).attempts == s.attempts
  {
    hide ApplyToken, Inv;
  }

  lemma TakeKeepsOut(s: State, id: string, t: nat)
    requires Inv(s) && OutOfReach(s, id)
    ensures OutOfReach(TakePlan(s, t), id) && TakePlan(s, t).attempts == s.attempts
  {
    hide ApplyToken, Lists, SentOk, RecordsOk, BooksOk, CallsOk;
  }

  lemma RemoveKeepsOut(s: State, id: string, t: nat)
    requires Inv(s) && OutOfReach(s, id)
    ensures OutOfReach(RemovePlan(s, t), id) && RemovePlan(s, t).attempts == s.attempts
  {
    hide ApplyToken, Inv;
    StillOut(s.calls, RemovePlan(s, t).calls, t, id);
  }

  lemma ProceedKeepsOut(s: State, id: string, t: nat, phase: Phase, ok: bool)
    requires Inv(s) && OutOfReach(s, id)
    ensures OutOfReach(Proceed(s, t, phase, ok), id) && Proceed(s, t, phase, ok).attempts == s.attempts
  {
    hide ApplyToken, Inv, InHand;
    StillOut(s.calls, Proceed(s, t, phase, ok).calls, t, id);
  }

  /** A call that moves on without getting hold of the plan leaves it out of hand. */
  lemma StillOut(calls: map<nat, Stage>, calls1: map<nat, Stage>, t: nat, id: string)
    requires !InHand(calls, id) && calls1 - {t} == calls - {t}
    ensures (t in calls1 ==> !Holding(calls1[t], id)) ==> !InHand(calls1, id)
    ensures t in calls ==> !Holding(calls[t], id)
  {
    forall u | u in calls1 && u != t
      ensures u in calls && calls1[u] == calls[u]
    {
      assert u in calls1 - {t} && (calls1 - {t})[u] == (calls - {t})[u];
    }
  }

  lemma SendKeepsOut(s: State, id: string, t: nat, commits: bool, delivered: bool)
    requires Inv(s) && OutOfReach(s, id)
    ensures OutOfReach(SendPlan(s, t, commits, delivered), id)
    ensures AttemptsFor(SendPlan(s, t, commits, delivered).attempts, id) == AttemptsFor(s.attempts, id)
  {
    hide ApplyToken, Lists, SentOk, RecordsOk, BooksOk, CacheOk, IssuedOk, AttemptsFor;
    StillOut(s.calls, SendPlan(s, t, commits, delivered).calls, t, id);
    match At(s, t)
    case Working(p, token, at, ph) =>
      AttemptsForSnoc(s.attempts, Logged(p.id, Attempt(token, at, commits, delivered)), id);
    case _ =>
  }

  lemma RecordKeepsOut(s: State, id: string, t: nat, inserted: bool)
    requires Inv(s) && OutOfReach(s, id)
    ensures OutOfReach(RecordAudit(s, t, inserted), id) && RecordAudit(s, t, inserted).attempts == s.attempts
  {
    hide ApplyToken, Inv;
    StillOut(s.calls, RecordAudit(s, t, inserted).calls, t, id);
  }

  /** Once a plan is out of reach, no step brings it back or sends it. */
  lemma NextKeepsOut(s: State, id: string, a: Action)
    requires Inv(s) && OutOfReach(s, id)
    ensures OutOfReach(Next(s, a), id) && AttemptsFor(Next(s, a).attempts, id) == AttemptsFor(s.attempts, id)
  {
    hide Inv, OutOfReach, TakePlan, RemovePlan, Proceed, SendPlan, RecordAudit, AttemptsFor;
    match a
    case Take(t) => TakeKeepsOut(s, id, t);
    case Remove(t) => RemoveKeepsOut(s, id, t);
    case CheckToken(t) => ProceedKeepsOut(s, id, t, Unchecked, true);
    case Validate(t, ok) => ProceedKeepsOut(s, id, t, Unvalidated, ok);
    case SaveSnapshot(t, ok) => ProceedKeepsOut(s, id, t, Unsaved, ok);
    case Build(t, ok) => ProceedKeepsOut(s, id, t, Unbuilt, ok);
    case Send(t, commits, delivered) => SendKeepsOut(s, id, t, commits, delivered);
    case Record(t, inserted) => RecordKeepsOut(s, id, t, inserted);
    case StartCancel(_, _) => CancelKeepsOut(s, id, a);
    case FinishCancel(_) => CancelKeepsOut(s, id, a);
    case StartApply(_, _, _) => EntryKeepsOut(s, id, a);
    case Enter(_) => EntryKeepsOut(s, id, a);
    case _ => CacheKeepsOut(s, id, a);
  }

  lemma {:induction false} RunKeepsOut(s: State, id: string, later: seq<Action>)
    requires Inv(s) && OutOfReach(s, id)
    ensures Inv(Run(s, later)) && OutOfReach(Run(s, later), id)
    ensures AttemptsFor(Run(s, later).attempts, id) == AttemptsFor(s.attempts, id)
    decreases |later|
  {
    hide Inv, OutOfReach, Next, AttemptsFor;
    if later != [] {
      var before, last := Run(s, later[..|later| - 1]), later[|later| - 1];
      RunKeepsOut(s, id, later[..|later| - 1]);
      NextKeeps(before, last);
      NextKeepsOut(before, id, last);
    }
  }

  /** After a cancel succeeds, the plan gains another transaction in this continuation. */
  ghost predicate Gains(s: State, t: nat, id: string, later: seq<Action>) {
    |AttemptsFor(Run(Next(s, FinishCancel(t)), later).attempts, id)| > |AttemptsFor(s.attempts, id)|
  }

  /**
   * A cancel that is about to report success can be followed by a transaction for its plan
   * exactly if an apply has already found the plan with its own token; otherwise the cancel
   * is binding, and the transactions for the plan stay what they are whatever follows.
   */
  lemma CancelIsBinding(s: State, t: nat)
    requires Reachable(s) && At(s, t).Cancelling?
    ensures (exists later :: Gains(s, t, At(s, t).planId, later)) <==> InHand(s.calls, At(s, t).planId)
    ensures !InHand(s.calls, At(s, t).planId) ==>
              forall later :: AttemptsFor(Run(Next(s, FinishCancel(t)), later).attempts, At(s, t).planId)
                           == AttemptsFor(s.attempts, At(s, t).planId)
  {
    ReachableInv(s);
    var id := At(s, t).planId;
    if InHand(s.calls, id) {
      var later := CancelComesTooLate(s, t);
      assert Gains(s, t, id, later);
    } else {
      CancelPutsOut(s, t);
      forall later
        ensures AttemptsFor(Run(Next(s, FinishCancel(t)), later).attempts, id) == AttemptsFor(s.attempts, id)
      {
        RunKeepsOut(Next(s, FinishCancel(t)), id, later);
      }
    }
  }

  lemma CancelPutsOut(s: State, t: nat)
    requires Inv(s) && At(s, t).Cancelling? && !InHand(s.calls, At(s, t).planId)
    ensures Inv(Next(s, FinishCancel(t))) && OutOfReach(Next(s, FinishCancel(t)), At(s, t).planId)
    ensures Next(s, FinishCancel(t)).attempts == s.attempts
  {
    hide ApplyToken, CacheOk, SentOk, RecordsOk, BooksOk, Lists;
    NextKeeps(s, FinishCancel(t));
    StillOut(s.calls, Next(s, FinishCancel(t)).calls, t, At(s, t).planId);
  }

  /** The plan an apply holds, and when it took it. */
  lemma HolderIsOnItsWay(s: State, id: string) returns (u: nat, p: Plan, at: int)
    requires InHand(s.calls, id)
    ensures u in s.calls && p.id == id && OnItsWay(s, u, p, at, 0)
  {
    u :| u in s.calls && Holding(s.calls[u], id);
    p, at := s.calls[u].plan, s.calls[u].at;
  }

  lemma CancelComesTooLate(s: State, t: nat) returns (later: seq<Action>)
    requires Inv(s) && At(s, t).Cancelling? && InHand(s.calls, At(s, t).planId)
    ensures Gains(s, t, At(s, t).planId, later)
  {
    hide ApplyToken, Inv, Run, AttemptsFor;
    var id := At(s, t).planId;
    var u, p, at := HolderIsOnItsWay(s, id);
    var cancelled := Next(s, FinishCancel(t));
    assert At(cancelled, u) == At(s, u);
    later := CommitSteps(u, true);
    var s1 := Commits(cancelled, u, p, at, true);
    AttemptsForSnoc(s.attempts, Logged(p.id, Attempt(ApplyToken(p), at, true, true)), id);
  }

  // ---------- two runs to know about ----------

  /** An apply of a fresh plan up to finding it in the cache. */
  lemma Finds(p: Plan)
    requires |p.id| == ID_LENGTH
    ensures Run(Start(0), [Store(p, 60)] + [StartApply(0, p.id, ApplyToken(p)), Enter(0), Take(0)])
         == Start(0).(plans := map[p.id := Entry(p, 60)], issued := map[p.id := Entry(p, 60)],
                      lock := Some(0), calls := map[0 := Found(p, ApplyToken(p), 0)])
  {
    hide ApplyToken, Run;
    var m := map[p.id := Entry(p, 60)];
    var stored := Start(0).(plans := m, issued := m);
    RunAppend(Start(0), [Store(p, 60)], [StartApply(0, p.id, ApplyToken(p)), Enter(0), Take(0)]);
    RunOne(Start(0), Store(p, 60));
    assert Next(Start(0), Store(p, 60)) == stored;
    RunThree(stored, StartApply(0, p.id, ApplyToken(p)), Enter(0), Take(0));
    assert EnterApply(BeginApply(stored, 0, p.id, ApplyToken(p)), 0).calls == map[0 := Entered(p.id, ApplyToken(p))];
    assert TakePlan(EnterApply(BeginApply(stored, 0, p.id, ApplyToken(p)), 0), 0).calls ==
              map[0 := Found(p, ApplyToken(p), 0)];
  }

  /** A transaction can commit and be recorded as an error, because its reply was lost. */
  lemma LostReplyIsMisreported(p: Plan) returns (s: State)
    requires |p.id| == ID_LENGTH
    ensures Reachable(s) && |s.attempts| == 1 && s.attempts[0].what.committed && s.audits == [Logged(p.id, false)]
  {
    hide ApplyToken, Run, CommitSteps;
    var find := [Store(p, 60)] + [StartApply(0, p.id, ApplyToken(p)), Enter(0), Take(0)];
    Finds(p);
    var found := Run(Start(0), find);
    var sent := Commits(found, 0, p, 0, false);
    RunAppend(Start(0), find, CommitSteps(0, false));
    RunAppend(Start(0), find + CommitSteps(0, false), [Record(0, true)]);
    RunOne(sent, Record(0, true));
    s := Run(Start(0), find + CommitSteps(0, false) + [Record(0, true)]);
  }

  /** A cancel can report success for a plan that an apply already found, and the plan still commits. */
  lemma CancelledPlanCanStillCommit(p: Plan) returns (s: State)
    requires |p.id| == ID_LENGTH
    ensures Reachable(s) && At(s, 1) == Closed(true) && |s.attempts| == 1
    ensures s.attempts[0].planId == p.id && s.attempts[0].what.committed && s.attempts[0].what.delivered
  {
    hide ApplyToken, Run, CommitSteps;
    var find := [Store(p, 60)] + [StartApply(0, p.id, ApplyToken(p)), Enter(0), Take(0)];
    var cancel := [StartCancel(1, p.id), FinishCancel(1), Tick(0)];
    Finds(p);
    var found := Run(Start(0), find);
    RunAppend(Start(0), find, cancel);
    RunThree(found, StartCancel(1, p.id), FinishCancel(1), Tick(0));
    var cancelled := Run(Start(0), find + cancel);
    assert cancelled.calls == map[0 := Found(p, ApplyToken(p), 0), 1 := Closed(true)];
    s := Commits(cancelled, 0, p, 0, true);
    assert 1 in s.calls - {0} && (s.calls - {0})[1] == (cancelled.calls - {0})[1];
    RunAppend(Start(0), find + cancel, CommitSteps(0, true));
  }
}
