/** The write engine: preview, apply and cancel over a plan cache, an audit log and the OVSDB servers. */
module WriteEngine {
  import opened Wrappers
  import opened Ovsdb
  import opened WritePlans
  import opened WriteTransactions
  import opened WriteGuarantees
  import opened RateLimiter
  import C = PlanCache
  import P = PlanProtocol

  datatype StoredPlan = StoredPlan(key: P.Plan, ops: seq<WriteOperation>, diffs: seq<PlanDiff>)

  datatype AuditEntry = AuditEntry(planId: string, snapshot: int, success: bool)

  /** What the environment answers during a preview. */
  datatype PreviewInput = PreviewInput(cache: Db, refsOk: bool, snapshot: Option<int>, id: string)

  /** What the environment answers during an apply. */
  datatype ApplyInput = ApplyInput(refsOk: bool, snapshot: Option<int>, uuid: nat -> string, commits: bool,
                                   delivered: bool)

  ghost predicate PlanOk(reg: Registry, p: StoredPlan) {
    |p.diffs| == |p.ops| && forall i | 0 <= i < |p.ops| :: Typed(reg, p.ops[i], p.diffs[i].before)
  }

  class Engine {
    const reg: Registry
    const nb: Server
    const sb: Option<Server>
    const plans: C.PlanCache<StoredPlan>
    const limiter: Option<Limiter>
    var audit: seq<AuditEntry>

    constructor (reg: Registry, nb: Server, sb: Option<Server>, ttl: int, limiter: Option<Limiter>)
      requires limiter.Some? ==> limiter.value.maxTokens == limiter.value.refillRate
      ensures this.reg == reg && this.nb == nb && this.sb == sb && this.limiter == limiter
      ensures audit == [] && plans.plans == map[] && plans.ttl == ttl && fresh(plans) && Valid()
    {
      this.reg, this.nb, this.sb, this.limiter, audit := reg, nb, sb, limiter, [];
      plans := new C.PlanCache(ttl);
    }

    ghost predicate Valid()
      reads this, plans
    {
      && (limiter.Some? ==> limiter.value.maxTokens == limiter.value.refillRate)
      && (forall id | id in plans.plans :: PlanOk(reg, plans.plans[id].plan))
    }

    /** The objects the rate limiter consists of. */
    function Limits(): set<object> {
      if limiter.Some? then {limiter.value} else {}
    }

    function Servers(): set<Server> {
      {nb} + (if sb.Some? then {sb.value} else {})
    }

    ghost predicate ServersOk()
      reads Servers()
    {
      forall s | s in Servers() :: RowsNamed(s.db)
    }

    /** clientForOps: the server of the first operation's table. */
    function ServerFor(ops: seq<WriteOperation>): Option<Server> {
      if ops == [] then Some(nb)
      else if ops[0].table !in reg then None
      else if reg[ops[0].table].database == SB then sb
      else Some(nb)
    }

    /** The rate limiter, if there is one, lets a request pass. */
    predicate Admits(now: int)
      reads Limits()
    {
      limiter.None? || Asked(limiter.value.refillRate, limiter.value.State(), now).1
    }

    method Allowed(now: int) returns (ok: bool)
      requires Valid()
      modifies Limits()
      ensures ok == old(Admits(now))
      ensures limiter.Some? ==>
                (limiter.value.State(), ok) == Asked(limiter.value.refillRate, old(limiter.value.State()), now)
    {
      if limiter.None? {
        return true;
      }
      ok := limiter.value.Allow(now);
    }

    method Preview(ops: seq<WriteOperation>, input: PreviewInput, now: int) returns (r: Result<StoredPlan, WriteError>)
      requires Valid() && WellTyped(input.cache, reg)
      modifies plans, Limits()
      ensures Valid()
      ensures r == Err(RateLimited) <==> !old(Admits(now))
      ensures r.Ok? <==>
                && old(Admits(now)) && ValidOps(ops, reg) && input.refsOk && input.snapshot.Some?
                && AllRowsSeen(input.cache, reg, sb.Some?, ops)
      ensures r.Ok? ==> ValidOps(ops, reg) && r.value.ops == ops && Previewed(input.cache, ops, r.value.diffs)
      ensures r.Ok? ==> input.snapshot == Some(r.value.key.snapshot) && r.value.key.id == input.id
      ensures plans.plans == if r.Ok? then C.Stored(old(plans.plans), input.id, r.value, now, plans.ttl)
                else old(plans.plans)
    {
      var allowed := Allowed(now);
      if !allowed {
        return Err(RateLimited);
      }
      var valid := ValidateOps(ops, reg);
      if !valid || !input.refsOk {
        return Err(Invalid);
      }
      var diffs := ComputeDiffs(input.cache, reg, sb.Some?, ops);
      if diffs.Err? {
        return Err(diffs.error);
      }
      if input.snapshot.None? {
        return Err(NoSnapshot);
      }
      PreviewIsTyped(input.cache, reg, ops, diffs.value);
      var plan := StoredPlan(P.Plan(input.id, input.snapshot.value), ops, diffs.value);
      plans.Store(input.id, plan, now);
      r := Ok(plan);
    }

    method CancelPlan(id: string, now: int) returns (ok: bool)
      requires Valid()
      modifies plans
      ensures Valid()
      ensures ok <==> C.Got(old(plans.plans), id, now).1.Some?
      ensures plans.plans == old(plans.plans) - {id}
    {
      var plan := plans.Get(id, now);
      if plan.None? {
        assert plans.plans == old(plans.plans) - {id};
        return false;
      }
      plans.Delete(id);
      return true;
    }

    /** What an apply of a plan it took from the cache with the right token does. */
    twostate predicate Applied(new p: StoredPlan, input: ApplyInput, new r: Result<AuditEntry, WriteError>)
      requires PlanOk(reg, p)
      reads this, Servers()
    {
      var target, valid := ServerFor(p.ops), ValidOps(p.ops, reg) && input.refsOk;
      var tried := valid && input.snapshot.Some? && target.Some?;
      && (forall s | s in Servers() && !(tried && s == target.value) :: s.db == old(s.db))
      && (!valid ==> r == Err(Invalid) && audit == old(audit) + [AuditEntry(p.key.id, 0, false)])
      && (valid && input.snapshot.None? ==> r == Err(NoSnapshot) && audit == old(audit))
      && (valid && input.snapshot.Some? && target.None? ==> r == Err(NoClient))
      && (tried ==>
            Transacts(old(target.value.db), target.value.db, reg, p.ops, p.diffs, OutcomeOf(p, input), Forget(r)))
      && (valid && input.snapshot.Some? ==> audit == old(audit) + [AuditEntry(p.key.id, input.snapshot.value, r.Ok?)])
      && (r.Ok? ==> input.snapshot.Some? && r.value == AuditEntry(p.key.id, input.snapshot.value, true))
    }

    /**
     * Where a plan goes, from the databases of its operations' tables: a southbound plan to the
     * southbound server, any other to the northbound one, and only there.
     */
    twostate predicate SentToItsDatabase(new p: StoredPlan, input: ApplyInput, new r: Result<AuditEntry, WriteError>)
      requires PlanOk(reg, p)
      reads this, Servers()
    {
      var accepted := ValidOps(p.ops, reg) && input.refsOk && input.snapshot.Some?;
      var outcome := Outcome(seq(|p.ops|, i requires 0 <= i < |p.ops| => input.uuid(i)), input.commits,
          input.delivered);
      && (!accepted ==> nb.db == old(nb.db) && (sb.Some? ==> sb.value.db == old(sb.value.db)))
      && (accepted && (forall op | op in p.ops :: reg[op.table].database == NB) ==>
            && Transacts(old(nb.db), nb.db, reg, p.ops, p.diffs, outcome, if r.Ok? then Ok(true) else Err(r.error))
            && (sb.Some? && sb.value != nb ==> sb.value.db == old(sb.value.db)))
      && (accepted && (exists op :: op in p.ops && reg[op.table].database == SB) && sb.Some? ==>
            && Transacts(old(sb.value.db), sb.value.db, reg, p.ops, p.diffs, outcome, if r.Ok? then Ok(true)
                  else Err(r.error))
            && (sb.value != nb ==> nb.db == old(nb.db)))
      && (r == Err(NoClient) <==> accepted && sb.None? && exists op :: op in p.ops && reg[op.table].database == SB)
      && (r == Err(NoClient) ==> nb.db == old(nb.db))
    }

    lemma ServerForIs(ops: seq<WriteOperation>)
      requires ValidOps(ops, reg)
      ensures (forall op | op in ops :: reg[op.table].database == NB) ==> ServerFor(ops) == Some(nb)
      ensures (exists op :: op in ops && reg[op.table].database == SB) <==>
                !(forall op | op in ops :: reg[op.table].database == NB)
      ensures (exists op :: op in ops && reg[op.table].database == SB) ==> ServerFor(ops) == sb
    {
      if ops != [] {
        assert ops[0] in ops;
      }
    }

    twostate lemma AppliedIsSent(new p: StoredPlan, input: ApplyInput, new r: Result<AuditEntry, WriteError>)
      requires PlanOk(reg, p) && Applied(p, input, r)
      ensures SentToItsDatabase(p, input, r)
    {
      hide Transacts, ServerFor, ValidOps;
      var outcome := Outcome(seq(|p.ops|, i requires 0 <= i < |p.ops| => input.uuid(i)), input.commits,
          input.delivered);
      assert OutcomeOf(p, input) == outcome;
      if ValidOps(p.ops, reg) {
        ServerForIs(p.ops);
        if input.refsOk && input.snapshot.Some? && ServerFor(p.ops).Some? {
          var target := ServerFor(p.ops).value;
          TransactErrors(old(target.db), target.db, reg, p.ops, p.diffs, outcome, Forget(r));
        }
      }
    }

    method ApplyTaken(p: StoredPlan, input: ApplyInput) returns (r: Result<AuditEntry, WriteError>)
      requires ServersOk() && PlanOk(reg, p)
      modifies this, Servers()
      ensures Applied(p, input, r)
    {
      var valid := ValidateOps(p.ops, reg);
      if !valid || !input.refsOk {
        audit := audit + [AuditEntry(p.key.id, 0, false)];
        return Err(Invalid);
      }
      if input.snapshot.None? {
        return Err(NoSnapshot);
      }
      var target := ServerFor(p.ops);
      if target.None? {
        audit := audit + [AuditEntry(p.key.id, input.snapshot.value, false)];
        return Err(NoClient);
      }
      var sent := TransactOps(target.value, reg, p.ops, p.diffs, OutcomeOf(p, input));
      var entry := AuditEntry(p.key.id, input.snapshot.value, sent.Ok?);
      audit := audit + [entry];
      r := if sent.Ok? then Ok(entry) else Err(sent.error);
    }

    /** Apply: unless it is turned away at the door, the plan is gone from the cache afterwards. */
    method Apply(planId: string, token: string, input: ApplyInput, now: int)
      returns (r: Result<AuditEntry, WriteError>, ghost plan: Option<StoredPlan>)
      requires Valid() && ServersOk()
      modifies this, plans, Limits(), Servers()
      ensures plan == Taken(old(Admits(now)), old(plans.plans), planId, token, now)
      ensures plan.Some? ==> PlanOk(reg, plan.value) && Applied(plan.value, input, r)
      ensures plan.Some? ==> SentToItsDatabase(plan.value, input, r)
      ensures plan.None? ==> r == Err(if !old(Admits(now)) then RateLimited
                                      else if C.Got(old(plans.plans), planId, now).1.None? then NotFound
                                      else BadToken)
      ensures plan.None? ==> audit == old(audit) && forall s | s in Servers() :: s.db == old(s.db)
      ensures plans.plans == if old(Admits(now)) then old(plans.plans) - {planId} else old(plans.plans)
      ensures Valid()
    {
      hide ValidOps, Transacts, P.ApplyToken, Asked, RowsNamed, PlanOk, SentToItsDatabase;
      plan := None;
      var allowed := Allowed(now);
      if !allowed {
        return Err(RateLimited), None;
      }
      var found := plans.Get(planId, now);
      if found.None? {
        assert plans.plans == old(plans.plans) - {planId};
        return Err(NotFound), None;
      }
      plans.Delete(planId);
      if token != P.ApplyToken(found.value.key) {
        return Err(BadToken), None;
      }
      plan := found;
      r := ApplyTaken(found.value, input);
      AppliedIsSent(found.value, input, r);
    }
  }

  /** The plan an apply gets to work on: admitted, unexpired, and presented with its own token. */
  function Taken(admitted: bool, plans: C.Plans<StoredPlan>, planId: string, token: string,
                 now: int): Option<StoredPlan> {
    match C.Got(plans, planId, now).1
    case None => None
    case Some(p) => if admitted && token == P.ApplyToken(p.key) then Some(p) else None
  }

  function OutcomeOf(p: StoredPlan, input: ApplyInput): Outcome {
    Outcome(seq(|p.ops|, i requires 0 <= i < |p.ops| => input.uuid(i)), input.commits, input.delivered)
  }

  function Forget(r: Result<AuditEntry, WriteError>): Result<bool, WriteError> {
    if r.Ok? then Ok(true) else Err(r.error)
  }
}
