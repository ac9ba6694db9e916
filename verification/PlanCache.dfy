/** The in-memory cache of pending plans: entries expire, and are removed when read late or swept. */
module PlanCache {
  import opened Wrappers

  datatype Entry<+P> = Entry(plan: P, expiresAt: int)

  type Plans<+P> = map<string, Entry<P>>

  function Stored<P>(plans: Plans<P>, id: string, plan: P, now: int, ttl: int): Plans<P> {
    plans[id := Entry(plan, now + ttl)]
  }

  predicate Expired<P>(e: Entry<P>, now: int) {
    now > e.expiresAt
  }

  /** A read finds an unexpired plan; an expired one is removed by it. */
  function Got<P>(plans: Plans<P>, id: string, now: int): (Plans<P>, Option<P>) {
    if id !in plans then (plans, None)
    else if Expired(plans[id], now) then (plans - {id}, None)
    else (plans, Some(plans[id].plan))
  }

  function Swept<P>(plans: Plans<P>, now: int): Plans<P> {
    map id | id in plans && !Expired(plans[id], now) :: plans[id]
  }

  /** What readers can see of the cache at a time. */
  function Visible<P>(plans: Plans<P>, now: int): Plans<P> {
    Swept(plans, now)
  }

  class PlanCache<P(!new)> {
    var plans: Plans<P>
    const ttl: int

    constructor (ttl: int)
      ensures plans == map[] && this.ttl == ttl
    {
      plans, this.ttl := map[], ttl;
    }

    method Store(id: string, plan: P, now: int)
      modifies this
      ensures plans == Stored(old(plans), id, plan, now, ttl)
    {
      plans := plans[id := Entry(plan, now + ttl)];
    }

    method Get(id: string, now: int) returns (plan: Option<P>)
      modifies this
      ensures (plans, plan) == Got(old(plans), id, now)
      ensures plan == if id in old(plans) && now <= old(plans)[id].expiresAt then Some(old(plans)[id].plan) else None
      ensures plans == if plan.None? then old(plans) - {id} else old(plans)
    {
      if id !in plans {
        assert plans - {id} == plans;
        return None;
      }
      if now > plans[id].expiresAt {
        plans := plans - {id};
        return None;
      }
      plan := Some(plans[id].plan);
    }

    method Delete(id: string)
      modifies this
      ensures plans == old(plans) - {id}
    {
      plans := plans - {id};
    }

    method Cleanup(now: int)
      modifies this
      ensures plans == Swept(old(plans), now)
      ensures forall id :: id in plans <==> id in old(plans) && now <= old(plans)[id].expiresAt
      ensures forall id | id in plans :: plans[id] == old(plans)[id]
    {
      var rest := plans.Keys;
      while rest != {}
        invariant rest <= old(plans).Keys
        invariant plans == map id | id in old(plans) && (id in rest || !Expired(old(plans)[id], now)) :: old(plans)[id]
        decreases |rest|
      {
        var id := Pick(rest);
        rest := rest - {id};
        if now > plans[id].expiresAt {
          plans := plans - {id};
        }
      }
    }
  }

  /** Neither a sweep nor a read changes what later readers can see. */
  lemma CleanupIsInvisible<P>(plans: Plans<P>, id: string, now: int, later: int)
    requires now <= later
    ensures Visible(Swept(plans, now), later) == Visible(plans, later)
    ensures Visible(Got(plans, id, now).0, later) == Visible(plans, later)
    ensures Got(plans, id, now).1.Some? <==> id in Visible(plans, now)
  {
  }

  // ---------- what a lookup finds, from the history of the cache ----------

  datatype Op<+P> = Put(id: string, plan: P) | Look(id: string) | Drop(id: string) | Sweep

  /** An operation and the clock when it ran. */
  datatype Event<+P> = Event(at: int, op: Op<P>)

  function Done<P>(plans: Plans<P>, e: Event<P>, ttl: int): Plans<P> {
    match e.op
    case Put(id, plan) => Stored(plans, id, plan, e.at, ttl)
    case Look(id) => Got(plans, id, e.at).0
    case Drop(id) => plans - {id}
    case Sweep => Swept(plans, e.at)
  }

  function After<P>(events: seq<Event<P>>, ttl: int): Plans<P>
    decreases |events|
  {
    if events == [] then map[] else Done(After(events[..|events| - 1], ttl), events[|events| - 1], ttl)
  }

  /** The plan stored last under id and when it expires, unless it was dropped since. */
  function LastPut<P>(events: seq<Event<P>>, ttl: int, id: string): Option<Entry<P>>
    decreases |events|
  {
    if events == [] then None
    else
      match events[|events| - 1].op
      case Put(x, plan) =>
        if x == id then Some(Entry(plan, events[|events| - 1].at + ttl)) else LastPut(events[..|events| - 1], ttl, id)
      case Drop(x) => if x == id then None else LastPut(events[..|events| - 1], ttl, id)
      case _ => LastPut(events[..|events| - 1], ttl, id)
  }

  ghost predicate InOrder<P>(events: seq<Event<P>>) {
    forall i, j | 0 <= i < j < |events| :: events[i].at <= events[j].at
  }

  /**
   * A lookup finds the plan stored last under its id, exactly until its time to live has passed
   * or it is dropped, however often the cache was swept or read in between.
   */
  lemma {:induction false} FindsLastStored<P>(events: seq<Event<P>>, ttl: int, id: string, now: int)
    requires InOrder(events) && forall i | 0 <= i < |events| :: events[i].at <= now
    ensures Got(After(events, ttl), id, now).1 ==
              match LastPut(events, ttl, id)
              case Some(e) => if now <= e.expiresAt then Some(e.plan) else None
              case None => None
    decreases |events|
  {
    if events != [] {
      var front := events[..|events| - 1];
      FindsLastStored(front, ttl, id, now);
    }
  }
}
