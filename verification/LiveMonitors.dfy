/** The live OVN client pair, reduced to its monitors, its caches and the suspended flag. */
module LiveMonitors {

  /** The monitors one startMonitor call got, the rows they delivered, and whether it got all it asked for. */
  datatype Started = Started(cookies: seq<nat>, rows: set<string>, ok: bool)

  datatype LiveState = LiveState(
    suspended: bool,
    nbCookies: seq<nat>,
    sbCookies: seq<nat>,
    nbRows: set<string>,
    sbRows: set<string>)

  /** How the two servers answer one transition: refused cancels, and the new monitors. */
  datatype Replies = Replies(refused: set<nat>, nb: Started, sb: Started)

  const NO_ANSWER: Started := Started([], {}, false)

  predicate NoneRefused(cookies: seq<nat>, refused: set<nat>) {
    forall i | 0 <= i < |cookies| :: cookies[i] !in refused
  }

  /** SuspendMonitors: the state it leaves and whether it reported success. */
  function Suspend(l: LiveState, re: Replies): (LiveState, bool) {
    if l.suspended then (l, true)
    else (LiveState(true, [], [], {}, {}),
          NoneRefused(l.nbCookies, re.refused) && NoneRefused(l.sbCookies, re.refused))
  }

  /** ResumeMonitors: the state it leaves and whether it reported success. */
  function Resume(l: LiveState, re: Replies): (LiveState, bool) {
    if !l.suspended then (l, true)
    else if !re.nb.ok then (l.(nbRows := l.nbRows + re.nb.rows), false)
    else if !re.sb.ok then (l.(nbRows := l.nbRows + re.nb.rows, sbRows := l.sbRows + re.sb.rows), false)
    else (LiveState(false, re.nb.cookies, re.sb.cookies, l.nbRows + re.nb.rows, l.sbRows + re.sb.rows), true)
  }

  class OVNDatabases {
    var suspended: bool
    var nbCookies: seq<nat>
    var sbCookies: seq<nat>
    var nbRows: set<string>
    var sbRows: set<string>

    ghost function View(): LiveState
      reads this
    {
      LiveState(suspended, nbCookies, sbCookies, nbRows, sbRows)
    }

    method SuspendMonitors(re: Replies) returns (ok: bool)
      modifies this
      ensures (View(), ok) == Suspend(old(View()), re)
    {
      if suspended {
        return true;
      }
      ok := true;
      for i := 0 to |nbCookies|
        invariant ok == NoneRefused(nbCookies[..i], re.refused)
      {
        ok := ok && nbCookies[i] !in re.refused;
      }
      assert nbCookies[..|nbCookies|] == nbCookies;
      for i := 0 to |sbCookies|
        invariant ok == (NoneRefused(nbCookies, re.refused) && NoneRefused(sbCookies[..i], re.refused))
      {
        ok := ok && sbCookies[i] !in re.refused;
      }
      assert sbCookies[..|sbCookies|] == sbCookies;
      nbCookies, sbCookies := [], [];
      nbRows, sbRows := {}, {};
      suspended := true;
    }

    method ResumeMonitors(re: Replies) returns (ok: bool)
      modifies this
      ensures (View(), ok) == Resume(old(View()), re)
    {
      if !suspended {
        return true;
      }
      nbRows := nbRows + re.nb.rows;
      if !re.nb.ok {
        return false;
      }
      sbRows := sbRows + re.sb.rows;
      if !re.sb.ok {
        return false;
      }
      nbCookies, sbCookies := re.nb.cookies, re.sb.cookies;
      suspended := false;
      return true;
    }

    /** Ready: connected, and the monitors are not suspended. */
    predicate Ready(nbConnected: bool, sbConnected: bool)
      reads this
    {
      nbConnected && sbConnected && !suspended
    }
  }

  // ---------- the caches ----------

  /** Resumes that all fail, one after the other. */
  function Retried(l: LiveState, fails: seq<Replies>): LiveState
    decreases |fails|
  {
    if fails == [] then l else Resume(Retried(l, fails[..|fails| - 1]), fails[|fails| - 1]).0
  }

  ghost predicate AllFail(fails: seq<Replies>) {
    forall i | 0 <= i < |fails| :: !(fails[i].nb.ok && fails[i].sb.ok)
  }

  /** Some failed resume had already loaded the row. */
  ghost predicate LeftNB(fails: seq<Replies>, row: string) {
    exists i :: 0 <= i < |fails| && row in fails[i].nb.rows
  }

  ghost predicate LeftSB(fails: seq<Replies>, row: string) {
    exists i :: 0 <= i < |fails| && fails[i].nb.ok && row in fails[i].sb.rows
  }

  /** A suspend empties the caches whatever is refused, and reports success exactly if no cancel was refused. */
  lemma SuspendEmptiesCaches(l: LiveState, re: Replies)
    requires !l.suspended
    ensures var (down, ok) := Suspend(l, re);
            && down.suspended && down.nbRows == {} && down.sbRows == {} && down.nbCookies == [] && down.sbCookies == []
            && (ok <==> forall c | c in l.nbCookies || c in l.sbCookies :: c !in re.refused)
    ensures Resume(l, re) == (l, true) && Suspend(Suspend(l, re).0, re) == (Suspend(l, re).0, true)
  {
    var cookies := l.nbCookies + l.sbCookies;
    assert forall c :: c in cookies <==> c in l.nbCookies || c in l.sbCookies;
  }

  lemma {:induction false} RetriedHas(l: LiveState, fails: seq<Replies>)
    requires l.suspended && l.nbRows == {} && l.sbRows == {} && AllFail(fails)
    ensures var half := Retried(l, fails);
            && half.suspended && half.nbCookies == l.nbCookies && half.sbCookies == l.sbCookies
            && (forall row :: row in half.nbRows <==> LeftNB(fails, row))
            && (forall row :: row in half.sbRows <==> LeftSB(fails, row))
    decreases |fails|
  {
    if fails != [] {
      var front, last := fails[..|fails| - 1], fails[|fails| - 1];
      RetriedHas(l, front);
      forall row
        ensures LeftNB(fails, row) <==> LeftNB(front, row) || row in last.nb.rows
        ensures LeftSB(fails, row) <==> LeftSB(front, row) || (last.nb.ok && row in last.sb.rows)
      {
        LeftSnoc(front, last, row);
        assert fails == front + [last];
      }
    }
  }

  lemma LeftSnoc(front: seq<Replies>, last: Replies, row: string)
    ensures LeftNB(front + [last], row) <==> LeftNB(front, row) || row in last.nb.rows
    ensures LeftSB(front + [last], row) <==> LeftSB(front, row) || (last.nb.ok && row in last.sb.rows)
  {
    var all := front + [last];
    assert all[|front|] == last;
    assert forall i | 0 <= i < |front| :: all[i] == front[i];
  }

  /**
   * Suspend, any number of failing resumes, and one more: it succeeds exactly if both databases
   * can be monitored, and then the caches hold its own rows and those the failed ones had left.
   */
  lemma CachesAfterResume(l: LiveState, down: Replies, fails: seq<Replies>, up: Replies)
    requires !l.suspended && AllFail(fails)
    ensures var (back, ok) := Resume(Retried(Suspend(l, down).0, fails), up);
            && (ok <==> up.nb.ok && up.sb.ok) && (ok <==> !back.suspended)
            && (ok ==>
                  && back.nbCookies == up.nb.cookies && back.sbCookies == up.sb.cookies
                  && (forall row :: row in back.nbRows <==> row in up.nb.rows || LeftNB(fails, row))
                  && (forall row :: row in back.sbRows <==> row in up.sb.rows || LeftSB(fails, row)))
  {
    SuspendEmptiesCaches(l, down);
    RetriedHas(Suspend(l, down).0, fails);
    hide Suspend;
  }

  // ---------- the monitors the servers keep streaming ----------

  /** The client pair and the monitors open at the servers; cookies are unique across both. */
  datatype Streams = Streams(live: LiveState, open: set<nat>)

  datatype Transition = ToSuspended(re: Replies) | ToResumed(re: Replies)

  function Held(l: LiveState): set<nat> {
    set c | c in l.nbCookies + l.sbCookies
  }

  /** The monitors a resume starts, whether or not it then succeeds. */
  function StartedBy(re: Replies): set<nat> {
    (set c | c in re.nb.cookies) + (if re.nb.ok then set c | c in re.sb.cookies else {})
  }

  function Move(s: Streams, t: Transition): Streams {
    match t
    case ToSuspended(re) =>
      Streams(Suspend(s.live, re).0, if s.live.suspended then s.open else s.open - (Held(s.live) - re.refused))
    case ToResumed(re) =>
      Streams(Resume(s.live, re).0, if s.live.suspended then s.open + StartedBy(re) else s.open)
  }

  function Moves(s: Streams, ts: seq<Transition>): Streams
    decreases |ts|
  {
    if ts == [] then s else Move(Moves(s, ts[..|ts| - 1]), ts[|ts| - 1])
  }

  /** Open monitors whose cookies the client no longer has, so that nothing will ever cancel them. */
  function Orphans(s: Streams): set<nat> {
    s.open - Held(s.live)
  }

  /** The orphans one transition makes: refused cancels, and what a failed resume had started. */
  function OrphanedBy(s: Streams, t: Transition): set<nat> {
    match t
    case ToSuspended(re) => if s.live.suspended then {} else Held(s.live) * re.refused
    case ToResumed(re) => if s.live.suspended && !Resume(s.live, re).1 then StartedBy(re) else {}
  }

  /** Held monitors are open, and none is held while suspended. */
  ghost predicate StreamsOk(s: Streams) {
    Held(s.live) <= s.open && (s.live.suspended ==> Held(s.live) == {})
  }

  /** Servers hand out cookies that are not in use. */
  ghost predicate FreshCookies(s: Streams, t: Transition) {
    t.ToResumed? ==> StartedBy(t.re) !! s.open
  }

  lemma MoveOrphans(s: Streams, t: Transition)
    requires StreamsOk(s) && FreshCookies(s, t)
    ensures StreamsOk(Move(s, t))
    ensures Orphans(Move(s, t)) == Orphans(s) + OrphanedBy(s, t)
  {
    if t.ToResumed? && s.live.suspended && t.re.nb.ok && t.re.sb.ok {
      assert Held(Move(s, t).live) == StartedBy(t.re);
    }
  }

  /** All the orphans a run makes, step by step. */
  function AllOrphaned(s: Streams, ts: seq<Transition>): set<nat>
    decreases |ts|
  {
    if ts == [] then {}
    else AllOrphaned(s, ts[..|ts| - 1]) + OrphanedBy(Moves(s, ts[..|ts| - 1]), ts[|ts| - 1])
  }

  ghost predicate AllFresh(s: Streams, ts: seq<Transition>)
    decreases |ts|
  {
    ts != [] ==> AllFresh(s, ts[..|ts| - 1]) && FreshCookies(Moves(s, ts[..|ts| - 1]), ts[|ts| - 1])
  }

  lemma {:induction false} MovesOrphans(s: Streams, ts: seq<Transition>)
    requires StreamsOk(s) && AllFresh(s, ts)
    ensures StreamsOk(Moves(s, ts)) && Orphans(Moves(s, ts)) == Orphans(s) + AllOrphaned(s, ts)
    decreases |ts|
  {
    hide Move, Orphans, OrphanedBy, FreshCookies, StreamsOk;
    if ts != [] {
      MovesOrphans(s, ts[..|ts| - 1]);
      MoveOrphans(Moves(s, ts[..|ts| - 1]), ts[|ts| - 1]);
    }
  }

  lemma {:induction false} NoneOrphaned(s: Streams, ts: seq<Transition>)
    ensures AllOrphaned(s, ts) == {} <==> forall i | 0 <= i < |ts| :: OrphanedBy(Moves(s, ts[..i]), ts[i]) == {}
    decreases |ts|
  {
    hide Moves, OrphanedBy;
    if ts != [] {
      var front := ts[..|ts| - 1];
      NoneOrphaned(s, front);
      assert forall i | 0 <= i < |front| :: front[..i] == ts[..i];
    }
  }

  /**
   * A suspended pair has no monitor streaming exactly if, since it was in order, no suspend was
   * refused a cancel and no resume failed after it had started a monitor.
   */
  lemma SuspendedIsQuiet(s: Streams, ts: seq<Transition>)
    requires StreamsOk(s) && Orphans(s) == {} && AllFresh(s, ts) && Moves(s, ts).live.suspended
    ensures Moves(s, ts).open == {} <==> forall i | 0 <= i < |ts| :: OrphanedBy(Moves(s, ts[..i]), ts[i]) == {}
  {
    MovesOrphans(s, ts);
    NoneOrphaned(s, ts);
    assert Orphans(Moves(s, ts)) == Moves(s, ts).open;
  }

  /**
   * The northbound monitor comes back, the southbound one does not: the first streams on, through
   * the next resume too.
   */
  lemma HalfResumeKeepsStreaming(l: LiveState, open: set<nat>, c: nat, rows: set<string>, next: Replies)
    requires l.suspended && StreamsOk(Streams(l, open)) && c !in open && StartedBy(next) !! open + {c}
    ensures var half := ToResumed(Replies({}, Started([c], rows, true), NO_ANSWER));
            var s := Moves(Streams(l, open), [half, ToResumed(next)]);
            c in s.open && c !in Held(s.live)
  {
    var s, t, u := Streams(l, open), ToResumed(Replies({}, Started([c], rows, true), NO_ANSWER)), ToResumed(next);
    assert [t, u][..1] == [t] && [t][..0] == [];
    assert Moves(s, [t]) == Move(s, t);
    assert Moves(s, [t, u]) == Move(Move(s, t), u);
    assert c in StartedBy(t.re) && Held(l) == {};
    MoveOrphans(s, t);
    MoveOrphans(Move(s, t), u);
  }
}
