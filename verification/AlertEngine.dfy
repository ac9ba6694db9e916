/** The alert engine: rules report alerts, silences hold pages back, resolved alerts linger for a while. */
module AlertEngine {
  import opened Wrappers
  import Decimal

  /** Five minutes, in the unit of the clock (nanoseconds). */
  const RESOLVED_TTL := 300_000_000_000

  datatype Alert = Alert(rule: string, severity: string, message: string, labels: map<string, string>)

  /** A tracked alert: whether it is firing or resolved, and whether it has been paged. */
  datatype Entry = Entry(alert: Alert, firing: bool, firedAt: int, resolvedAt: Option<int>, notified: bool)

  datatype Silence = Silence(rule: string, matchers: map<string, string>, createdAt: Option<int>, expiresAt: int)

  type Active = map<string, Entry>

  // ---------- silences ----------

  function LabelOf(a: Alert, k: string): string {
    if k in a.labels then a.labels[k] else ""
  }

  predicate SilenceMatches(s: Silence, a: Alert) {
    (s.rule == "" || s.rule == a.rule) && forall k | k in s.matchers :: LabelOf(a, k) == s.matchers[k]
  }

  predicate SilenceExpired(s: Silence, now: int) {
    now > s.expiresAt
  }

  predicate Silenced(silences: map<string, Silence>, a: Alert, now: int) {
    exists id :: id in silences && !SilenceExpired(silences[id], now) && SilenceMatches(silences[id], a)
  }

  // ---------- one report, one resolve pass ----------

  function Found(active: Active, fp: string, a: Alert, now: int): Entry {
    if fp in active then active[fp] else Entry(a, true, now, None, false)
  }

  /** Whether a report pages: the first one that is not silenced does. */
  predicate Pages(active: Active, fp: string, a: Alert, now: int, silenced: bool) {
    !Found(active, fp, a, now).notified && !silenced
  }

  function Reported(active: Active, fp: string, a: Alert, now: int, silenced: bool): Active {
    var stored := Found(active, fp, a, now);
    if Pages(active, fp, a, now, silenced) then active[fp := stored.(notified := true)]
    else active[fp := stored]
  }

  /** The resolve pass of a tick concerns a firing alert that was not reported and whose rule did not fail. */
  predicate Resolves(e: Entry, fp: string, seen: set<string>, failed: set<string>) {
    e.firing && fp !in seen && e.alert.rule !in failed
  }

  function AfterTick(e: Entry, fp: string, seen: set<string>, failed: set<string>, now: int): Entry {
    if Resolves(e, fp, seen, failed) then e.(firing := false, resolvedAt := Some(now)) else e
  }

  predicate Outlived(e: Entry, now: int) {
    !e.firing && e.resolvedAt.Some? && now - e.resolvedAt.value > RESOLVED_TTL
  }

  function EndOfTick(active: Active, seen: set<string>, failed: set<string>, now: int): Active {
    map fp | fp in active && !Outlived(AfterTick(active[fp], fp, seen, failed, now), now) ::
      AfterTick(active[fp], fp, seen, failed, now)
  }

  /** The resolve pass pages this entry: it resolves now and no silence matches it. */
  ghost predicate ResolvePages(active: Active, silences: map<string, Silence>, seen: set<string>, failed: set<string>,
                               now: int, endAt: int, e: Entry) {
    exists fp ::
      fp in active && Resolves(active[fp], fp, seen, failed) && e == AfterTick(active[fp], fp, seen, failed, now)
                 && !Silenced(silences, e.alert, endAt)
  }

  lemma NoPageYet(silences: map<string, Silence>, seen: set<string>, failed: set<string>, now: int, endAt: int)
    ensures forall e :: !ResolvePages(map[], silences, seen, failed, now, endAt, e)
  {
  }

  lemma OneMorePage(was: Active, rest: set<string>, x: string, silences: map<string, Silence>, seen: set<string>,
                    failed: set<string>, now: int, endAt: int)
    requires x in was && x in rest
    ensures var before := map fp | fp in was && fp !in rest :: was[fp];
            var after := map fp | fp in was && fp !in rest - {x} :: was[fp];
            forall e :: ResolvePages(after, silences, seen, failed, now, endAt, e) <==>
              ResolvePages(before, silences, seen, failed, now, endAt, e)
              || (Resolves(was[x], x, seen, failed) && e == AfterTick(was[x], x, seen, failed, now)
                    && !Silenced(silences, e.alert, endAt))
  {
    hide Silenced, Resolves, AfterTick;
    var before, after := map fp | fp in was && fp !in rest :: was[fp],
                         map fp | fp in was && fp !in rest - {x} :: was[fp];
    forall e
      ensures ResolvePages(after, silences, seen, failed, now, endAt, e) <==>
                ResolvePages(before, silences, seen, failed, now, endAt, e)
                || (Resolves(was[x], x, seen, failed) && e == AfterTick(was[x], x, seen, failed, now)
                      && !Silenced(silences, e.alert, endAt))
    {
      if ResolvePages(after, silences, seen, failed, now, endAt, e) {
        var fp :| fp in after && Resolves(after[fp], fp, seen, failed)
            && e == AfterTick(after[fp], fp, seen, failed, now)
                  && !Silenced(silences, e.alert, endAt);
        assert fp != x ==> fp in before && before[fp] == was[fp];
      }
      if ResolvePages(before, silences, seen, failed, now, endAt, e) {
        var fp :| fp in before && Resolves(before[fp], fp, seen, failed)
            && e == AfterTick(before[fp], fp, seen, failed, now)
                  && !Silenced(silences, e.alert, endAt);
        assert after[fp] == was[fp];
      }
      if Resolves(was[x], x, seen, failed) && e == AfterTick(was[x], x, seen, failed, now)
          && !Silenced(silences, e.alert, endAt) {
        assert after[x] == was[x];
      }
    }
  }

  function Unexpired(silences: map<string, Silence>, now: int): map<string, Silence> {
    map id | id in silences && !SilenceExpired(silences[id], now) :: silences[id]
  }

  // ---------- the engine as an object ----------

  /** A reported alert with its fingerprint and the clock when it was looked at. */
  datatype Report = Report(fp: string, alert: Alert, at: int)

  /** One rule's check: its reports, or None if it failed. */
  datatype Check = Check(rule: string, reports: Option<seq<Report>>)

  datatype Notification = Fired(entry: Entry) | ResolvedNow(entry: Entry)

  /** What the check pass of a tick has done so far. */
  datatype Pass = Pass(active: Active, seen: set<string>, failed: set<string>, sent: seq<Notification>)

  function PassReport(p: Pass, silences: map<string, Silence>, r: Report, now: int): Pass {
    var silenced := Silenced(silences, r.alert, r.at);
    var active := Reported(p.active, r.fp, r.alert, now, silenced);
    p.(active := active, seen := p.seen + {r.fp},
       sent := if Pages(p.active, r.fp, r.alert, now, silenced) then p.sent + [Fired(active[r.fp])] else p.sent)
  }

  function PassReports(p: Pass, silences: map<string, Silence>, rs: seq<Report>, now: int): Pass
    decreases |rs|
  {
    if rs == [] then p else PassReport(PassReports(p, silences, rs[..|rs| - 1], now), silences, rs[|rs| - 1], now)
  }

  function PassCheck(p: Pass, silences: map<string, Silence>, disabled: set<string>, c: Check, now: int): Pass {
    if c.rule in disabled then p
    else if c.reports.None? then p.(failed := p.failed + {c.rule})
    else PassReports(p, silences, c.reports.value, now)
  }

  function PassChecks(p: Pass, silences: map<string, Silence>, disabled: set<string>, cs: seq<Check>, now: int): Pass
    decreases |cs|
  {
    if cs == [] then p
    else PassCheck(PassChecks(p, silences, disabled, cs[..|cs| - 1], now), silences, disabled, cs[|cs| - 1], now)
  }

  class Engine {
    var rules: seq<string>
    var disabled: set<string>
    var active: Active
    var silences: map<string, Silence>

    constructor ()
      ensures rules == [] && disabled == {} && active == map[] && silences == map[]
    {
      rules, disabled, active, silences := [], {}, map[], map[];
    }

    method SetRuleEnabled(name: string, enabled: bool) returns (ok: bool)
      modifies this`disabled
      ensures ok <==> name in rules
      ensures disabled == if !ok then old(disabled)
                else if enabled then old(disabled) - {name} else old(disabled) + {name}
    {
      var i := 0;
      while i < |rules| && rules[i] != name
        invariant i <= |rules| && name !in rules[..i]
      {
        i := i + 1;
      }
      if i == |rules| {
        return false;
      }
      disabled := if enabled then disabled - {name} else disabled + {name};
      return true;
    }

    /** A silence without an id or a creation time gets them from the clock. */
    method AddSilence(id: string, s: Silence, now: int) returns (used: string)
      modifies this`silences
      ensures used == (if id == "" then "silence-" + Decimal.Itoa(now) else id)
      ensures silences == old(silences)[used := if s.createdAt.None? then s.(createdAt := Some(now)) else s]
    {
      used := if id == "" then "silence-" + Decimal.Itoa(now) else id;
      silences := silences[used := if s.createdAt.None? then s.(createdAt := Some(now)) else s];
    }

    method RemoveSilence(id: string) returns (ok: bool)
      modifies this`silences
      ensures ok <==> id in old(silences)
      ensures silences == old(silences) - {id}
    {
      ok := id in silences;
      silences := silences - {id};
    }

    method IsSilenced(a: Alert, now: int) returns (r: bool)
      ensures r == Silenced(silences, a, now)
    {
      var rest := silences.Keys;
      while rest != {}
        invariant rest <= silences.Keys
        invariant forall id | id in silences && id !in rest ::
                  SilenceExpired(silences[id], now) || !SilenceMatches(silences[id], a)
        decreases |rest|
      {
        var id := Pick(rest);
        rest := rest - {id};
        if !SilenceExpired(silences[id], now) && SilenceMatches(silences[id], a) {
          return true;
        }
      }
      return false;
    }

    /** One report, under the write lock. */
    method CheckAndInsert(r: Report, now: int) returns (page: Option<Entry>)
      modifies this`active
      ensures active == Reported(old(active), r.fp, r.alert, now, Silenced(silences, r.alert, r.at))
      ensures page.Some? <==> Pages(old(active), r.fp, r.alert, now, Silenced(silences, r.alert, r.at))
      ensures page.Some? ==> page.value == active[r.fp]
    {
      var exists_ := r.fp in active;
      var stored := if exists_ then active[r.fp] else Entry(r.alert, true, now, None, false);
      var silenced := IsSilenced(r.alert, r.at);
      var notify := !stored.notified && !silenced;
      if notify {
        stored := stored.(notified := true);
      }
      if !exists_ || notify {
        active := active[r.fp := stored];
      }
      page := if notify then Some(stored) else None;
    }

    method CheckReports(rs: seq<Report>, now: int, seen0: set<string>, sent0: seq<Notification>,
                        ghost failed: set<string>)
      returns (seen: set<string>, sent: seq<Notification>)
      modifies this`active
      ensures Pass(active, seen, failed, sent) ==
                PassReports(Pass(old(active), seen0, failed, sent0), silences, rs, now)
    {
      seen, sent := seen0, sent0;
      ghost var p := Pass(active, seen, failed, sent);
      for i := 0 to |rs|
        invariant Pass(active, seen, failed, sent) == PassReports(p, silences, rs[..i], now)
      {
        hide Reported, Pages, Silenced;
        assert rs[..i + 1][..i] == rs[..i];
        seen := seen + {rs[i].fp};
        var page := CheckAndInsert(rs[i], now);
        if page.Some? {
          sent := sent + [Fired(page.value)];
        }
      }
      assert rs[..|rs|] == rs;
    }

    /** The check pass over all rules. */
    method CheckPass(checks: seq<Check>, now: int)
      returns (seen: set<string>, failed: set<string>, sent: seq<Notification>)
      modifies this`active
      ensures Pass(active, seen, failed, sent) ==
                PassChecks(Pass(old(active), {}, {}, []), silences, disabled, checks, now)
    {
      seen, failed, sent := {}, {}, [];
      ghost var p := Pass(active, seen, failed, sent);
      for i := 0 to |checks|
        invariant Pass(active, seen, failed, sent) == PassChecks(p, silences, disabled, checks[..i], now)
      {
        hide PassReports;
        assert checks[..i + 1][..i] == checks[..i];
        if checks[i].rule in disabled {
          continue;
        }
        if checks[i].reports.None? {
          failed := failed + {checks[i].rule};
          continue;
        }
        seen, sent := CheckReports(checks[i].reports.value, now, seen, sent, failed);
      }
      assert checks[..|checks|] == checks;
    }

    /** One entry of the resolve pass; page is set if it resolves and no silence matches it. */
    method ResolveOne(fp: string, seen: set<string>, failed: set<string>, now: int, endAt: int)
      returns (page: Option<Entry>)
      requires fp in active
      modifies this`active
      ensures active == old(active)[fp := AfterTick(old(active)[fp], fp, seen, failed, now)]
      ensures page.Some? <==>
                Resolves(old(active)[fp], fp, seen, failed) && !Silenced(silences, active[fp].alert, endAt)
      ensures page.Some? ==> page.value == active[fp]
    {
      page := None;
      var a := active[fp];
      if a.firing && fp !in seen && a.alert.rule !in failed {
        a := a.(firing := false, resolvedAt := Some(now));
        active := active[fp := a];
        var silenced := IsSilenced(a.alert, endAt);
        if !silenced {
          page := Some(a);
        }
      }
    }

    /** The resolve pass and the cleanups; endAt is the clock when silences are consulted for resolve pages. */
    method ResolvePass(seen: set<string>, failed: set<string>, now: int, endAt: int) returns (sent: seq<Notification>)
      modifies this`active, this`silences
      ensures active == EndOfTick(old(active), seen, failed, now) && silences == Unexpired(old(silences), now)
      ensures forall n :: n in sent <==>
                n.ResolvedNow? && ResolvePages(old(active), old(silences), seen, failed, now, endAt, n.entry)
    {
      hide Silenced, ResolvePages, Resolves, AfterTick;
      ghost var was := active;
      sent := ResolveAll(seen, failed, now, endAt);
      CleanUp(now);
      assert active == EndOfTick(was, seen, failed, now);
      CleanUpSilences(now);
    }

    method ResolveAll(seen: set<string>, failed: set<string>, now: int, endAt: int) returns (sent: seq<Notification>)
      modifies this`active
      ensures active == map fp | fp in old(active) :: AfterTick(old(active)[fp], fp, seen, failed, now)
      ensures forall n :: n in sent <==>
                n.ResolvedNow? && ResolvePages(old(active), silences, seen, failed, now, endAt, n.entry)
    {
      hide Silenced, ResolvePages, Resolves, AfterTick;
      sent := [];
      ghost var was := active;
      var rest := active.Keys;
      NoPageYet(silences, seen, failed, now, endAt);
      assert (map fp | fp in was && fp !in rest :: was[fp]) == map[];
      while rest != {}
        invariant rest <= was.Keys
        invariant active == map fp | fp in was ::
                  if fp in rest then was[fp] else AfterTick(was[fp], fp, seen, failed, now)
        invariant forall n :: n in sent <==>
                    && n.ResolvedNow?
                    && ResolvePages(map fp | fp in was && fp !in rest ::
                          was[fp], silences, seen, failed, now, endAt, n.entry)
        decreases |rest|
      {
        var fp := Pick(rest);
        OneMorePage(was, rest, fp, silences, seen, failed, now, endAt);
        rest := rest - {fp};
        var page := ResolveOne(fp, seen, failed, now, endAt);
        if page.Some? {
          sent := sent + [ResolvedNow(page.value)];
        }
      }
      assert was == map fp | fp in was && fp !in rest :: was[fp];
    }

    method CleanUp(now: int)
      modifies this`active
      ensures active == map fp | fp in old(active) && !Outlived(old(active)[fp], now) :: old(active)[fp]
    {
      var rest := active.Keys;
      while rest != {}
        invariant rest <= old(active).Keys
        invariant active == map fp | fp in old(active) && (fp in rest || !Outlived(old(active)[fp], now)) ::
                  old(active)[fp]
        decreases |rest|
      {
        var fp := Pick(rest);
        rest := rest - {fp};
        if !active[fp].firing && active[fp].resolvedAt.Some? && now - active[fp].resolvedAt.value > RESOLVED_TTL {
          active := active - {fp};
        }
      }
    }

    method CleanUpSilences(now: int)
      modifies this`silences
      ensures silences == Unexpired(old(silences), now)
    {
      var rest := silences.Keys;
      while rest != {}
        invariant rest <= old(silences).Keys
        invariant silences ==
                  map id | id in old(silences) && (id in rest || !SilenceExpired(old(silences)[id], now)) ::
                    old(silences)[id]
        decreases |rest|
      {
        var id := Pick(rest);
        rest := rest - {id};
        if SilenceExpired(silences[id], now) {
          silences := silences - {id};
        }
      }
    }

    method Evaluate(paused: bool, checks: seq<Check>, now: int, endAt: int) returns (sent: seq<Notification>)
      modifies this`active, this`silences
      ensures paused ==> active == old(active) && silences == old(silences) && sent == []
      ensures var p := PassChecks(Pass(old(active), {}, {}, []), old(silences), disabled, checks, now);
              !paused ==>
                && active == EndOfTick(p.active, p.seen, p.failed, now) && silences == Unexpired(old(silences), now)
                && p.sent <= sent
                && forall n :: n in sent[|p.sent|..] <==>
                     n.ResolvedNow? && ResolvePages(p.active, old(silences), p.seen, p.failed, now, endAt, n.entry)
    {
      if paused {
        return [];
      }
      var seen, failed, fired := CheckPass(checks, now);
      hide Silenced, ResolvePages, PassChecks, EndOfTick, Unexpired;
      var resolved := ResolvePass(seen, failed, now, endAt);
      sent := fired + resolved;
      assert sent[|fired|..] == resolved;
    }
  }
}
