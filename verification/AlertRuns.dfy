/**
 * Runs of the alert engine: evaluations advance one lock acquisition at a time, with silence
 * changes, rule toggles and the passing of time in between. A residency of a fingerprint is
 * the time from its insertion into the active map to its deletion; residencies are numbered.
 */
module AlertRuns {
  import opened Wrappers
  import opened AlertEngine

  /** An evaluation in progress. */
  datatype Tick = Tick(now: int, disabled: set<string>, seen: set<string>, failed: set<string>)

  /**
   * residency numbers the entries of active; pages lists the residencies paged by check
   * passes, in order; clear holds those reported while no silence matched.
   */
  datatype State = State(now: int, active: Active, silences: map<string, Silence>, disabled: set<string>,
                         ticks: map<nat, Tick>,
                         residency: map<string, nat>, born: nat, pages: seq<nat>, clear: set<nat>)

  datatype Action =
    | Wait(dt: nat)
    | AddSilence(id: string, s: Silence)
    | RemoveSilence(id: string)
    | Toggle(rule: string, enabled: bool)
    | BeginTick(t: nat, paused: bool)
    | RuleFails(t: nat, rule: string)
    | RuleReports(t: nat, rule: string, fp: string, a: Alert)
    | EndTick(t: nat)

  function DoReport(s: State, t: nat, rule: string, fp: string, a: Alert): State {
    if t !in s.ticks || rule in s.ticks[t].disabled then s
    else
      var silenced := Silenced(s.silences, a, s.now);
      var r := if fp in s.residency then s.residency[fp] else s.born;
      s.(active := Reported(s.active, fp, a, s.ticks[t].now, silenced),
         ticks := s.ticks[t := s.ticks[t].(seen := s.ticks[t].seen + {fp})],
         residency := s.residency[fp := r],
         born := if fp in s.residency then s.born else s.born + 1,
         pages := if Pages(s.active, fp, a, s.ticks[t].now, silenced) then s.pages + [r] else s.pages,
         clear := if silenced then s.clear else s.clear + {r})
  }

  function DoEndTick(s: State, t: nat): State {
    if t !in s.ticks then s
    else
      var k := s.ticks[t];
      var active := EndOfTick(s.active, k.seen, k.failed, k.now);
      s.(active := active, silences := Unexpired(s.silences, k.now), ticks := s.ticks - {t},
         residency := map fp | fp in s.residency && fp in active :: s.residency[fp])
  }

  function Next(s: State, a: Action): State {
    match a
    case Wait(dt) => s.(now := s.now + dt)
    case AddSilence(id, x) => s.(silences := s.silences[id := x])
    case RemoveSilence(id) => s.(silences := s.silences - {id})
    case Toggle(rule, enabled) => s.(disabled := if enabled then s.disabled - {rule} else s.disabled + {rule})
    case BeginTick(t, paused) =>
      if t in s.ticks || paused then s else s.(ticks := s.ticks[t := Tick(s.now, s.disabled, {}, {})])
    case RuleFails(t, rule) =>
      if t !in s.ticks || rule in s.ticks[t].disabled then s
      else s.(ticks := s.ticks[t := s.ticks[t].(failed := s.ticks[t].failed + {rule})])
    case RuleReports(t, rule, fp, x) => DoReport(s, t, rule, fp, x)
    case EndTick(t) => DoEndTick(s, t)
  }

  function Run(s: State, actions: seq<Action>): State
    decreases |actions|
  {
    if actions == [] then s else Next(Run(s, actions[..|actions| - 1]), actions[|actions| - 1])
  }

  function Start(now: int): State {
    State(now, map[], map[], {}, map[], map[], 0, [], {})
  }

  // ---------- the invariant ----------

  /** Entries are numbered apart, below the next number. */
  ghost predicate Numbered(keys: set<string>, residency: map<string, nat>, born: nat) {
    && residency.Keys == keys
    && (forall fp | fp in residency :: residency[fp] < born)
    && (forall a, b | a in residency && b in residency && a != b :: residency[a] != residency[b])
  }

  /** The pages are exactly the residencies reported in the clear, each once. */
  ghost predicate PagesOk(pages: seq<nat>, clear: set<nat>, born: nat) {
    && (forall i, j | 0 <= i < j < |pages| :: pages[i] != pages[j])
    && (forall r :: r in pages <==> r in clear)
    && (forall r | r in clear :: r < born)
  }

  ghost predicate FlagsOk(active: Active, residency: map<string, nat>, clear: set<nat>) {
    forall fp | fp in active && fp in residency :: active[fp].notified <==> residency[fp] in clear
  }

  ghost predicate Inv(s: State) {
    Numbered(s.active.Keys, s.residency, s.born) && PagesOk(s.pages, s.clear, s.born)
      && FlagsOk(s.active, s.residency, s.clear)
  }

  lemma ReportNumbers(keys: set<string>, residency: map<string, nat>, born: nat, fp: string)
    requires Numbered(keys, residency, born)
    ensures var r := if fp in residency then residency[fp] else born;
            Numbered(keys + {fp}, residency[fp := r], if fp in residency then born else born + 1)
  {
  }

  lemma ReportPages(pages: seq<nat>, clear: set<nat>, born: nat, born1: nat, r: nat, silenced: bool)
    requires PagesOk(pages, clear, born) && born <= born1 && r < born1
    ensures var pages1 := if silenced || r in clear then pages else pages + [r];
            PagesOk(pages1, if silenced then clear else clear + {r}, born1)
  {
  }

  lemma ReportKeeps(s: State, t: nat, rule: string, fp: string, a: Alert)
    requires Inv(s)
    ensures Inv(DoReport(s, t, rule, fp, a))
  {
    hide Silenced, Numbered, PagesOk;
    if t in s.ticks && rule !in s.ticks[t].disabled {
      var silenced := Silenced(s.silences, a, s.now);
      ReportNumbers(s.active.Keys, s.residency, s.born, fp);
      Known(s.active.Keys, s.residency, s.born, s.pages, s.clear, fp);
      var r := if fp in s.residency then s.residency[fp] else s.born;
      ReportPages(s.pages, s.clear, s.born, if fp in s.residency then s.born else s.born + 1, r, silenced);
      assert Reported(s.active, fp, a, s.ticks[t].now, silenced).Keys == s.active.Keys + {fp};
    }
  }

  lemma Known(keys: set<string>, residency: map<string, nat>, born: nat, pages: seq<nat>, clear: set<nat>, fp: string)
    requires Numbered(keys, residency, born) && PagesOk(pages, clear, born)
    ensures residency.Keys == keys && born !in clear && (fp in residency ==> residency[fp] < born)
    ensures forall x | x in residency && x != fp && fp in residency :: residency[x] != residency[fp]
    ensures forall x | x in residency :: residency[x] != born
  {
  }

  lemma EndTickKeeps(s: State, t: nat)
    requires Inv(s)
    ensures Inv(DoEndTick(s, t))
  {
    hide PagesOk, Outlived, Unexpired;
  }

  lemma NextKeeps(s: State, a: Action)
    requires Inv(s)
    ensures Inv(Next(s, a))
  {
    hide DoReport, DoEndTick, Numbered, PagesOk, FlagsOk;
    match a
    case RuleReports(t, rule, fp, x) => ReportKeeps(s, t, rule, fp, x);
    case EndTick(t) => EndTickKeeps(s, t);
    case _ =>
  }

  lemma {:induction false} RunKeeps(now: int, actions: seq<Action>)
    ensures Inv(Run(Start(now), actions))
    decreases |actions|
  {
    if actions != [] {
      hide Inv, Next;
      RunKeeps(now, actions[..|actions| - 1]);
      NextKeeps(Run(Start(now), actions[..|actions| - 1]), actions[|actions| - 1]);
    }
  }

  // ---------- guarantees ----------

  ghost predicate Reachable(s: State) {
    exists now, actions :: s == Run(Start(now), actions)
  }

  lemma ReachableInv(s: State)
    requires Reachable(s)
    ensures Inv(s)
  {
    var now, actions :| s == Run(Start(now), actions);
    RunKeeps(now, actions);
  }

  /** No residency is paged twice by check passes, and one is paged exactly if it was reported unsilenced. */
  lemma PagedAtMostOnce(s: State)
    requires Reachable(s)
    ensures forall i, j | 0 <= i < j < |s.pages| :: s.pages[i] != s.pages[j]
    ensures forall r :: r in s.pages <==> r in s.clear
  {
    ReachableInv(s);
  }

  /** An entry keeps its residency number for as long as it stays, and a new entry gets a number never used before. */
  lemma ResidencyIsStable(s: State, a: Action, fp: string)
    requires Reachable(s) && fp in Next(s, a).residency
    ensures fp in s.residency ==> Next(s, a).residency[fp] == s.residency[fp]
    ensures fp !in s.residency ==> Next(s, a).residency[fp] == s.born && s.born !in s.clear
    ensures forall x | x in s.residency :: s.residency[x] < s.born
  {
    ReachableInv(s);
    hide Silenced, Unexpired, EndOfTick, Reported, Pages;
  }

  /** The action is a report that a running tick acts on. */
  predicate Reports(s: State, a: Action) {
    a.RuleReports? && a.t in s.ticks && a.rule !in s.ticks[a.t].disabled
  }

  /** It is the first of its residency that no silence matches. */
  ghost predicate FirstClearReport(s: State, a: Action) {
    && Reports(s, a) && !Silenced(s.silences, a.a, s.now)
    && (a.fp in s.residency ==> s.residency[a.fp] !in s.clear)
  }

  /** A check pass pages exactly with the first report of a residency that no silence matches. */
  lemma PagedOnFirstClearReport(s: State, a: Action)
    requires Reachable(s)
    ensures FirstClearReport(s, a) ==>
              a.fp in Next(s, a).residency && Next(s, a).pages == s.pages + [Next(s, a).residency[a.fp]]
    ensures !FirstClearReport(s, a) ==> Next(s, a).pages == s.pages
  {
    ReachableInv(s);
    hide Silenced;
  }

  /**
   * The end of a tick resolves a firing alert exactly if the tick neither saw it reported nor
   * saw its rule fail; whatever else happens, a firing alert stays as it is.
   */
  lemma FiringUntilResolved(s: State, a: Action, fp: string)
    requires fp in s.active && s.active[fp].firing
    ensures fp in Next(s, a).active
    ensures !Next(s, a).active[fp].firing <==>
              a.EndTick? && a.t in s.ticks && fp !in s.ticks[a.t].seen
                && s.active[fp].alert.rule !in s.ticks[a.t].failed
  {
    hide Silenced, Unexpired;
  }

  /** A rule that failed in a tick is remembered as failed until the tick ends. */
  lemma FailureIsRemembered(s: State, a: Action, t: nat, rule: string)
    requires t in s.ticks && rule in s.ticks[t].failed && a != EndTick(t)
    ensures t in Next(s, a).ticks && rule in Next(s, a).ticks[t].failed
  {
    hide Silenced, Unexpired, EndOfTick, Reported, Pages;
  }

  /**
   * An alert whose rule fails in a tick is still firing when that tick ends, whatever happens
   * in between, as long as no other tick ends meanwhile.
   */
  lemma {:induction false} FailedRuleKeepsFiring(s: State, t: nat, fp: string, between: seq<Action>)
    requires fp in s.active && s.active[fp].firing && t in s.ticks && s.active[fp].alert.rule in s.ticks[t].failed
    requires forall a | a in between :: !a.EndTick?
    ensures var s1 := Run(s, between);
            && fp in s1.active && s1.active[fp].firing && s1.active[fp].alert == s.active[fp].alert
            && t in s1.ticks && s.active[fp].alert.rule in s1.ticks[t].failed
            && fp in Next(s1, EndTick(t)).active && Next(s1, EndTick(t)).active[fp].firing
    decreases |between|
  {
    hide Next;
    if between != [] {
      var front, last := between[..|between| - 1], between[|between| - 1];
      assert between == front + [last];
      FailedRuleKeepsFiring(s, t, fp, front);
      FiringUntilResolved(Run(s, front), last, fp);
      FailureIsRemembered(Run(s, front), last, t, s.active[fp].alert.rule);
      AlertNeverChanges(Run(s, front), last, fp);
    }
    FiringUntilResolved(Run(s, between), EndTick(t), fp);
  }

  lemma AlertNeverChanges(s: State, a: Action, fp: string)
    requires fp in s.active && fp in Next(s, a).active
    ensures Next(s, a).active[fp].alert == s.active[fp].alert
  {
    hide Silenced, Unexpired;
  }

  /**
   * After a report its alert is firing exactly if it was firing before or had no entry; a new
   * entry starts now, and of an old one at most the page flag changes.
   */
  lemma ReportRevivesNothing(s: State, a: Action)
    requires Reports(s, a)
    ensures a.fp in Next(s, a).active
    ensures Next(s, a).active[a.fp].firing <==> a.fp !in s.active || s.active[a.fp].firing
    ensures var clear, e := !Silenced(s.silences, a.a, s.now), Next(s, a).active[a.fp];
            if a.fp in s.active then e == s.active[a.fp].(notified := s.active[a.fp].notified || clear)
            else e == Entry(a.a, true, s.ticks[a.t].now, None, clear)
    ensures forall fp | fp != a.fp :: fp in Next(s, a).active <==> fp in s.active
    ensures forall fp | fp != a.fp && fp in s.active :: Next(s, a).active[fp] == s.active[fp]
  {
    hide Silenced;
  }

  /** A resolved alert never fires again within its residency, however often it is reported, and its time runs on. */
  lemma ResolvedIsFinal(s: State, a: Action, fp: string)
    requires fp in s.active && !s.active[fp].firing && fp in Next(s, a).active
    ensures !Next(s, a).active[fp].firing && Next(s, a).active[fp].resolvedAt == s.active[fp].resolvedAt
  {
    hide Silenced, Unexpired;
  }

  /** Ticks began no later than now, and exactly the resolved entries have a time of resolution. */
  ghost predicate TimesOk(s: State) {
    (forall t | t in s.ticks :: s.ticks[t].now <= s.now) && (forall fp | fp in s.active :: ResolvedAtOk(s.active[fp]))
  }

  predicate ResolvedAtOk(e: Entry) {
    e.resolvedAt.Some? <==> !e.firing
  }

  lemma NextKeepsTime(s: State, a: Action)
    requires TimesOk(s)
    ensures TimesOk(Next(s, a)) && s.now <= Next(s, a).now
  {
    hide Silenced, Unexpired;
  }

  lemma {:induction false} DarkRun(s: State, fp: string, actions: seq<Action>)
    requires Inv(s) && TimesOk(s)
    requires fp in s.active && !s.active[fp].firing
    requires Run(s, actions).now - s.active[fp].resolvedAt.value <= RESOLVED_TTL
    ensures var s1 := Run(s, actions);
            && Inv(s1) && TimesOk(s1) && fp in s1.active && s1.residency[fp] == s.residency[fp]
            && !s1.active[fp].firing && s1.active[fp].resolvedAt == s.active[fp].resolvedAt
    decreases |actions|
  {
    if actions != [] {
      var front, last := actions[..|actions| - 1], actions[|actions| - 1];
      RunKeepsTime(s, front);
      NextKeepsTime(Run(s, front), last);
      DarkRun(s, fp, front);
      DarkStep(Run(s, front), last, fp);
    }
  }

  /**
   * For five minutes after it resolved an alert stays dark: whatever happens, and however often
   * its rule reports it, it keeps its entry and its residency and is not firing.
   */
  lemma DarkForTtl(s: State, fp: string, actions: seq<Action>)
    requires Reachable(s) && fp in s.active && !s.active[fp].firing
    ensures s.active[fp].resolvedAt.Some?
    ensures Run(s, actions).now - s.active[fp].resolvedAt.value <= 300_000_000_000 ==>
              var s1 := Run(s, actions);
              && fp in s.residency && fp in s1.residency && s1.residency[fp] == s.residency[fp]
              && fp in s1.active && !s1.active[fp].firing && s1.active[fp].resolvedAt == s.active[fp].resolvedAt
  {
    ReachableInv(s);
    var now, past :| s == Run(Start(now), past);
    RunKeepsTime(Start(now), past);
    if Run(s, actions).now - s.active[fp].resolvedAt.value <= RESOLVED_TTL {
      DarkRun(s, fp, actions);
    }
  }

  lemma {:induction false} RunKeepsTime(s: State, actions: seq<Action>)
    requires TimesOk(s)
    ensures TimesOk(Run(s, actions)) && s.now <= Run(s, actions).now
    decreases |actions|
  {
    if actions != [] {
      hide Next;
      RunKeepsTime(s, actions[..|actions| - 1]);
      NextKeepsTime(Run(s, actions[..|actions| - 1]), actions[|actions| - 1]);
    }
  }

  lemma DarkStep(s: State, a: Action, fp: string)
    requires Inv(s) && TimesOk(s)
    requires fp in s.active && !s.active[fp].firing
    requires s.now - s.active[fp].resolvedAt.value <= RESOLVED_TTL
    ensures Inv(Next(s, a)) && fp in Next(s, a).active && Next(s, a).residency[fp] == s.residency[fp]
    ensures !Next(s, a).active[fp].firing && Next(s, a).active[fp].resolvedAt == s.active[fp].resolvedAt
  {
    hide Inv;
    NextKeeps(s, a);
    ForgottenAfterTtl(s, a, fp);
    ResolvedIsFinal(s, a, fp);
    KeysAgree(s);
    KeysAgree(Next(s, a));
    StaysInResidency(s, a, fp);
  }

  lemma KeysAgree(s: State)
    requires Inv(s)
    ensures s.residency.Keys == s.active.Keys
  {
  }

  lemma StaysInResidency(s: State, a: Action, fp: string)
    requires fp in s.residency && fp in Next(s, a).residency
    ensures Next(s, a).residency[fp] == s.residency[fp]
  {
    hide Silenced, Unexpired, EndOfTick, Reported, Pages;
  }

  lemma {:induction false} RunAppend(s: State, a: seq<Action>, b: seq<Action>)
    ensures Run(s, a + b) == Run(Run(s, a), b)
    decreases |b|
  {
    if b == [] {
      assert a + b == a;
    } else {
      var front, last := b[..|b| - 1], b[|b| - 1];
      RunAppend(s, a, front);
      assert a + b == (a + front) + [last];
    }
  }

  lemma RunThree(s: State, a: Action, b: Action, c: Action)
    ensures Run(s, [a, b, c]) == Next(Next(Next(s, a), b), c)
  {
    RunAppend(s, [a, b], [c]);
    RunAppend(s, [a], [b]);
    assert [a] + [b] == [a, b] && [a, b] + [c] == [a, b, c];
    assert Run(s, [a]) == Next(s, a);
  }

  /** An alert fires, is gone for a tick and is back at the next one. */
  function Fires(x: Alert): seq<Action> {
    [BeginTick(0, false), RuleReports(0, x.rule, "fp", x), EndTick(0)]
  }

  function Goes(): seq<Action> {
    [Wait(1), BeginTick(1, false), EndTick(1)]
  }

  function Returns(x: Alert): seq<Action> {
    [Wait(1), BeginTick(2, false), RuleReports(2, x.rule, "fp", x)]
  }

  /** Nothing is silenced, disabled or in progress, and this is the one entry. */
  ghost predicate OnlyEntry(s: State, now: int, e: Entry) {
    s.now == now && s.active == map["fp" := e] && s.silences == map[] && s.disabled == {} && s.ticks == map[]
  }

  lemma AfterFires(now: int, x: Alert)
    ensures OnlyEntry(Run(Start(now), Fires(x)), now, Entry(x, true, now, None, true))
  {
    var steps := Fires(x);
    RunThree(Start(now), steps[0], steps[1], steps[2]);
  }

  lemma AfterGoes(s: State, now: int, x: Alert)
    requires OnlyEntry(s, now, Entry(x, true, now, None, true))
    ensures OnlyEntry(Run(s, Goes()), now + 1, Entry(x, false, now, Some(now + 1), true))
  {
    var steps := Goes();
    RunThree(s, steps[0], steps[1], steps[2]);
  }

  lemma AfterReturns(s: State, now: int, e: Entry, x: Alert)
    requires OnlyEntry(s, now, e) && e.notified
    ensures Run(s, Returns(x)).active == s.active
    ensures 2 in Run(s, Returns(x)).ticks && Run(s, Returns(x)).ticks[2].seen == {"fp"}
  {
    var steps := Returns(x);
    RunThree(s, steps[0], steps[1], steps[2]);
  }

  /** The alert that came back is seen by the third tick and is not firing. */
  lemma RecurringAlertStaysDark(now: int, x: Alert)
    ensures var s := Run(Start(now), Fires(x) + Goes() + Returns(x));
            && Reachable(s) && s.active == map["fp" := Entry(x, false, now, Some(now + 1), true)]
            && 2 in s.ticks && s.ticks[2].seen == {"fp"}
  {
    hide Run, Fires, Goes, Returns;
    RunAppend(Start(now), Fires(x) + Goes(), Returns(x));
    RunAppend(Start(now), Fires(x), Goes());
    AfterFires(now, x);
    AfterGoes(Run(Start(now), Fires(x)), now, x);
    AfterReturns(Run(Start(now), Fires(x) + Goes()), now + 1, Entry(x, false, now, Some(now + 1), true), x);
  }

  /** A tick forgets an alert exactly if it resolved more than five minutes before the tick began. */
  lemma ForgottenAfterTtl(s: State, a: Action, fp: string)
    requires fp in s.active && s.active[fp].resolvedAt.Some? == !s.active[fp].firing
    ensures fp !in Next(s, a).active <==>
              a.EndTick? && a.t in s.ticks && !s.active[fp].firing
                && s.ticks[a.t].now - s.active[fp].resolvedAt.value > 300_000_000_000
  {
    hide Silenced, Unexpired;
  }

  /** Silences and rule toggles take effect at once, and nothing else touches them but the end of a tick. */
  lemma ControlsTakeEffect(s: State, a: Action)
    ensures a.AddSilence? ==> a.id in Next(s, a).silences && Next(s, a).silences[a.id] == a.s
    ensures a.RemoveSilence? ==> a.id !in Next(s, a).silences
    ensures !a.EndTick? ==> forall id | !(a.AddSilence? && a.id == id) && !(a.RemoveSilence? && a.id == id) ::
              (id in Next(s, a).silences <==> id in s.silences)
              && (id in s.silences ==> Next(s, a).silences[id] == s.silences[id])
    ensures forall rule :: rule in Next(s, a).disabled <==>
              if a.Toggle? && a.rule == rule then !a.enabled else rule in s.disabled
    ensures Next(s, a).now == s.now + (if a.Wait? then a.dt else 0)
  {
    hide Silenced, Unexpired, EndOfTick, Reported, Pages;
  }

  // ---------- a whole tick ----------

  /** Between the begin of tick t and now an enabled rule reported fp. */
  ghost predicate ReportedIn(between: seq<Action>, t: nat, disabled: set<string>, fp: string) {
    exists a :: a in between && a.RuleReports? && a.t == t && a.fp == fp && a.rule !in disabled
  }

  ghost predicate FailedIn(between: seq<Action>, t: nat, disabled: set<string>, rule: string) {
    exists a :: a in between && a.RuleFails? && a.t == t && a.rule == rule && rule !in disabled
  }

  lemma TickStep(s: State, a: Action, t: nat)
    requires t in s.ticks && a != EndTick(t)
    ensures t in Next(s, a).ticks
    ensures var k, k1 := s.ticks[t], Next(s, a).ticks[t];
            && k1.now == k.now && k1.disabled == k.disabled
            && k1.seen == (if a.RuleReports? && a.t == t && a.rule !in k.disabled then k.seen + {a.fp} else k.seen)
            && k1.failed == (if a.RuleFails? && a.t == t && a.rule !in k.disabled then k.failed + {a.rule}
                  else k.failed)
  {
    hide Silenced, Unexpired, EndOfTick, Reported, Pages;
  }

  /** What a tick has seen and failed is what the rules enabled at its begin reported and failed in it. */
  lemma {:induction false} TickRemembers(s: State, t: nat, between: seq<Action>)
    requires t !in s.ticks && EndTick(t) !in between
    ensures var s1 := Run(Next(s, BeginTick(t, false)), between);
            && t in s1.ticks && s1.ticks[t].now == s.now && s1.ticks[t].disabled == s.disabled
            && (forall fp :: fp in s1.ticks[t].seen <==> ReportedIn(between, t, s.disabled, fp))
            && (forall rule :: rule in s1.ticks[t].failed <==> FailedIn(between, t, s.disabled, rule))
    decreases |between|
  {
    hide Next;
    if between == [] {
      TickBegins(s, t);
    } else {
      var front, last := between[..|between| - 1], between[|between| - 1];
      assert between == front + [last];
      TickRemembers(s, t, front);
      TickStep(Run(Next(s, BeginTick(t, false)), front), last, t);
    }
  }

  lemma TickBegins(s: State, t: nat)
    requires t !in s.ticks
    ensures Next(s, BeginTick(t, false)) == s.(ticks := s.ticks[t := Tick(s.now, s.disabled, {}, {})])
    ensures Next(s, BeginTick(t, true)) == s
  {
  }

  /**
   * An alert that is firing when a tick ends is still firing afterwards exactly if a rule enabled
   * at the begin of the tick reported it during the tick, or its own rule failed in it.
   */
  lemma TickKeepsExactlyReported(s: State, t: nat, between: seq<Action>, fp: string)
    requires t !in s.ticks && EndTick(t) !in between
    requires var s1 := Run(Next(s, BeginTick(t, false)), between); fp in s1.active && s1.active[fp].firing
    ensures var s1 := Run(Next(s, BeginTick(t, false)), between);
            && fp in Next(s1, EndTick(t)).active
            && (Next(s1, EndTick(t)).active[fp].firing <==>
                  ReportedIn(between, t, s.disabled, fp) || FailedIn(between, t, s.disabled, s1.active[fp].alert.rule))
  {
    hide Next;
    TickRemembers(s, t, between);
    FiringUntilResolved(Run(Next(s, BeginTick(t, false)), between), EndTick(t), fp);
  }

  /** The end of a tick drops exactly the silences that had expired when it began. */
  lemma SilencesExpire(s: State, t: nat, id: string)
    requires t in s.ticks
    ensures id in Next(s, EndTick(t)).silences <==> id in s.silences && s.ticks[t].now <= s.silences[id].expiresAt
    ensures id in Next(s, EndTick(t)).silences ==> Next(s, EndTick(t)).silences[id] == s.silences[id]
    ensures t !in Next(s, EndTick(t)).ticks
  {
    hide EndOfTick;
  }
}
