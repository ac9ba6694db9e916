/** What silences hold back, and what the check pass of a tick does, from the checks themselves. */
module AlertChecks {
  import opened Wrappers
  import opened AlertEngine

  // ---------- silences ----------

  /**
   * The silence does not apply: it has expired, names another rule, or asks for a label value the
   * alert does not have.
   */
  ghost predicate Mute(s: Silence, a: Alert, now: int) {
    || now > s.expiresAt
    || (s.rule != "" && s.rule != a.rule)
    || exists k :: k in s.matchers && s.matchers[k] != (if k in a.labels then a.labels[k] else "")
  }

  /** A page is held back exactly if some silence applies. */
  lemma SilencedIs(silences: map<string, Silence>, a: Alert, now: int)
    ensures Silenced(silences, a, now) <==> exists id :: id in silences && !Mute(silences[id], a, now)
  {
    forall id | id in silences
      ensures Mute(silences[id], a, now) <==> SilenceExpired(silences[id], now) || !SilenceMatches(silences[id], a)
    {
      assert forall k | k in silences[id].matchers :: LabelOf(a, k) == if k in a.labels then a.labels[k] else "";
    }
  }

  // ---------- the check pass ----------

  /** The reports the pass looks at: those of the enabled rules that did not fail, in order. */
  function Heard(cs: seq<Check>, disabled: set<string>): seq<Report>
    decreases |cs|
  {
    if cs == [] then []
    else
      Heard(cs[..|cs| - 1], disabled)
      + (if cs[|cs| - 1].rule !in disabled && cs[|cs| - 1].reports.Some? then cs[|cs| - 1].reports.value else [])
  }

  ghost predicate HeardFrom(cs: seq<Check>, disabled: set<string>, r: Report) {
    exists c :: c in cs && c.rule !in disabled && c.reports.Some? && r in c.reports.value
  }

  lemma {:induction false} HeardIs(cs: seq<Check>, disabled: set<string>, r: Report)
    ensures r in Heard(cs, disabled) <==> HeardFrom(cs, disabled, r)
    decreases |cs|
  {
    if cs != [] {
      var front, last := cs[..|cs| - 1], cs[|cs| - 1];
      assert cs == front + [last];
      HeardIs(front, disabled, r);
    }
  }

  lemma {:induction false} ReportsAppend(p: Pass, silences: map<string, Silence>, a: seq<Report>, b: seq<Report>,
                                         now: int)
    ensures PassReports(p, silences, a + b, now) == PassReports(PassReports(p, silences, a, now), silences, b, now)
    decreases |b|
  {
    hide PassReport;
    if b == [] {
      assert a + b == a;
    } else {
      assert (a + b)[..|a + b| - 1] == a + b[..|b| - 1];
      ReportsAppend(p, silences, a, b[..|b| - 1], now);
    }
  }

  lemma {:induction false} ReportsIgnoreFailures(p: Pass, silences: map<string, Silence>, rs: seq<Report>, now: int,
                                                 failed: set<string>)
    ensures PassReports(p.(failed := failed), silences, rs, now) == PassReports(p, silences, rs, now).(failed := failed)
    ensures PassReports(p, silences, rs, now).failed == p.failed
    decreases |rs|
  {
    if rs != [] {
      hide Silenced, Reported, Pages;
      ReportsIgnoreFailures(p, silences, rs[..|rs| - 1], now, failed);
    }
  }

  /** The pass over the checks is the pass over the reports it hears, with the enabled rules that failed noted. */
  lemma {:induction false} PassHears(p: Pass, silences: map<string, Silence>, disabled: set<string>, cs: seq<Check>,
                                     now: int)
    ensures var q := PassChecks(p, silences, disabled, cs, now);
            && q == PassReports(p, silences, Heard(cs, disabled), now).(failed := q.failed)
            && forall rule :: rule in q.failed <==>
                 rule in p.failed || exists c :: c in cs && c.rule == rule && rule !in disabled && c.reports.None?
    decreases |cs|
  {
    hide PassReports;
    if cs == [] {
      hide PassChecks;
      NothingHeard(p, silences, disabled, now);
    } else {
      var front, last := cs[..|cs| - 1], cs[|cs| - 1];
      assert cs == front + [last];
      PassHears(p, silences, disabled, front, now);
      var before := PassChecks(p, silences, disabled, front, now);
      var heard := Heard(front, disabled);
      if last.rule !in disabled && last.reports.Some? {
        ReportsAppend(p, silences, heard, last.reports.value, now);
        ReportsIgnoreFailures(PassReports(p, silences, heard, now), silences, last.reports.value, now, before.failed);
      } else {
        assert Heard(cs, disabled) == heard;
      }
    }
  }

  lemma NothingHeard(p: Pass, silences: map<string, Silence>, disabled: set<string>, now: int)
    ensures Heard([], disabled) == [] && PassChecks(p, silences, disabled, [], now) == p ==
              PassReports(p, silences, [], now)
  {
  }

  /** One of the reports is of fp; of those, one that no silence matches. */
  ghost predicate Mentions(rs: seq<Report>, fp: string) {
    exists r :: r in rs && r.fp == fp
  }

  ghost predicate Clear(rs: seq<Report>, silences: map<string, Silence>, fp: string) {
    exists r :: r in rs && r.fp == fp && !Silenced(silences, r.alert, r.at)
  }

  predicate Paged(active: Active, fp: string) {
    fp in active && active[fp].notified
  }

  /** What a fingerprint has become after the reports. */
  ghost predicate EntryAfter(active: Active, silences: map<string, Silence>, rs: seq<Report>, now: int, after: Active,
                             fp: string) {
    && (fp in after <==> fp in active || Mentions(rs, fp))
    && (Paged(after, fp) <==> Paged(active, fp) || Clear(rs, silences, fp))
    && (fp in active && fp in after ==> after[fp].(notified := active[fp].notified) == active[fp])
    && (fp !in active && fp in after ==>
          exists r :: r in rs && r.fp == fp && after[fp] == Entry(r.alert, true, now, None, after[fp].notified))
  }

  lemma MentionsSnoc(front: seq<Report>, r: Report, silences: map<string, Silence>, fp: string)
    ensures Mentions(front + [r], fp) <==> Mentions(front, fp) || r.fp == fp
    ensures Clear(front + [r], silences, fp) <==>
              Clear(front, silences, fp) || (r.fp == fp && !Silenced(silences, r.alert, r.at))
  {
    hide Silenced;
    assert forall x :: x in front + [r] <==> x in front || x == r;
  }

  lemma ReportStep(active: Active, silences: map<string, Silence>, front: seq<Report>, now: int, mid: Active,
                   r: Report, fp: string)
    requires EntryAfter(active, silences, front, now, mid, fp)
    ensures EntryAfter(active, silences, front + [r], now,
              Reported(mid, r.fp, r.alert, now, Silenced(silences, r.alert, r.at)), fp)
  {
    hide Silenced, Mentions, Clear;
    MentionsSnoc(front, r, silences, fp);
    assert forall x :: x in front + [r] <==> x in front || x == r;
    if fp !in active && fp in mid {
      var x :| x in front && x.fp == fp && mid[fp] == Entry(x.alert, true, now, None, mid[fp].notified);
      assert x in front + [r];
    }
    assert r in front + [r];
  }

  /**
   * After the reports exactly the known and the reported alerts have entries; exactly those paged
   * before or reported in the clear count as paged; old entries change in nothing else, and new
   * ones fire since now. Seen are exactly the reported ones.
   */
  lemma {:induction false} ReportsAre(p: Pass, silences: map<string, Silence>, rs: seq<Report>, now: int, fp: string)
    ensures var q := PassReports(p, silences, rs, now);
            && EntryAfter(p.active, silences, rs, now, q.active, fp)
            && (fp in q.seen <==> fp in p.seen || Mentions(rs, fp))
    decreases |rs|
  {
    if rs == [] {
    } else {
      var front, r := rs[..|rs| - 1], rs[|rs| - 1];
      assert rs == front + [r];
      ReportsAre(p, silences, front, now, fp);
      hide EntryAfter, Reported, Pages, Silenced, Mentions;
      MentionsSnoc(front, r, silences, fp);
      ReportStep(p.active, silences, front, now, PassReports(p, silences, front, now).active, r, fp);
    }
  }

  /** The fingerprints paged in after but not in before. */
  ghost function NewlyPaged(before: Active, after: Active): set<string> {
    set fp | fp in after && after[fp].notified && !(fp in before && before[fp].notified)
  }

  lemma PageStep(before: Active, mid: Active, fp: string, a: Alert, now: int, silenced: bool)
    requires forall x | Paged(before, x) :: Paged(mid, x)
    ensures var after := Reported(mid, fp, a, now, silenced);
            && (forall x | Paged(before, x) :: Paged(after, x))
            && (if Pages(mid, fp, a, now, silenced)
                then NewlyPaged(before, after) == NewlyPaged(before, mid) + {fp} && fp !in NewlyPaged(before, mid)
                else NewlyPaged(before, after) == NewlyPaged(before, mid))
  {
    var after := Reported(mid, fp, a, now, silenced);
    forall x
      ensures Paged(after, x) <==> Paged(mid, x) || (x == fp && Pages(mid, fp, a, now, silenced))
    {
    }
    forall x
      ensures x in NewlyPaged(before, after) <==>
                x in NewlyPaged(before, mid) || (x == fp && Pages(mid, fp, a, now, silenced))
    {
      assert x in NewlyPaged(before, after) <==> Paged(after, x) && !Paged(before, x);
      assert x in NewlyPaged(before, mid) <==> Paged(mid, x) && !Paged(before, x);
      assert Paged(before, fp) ==> Paged(mid, fp);
    }
  }

  /** Each alert that was not paged before and is afterwards was paged once, and no other page was sent. */
  lemma {:induction false} OnePageEach(p: Pass, silences: map<string, Silence>, rs: seq<Report>, now: int)
    ensures var q := PassReports(p, silences, rs, now);
            && |q.sent| == |p.sent| + |NewlyPaged(p.active, q.active)| && p.sent <= q.sent
            && forall x | Paged(p.active, x) :: Paged(q.active, x)
    decreases |rs|
  {
    if rs == [] {
      assert NewlyPaged(p.active, p.active) == {};
    } else {
      var front, r := rs[..|rs| - 1], rs[|rs| - 1];
      OnePageEach(p, silences, front, now);
      hide NewlyPaged, Reported, Pages, Silenced, Paged;
      PageStep(p.active, PassReports(p, silences, front, now).active, r.fp, r.alert, now,
        Silenced(silences, r.alert, r.at));
    }
  }

  /**
   * The check pass of a tick, from its checks: which alerts it has seen, which rules failed, what
   * became of each entry, and that each alert paged for the first time was paged once.
   */
  lemma CheckPassIs(active: Active, silences: map<string, Silence>, disabled: set<string>, cs: seq<Check>, now: int,
                    fp: string)
    ensures var p, rs := PassChecks(Pass(active, {}, {}, []), silences, disabled, cs, now), Heard(cs, disabled);
            && (fp in p.seen <==> exists r :: HeardFrom(cs, disabled, r) && r.fp == fp)
            && (fp in p.failed <==> exists c :: c in cs && c.rule == fp && fp !in disabled && c.reports.None?)
            && EntryAfter(active, silences, rs, now, p.active, fp)
            && |p.sent| == |NewlyPaged(active, p.active)|
  {
    hide EntryAfter, NewlyPaged, PassChecks, PassReports, HeardFrom;
    var start := Pass(active, {}, {}, []);
    var rs := Heard(cs, disabled);
    PassHears(start, silences, disabled, cs, now);
    ReportsAre(start, silences, rs, now, fp);
    OnePageEach(start, silences, rs, now);
    forall r
      ensures r in rs <==> HeardFrom(cs, disabled, r)
    {
      HeardIs(cs, disabled, r);
    }
  }
}
