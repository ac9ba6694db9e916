/** What the propagation tracker guarantees over any sequence of events. */
module PropagationRuns {
  import opened Wrappers
  import opened PropagationTracker

  /**
   * A run: the tracker, the NB_Global rows it has seen (its seed among them), and for each
   * chassis that was deleted the length of the log at its last deletion.
   */
  datatype Run = Run(t: Tracker, seen: set<(int, int)>, deletedAt: map<string, nat>)

  function Step(r: Run, e: Event): Run {
    Run(Next(r.t, e),
        if e.NbGlobal? then r.seen + {(e.cfg, e.ts)} else r.seen,
        if e.ChassisGone? then r.deletedAt[e.name := |r.t.log|] else r.deletedAt)
  }

  function Steps(r: Run, events: seq<Event>): Run
    decreases |events|
  {
    if events == [] then r else Step(Steps(r, events[..|events| - 1]), events[|events| - 1])
  }

  function Begin(seed: Tracker): Run {
    Run(seed, {(seed.gen, seed.nbTs)}, map[])
  }

  /** Where the current life of a chassis begins in the log. */
  function Since(deletedAt: map<string, nat>, name: string): nat {
    if name in deletedAt then deletedAt[name] else 0
  }

  /** Every entry of the log tells what it should about its generation and its latency. */
  ghost predicate LogOk(log: seq<Recorded>, seen: set<(int, int)>) {
    forall e | e in log ::
      && (e.generation, e.nbTs) in seen && e.nbTs > 0 && e.chassisTs > 0
      && e.latency == if e.chassisTs < e.nbTs then 0 else e.chassisTs - e.nbTs
  }

  /** Within one life of a chassis its recorded generations increase, up to the last one marked. */
  ghost predicate IncreasingPerLife(log: seq<Recorded>, deletedAt: map<string, nat>) {
    forall i, j | 0 <= i < j < |log| && log[i].chassis == log[j].chassis && Since(deletedAt, log[i].chassis) <= i ::
      log[i].generation < log[j].generation
  }

  ghost predicate BelowLast(t: Tracker, deletedAt: map<string, nat>) {
    && (forall i | 0 <= i < |t.log| && Since(deletedAt, t.log[i].chassis) <= i ::
          t.log[i].generation <= LastOf(t, t.log[i].chassis))
    && (forall name | name in deletedAt :: deletedAt[name] <= |t.log|)
  }

  ghost predicate Inv(r: Run) {
    && LogOk(r.t.log, r.seen) && IncreasingPerLife(r.t.log, r.deletedAt) && BelowLast(r.t, r.deletedAt)
    && (r.t.nbTs > 0 ==> (r.t.gen, r.t.nbTs) in r.seen)
  }

  // ---------- each step keeps it ----------

  lemma LogOkSnoc(log: seq<Recorded>, seen: set<(int, int)>, e: Recorded)
    requires LogOk(log, seen) && LogOk([e], seen)
    ensures LogOk(log + [e], seen)
  {
    assert e in [e];
  }

  lemma IncreasingSnoc(log: seq<Recorded>, deletedAt: map<string, nat>, e: Recorded, last: int)
    requires IncreasingPerLife(log, deletedAt) && last < e.generation
    requires forall i | 0 <= i < |log| && log[i].chassis == e.chassis && Since(deletedAt, e.chassis) <= i ::
              log[i].generation <= last
    ensures IncreasingPerLife(log + [e], deletedAt)
  {
    hide Since;
  }

  lemma MarkKeepsBelow(t: Tracker, deletedAt: map<string, nat>, p: Private)
    requires BelowLast(t, deletedAt) && LastOf(t, p.name) <= p.cfg
    ensures BelowLast(t.(lastGen := t.lastGen[p.name := p.cfg]), deletedAt)
  {
    hide Since;
  }

  lemma LogKeepsBelow(t: Tracker, deletedAt: map<string, nat>, e: Recorded)
    requires BelowLast(t, deletedAt) && e.generation <= LastOf(t, e.chassis)
    ensures BelowLast(t.(log := t.log + [e]), deletedAt)
  {
    hide Since;
  }

  lemma CatchUpKeeps(r: Run, p: Private, now: int)
    requires Inv(r) && r.t.nbTs > 0 && p.cfg >= r.t.gen && LastOf(r.t, p.name) < r.t.gen
    ensures Inv(r.(t := CatchUp(r.t, p, now)))
  {
    MarkKeepsBelow(r.t, r.deletedAt, p);
    if p.ts > 0 {
      var latency := if p.ts - r.t.nbTs < 0 then 0 else p.ts - r.t.nbTs;
      var e := Recorded(r.t.gen, r.t.nbTs, p.name, HostOf(r.t, p.name), p.ts, latency, now);
      LogOkSnoc(r.t.log, r.seen, e);
      IncreasingSnoc(r.t.log, r.deletedAt, e, LastOf(r.t, p.name));
      hide LogOk, IncreasingPerLife, BelowLast;
      LogKeepsBelow(r.t.(lastGen := r.t.lastGen[p.name := p.cfg]), r.deletedAt, e);
    }
  }

  lemma {:induction false} ScanKeeps(r: Run, ps: seq<Private>, now: int)
    requires Inv(r) && r.t.nbTs > 0
    ensures Inv(r.(t := Scan(r.t, ps, now)))
    ensures Scan(r.t, ps, now).gen == r.t.gen && Scan(r.t, ps, now).nbTs == r.t.nbTs
  {
    hide Inv;
    if ps != [] {
      ScanKeeps(r, ps[..|ps| - 1], now);
      var before := r.(t := Scan(r.t, ps[..|ps| - 1], now));
      var p := ps[|ps| - 1];
      if p.cfg >= before.t.gen && LastOf(before.t, p.name) < before.t.gen {
        CatchUpKeeps(before, p, now);
      }
    }
  }

  lemma AdvanceKeeps(r: Run, cfg: int, ts: int)
    requires Inv(r)
    ensures Inv(r.(t := Advance(r.t, cfg, ts), seen := r.seen + {(cfg, ts)}))
  {
    hide IncreasingPerLife;
  }

  lemma GoneKeeps(r: Run, name: string)
    requires Inv(r)
    ensures Inv(Step(r, ChassisGone(name)))
  {
    hide LogOk;
  }

  lemma StepKeeps(r: Run, e: Event)
    requires Inv(r)
    ensures Inv(Step(r, e))
  {
    match e
    case NbGlobal(cfg, ts, privates, now) =>
      hide Inv, Scan;
      AdvanceKeeps(r, cfg, ts);
      var a := r.(t := Advance(r.t, cfg, ts), seen := r.seen + {(cfg, ts)});
      if privates.Some? && a.t.nbTs > 0 {
        ScanKeeps(a, privates.value, now);
      }
    case ChassisPrivate(p, now) =>
      hide IncreasingPerLife, LogOk, BelowLast;
      if Next(r.t, e) != r.t {
        CatchUpKeeps(r, p, now);
      }
    case ChassisUp(_, _) =>
      hide IncreasingPerLife, LogOk;
    case ChassisGone(name) =>
      hide Inv;
      GoneKeeps(r, name);
  }

  lemma {:induction false} RunKeeps(seed: Tracker, events: seq<Event>)
    requires seed.log == []
    ensures Inv(Steps(Begin(seed), events))
    decreases |events|
  {
    if events != [] {
      hide Inv;
      RunKeeps(seed, events[..|events| - 1]);
      StepKeeps(Steps(Begin(seed), events[..|events| - 1]), events[|events| - 1]);
    }
  }

  // ---------- what the tracker starts from, and what it follows ----------

  function GenPairs(privates: seq<Private>): (p: seq<(string, int)>)
    ensures |p| == |privates| && forall i | 0 <= i < |privates| :: p[i] == (privates[i].name, privates[i].cfg)
  {
    seq(|privates|, i requires 0 <= i < |privates| => (privates[i].name, privates[i].cfg))
  }

  /** The seed takes for each name the last hostname and the last generation listed, and knows no other name. */
  lemma {:induction false} SeedTakesLast(chassis: seq<(string, string)>, privates: seq<Private>, name: string,
                                         host: string, cfg: int)
    ensures name in HostsOf(chassis) && HostsOf(chassis)[name] == host <==> LastEntry(chassis, name, host)
    ensures name in GensOf(privates) && GensOf(privates)[name] == cfg <==> LastEntry(GenPairs(privates), name, cfg)
    ensures name in HostsOf(chassis) ==> exists i :: 0 <= i < |chassis| && chassis[i].0 == name
    ensures name in GensOf(privates) ==> exists i :: 0 <= i < |privates| && privates[i].name == name
    decreases |chassis| + |privates|
  {
    hide LastEntry;
    if chassis != [] {
      var front, last := chassis[..|chassis| - 1], chassis[|chassis| - 1];
      assert chassis == front + [last];
      SeedTakesLast(front, privates, name, host, cfg);
      LastEntrySnoc(front, last, name, host);
    } else if privates != [] {
      var front, last := privates[..|privates| - 1], privates[|privates| - 1];
      SeedTakesLast(chassis, front, name, host, cfg);
      assert GenPairs(privates) == GenPairs(front) + [(last.name, last.cfg)];
      LastEntrySnoc(GenPairs(front), (last.name, last.cfg), name, cfg);
    } else {
      NoEntry(name, host);
      NoEntry(name, cfg);
      assert GenPairs(privates) == [];
    }
  }

  lemma NoEntry<V(!new)>(name: string, v: V)
    ensures !LastEntry([], name, v)
  {
  }

  /** The hostname the last Chassis event of a name left. */
  function HostAfter(host: string, events: seq<Event>, name: string): string
    decreases |events|
  {
    if events == [] then host
    else
      match events[|events| - 1]
      case ChassisUp(x, h) => if x == name then h else HostAfter(host, events[..|events| - 1], name)
      case ChassisGone(x) => if x == name then "" else HostAfter(host, events[..|events| - 1], name)
      case _ => HostAfter(host, events[..|events| - 1], name)
  }

  lemma {:induction false} HostFollows(r: Run, events: seq<Event>, name: string)
    requires name != ""
    ensures HostOf(Steps(r, events).t, name) == HostAfter(HostOf(r.t, name), events, name)
    decreases |events|
  {
    if events != [] {
      var front, e := events[..|events| - 1], events[|events| - 1];
      HostFollows(r, front, name);
      if e.NbGlobal? && e.privates.Some? {
        ScanRecords(Advance(Steps(r, front).t, e.cfg, e.ts), e.privates.value, e.now, name);
      }
    }
  }

  /** The generation is the largest NB_Global has ever shown, the seed included. */
  lemma {:induction false} GenerationIsLargest(seed: Tracker, events: seq<Event>)
    ensures var r := Steps(Begin(seed), events);
            (exists g :: g in r.seen && g.0 == r.t.gen) && forall g | g in r.seen :: g.0 <= r.t.gen
    decreases |events|
  {
    if events == [] {
      assert (seed.gen, seed.nbTs) in Begin(seed).seen;
    } else {
      var front, e := events[..|events| - 1], events[|events| - 1];
      var before := Steps(Begin(seed), front);
      GenerationIsLargest(seed, front);
      if e.NbGlobal? {
        NbGlobalRecords(before.t, e.cfg, e.ts, e.privates, e.now, "");
        var r := Steps(Begin(seed), events);
        assert (e.cfg, e.ts) in r.seen;
        var g :| g in before.seen && g.0 == before.t.gen;
        assert g in r.seen;
      }
    }
  }

  // ---------- what gets recorded ----------

  /** The record of a chassis that reached the current generation with this report. */
  function RecordOf(t: Tracker, p: Private, now: int): Recorded {
    Recorded(t.gen, t.nbTs, p.name, HostOf(t, p.name), p.ts,
             if p.ts < t.nbTs then 0 else p.ts - t.nbTs, now)
  }

  /** The report counts: it names a chassis that is at a generation whose timestamp is confirmed. */
  predicate Counts(t: Tracker, p: Private) {
    p.name != "" && t.gen != 0 && p.cfg >= t.gen && t.nbTs > 0
  }

  /**
   * A chassis that reports to be at the generation is marked as such, and recorded exactly if
   * it was behind and its own timestamp is known; nothing else changes. Any other report is ignored.
   */
  lemma ReportIsRecorded(t: Tracker, p: Private, now: int)
    ensures var t1 := Next(t, ChassisPrivate(p, now));
            && (Counts(t, p) ==> LastOf(t1, p.name) >= t.gen)
            && t1.log == (if Counts(t, p) && LastOf(t, p.name) < t.gen && p.ts > 0 then t.log + [RecordOf(t, p, now)]
                  else t.log)
            && (forall name | name != p.name :: LastOf(t1, name) == LastOf(t, name))
            && LastOf(t1, p.name) == (if Counts(t, p) && LastOf(t, p.name) < t.gen then p.cfg else LastOf(t, p.name))
            && t1.gen == t.gen && t1.nbTs == t.nbTs && t1.hostnames == t.hostnames
  {
  }

  /** The log only grows. */
  lemma LogGrows(t: Tracker, e: Event)
    ensures t.log <= Next(t, e).log
  {
    if e.NbGlobal? && e.privates.Some? {
      ScanLogGrows(Advance(t, e.cfg, e.ts), e.privates.value, e.now);
    }
  }

  lemma {:induction false} ScanLogGrows(t: Tracker, ps: seq<Private>, now: int)
    ensures t.log <= Scan(t, ps, now).log
  {
    if ps != [] {
      ScanLogGrows(t, ps[..|ps| - 1], now);
    }
  }

  lemma {:induction false} RunLogGrows(r: Run, events: seq<Event>)
    ensures r.t.log <= Steps(r, events).t.log
    decreases |events|
  {
    hide Next;
    if events != [] {
      RunLogGrows(r, events[..|events| - 1]);
      LogGrows(Steps(r, events[..|events| - 1]).t, events[|events| - 1]);
    }
  }

  /** No report of a chassis that catches up goes unrecorded, whatever came before and whatever comes after. */
  lemma NoReportIsLost(seed: Tracker, before: seq<Event>, p: Private, now: int, later: seq<Event>)
    requires var t := Steps(Begin(seed), before).t; Counts(t, p) && LastOf(t, p.name) < t.gen && p.ts > 0
    ensures var r := Steps(Begin(seed), before);
            RecordOf(r.t, p, now) in Steps(Step(r, ChassisPrivate(p, now)), later).t.log
  {
    hide Next;
    var r := Steps(Begin(seed), before);
    ReportIsRecorded(r.t, p, now);
    RunLogGrows(Step(r, ChassisPrivate(p, now)), later);
    var log := Step(r, ChassisPrivate(p, now)).t.log;
    assert log[|log| - 1] == RecordOf(r.t, p, now);
  }

  /** A chassis whose first report at a generation carries no timestamp is not recorded when the timestamp follows. */
  lemma LateTimestampIsLost(t: Tracker, p: Private, now: int, ts: int, later: int)
    requires Counts(t, p) && LastOf(t, p.name) < t.gen && p.ts <= 0 && ts > 0
    ensures var t1 := Next(t, ChassisPrivate(p, now));
            Counts(t1, p.(ts := ts)) && Next(t1, ChassisPrivate(p.(ts := ts), later)).log == t.log
  {
    ReportIsRecorded(t, p, now);
    ReportIsRecorded(Next(t, ChassisPrivate(p, now)), p.(ts := ts), later);
  }

  /** A chassis that was deleted starts over: its next report that counts is recorded again. */
  lemma ReturningChassisIsRecorded(t: Tracker, p: Private, now: int)
    requires Counts(t, p) && p.ts > 0 && t.gen > 0
    ensures var t1 := Next(t, ChassisGone(p.name));
            t1.log == t.log && Next(t1, ChassisPrivate(p, now)).log == t.log + [RecordOf(t1, p, now)]
  {
  }

  // ---------- what a change of NB_Global does ----------

  /** The first of the rows that shows the chassis at the generation. */
  function FirstUp(ps: seq<Private>, gen: int, name: string): Option<Private> {
    if ps == [] then None
    else if ps[0].name == name && ps[0].cfg >= gen then Some(ps[0])
    else FirstUp(ps[1..], gen, name)
  }

  lemma {:induction false} FirstUpSnoc(ps: seq<Private>, p: Private, gen: int, name: string)
    ensures FirstUp(ps + [p], gen, name) ==
              match FirstUp(ps, gen, name)
              case Some(q) => Some(q)
              case None => if p.name == name && p.cfg >= gen then Some(p) else None
  {
    if ps == [] {
      assert ps + [p] == [p];
    } else {
      assert (ps + [p])[1..] == ps[1..] + [p];
      FirstUpSnoc(ps[1..], p, gen, name);
    }
  }

  function EntriesOf(log: seq<Recorded>, name: string): seq<Recorded> {
    if log == [] then []
    else EntriesOf(log[..|log| - 1], name) + (if log[|log| - 1].chassis == name then [log[|log| - 1]] else [])
  }

  lemma EntriesSnoc(log: seq<Recorded>, e: Recorded, name: string)
    ensures EntriesOf(log + [e], name) == EntriesOf(log, name) + (if e.chassis == name then [e] else [])
  {
    assert (log + [e])[..|log|] == log;
  }

  /**
   * A scan changes nothing about a chassis that is up to date or in no row at the generation; else
   * the first such row counts.
   */
  lemma {:induction false} ScanRecords(t: Tracker, ps: seq<Private>, now: int, name: string)
    ensures var t1, up := Scan(t, ps, now), FirstUp(ps, t.gen, name);
            && t1.gen == t.gen && t1.nbTs == t.nbTs && t1.hostnames == t.hostnames
            && (up.None? || LastOf(t, name) >= t.gen ==>
                  LastOf(t1, name) == LastOf(t, name) && EntriesOf(t1.log, name) == EntriesOf(t.log, name))
            && (up.Some? && LastOf(t, name) < t.gen ==>
                  && LastOf(t1, name) == up.value.cfg
                  && EntriesOf(t1.log, name) == EntriesOf(t.log, name) +
                        (if up.value.ts > 0 then [RecordOf(t, up.value, now)] else []))
    ensures FirstUp(ps, t.gen, name).Some? ==> FirstUp(ps, t.gen, name).value.cfg >= t.gen
  {
    if ps != [] {
      var front, p := ps[..|ps| - 1], ps[|ps| - 1];
      ScanRecords(t, front, now, name);
      assert ps == front + [p];
      FirstUpSnoc(front, p, t.gen, name);
      var before := Scan(t, front, now);
      ScanSnoc(t, ps, now);
      hide EntriesOf, Scan, FirstUp, ScanOne, LastOf, RecordOf;
      OneRecords(before, p, now, name);
      SameRecord(t, before, p, now);
    }
  }

  lemma SameRecord(t: Tracker, t1: Tracker, p: Private, now: int)
    requires t1.gen == t.gen && t1.nbTs == t.nbTs && t1.hostnames == t.hostnames
    ensures RecordOf(t1, p, now) == RecordOf(t, p, now)
  {
  }

  lemma ScanSnoc(t: Tracker, ps: seq<Private>, now: int)
    requires ps != []
    ensures Scan(t, ps, now) == ScanOne(Scan(t, ps[..|ps| - 1], now), ps[|ps| - 1], now)
  {
  }

  lemma OneRecords(t: Tracker, p: Private, now: int, name: string)
    ensures var t1 := ScanOne(t, p, now);
            && t1.gen == t.gen && t1.nbTs == t.nbTs && t1.hostnames == t.hostnames
            && LastOf(t1, name) == (if p.name == name && p.cfg >= t.gen && LastOf(t, name) < t.gen then p.cfg
                  else LastOf(t, name))
            && EntriesOf(t1.log, name) == EntriesOf(t.log, name)
                 + (if p.name == name && p.cfg >= t.gen && LastOf(t, name) < t.gen
                   && p.ts > 0 then [RecordOf(t, p, now)] else [])
  {
    EntriesSnoc(t.log, RecordOf(t, p, now), name);
  }

  /**
   * The tracker after NB_Global moved: an older row changes nothing, a newer one starts its
   * generation, the same one may confirm it.
   */
  function Moved(t: Tracker, cfg: int, ts: int): (int, int) {
    if cfg < t.gen then (t.gen, t.nbTs)
    else if cfg > t.gen then (cfg, if ts > t.nbTs then ts else 0)
    else (t.gen, if ts > 0 && (t.nbTs == 0 || ts > t.nbTs) then ts else t.nbTs)
  }

  /**
   * What a change of NB_Global does about each chassis: if the generation or its timestamp moved
   * and the timestamp is known, each chassis that is behind and shown at the generation is
   * marked, and recorded if its own timestamp is known; otherwise none is.
   */
  lemma NbGlobalRecords(t: Tracker, cfg: int, ts: int, privates: Option<seq<Private>>, now: int, name: string)
    ensures var t1, moved := Next(t, NbGlobal(cfg, ts, privates, now)),
              t.(gen := Moved(t, cfg, ts).0, nbTs := Moved(t, cfg, ts).1);
            && t1.gen == moved.gen && t1.nbTs == moved.nbTs && t1.hostnames == t.hostnames
            && var up := if moved != t && moved.nbTs > 0
                  && privates.Some? then FirstUp(privates.value, moved.gen, name) else None;
               && LastOf(t1, name) == (if up.Some? && LastOf(t, name) < moved.gen then up.value.cfg
                     else LastOf(t, name))
               && EntriesOf(t1.log, name) == EntriesOf(t.log, name)
                    + (if up.Some? && LastOf(t, name) < moved.gen
                      && up.value.ts > 0 then [RecordOf(moved, up.value, now)] else [])
  {
    hide Scan, FirstUp, EntriesOf;
    if privates.Some? {
      ScanRecords(Advance(t, cfg, ts), privates.value, now, name);
    }
  }

  // ---------- guarantees ----------

  /**
   * Every recorded event has a non-negative latency and the timestamp of an NB_Global row of
   * its own generation; between deletions of a chassis its recorded generations increase.
   */
  lemma RecordedEventsAreSound(seed: Tracker, events: seq<Event>)
    requires seed.log == []
    ensures LogOk(Steps(Begin(seed), events).t.log, Steps(Begin(seed), events).seen)
    ensures IncreasingPerLife(Steps(Begin(seed), events).t.log, Steps(Begin(seed), events).deletedAt)
  {
    RunKeeps(seed, events);
  }

  lemma {:induction false} ScanGrows(t: Tracker, ps: seq<Private>, now: int, name: string)
    ensures Scan(t, ps, now).gen == t.gen && LastOf(Scan(t, ps, now), name) >= LastOf(t, name)
    ensures (exists p :: p in ps && p.name == name && p.cfg >= t.gen) ==> LastOf(Scan(t, ps, now), name) >= t.gen
  {
    if ps != [] {
      ScanGrows(t, ps[..|ps| - 1], now, name);
      assert ps == ps[..|ps| - 1] + [ps[|ps| - 1]];
    }
  }

  /** No event takes the generation back, and only a deletion takes the last generation of a chassis back. */
  lemma NothingGoesBack(t: Tracker, e: Event, name: string)
    ensures Next(t, e).gen >= t.gen
    ensures e != ChassisGone(name) ==> LastOf(Next(t, e), name) >= LastOf(t, name)
  {
    if e.NbGlobal? && e.privates.Some? {
      ScanGrows(Advance(t, e.cfg, e.ts), e.privates.value, e.now, name);
    }
  }

  lemma {:induction false} RunNeverGoesBack(r: Run, events: seq<Event>, name: string)
    ensures Steps(r, events).t.gen >= r.t.gen
    ensures ChassisGone(name) !in events ==> LastOf(Steps(r, events).t, name) >= LastOf(r.t, name)
    decreases |events|
  {
    hide Next, LastOf;
    if events != [] {
      var front, e := events[..|events| - 1], events[|events| - 1];
      assert events == front + [e];
      RunNeverGoesBack(r, front, name);
      NothingGoesBack(Steps(r, front).t, e, name);
    }
  }

  /** A confirmed NB timestamp marks every chassis that is already at the generation. */
  lemma ConfirmationCatchesUp(t: Tracker, cfg: int, ts: int, privates: seq<Private>, now: int, p: Private)
    requires Accepts(t, cfg, ts) && Advance(t, cfg, ts).nbTs > 0
    requires p in privates && p.cfg >= cfg
    ensures var t1 := Next(t, NbGlobal(cfg, ts, Some(privates), now)); t1.gen == cfg && LastOf(t1, p.name) >= cfg
  {
    ScanGrows(Advance(t, cfg, ts), privates, now, p.name);
  }
}
