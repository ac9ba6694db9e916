/** The propagation tracker: when each chassis catches up with each NB configuration generation. */
module PropagationTracker {
  import opened Wrappers

  datatype Recorded = Recorded(generation: int, nbTs: int, chassis: string, hostname: string, chassisTs: int,
                               latency: int, recordedAt: int)

  /** A Chassis_Private row. */
  datatype Private = Private(name: string, cfg: int, ts: int)

  /**
   * What the hub delivers. For a change of NB_Global the SB cache is read as well (None if
   * that fails); now is the clock when events are recorded.
   */
  datatype Event =
    | NbGlobal(cfg: int, ts: int, privates: Option<seq<Private>>, now: int)
    | ChassisPrivate(row: Private, now: int)
    | ChassisUp(name: string, hostname: string)
    | ChassisGone(name: string)

  datatype Tracker = Tracker(gen: int, nbTs: int, lastGen: map<string, int>, hostnames: map<string, string>,
                             log: seq<Recorded>)

  /** A Go map lookup: a chassis without an entry reads as 0. */
  function LastOf(t: Tracker, name: string): (g: int)
    ensures name in t.lastGen ==> g == t.lastGen[name]
    ensures name !in t.lastGen ==> g == 0
  {
    if name in t.lastGen then t.lastGen[name] else 0
  }

  function HostOf(t: Tracker, name: string): (host: string)
    ensures name in t.hostnames ==> host == t.hostnames[name]
    ensures name !in t.hostnames ==> host == ""
  {
    if name in t.hostnames then t.hostnames[name] else ""
  }

  /** The chassis is marked as caught up, and recorded if its own timestamp is known. */
  function CatchUp(t: Tracker, p: Private, now: int): Tracker {
    var marked := t.(lastGen := t.lastGen[p.name := p.cfg]);
    if p.ts <= 0 then marked
    else
      var latency := if p.ts - t.nbTs < 0 then 0 else p.ts - t.nbTs;
      marked.(log := t.log + [Recorded(t.gen, t.nbTs, p.name, HostOf(t, p.name), p.ts, latency, now)])
  }

  function ScanOne(t: Tracker, p: Private, now: int): Tracker {
    if p.cfg >= t.gen && LastOf(t, p.name) < t.gen then CatchUp(t, p, now) else t
  }

  function Scan(t: Tracker, ps: seq<Private>, now: int): Tracker {
    if ps == [] then t else ScanOne(Scan(t, ps[..|ps| - 1], now), ps[|ps| - 1], now)
  }

  /** Whether an NB_Global row moves the generation or confirms its timestamp. */
  predicate Accepts(t: Tracker, cfg: int, ts: int) {
    cfg > t.gen || (cfg == t.gen && ts > 0 && (t.nbTs == 0 || ts > t.nbTs))
  }

  function Advance(t: Tracker, cfg: int, ts: int): Tracker {
    if cfg > t.gen then t.(gen := cfg, nbTs := if ts > t.nbTs then ts else 0)
    else if Accepts(t, cfg, ts) then t.(nbTs := ts)
    else t
  }

  function Next(t: Tracker, e: Event): Tracker {
    match e
    case NbGlobal(cfg, ts, privates, now) =>
      var a := Advance(t, cfg, ts);
      if Accepts(t, cfg, ts) && a.nbTs > 0 && privates.Some? then Scan(a, privates.value, now) else a
    case ChassisPrivate(p, now) =>
      if p.name == "" || t.gen == 0 || p.cfg < t.gen || LastOf(t, p.name) >= t.gen || t.nbTs <= 0 then t
          else CatchUp(t, p, now)
    case ChassisUp(name, hostname) => if name == "" then t else t.(hostnames := t.hostnames[name := hostname])
    case ChassisGone(name) =>
      if name == "" then t else t.(hostnames := t.hostnames - {name}, lastGen := t.lastGen - {name})
  }

  /** The hostnames and the last generations listed; of several entries for a name the last one counts. */
  function HostsOf(chassis: seq<(string, string)>): map<string, string> {
    if chassis == [] then map[]
    else HostsOf(chassis[..|chassis| - 1])[chassis[|chassis| - 1].0 := chassis[|chassis| - 1].1]
  }

  function GensOf(privates: seq<Private>): map<string, int> {
    if privates == [] then map[]
    else GensOf(privates[..|privates| - 1])[privates[|privates| - 1].name := privates[|privates| - 1].cfg]
  }

  /** The state seed reads from the databases. */
  function Seeded(cfg: int, ts: int, hostnames: map<string, string>, lastGen: map<string, int>): Tracker {
    Tracker(cfg, ts, lastGen, hostnames, [])
  }

  class PropagationTracker {
    var currentGen: int
    var currentNbTsMs: int
    var chassisLastGen: map<string, int>
    var hostnames: map<string, string>
    /** The events handed to the store. */
    var stored: seq<Recorded>

    constructor ()
      ensures State() == Seeded(0, 0, map[], map[])
    {
      currentGen, currentNbTsMs, chassisLastGen, hostnames, stored := 0, 0, map[], map[], [];
    }

    function State(): Tracker
      reads this
    {
      Tracker(currentGen, currentNbTsMs, chassisLastGen, hostnames, stored)
    }

    method Seed(nbGlobal: Option<(int, int)>, chassis: seq<(string, string)>, privates: seq<Private>)
      requires State() == Seeded(0, 0, map[], map[])
      modifies this
      ensures State() == Seeded(if nbGlobal.Some? then nbGlobal.value.0 else 0,
                                if nbGlobal.Some? then nbGlobal.value.1 else 0, HostsOf(chassis), GensOf(privates))
    {
      if nbGlobal.Some? {
        currentGen, currentNbTsMs := nbGlobal.value.0, nbGlobal.value.1;
      }
      ghost var gen, ts := currentGen, currentNbTsMs;
      for i := 0 to |chassis|
        invariant State() == Seeded(gen, ts, HostsOf(chassis[..i]), map[])
      {
        assert chassis[..i + 1][..i] == chassis[..i];
        hostnames := hostnames[chassis[i].0 := chassis[i].1];
      }
      assert chassis[..|chassis|] == chassis;
      for i := 0 to |privates|
        invariant State() == Seeded(gen, ts, HostsOf(chassis), GensOf(privates[..i]))
      {
        assert privates[..i + 1][..i] == privates[..i];
        chassisLastGen := chassisLastGen[privates[i].name := privates[i].cfg];
      }
      assert privates[..|privates|] == privates;
    }

    method HandleNbGlobal(cfg: int, ts: int, privates: Option<seq<Private>>, now: int)
      modifies this
      ensures State() == Next(old(State()), NbGlobal(cfg, ts, privates, now))
    {
      if cfg > currentGen {
        currentGen := cfg;
        if ts > currentNbTsMs {
          currentNbTsMs := ts;
        } else {
          currentNbTsMs := 0;
        }
      } else if cfg == currentGen && ts > 0 && (currentNbTsMs == 0 || ts > currentNbTsMs) {
        currentNbTsMs := ts;
      } else {
        return;
      }
      if currentNbTsMs <= 0 || privates.None? {
        return;
      }
      ghost var a := State();
      var ps := privates.value;
      for i := 0 to |ps|
        invariant State() == Scan(a, ps[..i], now)
      {
        assert ps[..i + 1][..i] == ps[..i];
        var last := if ps[i].name in chassisLastGen then chassisLastGen[ps[i].name] else 0;
        if ps[i].cfg >= currentGen && last < currentGen {
          Mark(ps[i], now);
        }
      }
      assert ps[..|ps|] == ps;
    }

    /** Marks a chassis as caught up and stores the event. */
    method Mark(p: Private, now: int)
      modifies this
      ensures State() == CatchUp(old(State()), p, now)
    {
      chassisLastGen := chassisLastGen[p.name := p.cfg];
      if p.ts > 0 {
        var latency := p.ts - currentNbTsMs;
        if latency < 0 {
          latency := 0;
        }
        var hostname := if p.name in hostnames then hostnames[p.name] else "";
        stored := stored + [Recorded(currentGen, currentNbTsMs, p.name, hostname, p.ts, latency, now)];
      }
    }

    method HandleChassisPrivate(p: Private, now: int)
      modifies this
      ensures State() == Next(old(State()), ChassisPrivate(p, now))
    {
      if p.name == "" {
        return;
      }
      if currentGen == 0 || p.cfg < currentGen {
        return;
      }
      if (if p.name in chassisLastGen then chassisLastGen[p.name] else 0) >= currentGen {
        return;
      }
      if currentNbTsMs <= 0 {
        return;
      }
      Mark(p, now);
    }

    method HandleChassis(name: string, hostname: Option<string>)
      modifies this
      ensures State() == Next(old(State()), if hostname.Some? then ChassisUp(name, hostname.value)
                else ChassisGone(name))
    {
      if name == "" {
        return;
      }
      if hostname.Some? {
        hostnames := hostnames[name := hostname.value];
      } else {
        hostnames := hostnames - {name};
        chassisLastGen := chassisLastGen - {name};
      }
    }
  }
}
