/** The store of flow changes: a ring in a fixed array, pruned by age from the front. */
module FlowDiffStore {

  datatype FlowChange = FlowChange(timestamp: int, kind: string, uuid: string, oldRow: map<string, string>,
                                   newRow: map<string, string>, datapath: string)

  lemma Wrap(x: nat, n: nat)
    requires 0 < n && x < 2 * n
    ensures x % n == if x < n then x else x - n
  {
  }

  /** The array index of the i-th oldest change. */
  function Slot(start: nat, i: nat, n: nat): (k: nat)
    requires start < n && i <= n
    ensures k == (if start + i < n then start + i else start + i - n) < n
  {
    Wrap(start + i, n);
    (start + i) % n
  }

  /** Changes older than this are stale. */
  function Cutoff(maxAge: int, now: int): int {
    if maxAge > 0 then now - maxAge / 1_000_000 else 0
  }

  /** The age counts in whole milliseconds, rounded down; without one nothing is too old. */
  lemma CutoffIs(maxAge: int, now: int)
    ensures maxAge <= 0 ==> Cutoff(maxAge, now) == 0
    ensures maxAge > 0 ==>
              var ms := now - Cutoff(maxAge, now); 0 <= ms && ms * 1_000_000 <= maxAge < (ms + 1) * 1_000_000
  {
  }

  predicate Wanted(c: FlowChange, datapath: string, since: int, cutoff: int) {
    !(c.timestamp < cutoff) && !(since > 0 && c.timestamp < since) && !(datapath != "" && c.datapath != datapath)
  }

  function Filter(s: seq<FlowChange>, datapath: string, since: int, cutoff: int): seq<FlowChange> {
    if s == [] then []
    else
      Filter(s[..|s| - 1], datapath, since, cutoff)
      + (if Wanted(s[|s| - 1], datapath, since, cutoff) then [s[|s| - 1]] else [])
  }

  function Last(s: seq<FlowChange>, n: nat): seq<FlowChange> {
    if |s| <= n then s else s[|s| - n..]
  }

  /**
   * The change is not older than the cutoff, not from before since, and on the datapath; the last
   * two if they are given.
   */
  ghost predicate Fitting(c: FlowChange, datapath: string, since: int, cutoff: int) {
    c.timestamp >= cutoff && (since > 0 ==> c.timestamp >= since) && (datapath != "" ==> c.datapath == datapath)
  }

  /** A query keeps exactly the fitting changes, each in its place. */
  lemma {:induction false} FilterIs(a: seq<FlowChange>, b: seq<FlowChange>, datapath: string, since: int, cutoff: int)
    ensures Filter(a + b, datapath, since, cutoff) == Filter(a, datapath, since, cutoff) +
              Filter(b, datapath, since, cutoff)
    ensures forall c :: Filter([c], datapath, since, cutoff) == if Fitting(c, datapath, since, cutoff) then [c] else []
    ensures forall c :: c in Filter(b, datapath, since, cutoff) <==> c in b && Fitting(c, datapath, since, cutoff)
    decreases |b|
  {
    if b == [] {
      assert a + b == a;
    } else {
      var front, last := b[..|b| - 1], b[|b| - 1];
      assert b == front + [last] && (a + b)[..|a + b| - 1] == a + front;
      FilterIs(a, front, datapath, since, cutoff);
      hide Wanted, Fitting;
    }
  }

  lemma LastIs(s: seq<FlowChange>, n: nat)
    ensures |Last(s, n)| == (if |s| < n then |s| else n) && s[|s| - |Last(s, n)|..] == Last(s, n)
  {
  }

  ghost predicate AllStale(s: seq<FlowChange>, cutoff: int) {
    forall c | c in s :: c.timestamp < cutoff
  }

  lemma {:induction false} StaleIsInvisible(old_: seq<FlowChange>, s: seq<FlowChange>, datapath: string, since: int,
                                            cutoff: int)
    requires AllStale(old_, cutoff)
    ensures Filter(old_ + s, datapath, since, cutoff) == Filter(s, datapath, since, cutoff)
    decreases |old_| + |s|
  {
    if s != [] {
      assert (old_ + s)[..|old_ + s| - 1] == old_ + s[..|s| - 1];
      StaleIsInvisible(old_, s[..|s| - 1], datapath, since, cutoff);
    } else if old_ != [] {
      assert old_ + s == old_;
      var front, last := old_[..|old_| - 1], old_[|old_| - 1];
      assert last in old_;
      StaleIsInvisible(front, [], datapath, since, cutoff);
      assert front + [] == front;
    }
  }

  // ---------- rings ----------

  /** The changes of a ring, oldest first. */
  function Ring(b: seq<FlowChange>, start: nat, count: nat): (r: seq<FlowChange>)
    requires start < |b| && count <= |b|
    ensures |r| == count
  {
    seq(count, i requires 0 <= i < count => b[Slot(start, i, |b|)])
  }

  lemma RingAt(b: seq<FlowChange>, start: nat, count: nat, i: nat)
    requires start < |b| && i < count <= |b|
    ensures |Ring(b, start, count)| == count && Ring(b, start, count)[i] == b[Slot(start, i, |b|)]
  {
  }

  lemma FilterStep(s: seq<FlowChange>, i: nat, datapath: string, since: int, cutoff: int)
    requires i < |s|
    ensures Filter(s[..i + 1], datapath, since, cutoff)
         == Filter(s[..i], datapath, since, cutoff) + (if Wanted(s[i], datapath, since, cutoff) then [s[i]] else [])
  {
    assert s[..i + 1][..i] == s[..i];
  }

  lemma FilterNothing(s: seq<FlowChange>, datapath: string, since: int, cutoff: int)
    ensures Filter(s[..0], datapath, since, cutoff) == []
  {
  }

  /** Writing behind the newest change appends, and at capacity drops the oldest. */
  lemma RingPut(b: seq<FlowChange>, start: nat, count: nat, c: FlowChange)
    requires start < |b| && count <= |b|
    ensures var b1 := b[Slot(start, count, |b|) := c];
            if count < |b| then Ring(b1, start, count + 1) == Ring(b, start, count) + [c]
            else Ring(b1, Slot(start, 1, |b|), count) == Ring(b, start, count)[1..] + [c]
  {
  }

  lemma RingDrop(b: seq<FlowChange>, start: nat, count: nat)
    requires start < |b| && 1 <= count <= |b|
    ensures Ring(b, start, count) == [b[start]] + Ring(b, Slot(start, 1, |b|), count - 1)
  {
  }

  /** What a ring of count changes lacks of the last n changes is stale. */
  ghost predicate WindowOk(history: seq<FlowChange>, n: nat, count: nat, cutoff: int) {
    count <= |Last(history, n)| && AllStale(Last(history, n)[..|Last(history, n)| - count], cutoff)
  }

  lemma OlderStaysStale(history: seq<FlowChange>, n: nat, count: nat, cutoff: int, later: int)
    requires WindowOk(history, n, count, cutoff) && cutoff <= later
    ensures WindowOk(history, n, count, later)
  {
  }

  lemma TailIsStale(s: seq<FlowChange>, cutoff: int)
    requires AllStale(s, cutoff) && s != []
    ensures AllStale(s[1..], cutoff)
  {
  }

  /** One more change: the window slides, and whatever leaves the ring leaves the window. */
  lemma WindowMoves(history: seq<FlowChange>, change: FlowChange, n: nat, count: nat, cutoff: int)
    requires 1 <= n && count <= n && WindowOk(history, n, count, cutoff)
    ensures WindowOk(history + [change], n, if count < n then count + 1 else count, cutoff)
  {
    var window, window1 := Last(history, n), Last(history + [change], n);
    if |history| < n {
      assert window1 == window + [change];
      assert count < n;
      assert window1[..|window1| - (count + 1)] == window[..|window| - count];
    } else {
      assert window1 == window[1..] + [change];
      if count < n {
        assert window1[..n - (count + 1)] == window[..n - count][1..];
        TailIsStale(window[..n - count], cutoff);
      }
    }
  }

  /** The oldest change in the ring is stale: it can go. */
  lemma OneMoreStale(history: seq<FlowChange>, n: nat, count: nat, cutoff: int)
    requires 1 <= count <= n && count <= |history| && WindowOk(history, n, count, cutoff)
    requires history[|history| - count].timestamp < cutoff
    ensures WindowOk(history, n, count - 1, cutoff)
  {
    var window := Last(history, n);
    assert window[..|window| - (count - 1)] == window[..|window| - count] + [window[|window| - count]];
  }

  /** Filtering the ring is filtering the window. */
  lemma RingSeesWindow(history: seq<FlowChange>, n: nat, count: nat, cutoff: int, datapath: string, since: int)
    requires count <= n && count <= |history| && WindowOk(history, n, count, cutoff)
    ensures Filter(history[|history| - count..], datapath, since, cutoff) ==
              Filter(Last(history, n), datapath, since, cutoff)
  {
    var window := Last(history, n);
    var gone := window[..|window| - count];
    assert window == gone + history[|history| - count..];
    StaleIsInvisible(gone, history[|history| - count..], datapath, since, cutoff);
  }

  class Store {
    const buf: array<FlowChange>
    var start: nat
    var count: nat
    const maxSize: nat
    const maxAge: int
    /** Every change ever added, and the clock when the ring was last pruned. */
    ghost var history: seq<FlowChange>
    ghost var prunedAt: int

    /** The ring holds the end of the history; what it lacks of the last maxSize changes is stale. */
    ghost predicate Valid()
      reads this, buf
    {
      && maxSize >= 1 && buf.Length == maxSize && start < maxSize && count <= maxSize
      && count <= |history| && Ring(buf[..], start, count) == history[|history| - count..]
      && WindowOk(history, maxSize, count, Cutoff(maxAge, prunedAt))
    }

    constructor (size: int, age: int, now: int)
      ensures Valid() && history == [] && prunedAt == now && fresh(buf)
      ensures maxSize == (if size < 1 then 1 else size) && maxAge == age
    {
      var n := if size < 1 then 1 else size;
      maxSize, maxAge, start, count := n, age, 0, 0;
      buf := new FlowChange[n];
      history, prunedAt := [], now;
    }

    method Add(change: FlowChange, now: int)
      requires Valid() && prunedAt <= now
      modifies this, buf
      ensures Valid() && history == old(history) + [change] && prunedAt == now
    {
      Put(change);
      PruneAge(now);
    }

    /** The write at the end of the ring, over the oldest change if it is full. */
    method Put(change: FlowChange)
      requires Valid()
      modifies this, buf
      ensures Valid() && history == old(history) + [change] && prunedAt == old(prunedAt)
    {
      hide WindowOk, Ring;
      RingPut(buf[..], start, count, change);
      WindowMoves(history, change, maxSize, count, Cutoff(maxAge, prunedAt));
      buf[Slot(start, count, maxSize)] := change;
      if count < maxSize {
        count := count + 1;
      } else {
        start := Slot(start, 1, maxSize);
      }
      history := history + [change];
    }

    method PruneAge(now: int)
      requires Valid() && prunedAt <= now
      modifies this
      ensures Valid() && history == old(history) && prunedAt == now
    {
      hide WindowOk, Ring;
      OlderStaysStale(history, maxSize, count, Cutoff(maxAge, prunedAt), Cutoff(maxAge, now));
      prunedAt := now;
      if maxAge <= 0 {
        return;
      }
      var cutoff := now - maxAge / 1_000_000;
      while count > 0 && buf[start].timestamp < cutoff
        invariant Valid() && history == old(history) && prunedAt == now
        decreases count
      {
        RingDrop(buf[..], start, count);
        OneMoreStale(history, maxSize, count, cutoff);
        start := Slot(start, 1, maxSize);
        count := count - 1;
      }
    }

    /** Wraparound, overwriting and pruning are invisible: this is a filter of the last maxSize changes. */
    method Query(datapath: string, since: int, now: int) returns (result: seq<FlowChange>)
      requires Valid() && prunedAt <= now
      ensures result == Filter(Last(history, maxSize), datapath, since, Cutoff(maxAge, now))
      ensures forall c :: c in result <==>
                c in Last(history, maxSize) && Fitting(c, datapath, since, Cutoff(maxAge, now))
    {
      hide WindowOk, Ring, Filter, Last;
      var cutoff := 0;
      if maxAge > 0 {
        cutoff := now - maxAge / 1_000_000;
      }
      ghost var ring := Ring(buf[..], start, count);
      result := [];
      FilterNothing(ring, datapath, since, cutoff);
      for i := 0 to count
        invariant result == Filter(ring[..i], datapath, since, cutoff)
      {
        var c := buf[Slot(start, i, maxSize)];
        RingAt(buf[..], start, count, i);
        FilterStep(ring, i, datapath, since, cutoff);
        if c.timestamp < cutoff {
          continue;
        }
        if since > 0 && c.timestamp < since {
          continue;
        }
        if datapath != "" && c.datapath != datapath {
          continue;
        }
        result := result + [c];
      }
      assert ring[..count] == ring;
      OlderStaysStale(history, maxSize, count, Cutoff(maxAge, prunedAt), cutoff);
      RingSeesWindow(history, maxSize, count, cutoff, datapath, since);
      FilterIs([], Last(history, maxSize), datapath, since, cutoff);
    }
  }
}
