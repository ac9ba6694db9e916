/** The token bucket in front of the write operations, with exact arithmetic and a clock in nanoseconds. */
module RateLimiter {

  const MINUTE := 60_000_000_000

  datatype Bucket = Bucket(tokens: int, last: int)

  /** Whole tokens earned since the last refill, at rate tokens a minute. */
  function Earned(rate: nat, b: Bucket, now: int): int {
    (rate * (now - b.last)) / MINUTE
  }

  /** The lazy refill: it only happens, and only moves the clock mark, if at least one token was earned. */
  function Refilled(rate: nat, b: Bucket, now: int): Bucket {
    if now > b.last && Earned(rate, b, now) > 0
    then Bucket(if b.tokens + Earned(rate, b, now) > rate then rate else b.tokens + Earned(rate, b, now), now)
    else b
  }

  function Asked(rate: nat, b: Bucket, now: int): (Bucket, bool) {
    var r := Refilled(rate, b, now);
    if r.tokens <= 0 then (r, false) else (r.(tokens := r.tokens - 1), true)
  }

  class Limiter {
    var tokens: int
    const maxTokens: nat
    const refillRate: nat
    var lastRefill: int

    constructor (opsPerMinute: nat, now: int)
      ensures maxTokens == refillRate == opsPerMinute
      ensures State() == Bucket(opsPerMinute, now)
    {
      tokens, maxTokens, refillRate, lastRefill := opsPerMinute, opsPerMinute, opsPerMinute, now;
    }

    function State(): Bucket
      reads this
    {
      Bucket(tokens, lastRefill)
    }

    method Allow(now: int) returns (ok: bool)
      requires maxTokens == refillRate
      modifies this
      ensures (State(), ok) == Asked(refillRate, old(State()), now)
    {
      var elapsed := now - lastRefill;
      if elapsed > 0 {
        var refill := (refillRate * elapsed) / MINUTE;
        if refill > 0 {
          tokens := tokens + refill;
          if tokens > maxTokens {
            tokens := maxTokens;
          }
          lastRefill := now;
        }
      }
      if tokens <= 0 {
        return false;
      }
      tokens := tokens - 1;
      return true;
    }
  }

  // ---------- runs of requests ----------

  function After(rate: nat, b: Bucket, times: seq<int>): Bucket
    decreases |times|
  {
    if times == [] then b else Asked(rate, After(rate, b, times[..|times| - 1]), times[|times| - 1]).0
  }

  function Granted(rate: nat, b: Bucket, times: seq<int>): nat
    decreases |times|
  {
    if times == [] then 0
    else
      Granted(rate, b, times[..|times| - 1])
      + (if Asked(rate, After(rate, b, times[..|times| - 1]), times[|times| - 1]).1 then 1 else 0)
  }

  predicate NonDecreasing(times: seq<int>) {
    forall i, j | 0 <= i < j < |times| :: times[i] <= times[j]
  }

  /** The tokens never leave their range, and the mark of the last refill never passes the clock. */
  lemma {:induction false} TokensInRange(rate: nat, b: Bucket, times: seq<int>)
    requires 0 <= b.tokens <= rate && NonDecreasing(times) && (times != [] ==> b.last <= times[0])
    ensures 0 <= After(rate, b, times).tokens <= rate
    ensures After(rate, b, times).last <= if times == [] then b.last else times[|times| - 1]
    decreases |times|
  {
    if times != [] {
      TokensInRange(rate, b, times[..|times| - 1]);
    }
  }

  /**
   * A request is refused exactly if no whole token is left and, counting from the last refill,
   * none has been earned yet.
   */
  lemma RefusedOnlyWhenSpent(rate: nat, b: Bucket, now: int)
    requires 0 <= b.tokens <= rate && b.last <= now
    ensures !Asked(rate, b, now).1 <==> b.tokens == 0 && rate * (now - b.last) < 60_000_000_000
  {
    var x := rate * (now - b.last);
    assert x >= 0 && MINUTE * (x / MINUTE) <= x < MINUTE * (x / MINUTE) + MINUTE;
    if now == b.last {
      assert x == 0;
    }
    if x >= MINUTE {
      assert x / MINUTE >= 1 && rate >= 1;
    }
  }

  /** After a minute without requests the bucket is full. */
  lemma AskAfterMinute(rate: nat, b: Bucket, now: int)
    requires 0 <= b.tokens <= rate && 1 <= rate && b.last + MINUTE <= now
    ensures Asked(rate, b, now).1 && Asked(rate, b, now).0.tokens == rate - 1 && Asked(rate, b, now).0.last == now
  {
    var x := rate * (now - b.last);
    assert x >= rate * MINUTE;
    assert x / MINUTE >= rate;
  }

  lemma AskWithTokens(rate: nat, b: Bucket, now: int)
    requires 1 <= b.tokens <= rate && b.last <= now
    ensures Asked(rate, b, now).1 && Asked(rate, b, now).0.tokens >= b.tokens - 1
  {
    var x := rate * (now - b.last);
    assert x >= 0 && x / MINUTE >= 0;
  }

  /** A minute without requests fills the bucket: the next rate requests are all granted, however close together. */
  lemma {:induction false} BurstAfterIdleMinute(rate: nat, b: Bucket, times: seq<int>)
    requires 0 <= b.tokens <= rate && NonDecreasing(times) && 0 < |times| <= rate && b.last + 60_000_000_000 <= times[0]
    ensures Granted(rate, b, times) == |times| && After(rate, b, times).tokens >= rate - |times|
    decreases |times|
  {
    hide Asked;
    var n := |times| - 1;
    var front := times[..n];
    if n == 0 {
      assert front == [];
      AskAfterMinute(rate, b, times[0]);
    } else {
      BurstAfterIdleMinute(rate, b, front);
      TokensInRange(rate, b, front);
      AskWithTokens(rate, After(rate, b, front), times[n]);
    }
  }

  /** What the bucket can still grant, in token-minutes: its tokens and the time not yet turned into tokens. */
  function Credit(rate: nat, b: Bucket, now: int): int {
    MINUTE * b.tokens + rate * (now - b.last)
  }

  /** A refill never creates credit, and leaves less than one token of time unturned. */
  lemma RefillCredit(rate: nat, b: Bucket, now: int)
    requires b.last <= now && 0 <= b.tokens <= rate
    ensures Credit(rate, Refilled(rate, b, now), now) <= Credit(rate, b, now)
    ensures Credit(rate, Refilled(rate, b, now), now) < MINUTE * (rate + 1)
  {
    var x := rate * (now - b.last);
    assert x >= 0;
    assert MINUTE * (x / MINUTE) <= x < MINUTE * (x / MINUTE) + MINUTE;
    assert rate * (now - now) == 0;
  }

  lemma AskCredit(rate: nat, b: Bucket, now: int)
    requires b.last <= now && 0 <= b.tokens <= rate
    ensures var r := Asked(rate, b, now);
            var spent := if r.1 then MINUTE else 0;
            Credit(rate, r.0, now) + spent <= Credit(rate, b, now)
              && Credit(rate, r.0, now) + spent < MINUTE * (rate + 1)
  {
    RefillCredit(rate, b, now);
  }

  lemma CreditOverTime(rate: nat, b: Bucket, now: int, later: int)
    ensures Credit(rate, b, later) == Credit(rate, b, now) + Worth(rate, now, later)
  {
  }

  /** What a span of time is worth. */
  function Worth(rate: nat, from: int, to: int): int {
    rate * (to - from)
  }

  lemma WorthAdds(rate: nat, x: int, y: int, z: int)
    ensures Worth(rate, x, y) + Worth(rate, y, z) == Worth(rate, x, z)
    ensures Worth(rate, x, x) == 0
  {
  }

  /** One more request. */
  lemma OneMoreRequest(rate: nat, b: Bucket, times: seq<int>)
    requires times != []
    ensures var n := |times| - 1;
            var r := Asked(rate, After(rate, b, times[..n]), times[n]);
            && After(rate, b, times) == r.0
            && Granted(rate, b, times) == Granted(rate, b, times[..n]) + (if r.1 then 1 else 0)
  {
    hide Asked;
  }

  /** From the first request of a window on, every grant is paid by credit left then or time passed since. */
  lemma {:induction false} GrantsArePaid(rate: nat, b: Bucket, times: seq<int>)
    requires 0 <= b.tokens <= rate && NonDecreasing(times) && times != [] && b.last <= times[0]
    ensures MINUTE * Granted(rate, b, times) + Credit(rate, After(rate, b, times), times[|times| - 1]) <
              MINUTE * (rate + 1) + Worth(rate, times[0], times[|times| - 1])
    decreases |times|
  {
    hide Worth, Credit, Asked, Granted, After;
    var n := |times| - 1;
    var front, end := times[..n], times[n];
    TokensInRange(rate, b, front);
    OneMoreRequest(rate, b, times);
    AskCredit(rate, After(rate, b, front), end);
    if n == 0 {
      NothingYet(rate, b, front);
      WorthAdds(rate, end, end, end);
    } else {
      GrantsArePaid(rate, b, front);
      CreditOverTime(rate, After(rate, b, front), front[n - 1], end);
      WorthAdds(rate, times[0], front[n - 1], end);
    }
  }

  lemma NothingYet(rate: nat, b: Bucket, times: seq<int>)
    requires times == []
    ensures Granted(rate, b, times) == 0 && After(rate, b, times) == b
  {
  }

  /**
   * The requests i..j of any run starting from a full bucket: in T minutes fewer than
   * rate + 1 + rate * T of them are granted.
   */
  lemma WindowBound(rate: nat, start: int, times: seq<int>, i: nat, j: nat)
    requires NonDecreasing(times) && i < j <= |times| && start <= times[0]
    ensures var b := After(rate, Bucket(rate, start), times[..i]);
            MINUTE * Granted(rate, b, times[i..j]) < MINUTE * (rate + 1) + rate * (times[j - 1] - times[i])
  {
    hide After, Granted;
    var b := After(rate, Bucket(rate, start), times[..i]);
    TokensInRange(rate, Bucket(rate, start), times[..i]);
    WindowFrom(rate, b, times[i..j]);
  }

  lemma WindowFrom(rate: nat, b: Bucket, window: seq<int>)
    requires 0 <= b.tokens <= rate && NonDecreasing(window) && window != [] && b.last <= window[0]
    ensures MINUTE * Granted(rate, b, window) < MINUTE * (rate + 1) + rate * (window[|window| - 1] - window[0])
  {
    hide After, Granted;
    var end := window[|window| - 1];
    GrantsArePaid(rate, b, window);
    assert Worth(rate, window[0], end) == rate * (end - window[0]);
    TokensInRange(rate, b, window);
    var last := After(rate, b, window);
    assert rate * (end - last.last) >= 0;
  }
}
