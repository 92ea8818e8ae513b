/** The venue rate limiter: lazy refill, one wait per deficit, in exact real arithmetic. */
module TokenBuckets {
  import opened Common

  datatype Bucket = Bucket(tokens: real, updated: real)

  function Refill(b: Bucket, rate: real, now: real): Bucket {
    var elapsed := now - b.updated;
    var full := b.tokens + elapsed * rate;
    Bucket(if elapsed > 0.0 then (if full < rate then full else rate) else b.tokens, now)
  }

  /** No whole token is available at `now`: the caller has to wait. */
  predicate MustWait(b: Bucket, rate: real, now: real) {
    Refill(b, rate, now).tokens < 1.0
  }

  /** The time until one token has accrued. */
  function Wait(b: Bucket, rate: real, now: real): real
    requires rate > 0.0
  {
    (1.0 - Refill(b, rate, now).tokens) / rate
  }

  /** Clock readings of one acquire: on entry, and after the sleep if there is one. */
  datatype Call = Call(entered: real, woken: real)

  function GrantTime(b: Bucket, rate: real, c: Call): real {
    if MustWait(b, rate, c.entered) then c.woken else c.entered
  }

  function Granted(b: Bucket, rate: real, c: Call): Bucket {
    var r := Refill(b, rate, c.entered);
    if !MustWait(b, rate, c.entered) then r.(tokens := r.tokens - 1.0)
    else
      var w := Refill(r, rate, c.woken);
      w.(tokens := if w.tokens - 1.0 > 0.0 then w.tokens - 1.0 else 0.0)
  }

  class TokenBucket {
    const rate: real
    var tokens: real
    var updated: real

    constructor (rate: real, now: real)
      ensures this.rate == rate && State() == Bucket(rate, now)
    {
      this.rate := rate;
      tokens, updated := rate, now;
    }

    function State(): Bucket
      reads this
    {
      Bucket(tokens, updated)
    }

    method RefillAt(now: real)
      modifies this
      ensures State() == Refill(old(State()), rate, now)
    {
      var elapsed := now - updated;
      updated := now;
      if elapsed > 0.0 {
        var full := tokens + elapsed * rate;
        tokens := if full < rate then full else rate;
      }
    }

    /** One acquire under the lock; a bucket without a positive rate grants at once. */
    method Acquire(c: Call) returns (wait: Option<real>)
      modifies this
      ensures rate <= 0.0 ==> wait == None && State() == old(State())
      ensures rate > 0.0 ==>
                && State() == Granted(old(State()), rate, c)
                && wait == if MustWait(old(State()), rate, c.entered) then Some(Wait(old(State()), rate, c.entered))
                   else None
    {
      if rate <= 0.0 {
        return None;
      }
      RefillAt(c.entered);
      if tokens >= 1.0 {
        tokens := tokens - 1.0;
        return None;
      }
      wait := Some((1.0 - tokens) / rate);
      RefillAt(c.woken);
      tokens := if tokens - 1.0 > 0.0 then tokens - 1.0 else 0.0;
    }
  }

  // ---------------------------------------------------------------- one acquire

  /** The burst the bucket allows: its capacity, but never less than one. */
  function Burst(rate: real): real {
    if rate >= 1.0 then rate else 1.0
  }

  ghost predicate InRange(b: Bucket, rate: real) {
    0.0 <= b.tokens <= rate
  }

  /** A monotone clock, and a sleep that lasts at least as long as asked. */
  ghost predicate Fair(b: Bucket, rate: real, c: Call)
    requires rate > 0.0
  {
    && c.entered >= b.updated
    && (MustWait(b, rate, c.entered) ==> c.woken >= c.entered + Wait(b, rate, c.entered))
  }

  function Least(x: real, y: real): real {
    if x < y then x else y
  }

  /** What the rate earns from one moment to another. */
  function Earned(from: real, to: real, rate: real): real {
    (to - from) * rate
  }

  lemma EarnedWider(s: real, from: real, to: real, t: real, rate: real)
    requires rate > 0.0 && s <= from && to <= t
    ensures Earned(from, to, rate) <= Earned(s, t, rate)
  {
  }

  lemma EarnedSum(from: real, mid: real, to: real, rate: real)
    ensures Earned(from, to, rate) == Earned(from, mid, rate) + Earned(mid, to, rate)
  {
  }

  /** A refill adds at most the elapsed share and stays within capacity. */
  lemma RefillBound(b: Bucket, rate: real, now: real)
    requires rate > 0.0 && InRange(b, rate) && now >= b.updated
    ensures var r := Refill(b, rate, now);
            && InRange(r, rate) && b.tokens <= r.tokens <= b.tokens + Earned(b.updated, now, rate)
            && r.tokens == Least(b.tokens + Earned(b.updated, now, rate), rate)
  {
    var elapsed := now - b.updated;
    assert elapsed * rate >= 0.0;
    assert elapsed == 0.0 ==> elapsed * rate == 0.0;
  }

  /** Every requested wait is positive and at most one token's worth of time. */
  lemma WaitBound(b: Bucket, rate: real, now: real)
    requires rate > 0.0 && InRange(b, rate) && now >= b.updated && MustWait(b, rate, now)
    ensures 0.0 < Wait(b, rate, now) <= 1.0 / rate
    ensures Wait(b, rate, now) * rate == 1.0 - Refill(b, rate, now).tokens
  {
    RefillBound(b, rate, now);
    var missing := 1.0 - Refill(b, rate, now).tokens;
    assert missing / rate * rate == missing;
    assert 1.0 / rate * rate == 1.0;
  }

  /** A sleep of at least the requested wait accrues at least the missing fraction. */
  lemma SleptEnough(b: Bucket, rate: real, c: Call)
    requires rate > 0.0 && InRange(b, rate) && Fair(b, rate, c) && MustWait(b, rate, c.entered)
    ensures c.entered <= c.woken
    ensures Refill(b, rate, c.entered).tokens + Earned(c.entered, c.woken, rate) >= 1.0
  {
  }

  /** The balance a grant leaves, and what it is against the time that has passed. */
  ghost predicate Charged(b: Bucket, rate: real, g: Bucket) {
    && InRange(g, rate)
    && b.updated <= g.updated
    && g.tokens <= Burst(rate) - 1.0
    && g.tokens <= b.tokens + Earned(b.updated, g.updated, rate) - 1.0
  }

  lemma WaitedGrant(b: Bucket, rate: real, c: Call)
    requires rate > 0.0 && InRange(b, rate) && Fair(b, rate, c) && MustWait(b, rate, c.entered)
    ensures Charged(b, rate, Granted(b, rate, c))
  {
    var r := Refill(b, rate, c.entered);
    SleptEnough(b, rate, c);
    RefillBound(b, rate, c.entered);
    RefillBound(r, rate, c.woken);
    EarnedSum(b.updated, c.entered, c.woken, rate);
    assert r.updated == c.entered && Refill(r, rate, c.woken).updated == c.woken;
    hide Refill, Earned, Fair, MustWait;
    assert MustWait(b, rate, c.entered);
  }

  /** A grant spends one token: the balance falls by one against the time that has passed. */
  lemma GrantStep(b: Bucket, rate: real, c: Call)
    requires rate > 0.0 && InRange(b, rate) && Fair(b, rate, c)
    ensures Charged(b, rate, Granted(b, rate, c))
    ensures Granted(b, rate, c).updated == GrantTime(b, rate, c)
  {
    if MustWait(b, rate, c.entered) {
      WaitedGrant(b, rate, c);
    } else {
      RefillBound(b, rate, c.entered);
    }
  }

  /** A clock that stands still or runs back earns nothing and costs nothing. */
  lemma RefillBackwards(b: Bucket, rate: real, now: real)
    requires now <= b.updated
    ensures Refill(b, rate, now) == Bucket(b.tokens, now)
  {
  }

  /** The balance a grant leaves, exactly: what has accrued, capped, less the one token, and never negative. */
  lemma GrantedBalance(b: Bucket, rate: real, c: Call)
    requires rate > 0.0 && InRange(b, rate) && Fair(b, rate, c)
    ensures var before, g := Least(b.tokens + Earned(b.updated, c.entered, rate), rate), Granted(b, rate, c);
            if before >= 1.0 then g.tokens == before - 1.0
            else
              var after := Least(before + Earned(c.entered, c.woken, rate), rate);
              g.tokens == if after < 1.0 then 0.0 else after - 1.0
  {
    var r := Refill(b, rate, c.entered);
    RefillBound(b, rate, c.entered);
    assert r.updated == c.entered;
    if MustWait(b, rate, c.entered) {
      SleptEnough(b, rate, c);
      RefillBound(r, rate, c.woken);
    }
    hide Refill, Earned;
  }

  // ---------------------------------------------------------------- runs

  function After(b: Bucket, rate: real, calls: seq<Call>): Bucket {
    if calls == [] then b else Granted(After(b, rate, calls[..|calls| - 1]), rate, calls[|calls| - 1])
  }

  /** Acquires are serialised by the lock; each meets the bucket the previous one left. */
  ghost predicate FairRun(b: Bucket, rate: real, calls: seq<Call>)
    requires rate > 0.0
  {
    forall k :: 0 <= k < |calls| ==> Fair(After(b, rate, calls[..k]), rate, calls[k])
  }

  /** When the k-th acquire returned. */
  function Grant(b: Bucket, rate: real, calls: seq<Call>, k: nat): real
    requires k < |calls|
  {
    GrantTime(After(b, rate, calls[..k]), rate, calls[k])
  }

  lemma {:induction false} AfterInRange(b: Bucket, rate: real, calls: seq<Call>, k: nat)
    requires rate > 0.0 && InRange(b, rate) && FairRun(b, rate, calls) && k <= |calls|
    ensures InRange(After(b, rate, calls[..k]), rate)
    ensures k > 0 ==>
              && After(b, rate, calls[..k]).updated == Grant(b, rate, calls, k - 1)
              && After(b, rate, calls[..k]).tokens <= Burst(rate) - 1.0
  {
    hide Granted, GrantTime, Fair;
    if k == 0 {
      assert calls[..0] == [];
    } else {
      AfterInRange(b, rate, calls, k - 1);
      assert calls[..k][..k - 1] == calls[..k - 1];
      assert Fair(After(b, rate, calls[..k - 1]), rate, calls[k - 1]);
      GrantStep(After(b, rate, calls[..k - 1]), rate, calls[k - 1]);
    }
  }

  /** Between two grants the balance falls by their number against the elapsed time. */
  lemma {:induction false} Spent(b: Bucket, rate: real, calls: seq<Call>, i: nat, j: nat)
    requires rate > 0.0 && InRange(b, rate) && FairRun(b, rate, calls) && i <= j < |calls|
    ensures var x, y := After(b, rate, calls[..i + 1]), After(b, rate, calls[..j + 1]);
            && Grant(b, rate, calls, i) <= Grant(b, rate, calls, j)
            && y.tokens <= x.tokens + Earned(Grant(b, rate, calls, i), Grant(b, rate, calls, j), rate) - (j - i) as real
  {
    assert Earned(Grant(b, rate, calls, i), Grant(b, rate, calls, i), rate) == 0.0;
    hide Granted, GrantTime, Fair, Earned;
    if i < j {
      Spent(b, rate, calls, i, j - 1);
      AfterInRange(b, rate, calls, j);
      assert calls[..j + 1][..j] == calls[..j];
      assert Fair(After(b, rate, calls[..j]), rate, calls[j]);
      GrantStep(After(b, rate, calls[..j]), rate, calls[j]);
      var gi, gp, gj := Grant(b, rate, calls, i), Grant(b, rate, calls, j - 1), Grant(b, rate, calls, j);
      EarnedSum(gi, gp, gj, rate);
    }
  }

  /** The grants from the i-th to the j-th, against the time between them. */
  lemma Counted(b: Bucket, rate: real, calls: seq<Call>, i: nat, j: nat)
    requires rate > 0.0 && InRange(b, rate) && FairRun(b, rate, calls) && i <= j < |calls|
    ensures (j - i) as real + 1.0 <= Earned(Grant(b, rate, calls, i), Grant(b, rate, calls, j), rate) + Burst(rate)
  {
    hide Grant, After, FairRun, Burst, Earned;
    Spent(b, rate, calls, i, j);
    AfterInRange(b, rate, calls, i + 1);
    AfterInRange(b, rate, calls, j + 1);
    var x, y := After(b, rate, calls[..i + 1]), After(b, rate, calls[..j + 1]);
    var earned := Earned(Grant(b, rate, calls, i), Grant(b, rate, calls, j), rate);
    assert y.tokens <= x.tokens + earned - (j - i) as real;
    assert x.tokens <= Burst(rate) - 1.0;
    assert y.tokens >= 0.0;
  }

  /** The acquires that return within [s, t]. */
  ghost function GrantsWithin(b: Bucket, rate: real, calls: seq<Call>, s: real, t: real): set<nat> {
    set k: nat | k < |calls| && s <= Grant(b, rate, calls, k) <= t
  }

  lemma {:induction false} Ends(ks: set<nat>) returns (i: nat, j: nat)
    requires ks != {}
    ensures i in ks && j in ks && forall k :: k in ks ==> i <= k <= j
  {
    var k :| k in ks;
    i, j := k, k;
    if ks != {k} {
      i, j := Ends(ks - {k});
      assert forall n :: n in ks ==> n == k || n in ks - {k};
      i, j := if k < i then k else i, if k > j then k else j;
    }
  }

  lemma {:induction false} WithinRange(ks: set<nat>, i: nat, j: nat)
    requires i <= j + 1 && forall n :: n in ks ==> i <= n <= j
    ensures |ks| <= j - i + 1
    decreases j + 1 - i
  {
    if i <= j {
      WithinRange(ks - {i}, i + 1, j);
    } else {
      assert ks == {};
    }
  }

  /**
    The rate bound: in any interval [s, t] the grants number at most (t - s) * rate plus the
    burst, which is the rate itself when that is at least one.
   */
  lemma RateBound(rate: real, start: real, calls: seq<Call>, s: real, t: real)
    requires rate > 0.0 && FairRun(Bucket(rate, start), rate, calls) && s <= t
    ensures |GrantsWithin(Bucket(rate, start), rate, calls, s, t)| as real <= Earned(s, t, rate) + Burst(rate)
  {
    assert Earned(s, s, rate) == 0.0;
    hide Grant, After, FairRun, Earned;
    var b := Bucket(rate, start);
    var inside := GrantsWithin(b, rate, calls, s, t);
    if inside == {} {
      EarnedWider(s, s, s, t, rate);
    } else {
      var i, j := Ends(inside);
      WithinRange(inside, i, j);
      var n := j - i;
      assert |inside| as real <= (n + 1) as real == n as real + 1.0;
      Counted(b, rate, calls, i, j);
      EarnedWider(s, Grant(b, rate, calls, i), Grant(b, rate, calls, j), t, rate);
    }
  }
}
