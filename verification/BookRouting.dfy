/** Order-book subscriptions: reference counts in the service, providers and failover in the router. */
module BookRouting {
  import opened Common

  type Key = (string, Market)
  type Source = nat
  type QueueId = nat

  /** Fixed configuration; `providers` in the order the mapping was built. */
  datatype Config = Config(
    providers: seq<Source>, primary: Source, overrides: map<string, Source>, threshold: int, window: real
  )

  predicate ValidConfig(c: Config) {
    c.primary in c.providers
  }

  /** Router and service state; `held` is what each provider has subscribed at its venue. */
  datatype State = State(
    active: Source, served: map<Key, Source>, errors: map<Source, seq<real>>,
    held: map<Source, set<Key>>, queues: map<Key, seq<QueueId>>, refcounts: map<Key, nat>)

  function Held(s: State, p: Source): set<Key> {
    if p in s.held then s.held[p] else {}
  }

  function RouteFor(c: Config, active: Source, symbol: string): Source {
    if symbol in c.overrides && c.overrides[symbol] in c.providers then c.overrides[symbol] else active
  }

  // ---------------------------------------------------------------- router

  function Subscribe(c: Config, s: State, k: Key): State {
    var p := RouteFor(c, s.active, k.0);
    s.(served := s.served[k := p], held := s.held[p := Held(s, p) + {k}])
  }

  function Unsubscribe(s: State, k: Key): State {
    if k !in s.served then s
    else
      var p := s.served[k];
      s.(served := s.served - {k}, held := s.held[p := Held(s, p) - {k}])
  }

  /** The first configured provider that is not the active one. */
  function Secondary(providers: seq<Source>, active: Source): Option<Source> {
    if providers == [] then None
    else if providers[0] != active then Some(providers[0])
    else Secondary(providers[1..], active)
  }

  /** Keys the failover moves: on the failing provider and without any override entry. */
  function Moving(c: Config, s: State): set<Key> {
    set k | k in s.served && s.served[k] == s.active && k.0 !in c.overrides
  }

  function FailOver(c: Config, s: State): State {
    var second := Secondary(c.providers, s.active);
    if second.None? then s
    else
      var p, q, moving := s.active, second.value, Moving(c, s);
      s.(active := q, errors := s.errors[p := []],
         served := MovedServed(s.served, q, moving), held := MovedHeld(s.held, p, q, moving))
  }

  /** The key map and the providers' sets after the keys `done` moved from `p` to `q`. */
  function MovedServed(served: map<Key, Source>, q: Source, done: set<Key>): map<Key, Source> {
    map k | k in served :: if k in done then q else served[k]
  }

  function MovedHeld(held: map<Source, set<Key>>, p: Source, q: Source, done: set<Key>): map<Source, set<Key>> {
    held[p := (if p in held then held[p] else {}) - done][q := (if q in held then held[q] else {}) + done]
  }

  function Recent(times: seq<real>, cutoff: real): seq<real> {
    if times == [] then []
    else Recent(times[..|times| - 1], cutoff) + (if times[|times| - 1] >= cutoff then [times[|times| - 1]] else [])
  }

  function OnError(c: Config, s: State, source: Source, now: real): State {
    var window := Recent((if source in s.errors then s.errors[source] else []) + [now], now - c.window);
    var t := s.(errors := s.errors[source := window]);
    if source != s.active || |window| < c.threshold then t else FailOver(c, t)
  }

  // ---------------------------------------------------------------- service

  function Queues(s: State, k: Key): seq<QueueId> {
    if k in s.queues then s.queues[k] else []
  }

  function Count(s: State, k: Key): nat {
    if k in s.refcounts then s.refcounts[k] else 0
  }

  function Without(q: seq<QueueId>, x: QueueId): seq<QueueId> {
    if q == [] then [] else if q[0] == x then q[1..] else [q[0]] + Without(q[1..], x)
  }

  function Acquire(c: Config, s: State, k: Key, q: QueueId): State {
    var count := Count(s, k) + 1;
    var t := s.(queues := s.queues[k := Queues(s, k) + [q]], refcounts := s.refcounts[k := count]);
    if count == 1 then Subscribe(c, t, k) else t
  }

  function Release(s: State, k: Key, q: QueueId): State {
    var t := if k in s.queues && q in s.queues[k] then s.(queues := s.queues[k := Without(s.queues[k], q)]) else s;
    var count := if Count(s, k) <= 1 then 0 else Count(s, k) - 1;
    if count == 0 then Unsubscribe(t.(refcounts := t.refcounts - {k}, queues := t.queues - {k}), k)
    else t.(refcounts := t.refcounts[k := count])
  }

  // ---------------------------------------------------------------- the consistency invariant

  /** Reference count equals live queues, and a key is served exactly while it is counted. */
  ghost predicate Counted(s: State) {
    && (forall k :: Count(s, k) == |Queues(s, k)|)
    && (forall k :: k in s.served <==> Count(s, k) > 0)
    && (forall k :: k in s.refcounts ==> s.refcounts[k] > 0)
  }

  /** Each provider holds exactly the keys mapped to it, and only configured providers serve. */
  ghost predicate HeldMatches(c: Config, s: State) {
    && s.active in c.providers
    && (forall k :: k in s.served ==> s.served[k] in c.providers)
    && (forall p, k :: k in Held(s, p) <==> k in s.served && s.served[k] == p)
  }

  /** Every served key is on the provider its routing rule names. */
  ghost predicate Routed(c: Config, s: State) {
    forall k :: k in s.served ==> s.served[k] == RouteFor(c, s.active, k.0)
  }

  /** Every override names a configured provider. */
  predicate OverridesConfigured(c: Config) {
    forall y :: y in c.overrides ==> c.overrides[y] in c.providers
  }

  lemma {:induction false} SecondaryIs(providers: seq<Source>, active: Source)
    ensures var r := Secondary(providers, active);
            if r.Some? then r.value in providers && r.value != active
            else forall p :: p in providers ==> p == active
  {
    if providers != [] {
      SecondaryIs(providers[1..], active);
      assert providers == [providers[0]] + providers[1..];
    }
  }

  lemma SubscribeConsistent(c: Config, s: State, k: Key)
    requires ValidConfig(c) && HeldMatches(c, s) && k !in s.served
    ensures HeldMatches(c, Subscribe(c, s, k)) && (Routed(c, s) ==> Routed(c, Subscribe(c, s, k)))
    ensures forall x :: x in Subscribe(c, s, k).served <==> x in s.served || x == k
  {
    var t := Subscribe(c, s, k);
    forall p, x ensures x in Held(t, p) <==> x in t.served && t.served[x] == p {
      assert x in Held(s, p) <==> x in s.served && s.served[x] == p;
    }
  }

  lemma UnsubscribeConsistent(c: Config, s: State, k: Key)
    requires HeldMatches(c, s)
    ensures HeldMatches(c, Unsubscribe(s, k)) && (Routed(c, s) ==> Routed(c, Unsubscribe(s, k)))
    ensures forall x :: x in Unsubscribe(s, k).served <==> x in s.served && x != k
  {
    var t := Unsubscribe(s, k);
    forall p, x ensures x in Held(t, p) <==> x in t.served && t.served[x] == p {
      assert x in Held(s, p) <==> x in s.served && s.served[x] == p;
    }
  }

  /** Failover keeps providers and map in step, serves the same keys, and moves exactly `Moving`. */
  lemma FailOverConsistent(c: Config, s: State)
    requires HeldMatches(c, s)
    ensures var t := FailOver(c, s);
            && HeldMatches(c, t) && t.served.Keys == s.served.Keys
            && t.queues == s.queues && t.refcounts == s.refcounts
            && (forall k :: k in s.served ==>
                  t.served[k] == if k in Moving(c, s) then t.active else s.served[k])
            && (t.active != s.active <==> Secondary(c.providers, s.active).Some?)
  {
    SecondaryIs(c.providers, s.active);
    var t := FailOver(c, s);
    forall p, x ensures x in Held(t, p) <==> x in t.served && t.served[x] == p {
      assert x in Held(s, p) <==> x in s.served && s.served[x] == p;
    }
  }

  /** A served key that carries an override entry for a provider that is not configured. */
  predicate Stranded(c: Config, s: State, k: Key) {
    k in s.served && k.0 in c.overrides && c.overrides[k.0] !in c.providers
  }

  /**
    After a failover every key is on its routed provider exactly when no served key has an
    override naming an unconfigured provider: such a key is routed to the active provider but
    not moved with it.
   */
  lemma FailOverRouted(c: Config, s: State)
    requires HeldMatches(c, s) && Routed(c, s) && Secondary(c.providers, s.active).Some?
    ensures Routed(c, FailOver(c, s)) <==> forall k :: !Stranded(c, s, k)
  {
    hide Secondary, HeldMatches;
    FailOverConsistent(c, s);
    SecondaryIs(c.providers, s.active);
    var t := FailOver(c, s);
    forall k | k in s.served
      ensures t.served[k] == RouteFor(c, t.active, k.0) <==> !Stranded(c, s, k)
    {
      assert s.served[k] == RouteFor(c, s.active, k.0);
    }
    if k :| Stranded(c, s, k) {
      assert t.served[k] != RouteFor(c, t.active, k.0);
    }
  }

  // ---------------------------------------------------------------- operations and runs

  /** The queue is taken out once, where it first stands; the others stay as they are. */
  lemma {:induction false} WithoutIs(q: seq<QueueId>, x: QueueId) returns (i: nat)
    requires x in q
    ensures i < |q| && q[i] == x && x !in q[..i] && Without(q, x) == q[..i] + q[i + 1..]
  {
    i := 0;
    if q[0] != x {
      assert q == [q[0]] + q[1..];
      var j := WithoutIs(q[1..], x);
      i := j + 1;
      assert q[..i] == [q[0]] + q[1..][..j] && q[i + 1..] == q[1..][j + 1..];
    }
  }

  lemma {:induction false} WithoutShrinks(q: seq<QueueId>, x: QueueId)
    requires x in q
    ensures |Without(q, x)| == |q| - 1
  {
    if q[0] != x {
      assert q == [q[0]] + q[1..];
      WithoutShrinks(q[1..], x);
    }
  }

  ghost predicate Consistent(c: Config, s: State) {
    Counted(s) && HeldMatches(c, s)
  }

  lemma AcquireConsistent(c: Config, s: State, k: Key, q: QueueId)
    requires ValidConfig(c) && Consistent(c, s)
    ensures Consistent(c, Acquire(c, s, k, q)) && (Routed(c, s) ==> Routed(c, Acquire(c, s, k, q)))
  {
    hide HeldMatches, Routed, RouteFor;
    var count := Count(s, k) + 1;
    var t := s.(queues := s.queues[k := Queues(s, k) + [q]], refcounts := s.refcounts[k := count]);
    SameRouting(c, s, t);
    var u := Acquire(c, s, k, q);
    AcquireCounted(c, s, k, q);
    hide Counted;
    if count == 1 {
      NotServed(s, k);
      SubscribeConsistent(c, t, k);
    }
  }

  lemma NotServed(s: State, k: Key)
    requires Counted(s) && Count(s, k) == 0
    ensures k !in s.served
  {
  }

  lemma AcquireCounted(c: Config, s: State, k: Key, q: QueueId)
    requires Counted(s)
    ensures Counted(Acquire(c, s, k, q))
  {
    hide RouteFor;
    var u := Acquire(c, s, k, q);
    forall x ensures Count(u, x) == |Queues(u, x)| && (x in u.served <==> Count(u, x) > 0) {
      assert Count(s, x) == |Queues(s, x)| && (x in s.served <==> Count(s, x) > 0);
    }
  }

  /** Which provider serves a key plays no part in the counts. */
  lemma SameCounts(s: State, t: State)
    requires Counted(s) && t.queues == s.queues && t.refcounts == s.refcounts && t.served.Keys == s.served.Keys
    ensures Counted(t)
  {
    forall x ensures Count(t, x) == |Queues(t, x)| && (x in t.served <==> Count(t, x) > 0) {
      assert Count(s, x) == |Queues(s, x)| && (x in s.served <==> Count(s, x) > 0);
      assert x in t.served <==> x in t.served.Keys;
    }
  }

  /** Counters and queues play no part in routing. */
  lemma SameRouting(c: Config, s: State, t: State)
    requires HeldMatches(c, s) && t.active == s.active && t.served == s.served && t.held == s.held
    ensures HeldMatches(c, t) && (Routed(c, s) <==> Routed(c, t))
  {
    forall p, x ensures x in Held(t, p) <==> x in t.served && t.served[x] == p {
      assert x in Held(s, p) <==> x in s.served && s.served[x] == p;
    }
  }

  lemma ReleaseConsistent(c: Config, s: State, k: Key, q: QueueId)
    requires Consistent(c, s) && q in Queues(s, k)
    ensures Consistent(c, Release(s, k, q)) && (Routed(c, s) ==> Routed(c, Release(s, k, q)))
  {
    hide HeldMatches, Routed;
    WithoutShrinks(s.queues[k], q);
    var t := s.(queues := s.queues[k := Without(s.queues[k], q)]);
    var u := Release(s, k, q);
    assert Count(s, k) == |Queues(s, k)|;
    if Count(s, k) == 1 {
      var w := t.(refcounts := t.refcounts - {k}, queues := t.queues - {k});
      SameRouting(c, s, w);
      UnsubscribeConsistent(c, w, k);
    } else {
      SameRouting(c, s, u);
    }
    forall x ensures Count(u, x) == |Queues(u, x)| && (x in u.served <==> Count(u, x) > 0) {
      assert Count(s, x) == |Queues(s, x)| && (x in s.served <==> Count(s, x) > 0);
    }
  }

  lemma ErrorConsistent(c: Config, s: State, source: Source, now: real)
    requires Consistent(c, s)
    ensures Consistent(c, OnError(c, s, source, now))
    ensures Routed(c, s) && OverridesConfigured(c) ==> Routed(c, OnError(c, s, source, now))
  {
    hide HeldMatches, Routed, Recent, FailOver;
    var window := Recent((if source in s.errors then s.errors[source] else []) + [now], now - c.window);
    var t := s.(errors := s.errors[source := window]);
    SameRouting(c, s, t);
    FailOverConsistent(c, t);
    var u := OnError(c, s, source, now);
    if Secondary(c.providers, s.active).Some? && Routed(c, s) {
      FailOverRouted(c, t);
    } else {
      NoFailOver(c, t);
    }
    SameCounts(s, u);
  }

  lemma NoFailOver(c: Config, s: State)
    ensures Secondary(c.providers, s.active).None? ==> FailOver(c, s) == s
  {
  }

  datatype Op = AcquireOp(k: Key, q: QueueId) | ReleaseOp(k: Key, q: QueueId) | ErrorOp(source: Source, now: real)

  function Apply(c: Config, s: State, op: Op): State {
    match op
    case AcquireOp(k, q) => Acquire(c, s, k, q)
    case ReleaseOp(k, q) => if q in Queues(s, k) then Release(s, k, q) else s
    case ErrorOp(source, now) => OnError(c, s, source, now)
  }

  function Run(c: Config, ops: seq<Op>): State {
    if ops == [] then State(c.primary, map[], map[], map[], map[], map[])
    else Apply(c, Run(c, ops[..|ops| - 1]), ops[|ops| - 1])
  }

  /**
    Over every run of acquires, releases and provider errors: the reference count equals the live
    queues, a key is served exactly while it is counted, each provider holds exactly the keys
    mapped to it, and — overrides naming configured providers only — every key is on its routed
    provider.
   */
  lemma {:induction false} RoutingConsistentOverRuns(c: Config, ops: seq<Op>)
    requires ValidConfig(c)
    ensures Consistent(c, Run(c, ops))
    ensures OverridesConfigured(c) ==> Routed(c, Run(c, ops))
  {
    hide Consistent, Routed, Apply;
    if ops == [] {
      StartConsistent(c);
    } else {
      RoutingConsistentOverRuns(c, ops[..|ops| - 1]);
      ApplyConsistent(c, Run(c, ops[..|ops| - 1]), ops[|ops| - 1]);
    }
  }

  lemma StartConsistent(c: Config)
    requires ValidConfig(c)
    ensures Consistent(c, Run(c, [])) && Routed(c, Run(c, []))
  {
  }

  lemma ApplyConsistent(c: Config, s: State, op: Op)
    requires ValidConfig(c) && Consistent(c, s)
    ensures Consistent(c, Apply(c, s, op))
    ensures OverridesConfigured(c) && Routed(c, s) ==> Routed(c, Apply(c, s, op))
  {
    hide Consistent, Routed, Acquire, Release, OnError;
    match op
    case AcquireOp(k, q) => AcquireConsistent(c, s, k, q);
    case ReleaseOp(k, q) => if q in Queues(s, k) { ReleaseConsistent(c, s, k, q); }
    case ErrorOp(source, now) => ErrorConsistent(c, s, source, now);
  }

  // ---------------------------------------------------------------- when a failover happens

  /** How many of the times lie at or after the cutoff. */
  function CountSince(times: seq<real>, cutoff: real): nat {
    if times == [] then 0
    else CountSince(times[..|times| - 1], cutoff) + (if times[|times| - 1] >= cutoff then 1 else 0)
  }

  /** The errors a provider has reported since the run last switched away from it. */
  function ErrorsSince(c: Config, ops: seq<Op>, p: Source): seq<real> {
    if ops == [] then []
    else
      var init, op := ops[..|ops| - 1], ops[|ops| - 1];
      var before := ErrorsSince(c, init, p);
      if !op.ErrorOp? || op.source != p then before
      else if Run(c, init).active == p && Run(c, ops).active != p then []
      else before + [op.now]
  }

  /** The times of the errors never run backwards, and none is later than `now`. */
  ghost predicate ClockUpTo(ops: seq<Op>, now: real) {
    forall i :: 0 <= i < |ops| && ops[i].ErrorOp? ==>
      ops[i].now <= now && forall j :: 0 <= j < i && ops[j].ErrorOp? ==> ops[j].now <= ops[i].now
  }

  lemma {:induction false} RecentTwice(times: seq<real>, earlier: real, cutoff: real)
    requires earlier <= cutoff
    ensures Recent(Recent(times, earlier), cutoff) == Recent(times, cutoff)
  {
    if times != [] {
      var init, last := times[..|times| - 1], times[|times| - 1];
      RecentTwice(init, earlier, cutoff);
      RecentAppend(Recent(init, earlier), last, cutoff);
      assert Recent(init, earlier) + [] == Recent(init, earlier);
    }
  }

  lemma RecentAppend(times: seq<real>, t: real, cutoff: real)
    ensures Recent(times + [t], cutoff) == if t >= cutoff then Recent(times, cutoff) + [t] else Recent(times, cutoff)
  {
    assert (times + [t])[..|times|] == times;
    assert Recent(times, cutoff) + [] == Recent(times, cutoff);
  }

  lemma {:induction false} RecentCount(times: seq<real>, cutoff: real)
    ensures |Recent(times, cutoff)| == CountSince(times, cutoff)
  {
    if times != [] {
      RecentCount(times[..|times| - 1], cutoff);
    }
  }

  function Times(s: State, p: Source): seq<real> {
    if p in s.errors then s.errors[p] else []
  }

  /** From the last error's window on, the kept times answer like all errors since the last switch. */
  ghost predicate Remembers(c: Config, ops: seq<Op>, p: Source, now: real) {
    forall x :: x >= now - c.window ==> Recent(Times(Run(c, ops), p), x) == Recent(ErrorsSince(c, ops, p), x)
  }

  /** A failover clears the failing provider's times and moves on, if there is anywhere to go. */
  lemma FailOverEffect(c: Config, s: State)
    ensures var t := FailOver(c, s);
            && (t.active != s.active <==> exists q :: q in c.providers && q != s.active)
            && (t.active == s.active ==> t == s)
            && (t.active != s.active ==> t.errors == s.errors[s.active := []])
  {
    hide MovedServed, MovedHeld, Moving, Secondary;
    SecondaryIs(c.providers, s.active);
  }

  /** What an error leaves of the kept times, and whether the run switches on it. */
  lemma ErrorEffect(c: Config, s: State, source: Source, now: real)
    ensures var t, window := OnError(c, s, source, now), Recent(Times(s, source) + [now], now - c.window);
            && (t.active != s.active <==>
                  source == s.active && (exists q :: q in c.providers && q != s.active) && |window| >= c.threshold)
            && Times(t, source) == (if t.active != s.active then [] else window)
            && (forall p :: p != source ==> Times(t, p) == Times(s, p))
            && (t.active == s.active ==> t.served == s.served && t.held == s.held)
  {
    hide Recent, FailOver;
    var window := Recent(Times(s, source) + [now], now - c.window);
    FailOverEffect(c, s.(errors := s.errors[source := window]));
  }

  lemma {:induction false} RunRemembers(c: Config, ops: seq<Op>, p: Source, now: real)
    requires ClockUpTo(ops, now)
    ensures Remembers(c, ops, p, now)
  {
    hide Recent, Subscribe, Unsubscribe, OnError;
    if ops != [] {
      var init, op := ops[..|ops| - 1], ops[|ops| - 1];
      assert ops == init + [op];
      assert ClockUpTo(init, if op.ErrorOp? then op.now else now);
      RunRemembers(c, init, p, if op.ErrorOp? then op.now else now);
      if op.ErrorOp? {
        RemembersError(c, init, op, p, now);
      } else {
        assert Times(Run(c, ops), p) == Times(Run(c, init), p) by {
          QuietOp(c, Run(c, init), op, p);
        }
      }
    }
  }

  lemma QuietOp(c: Config, s: State, op: Op, p: Source)
    requires !op.ErrorOp?
    ensures Times(Apply(c, s, op), p) == Times(s, p) && Apply(c, s, op).active == s.active
  {
  }

  lemma RemembersError(c: Config, init: seq<Op>, op: Op, p: Source, now: real)
    requires op.ErrorOp? && op.now <= now && Remembers(c, init, p, op.now)
    ensures Remembers(c, init + [op], p, now)
  {
    hide Recent, OnError;
    var ops := init + [op];
    assert ops[..|init|] == init;
    var s, since, cut := Run(c, init), ErrorsSince(c, init, p), op.now - c.window;
    ErrorEffect(c, s, op.source, op.now);
    if op.source == p {
      RecentAppend(Times(s, p), op.now, cut);
      RecentAppend(since, op.now, cut);
      assert Recent(Times(s, p), cut) == Recent(since, cut);
      forall x | x >= now - c.window
        ensures Recent(Times(Run(c, ops), p), x) == Recent(ErrorsSince(c, ops, p), x)
      {
        RecentTwice(since + [op.now], cut, x);
      }
    }
  }

  /**
    An error changes the active provider exactly when it is the active provider's, another one is
    configured, and that provider's errors since the run last switched away from it, this one
    included, that lie within the window number at least the threshold. Otherwise nobody moves.
   */
  lemma FailoverExactly(c: Config, ops: seq<Op>, source: Source, now: real)
    requires ClockUpTo(ops, now)
    ensures var s, t := Run(c, ops), Run(c, ops + [ErrorOp(source, now)]);
            && (t.active != s.active <==>
                  && source == s.active && (exists q :: q in c.providers && q != s.active)
                  && CountSince(ErrorsSince(c, ops, source) + [now], now - c.window) >= c.threshold)
            && (t.active == s.active ==> t.served == s.served && t.held == s.held)
  {
    hide Recent, OnError, CountSince;
    assert (ops + [ErrorOp(source, now)])[..|ops|] == ops;
    var s, since, cut := Run(c, ops), ErrorsSince(c, ops, source), now - c.window;
    RunRemembers(c, ops, source, now);
    ErrorEffect(c, s, source, now);
    RecentAppend(Times(s, source), now, cut);
    RecentAppend(since, now, cut);
    RecentCount(since + [now], cut);
    assert Recent(Times(s, source), cut) == Recent(since, cut);
  }

  /** No other operation changes the active provider, and a failover goes to the first other one. */
  lemma OnlyErrorsFailOver(c: Config, ops: seq<Op>, op: Op)
    ensures var s, t := Run(c, ops), Run(c, ops + [op]);
            && (!op.ErrorOp? ==> t.active == s.active)
            && (t.active != s.active ==>
                  exists k :: 0 <= k < |c.providers| && c.providers[k] == t.active
                              && forall j :: 0 <= j < k ==> c.providers[j] == s.active)
  {
    assert (ops + [op])[..|ops|] == ops;
    hide Recent, MovedServed, MovedHeld, Moving, Subscribe, Unsubscribe;
    var s := Run(c, ops);
    if op.ErrorOp? {
      FirstOther(c.providers, s.active);
    } else {
      QuietOp(c, s, op, 0);
    }
  }

  lemma {:induction false} FirstOther(providers: seq<Source>, active: Source)
    ensures var r := Secondary(providers, active);
            r.Some? ==> exists k :: 0 <= k < |providers| && providers[k] == r.value
                                    && forall j :: 0 <= j < k ==> providers[j] == active
  {
    var r := Secondary(providers, active);
    if r.Some? && providers[0] == active {
      var rest := providers[1..];
      FirstOther(rest, active);
      var k :| 0 <= k < |rest| && rest[k] == r.value && forall j :: 0 <= j < k ==> rest[j] == active;
      assert providers[k + 1] == r.value;
      assert forall j :: 0 < j < k + 1 ==> providers[j] == rest[j - 1];
    } else if r.Some? {
      assert providers[0] == r.value;
    }
  }

  /** An override for an unconfigured provider strands its key on the failed provider. */
  lemma StrandedAfterFailover()
    ensures var c := Config([1, 2], 1, map["PTT" := 3], 1, 30.0);
            var s := Run(c, [AcquireOp(("PTT", SET), 0), ErrorOp(1, 0.0)]);
            && ValidConfig(c) && s.active == 2 && s.served == map[("PTT", SET) := 1]
            && RouteFor(c, s.active, "PTT") == 2
  {
    var c := Config([1, 2], 1, map["PTT" := 3], 1, 30.0);
    var key: Key := ("PTT", SET);
    var start := Run(c, []);
    assert [AcquireOp(key, 0)][..0] == [];
    var one := Run(c, [AcquireOp(key, 0)]);
    assert one == Acquire(c, start, key, 0);
    assert one.served == map[key := 1];
    assert [AcquireOp(key, 0), ErrorOp(1, 0.0)][..1] == [AcquireOp(key, 0)];
    assert [] + [0.0] == [0.0] && [0.0][..0] == [];
    assert Recent([0.0], 0.0 - 30.0) == [0.0];
    assert Secondary([1, 2], 1) == Some(2) by { assert [1, 2][1..] == [2]; }
  }

  // ---------------------------------------------------------------- the mutable objects

  lemma NothingMoved(served: map<Key, Source>, held: map<Source, set<Key>>, p: Source, q: Source)
    requires p in held && q in held && p != q
    ensures MovedServed(served, q, {}) == served && MovedHeld(held, p, q, {}) == held
  {
    assert held[p] - {} == held[p] && held[q] + {} == held[q];
  }

  lemma OneMoreMoved(
    served: map<Key, Source>, held: map<Source, set<Key>>, p: Source, q: Source, done: set<Key>, k: Key
  )
    requires p in held && q in held && p != q && k in served
    ensures MovedServed(served, q, done + {k}) == MovedServed(served, q, done)[k := q]
    ensures var h := MovedHeld(held, p, q, done);
            p in h && q in h && MovedHeld(held, p, q, done + {k}) == h[p := h[p] - {k}][q := h[q] + {k}]
  {
    assert held[p] - (done + {k}) == held[p] - done - {k};
    assert held[q] + (done + {k}) == held[q] + done + {k};
  }

  /** Service and router as one object; the providers' own sets are kept beside them. */
  class BookRouter {
    const config: Config
    var active: Source
    var served: map<Key, Source>
    var errors: map<Source, seq<real>>
    var held: map<Source, set<Key>>
    var queues: map<Key, seq<QueueId>>
    var refcounts: map<Key, nat>

    constructor (config: Config)
      requires ValidConfig(config)
      ensures this.config == config && Valid() && active == config.primary
      ensures served == map[] && errors == map[] && queues == map[] && refcounts == map[]
    {
      this.config := config;
      active, served, errors := config.primary, map[], map[];
      held := map p | p in config.providers :: {};
      queues, refcounts := map[], map[];
    }

    /** Only configured providers serve, and each has its own set. */
    ghost predicate Valid()
      reads this
    {
      && active in config.providers
      && (forall p :: p in config.providers ==> p in held)
      && (forall k :: k in served ==> served[k] in config.providers)
    }

    function Snapshot(): State
      reads this
    {
      State(active, served, errors, held, queues, refcounts)
    }

    method SubscribeKey(k: Key)
      requires Valid()
      modifies this`served, this`held
      ensures Valid() && Snapshot() == Subscribe(config, old(Snapshot()), k)
    {
      var p := active;
      if k.0 in config.overrides && config.overrides[k.0] in config.providers {
        p := config.overrides[k.0];
      }
      served := served[k := p];
      held := held[p := held[p] + {k}];
    }

    method UnsubscribeKey(k: Key)
      requires Valid()
      modifies this`served, this`held
      ensures Valid() && Snapshot() == Unsubscribe(old(Snapshot()), k)
    {
      if k in served {
        var p := served[k];
        served := served - {k};
        held := held[p := held[p] - {k}];
      }
    }

    /** The first live queue of a key makes the router subscribe it. */
    method AcquireKey(k: Key, q: QueueId)
      requires Valid()
      modifies this
      ensures Valid() && Snapshot() == Acquire(config, old(Snapshot()), k, q)
    {
      if k !in queues {
        queues := queues[k := []];
      }
      queues := queues[k := queues[k] + [q]];
      var count := (if k in refcounts then refcounts[k] else 0) + 1;
      refcounts := refcounts[k := count];
      assert Snapshot() == old(Snapshot()).(queues := old(queues)[k := Queues(old(Snapshot()), k) + [q]],
                                            refcounts := old(refcounts)[k := count]);
      if count == 1 {
        SubscribeKey(k);
      }
    }

    /** The last released queue of a key makes the router unsubscribe it. */
    method ReleaseKey(k: Key, q: QueueId)
      requires Valid()
      modifies this
      ensures Valid() && Snapshot() == Release(old(Snapshot()), k, q)
    {
      if k in queues && q in queues[k] {
        queues := queues[k := Without(queues[k], q)];
      }
      var count := if k in refcounts && refcounts[k] > 1 then refcounts[k] - 1 else 0;
      if count == 0 {
        refcounts := refcounts - {k};
        queues := queues - {k};
        UnsubscribeKey(k);
      } else {
        refcounts := refcounts[k := count];
      }
    }

    method FindSecondary() returns (r: Option<Source>)
      ensures r == Secondary(config.providers, active)
    {
      for i := 0 to |config.providers|
        invariant Secondary(config.providers, active) == Secondary(config.providers[i..], active)
      {
        if config.providers[i] != active {
          return Some(config.providers[i]);
        }
        assert config.providers[i..][1..] == config.providers[i + 1..];
      }
      return None;
    }

    /** Switch the active provider and migrate the keys one by one. */
    method SwitchProvider()
      requires Valid()
      modifies this
      ensures Valid() && Snapshot() == FailOver(config, old(Snapshot()))
    {
      hide MovedServed, MovedHeld;
      var second := FindSecondary();
      SecondaryIs(config.providers, active);
      if second.None? {
        return;
      }
      var previous, next := active, second.value;
      var moving := set k | k in served && served[k] == previous && k.0 !in config.overrides;
      assert moving == Moving(config, Snapshot());
      active := next;
      errors := errors[previous := []];
      AllMoved(served, held, previous, next, moving);
      Migrate(previous, next, moving);
    }

    /** Unsubscribe each key from the old provider and subscribe it on the new one. */
    method Migrate(previous: Source, next: Source, moving: set<Key>)
      requires previous in held && next in held && previous != next && forall k :: k in moving ==> k in served
      modifies this`served, this`held
      ensures served == MovedServed(old(served), next, moving) && held == MovedHeld(old(held), previous, next, moving)
    {
      hide MovedServed, MovedHeld;
      ghost var served0, held0 := served, held;
      ghost var done := {};
      var rest := moving;
      NothingMoved(served0, held0, previous, next);
      while rest != {}
        invariant rest + done == moving && rest !! done
        invariant served == MovedServed(served0, next, done)
        invariant held == MovedHeld(held0, previous, next, done)
        decreases rest
      {
        var k :| k in rest;
        OneMoreMoved(served0, held0, previous, next, done, k);
        held := held[previous := held[previous] - {k}];
        served := served[k := next];
        held := held[next := held[next] + {k}];
        done := done + {k};
        rest := rest - {k};
      }
      assert done == moving;
    }

    /** Record a provider error; only the active provider reaching the threshold switches. */
    method RecordError(source: Source, now: real)
      requires Valid()
      modifies this
      ensures Valid() && Snapshot() == OnError(config, old(Snapshot()), source, now)
    {
      hide FailOver, Recent;
      var times := (if source in errors then errors[source] else []) + [now];
      var window := Prune(times, now - config.window);
      errors := errors[source := window];
      if source == active && |window| >= config.threshold {
        SwitchProvider();
      }
    }
  }

  ghost predicate InOrder(times: seq<real>) {
    forall i, j :: 0 <= i < j < |times| ==> times[i] <= times[j]
  }

  lemma {:induction false} RecentMembers(times: seq<real>, cutoff: real)
    ensures forall t :: t in Recent(times, cutoff) <==> t in times && t >= cutoff
  {
    if times != [] {
      RecentMembers(times[..|times| - 1], cutoff);
      assert times == times[..|times| - 1] + [times[|times| - 1]];
    }
  }

  /** Pruning works on each time by itself: it keeps or drops it where it stands, as often as it stands there. */
  lemma {:induction false} RecentConcat(a: seq<real>, b: seq<real>, cutoff: real)
    ensures Recent(a + b, cutoff) == Recent(a, cutoff) + Recent(b, cutoff)
  {
    if b == [] {
      assert a + b == a;
    } else {
      RecentConcat(a, b[..|b| - 1], cutoff);
      assert (a + b)[..|a + b| - 1] == a + b[..|b| - 1];
    }
  }

  lemma AppendInOrder(times: seq<real>, t: real)
    requires InOrder(times) && forall x :: x in times ==> x <= t
    ensures InOrder(times + [t])
  {
    forall i, j | 0 <= i < j < |times + [t]| ensures (times + [t])[i] <= (times + [t])[j] {
      assert times[i] in times;
    }
  }

  lemma InitInOrder(init: seq<real>, last: real)
    requires InOrder(init + [last])
    ensures InOrder(init) && forall x :: x in init ==> x <= last
  {
    var all := init + [last];
    assert forall i :: 0 <= i < |init| ==> init[i] == all[i] && all[i] <= all[|init|];
  }

  lemma {:induction false} RecentInOrder(times: seq<real>, cutoff: real)
    requires InOrder(times)
    ensures InOrder(Recent(times, cutoff))
  {
    if times != [] {
      var init, last := times[..|times| - 1], times[|times| - 1];
      assert times == init + [last];
      InitInOrder(init, last);
      RecentInOrder(init, cutoff);
      RecentMembers(init, cutoff);
      AppendInOrder(Recent(init, cutoff), last);
      hide InOrder;
      assert Recent(init, cutoff) + [] == Recent(init, cutoff);
    }
  }

  /** Prunes the error times to those inside the window. */
  method Prune(times: seq<real>, cutoff: real) returns (window: seq<real>)
    ensures window == Recent(times, cutoff)
    ensures forall t :: t in window <==> t in times && t >= cutoff
    ensures InOrder(times) ==> InOrder(window)
  {
    RecentMembers(times, cutoff);
    if InOrder(times) {
      RecentInOrder(times, cutoff);
    }
    hide InOrder;
    window := [];
    for i := 0 to |times|
      invariant window == Recent(times[..i], cutoff)
    {
      assert times[..i + 1][..i] == times[..i];
      if times[i] >= cutoff {
        window := window + [times[i]];
      }
    }
    assert times[..|times|] == times;
  }

  lemma AllMoved(served: map<Key, Source>, held: map<Source, set<Key>>, p: Source, q: Source, done: set<Key>)
    ensures MovedServed(served, q, done).Keys == served.Keys
    ensures forall k :: k in served ==>
            MovedServed(served, q, done)[k] == q || MovedServed(served, q, done)[k] == served[k]
    ensures forall x :: x in held ==> x in MovedHeld(held, p, q, done)
  {
  }
}
