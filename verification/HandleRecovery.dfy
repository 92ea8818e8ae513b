/** The bounded burst of venue reads after a placement: a retry floor first, then a ceiling. */
module HandleRecovery {
  import opened Common

  datatype Resolution = Confirmed | Pending | Unknown

  /** How one venue read ended: the order resolved, the venue was read without it, or it raised. */
  datatype ReadOutcome = Resolved | NotYet | ReadFailed

  /** One attempt: when the read began, how it ended, and the clock right after it. */
  datatype Attempt = Attempt(startedAt: real, outcome: ReadOutcome, readAt: real)

  datatype Budget = Budget(submittedAt: real, cadence: real, deadline: real, minPolls: int)

  /** Time since submit, clamped so that clock skew cannot make it negative. */
  function Elapsed(b: Budget, now: real): real {
    if now > b.submittedAt then now - b.submittedAt else 0.0
  }

  /** The floor is met and one more cadence would pass the submit-anchored ceiling. */
  predicate Exhausted(b: Budget, a: Attempt, made: nat) {
    made >= b.minPolls && Elapsed(b, a.readAt) + b.cadence > b.deadline
  }

  /** The burst ends after its `made`-th attempt. */
  predicate Stops(b: Budget, a: Attempt, made: nat) {
    a.outcome == Resolved || Exhausted(b, a, made)
  }

  /** The first `n` attempts of the script all happen and none of them ends the burst. */
  ghost predicate KeepsGoing(b: Budget, script: seq<Attempt>, n: nat) {
    n <= |script| && forall k :: 0 <= k < n ==> !Stops(b, script[k], k + 1)
  }

  /** The burst consists of exactly the first `n` attempts. */
  ghost predicate EndsAt(b: Budget, script: seq<Attempt>, n: nat) {
    0 < n <= |script| && KeepsGoing(b, script, n - 1) && Stops(b, script[n - 1], n)
  }

  /**
    The burst over a script of reads.  `None` means that the script ran out first: the burst
    would go on.
   */
  method RecoverHandle(b: Budget, script: seq<Attempt>) returns (result: Option<Resolution>, attempts: nat)
    ensures if result.None? then attempts == |script| && KeepsGoing(b, script, |script|)
            else EndsAt(b, script, attempts)
    ensures result == Some(Confirmed) <==> exists k :: 0 <= k < attempts && script[k].outcome == Resolved
    ensures result == Some(Unknown) <==>
            result.Some? && forall k :: 0 <= k < attempts ==> script[k].outcome == ReadFailed
    ensures result.Some? && result != Some(Confirmed) ==> attempts >= b.minPolls
  {
    var readOk := false;
    attempts := 0;
    while attempts < |script|
      invariant attempts <= |script|
      invariant KeepsGoing(b, script, attempts)
      invariant readOk <==> exists k :: 0 <= k < attempts && script[k].outcome == NotYet
    {
      var attempt := script[attempts];
      attempts := attempts + 1;
      if attempt.outcome == Resolved {
        return Some(Confirmed), attempts;
      }
      if attempt.outcome == NotYet {
        readOk := true;
      }
      var elapsed := Elapsed(b, attempt.readAt);
      if attempts >= b.minPolls && elapsed + b.cadence > b.deadline {
        return Some(if readOk then Pending else Unknown), attempts;
      }
    }
    return None, attempts;
  }

  /** A clock that reads before the submit counts as no time elapsed. */
  lemma ExhaustedIs(b: Budget, a: Attempt, made: nat)
    ensures Exhausted(b, a, made) <==>
            && made >= b.minPolls
            && b.cadence > b.deadline - (if a.readAt <= b.submittedAt then 0.0 else a.readAt - b.submittedAt)
  {
  }

  // ---------------------------------------------------------------- the budget

  /** Attempts the budget pays for at most. */
  function MostAttempts(b: Budget): (n: nat)
    requires b.cadence > 0.0
    ensures n >= 1
  {
    var paid := (b.deadline / b.cadence).Floor + 1;
    var most := if paid > b.minPolls then paid else b.minPolls;
    if most > 1 then most else 1
  }

  /** The clock starts at or after the submit, never runs back, and every sleep lasts a cadence. */
  ghost predicate Paced(b: Budget, script: seq<Attempt>) {
    && (forall k :: 0 <= k < |script| ==> script[k].startedAt <= script[k].readAt)
    && (forall k :: 0 < k < |script| ==> script[k - 1].readAt + b.cadence <= script[k].startedAt)
    && (script != [] ==> b.submittedAt <= script[0].startedAt)
  }

  /** `made` cadences pass the ceiling exactly when there are more of them than it has room for. */
  lemma PastCeiling(b: Budget, made: int)
    requires b.cadence > 0.0
    ensures made as real * b.cadence > b.deadline <==> made >= (b.deadline / b.cadence).Floor + 1
  {
    var room := b.deadline / b.cadence;
    assert room * b.cadence == b.deadline;
    var over := made as real - room;
    assert over > 0.0 ==> over * b.cadence > 0.0;
    assert over <= 0.0 ==> over * b.cadence <= 0.0;
    assert over * b.cadence == made as real * b.cadence - b.deadline;
    assert made as real > room <==> made >= room.Floor + 1;
  }

  lemma {:induction false} ReadAfterCadences(b: Budget, script: seq<Attempt>, k: nat)
    requires b.cadence > 0.0 && Paced(b, script) && k < |script|
    ensures script[k].readAt >= b.submittedAt + k as real * b.cadence
  {
    if k > 0 {
      ReadAfterCadences(b, script, k - 1);
      assert k as real * b.cadence == (k - 1) as real * b.cadence + b.cadence;
    }
  }

  /** Once the budget's attempts are made, the latest of them ends the burst. */
  lemma BudgetSpent(b: Budget, script: seq<Attempt>)
    requires b.cadence > 0.0 && Paced(b, script) && |script| >= MostAttempts(b)
    ensures Exhausted(b, script[MostAttempts(b) - 1], MostAttempts(b))
  {
    var n := MostAttempts(b);
    ReadAfterCadences(b, script, n - 1);
    PastCeiling(b, n);
    assert n as real * b.cadence == (n - 1) as real * b.cadence + b.cadence;
    assert (n - 1) as real * b.cadence >= 0.0;
  }

  lemma {:induction false} FirstStop(b: Budget, script: seq<Attempt>, n: nat) returns (m: nat)
    requires n <= |script| && !KeepsGoing(b, script, n)
    ensures m <= n && EndsAt(b, script, m)
  {
    m := n;
    if !KeepsGoing(b, script, n - 1) {
      m := FirstStop(b, script, n - 1);
    }
  }

  lemma EndsOnce(b: Budget, script: seq<Attempt>, n: nat, m: nat)
    requires EndsAt(b, script, n) && EndsAt(b, script, m)
    ensures n <= m
  {
  }

  /** A paced burst ends within its budget. */
  lemma BurstIsBounded(b: Budget, script: seq<Attempt>)
    requires b.cadence > 0.0 && Paced(b, script) && |script| >= MostAttempts(b)
    ensures exists n: nat :: EndsAt(b, script, n)
    ensures forall n: nat :: EndsAt(b, script, n) ==> n <= MostAttempts(b)
  {
    BudgetSpent(b, script);
    var m := FirstStop(b, script, MostAttempts(b));
    forall n: nat | EndsAt(b, script, n) ensures n <= MostAttempts(b) {
      EndsOnce(b, script, n, m);
    }
  }

  /** With exact sleeps, an attempt beyond the floor never starts after the ceiling. */
  lemma NoLateStart(b: Budget, script: seq<Attempt>, n: nat, k: nat)
    requires EndsAt(b, script, n) && 0 < k < n && k >= b.minPolls
    requires script[k].startedAt == script[k - 1].readAt + b.cadence
    ensures script[k].startedAt <= b.submittedAt + b.deadline
  {
  }

  /** Reads that take no time and never resolve, from the submit on, one cadence apart. */
  ghost predicate InstantMisses(b: Budget, script: seq<Attempt>) {
    forall k :: 0 <= k < |script| ==>
      script[k].outcome != Resolved && script[k].readAt == b.submittedAt + k as real * b.cadence
  }

  lemma InstantStop(b: Budget, script: seq<Attempt>, m: nat)
    requires b.cadence > 0.0 && InstantMisses(b, script) && 0 < m <= |script|
    ensures Stops(b, script[m - 1], m) <==> m >= MostAttempts(b)
  {
    PastCeiling(b, m);
    assert m as real * b.cadence == (m - 1) as real * b.cadence + b.cadence;
    assert (m - 1) as real * b.cadence >= 0.0;
  }

  /** The bound is exact: instant reads that never resolve use the whole budget. */
  lemma BudgetIsReached(b: Budget, script: seq<Attempt>, n: nat)
    requires b.cadence > 0.0 && InstantMisses(b, script) && EndsAt(b, script, n)
    ensures n == MostAttempts(b)
  {
    hide MostAttempts, Stops;
    InstantStop(b, script, n);
    if n > 1 {
      InstantStop(b, script, n - 1);
      assert !Stops(b, script[n - 2], n - 1);
    }
  }
}
