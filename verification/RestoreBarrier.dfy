/**
 The timing of withRestoreBarrier in application/localVaultBackups.ts: a stored
 deadline, extended by a heartbeat that may miss ticks, and cleared on release.
 Times are real-valued milliseconds.
 */
module RestoreBarrier {

  const RESTORE_BARRIER_HOLD_MS: real := 60000.0
  const RESTORE_BARRIER_HEARTBEAT_MS: real := 20000.0

  function Min(a: real, b: real): real { if a < b then a else b }
  function Max(a: real, b: real): real { if a < b then b else a }

  /** The heartbeat interval for a given hold time. */
  function HeartbeatMs(holdMs: real): real {
    Max(1000.0, Min(holdMs / 3.0, RESTORE_BARRIER_HEARTBEAT_MS))
  }

  /** Tick 0 is the write on entry; later ticks come one heartbeat apart. */
  function TickTime(start: real, period: real, i: nat): real {
    if i == 0 then start else TickTime(start, period, i - 1) + period
  }

  /** When the deadline was last written, looking back from tick `i`; `fired[k]` is tick `k + 1`. */
  function LastWrite(start: real, period: real, fired: seq<bool>, i: nat): real
    requires i <= |fired|
  {
    if i == 0 then start
    else if fired[i - 1] then TickTime(start, period, i)
    else LastWrite(start, period, fired, i - 1)
  }

  /** `n` heartbeats. */
  function Periods(n: nat, period: real): real {
    if n == 0 then 0.0 else Periods(n - 1, period) + period
  }

  lemma {:induction false} PeriodsScale(n: nat, period: real)
    ensures Periods(n, period) == n as real * period
  {
    if n > 0 {
      PeriodsScale(n - 1, period);
      Distributes(n - 1, period);
    }
  }

  lemma Distributes(n: nat, period: real)
    ensures (n + 1) as real * period == n as real * period + period
  {
  }

  lemma {:induction false} PeriodsMonotone(a: nat, b: nat, period: real)
    requires a <= b && period >= 0.0
    ensures Periods(a, period) <= Periods(b, period)
  {
    if a < b {
      PeriodsMonotone(a, b - 1, period);
    }
  }

  /** How many ticks in a row were missed up to tick `i`. */
  function MissedInARow(fired: seq<bool>, i: nat): nat
    requires i <= |fired|
  {
    if i == 0 || fired[i - 1] then 0 else MissedInARow(fired, i - 1) + 1
  }

  ghost predicate MissesAtMost(fired: seq<bool>, misses: nat) {
    forall i :: 0 <= i <= |fired| ==> MissedInARow(fired, i) <= misses
  }

  /** The deadline last written is still in the future. */
  predicate Blocks(start: real, holdMs: real, fired: seq<bool>, i: nat, now: real)
    requires i <= |fired|
  {
    now < LastWrite(start, HeartbeatMs(holdMs), fired, i) + holdMs
  }

  /** From tick `i` until just before the next one runs, the stored deadline is ahead of the clock. */
  ghost predicate Ahead(start: real, holdMs: real, fired: seq<bool>, i: nat)
    requires i <= |fired|
  {
    var period := HeartbeatMs(holdMs);
    forall t: real :: TickTime(start, period, i) <= t <= TickTime(start, period, i + 1) ==>
      Blocks(start, holdMs, fired, i, t)
  }

  /** However long the task runs, the deadline stays ahead if at most `misses` ticks in a row are missed. */
  ghost predicate Tolerates(holdMs: real, misses: nat) {
    forall start: real, fired: seq<bool>, i: nat ::
      i <= |fired| && MissesAtMost(fired, misses) ==> Ahead(start, holdMs, fired, i)
  }

  lemma {:induction false} LastWriteBehind(start: real, period: real, fired: seq<bool>, i: nat)
    requires i <= |fired|
    ensures TickTime(start, period, i) - LastWrite(start, period, fired, i) == Periods(MissedInARow(fired, i), period)
  {
    if i > 0 && !fired[i - 1] {
      LastWriteBehind(start, period, fired, i - 1);
    }
  }

  lemma StaysAhead(holdMs: real, misses: nat, start: real, fired: seq<bool>, i: nat)
    requires holdMs > (misses + 1) as real * HeartbeatMs(holdMs)
    requires i <= |fired| && MissesAtMost(fired, misses)
    ensures Ahead(start, holdMs, fired, i)
  {
    var period := HeartbeatMs(holdMs);
    LastWriteBehind(start, period, fired, i);
    assert MissedInARow(fired, i) <= misses;
    PeriodsMonotone(MissedInARow(fired, i), misses, period);
    PeriodsScale(misses + 1, period);
    forall t: real | TickTime(start, period, i) <= t <= TickTime(start, period, i + 1)
      ensures Blocks(start, holdMs, fired, i, t)
    {
      BeforeDeadline(t, TickTime(start, period, i), LastWrite(start, period, fired, i),
                     Periods(MissedInARow(fired, i), period), Periods(misses, period), period, holdMs);
    }
  }

  /** Arithmetic of one period: the last write is at most `most` behind the tick at `tick`. */
  lemma BeforeDeadline(t: real, tick: real, written: real, lag: real, most: real, period: real, holdMs: real)
    requires t <= tick + period && tick - written == lag <= most && holdMs > most + period
    ensures t < written + holdMs
  {
  }

  lemma {:induction false} AllMissed(start: real, period: real, fired: seq<bool>, i: nat)
    requires i <= |fired| && forall k :: 0 <= k < |fired| ==> !fired[k]
    ensures LastWrite(start, period, fired, i) == start && MissedInARow(fired, i) == i
  {
    if i > 0 {
      AllMissed(start, period, fired, i - 1);
    }
  }

  /** When a hold time is too short, losing every tick lets the deadline expire before the last one. */
  lemma AllMissedBehind(holdMs: real, misses: nat)
    requires holdMs <= (misses + 1) as real * HeartbeatMs(holdMs)
    ensures var period, fired := HeartbeatMs(holdMs), seq(misses, _ => false);
      && MissesAtMost(fired, misses)
      && LastWrite(0.0, period, fired, misses) + holdMs <= TickTime(0.0, period, misses + 1)
      && TickTime(0.0, period, misses) <= TickTime(0.0, period, misses + 1)
  {
    var period, fired := HeartbeatMs(holdMs), seq(misses, _ => false);
    forall i | 0 <= i <= |fired|
      ensures MissedInARow(fired, i) <= misses
    {
      AllMissed(0.0, period, fired, i);
    }
    AllMissed(0.0, period, fired, misses);
    LastWriteBehind(0.0, period, fired, misses);
    PeriodsScale(misses + 1, period);
  }

  lemma FallsBehind(holdMs: real, misses: nat)
    requires holdMs <= (misses + 1) as real * HeartbeatMs(holdMs)
    ensures !Tolerates(holdMs, misses)
  {
    var period, fired := HeartbeatMs(holdMs), seq(misses, _ => false);
    AllMissedBehind(holdMs, misses);
    assert !Blocks(0.0, holdMs, fired, misses, TickTime(0.0, period, misses + 1));
    assert !Ahead(0.0, holdMs, fired, misses);
  }

  /** A hold time survives `misses` lost ticks in a row exactly when it exceeds that many heartbeats and one. */
  lemma ToleratesIff(holdMs: real, misses: nat)
    ensures Tolerates(holdMs, misses) <==> holdMs > (misses + 1) as real * HeartbeatMs(holdMs)
  {
    if holdMs > (misses + 1) as real * HeartbeatMs(holdMs) {
      forall start: real, fired: seq<bool>, i: nat | i <= |fired| && MissesAtMost(fired, misses)
        ensures Ahead(start, holdMs, fired, i)
      {
        StaysAhead(holdMs, misses, start, fired, i);
      }
    } else {
      FallsBehind(holdMs, misses);
    }
  }

  /**
   One missed tick is survived exactly by hold times above two seconds, hence
   by every one of three seconds or more; two in a row only by hold times above
   the default, so the default itself lapses at that very instant.
   */
  lemma MissedTicks(holdMs: real)
    ensures Tolerates(holdMs, 0) <==> holdMs > 1000.0
    ensures Tolerates(holdMs, 1) <==> holdMs > 2000.0
    ensures Tolerates(holdMs, 2) <==> holdMs > RESTORE_BARRIER_HOLD_MS
  {
    ToleratesIff(holdMs, 0);
    ToleratesIff(holdMs, 1);
    ToleratesIff(holdMs, 2);
  }

  // What the other windows do with the deadline.

  const RESTORE_BARRIER_SANITY_MAX_MS: real := 600000.0

  /** Auto-sync waits for a deadline in the future, unless it is absurdly far ahead. */
  predicate ReaderBlocks(deadline: real, now: real) {
    deadline > 0.0 && now < deadline && deadline - now <= RESTORE_BARRIER_SANITY_MAX_MS
  }

  predicate ReaderBlocked(start: real, holdMs: real, fired: seq<bool>, i: nat, now: real)
    requires i <= |fired|
  {
    ReaderBlocks(LastWrite(start, HeartbeatMs(holdMs), fired, i) + holdMs, now)
  }

  ghost predicate BlockedThroughout(start: real, holdMs: real, fired: seq<bool>, i: nat)
    requires i <= |fired|
  {
    var period := HeartbeatMs(holdMs);
    forall t: real :: TickTime(start, period, i) <= t <= TickTime(start, period, i + 1) ==>
      ReaderBlocked(start, holdMs, fired, i, t)
  }

  ghost predicate HoldsReaders(holdMs: real, misses: nat) {
    forall start: real, fired: seq<bool>, i: nat ::
      start >= 0.0 && i <= |fired| && MissesAtMost(fired, misses) ==> BlockedThroughout(start, holdMs, fired, i)
  }

  lemma {:induction false} TicksAdvance(start: real, period: real, i: nat)
    requires period >= 0.0
    ensures TickTime(start, period, i) >= start
  {
    if i > 0 {
      TicksAdvance(start, period, i - 1);
    }
  }

  lemma ReadersBlocked(holdMs: real, misses: nat, start: real, fired: seq<bool>, i: nat)
    requires Tolerates(holdMs, misses) && holdMs <= RESTORE_BARRIER_SANITY_MAX_MS
    requires start >= 0.0 && i <= |fired| && MissesAtMost(fired, misses)
    ensures BlockedThroughout(start, holdMs, fired, i)
  {
    var period := HeartbeatMs(holdMs);
    assert Ahead(start, holdMs, fired, i);
    TicksAdvance(start, period, i);
    LastWriteBehind(start, period, fired, i);
    PeriodsMonotone(0, MissedInARow(fired, i), period);
    forall t: real | TickTime(start, period, i) <= t <= TickTime(start, period, i + 1)
      ensures ReaderBlocked(start, holdMs, fired, i, t)
    {
      assert Blocks(start, holdMs, fired, i, t);
    }
  }

  /**
   Other windows really wait, for every task length and up to `misses` lost
   ticks in a row, exactly when the deadline stays ahead and the hold time does
   not exceed the ten minutes they believe.
   */
  lemma ReadersHeldIff(holdMs: real, misses: nat)
    ensures HoldsReaders(holdMs, misses)
        <==> holdMs > (misses + 1) as real * HeartbeatMs(holdMs) && holdMs <= RESTORE_BARRIER_SANITY_MAX_MS
  {
    ToleratesIff(holdMs, misses);
    if Tolerates(holdMs, misses) && holdMs <= RESTORE_BARRIER_SANITY_MAX_MS {
      forall start: real, fired: seq<bool>, i: nat | start >= 0.0 && i <= |fired| && MissesAtMost(fired, misses)
        ensures BlockedThroughout(start, holdMs, fired, i)
      {
        ReadersBlocked(holdMs, misses, start, fired, i);
      }
    } else if holdMs > RESTORE_BARRIER_SANITY_MAX_MS {
      assert MissesAtMost([], misses);
      assert TickTime(0.0, HeartbeatMs(holdMs), 1) == TickTime(0.0, HeartbeatMs(holdMs), 0) + HeartbeatMs(holdMs);
      assert !ReaderBlocked(0.0, holdMs, [], 0, 0.0);
      assert !BlockedThroughout(0.0, holdMs, [], 0);
    } else {
      NotHeldWhenBehind(holdMs, misses);
    }
  }

  lemma NotHeldWhenBehind(holdMs: real, misses: nat)
    requires holdMs <= (misses + 1) as real * HeartbeatMs(holdMs)
    ensures !HoldsReaders(holdMs, misses)
  {
    var period, fired := HeartbeatMs(holdMs), seq(misses, _ => false);
    AllMissedBehind(holdMs, misses);
    assert !ReaderBlocked(0.0, holdMs, fired, misses, TickTime(0.0, period, misses + 1));
    assert !BlockedThroughout(0.0, holdMs, fired, misses);
  }

  /** The stored deadline, shared by every window. */
  class BarrierKey {
    var deadline: real

    constructor ()
      ensures deadline == 0.0
    {
      deadline := 0.0;
    }

    /** Storage may reject the write; that is tolerated. */
    method WriteDeadline(now: real, holdMs: real, accepted: bool)
      modifies this
      ensures deadline == if accepted then now + holdMs else old(deadline)
    {
      if accepted {
        deadline := now + holdMs;
      }
    }

    /**
     Holds the barrier while the task runs for as many heartbeats as `fired`
     lists, and releases it whether the task returns or throws. A tick that is
     lost and a tick whose write is rejected are the same. `history[i]` is the
     deadline in force from tick `i` on.
     */
    method WithRestoreBarrier(start: real, holdMs: real, entered: bool, fired: seq<bool>, releases: bool, taskReturns: bool)
      returns (returned: bool, history: seq<real>)
      modifies this
      ensures returned == taskReturns && |history| == |fired| + 1
      ensures forall i :: 0 <= i <= |fired| ==>
        history[i] == if Written(entered, fired, i) then LastWrite(start, HeartbeatMs(holdMs), fired, i) + holdMs else old(deadline)
      ensures deadline == if releases then 0.0 else history[|fired|]
      ensures holdMs >= 3000.0 && MissesAtMost(fired, 1) ==>
        forall i :: 0 <= i <= |fired| && Written(entered, fired, i) ==> TickTime(start, HeartbeatMs(holdMs), i + 1) < history[i]
    {
      var period := HeartbeatMs(holdMs);
      WriteDeadline(start, holdMs, entered);
      history := [deadline];
      var i, now := 0, start;
      while i < |fired|
        invariant 0 <= i <= |fired| && now == TickTime(start, period, i)
        invariant |history| == i + 1 && deadline == history[i]
        invariant forall k :: 0 <= k <= i ==>
          history[k] == if Written(entered, fired, k) then LastWrite(start, period, fired, k) + holdMs else old(deadline)
      {
        now := now + period;
        WriteDeadline(now, holdMs, fired[i]);
        i := i + 1;
        history := history + [deadline];
      }
      if releases {
        deadline := 0.0;
      }
      returned := taskReturns;
      if holdMs >= 3000.0 && MissesAtMost(fired, 1) {
        OneMissKept(start, holdMs, fired);
      }
    }
  }

  /** Some write of this holder has been accepted by tick `i`. */
  predicate Written(entered: bool, fired: seq<bool>, i: nat)
    requires i <= |fired|
  {
    entered || (i > 0 && (fired[i - 1] || Written(entered, fired, i - 1)))
  }

  lemma OneMissKept(start: real, holdMs: real, fired: seq<bool>)
    requires holdMs >= 3000.0 && MissesAtMost(fired, 1)
    ensures forall i :: 0 <= i <= |fired| ==>
      TickTime(start, HeartbeatMs(holdMs), i + 1) < LastWrite(start, HeartbeatMs(holdMs), fired, i) + holdMs
  {
    var period := HeartbeatMs(holdMs);
    MissedTicks(holdMs);
    forall i | 0 <= i <= |fired|
      ensures TickTime(start, period, i + 1) < LastWrite(start, period, fired, i) + holdMs
    {
      assert Ahead(start, holdMs, fired, i);
      assert Blocks(start, holdMs, fired, i, TickTime(start, period, i + 1));
    }
  }
}
