/**
 Nested use of withRestoreBarrier (application/localVaultBackups.ts): a restore
 holds the barrier (components/CloudSyncSettings.tsx) and runs a protected apply
 that holds it again. Both write the one stored deadline, and the inner release
 zeroes it under the outer holder. Events come in time order; a timer tick
 either rewrites the deadline or is missed.
 */
module RestoreNesting {
  import opened Prelude
  import opened RestoreBarrier

  datatype Who = Outer | Inner

  /** An active holder; `missed` counts its ticks missed since it last wrote. */
  datatype Hold = Hold(holdMs: real, nextTick: real, missed: nat)

  datatype State = State(
    deadline: real,
    now: real,
    outer: Option<Hold>,
    inner: Option<Hold>,
    writer: Option<Who>,   // the active holder whose deadline is stored, if any
    since: real,           // when the deadline lost its writer
    lapsed: nat)           // outer ticks missed since then

  datatype Event =
    | Enter(who: Who, at: real, holdMs: real, ok: bool)
    | Tick(who: Who, at: real, fires: bool)
    | Release(who: Who, at: real, ok: bool)

  function HoldOf(s: State, who: Who): Option<Hold> {
    if who == Outer then s.outer else s.inner
  }

  function With(s: State, who: Who, hold: Option<Hold>): State {
    if who == Outer then s.(outer := hold) else s.(inner := hold)
  }

  predicate InTime(s: State, at: real) {
    && s.now <= at
    && (s.outer.Some? ==> at <= s.outer.value.nextTick)
    && (s.inner.Some? ==> at <= s.inner.value.nextTick)
  }

  predicate Enabled(s: State, e: Event) {
    InTime(s, e.at) &&
    match e
    case Enter(Outer, _, _, _) => s.outer.None? && s.inner.None?
    case Enter(Inner, _, _, _) => s.outer.Some? && s.inner.None?
    case Tick(who, at, _) => HoldOf(s, who).Some? && at == HoldOf(s, who).value.nextTick
    case Release(Outer, _, _) => s.outer.Some? && s.inner.None?
    case Release(Inner, _, _) => s.inner.Some?
  }

  /** The stored deadline has no writer from now on, if it still had one. */
  function Orphaned(s: State, at: real): State {
    if s.writer.None? then s else s.(writer := None, since := at, lapsed := 0)
  }

  function Step(s: State, e: Event): State
    requires Enabled(s, e)
  {
    match e
    case Enter(who, at, holdMs, ok) =>
      var entered := With(s, who, Some(Hold(holdMs, at + HeartbeatMs(holdMs), 0))).(now := at);
      if ok then entered.(deadline := at + holdMs, writer := Some(who))
      else if who == Outer then entered.(writer := None, since := at, lapsed := 0)
      else entered
    case Tick(who, at, fires) =>
      var hold := HoldOf(s, who).value;
      var ticked := hold.(nextTick := at + HeartbeatMs(hold.holdMs), missed := if fires then 0 else hold.missed + 1);
      var after := With(s, who, Some(ticked)).(now := at);
      if fires then after.(deadline := at + hold.holdMs, writer := Some(who))
      else if who == Outer && s.writer.None? then after.(lapsed := s.lapsed + 1)
      else after
    case Release(who, at, ok) =>
      var left := With(s, who, None).(now := at);
      if ok then Orphaned(left.(deadline := 0.0), at)
      else if s.writer == Some(who) then Orphaned(left, at)
      else left
  }

  ghost predicate Run(ss: seq<State>, es: seq<Event>) {
    && |ss| == |es| + 1
    && ss[0].outer == None && ss[0].inner == None && ss[0].writer == None && ss[0].now >= 0.0
    && forall i :: 0 <= i < |es| ==> Enabled(ss[i], es[i]) && ss[i + 1] == Step(ss[i], es[i])
  }

  // The invariant.

  ghost predicate HoldInv(s: State, who: Who) {
    var hold := HoldOf(s, who);
    hold.Some? ==>
      var period := HeartbeatMs(hold.value.holdMs);
      && hold.value.nextTick - period <= s.now <= hold.value.nextTick
      && (s.writer == Some(who) ==>
            var written := hold.value.nextTick - Periods(hold.value.missed + 1, period);
            s.deadline == written + hold.value.holdMs && written <= s.now)
  }

  lemma PeriodsStep(n: nat, period: real)
    ensures Periods(n + 1, period) == Periods(n, period) + period
    ensures Periods(1, period) == period
  {
    assert Periods(0, period) == 0.0;
  }

  lemma EnterKeepsHold(s: State, e: Event, who: Who)
    requires HoldInv(s, who) && WriterInv(s) && Enabled(s, e) && e.Enter?
    ensures HoldInv(Step(s, e), who)
  {
    PeriodsStep(0, HeartbeatMs(e.holdMs));
  }

  lemma TickKeepsHold(s: State, e: Event, who: Who)
    requires HoldInv(s, who) && Enabled(s, e) && e.Tick?
    ensures HoldInv(Step(s, e), who)
  {
    if HoldOf(s, who).Some? {
      var hold := HoldOf(s, who).value;
      PeriodsStep(0, HeartbeatMs(hold.holdMs));
      PeriodsStep(hold.missed + 1, HeartbeatMs(hold.holdMs));
    }
  }

  lemma ReleaseKeepsHold(s: State, e: Event, who: Who)
    requires HoldInv(s, who) && Enabled(s, e) && e.Release?
    ensures HoldInv(Step(s, e), who)
  {
  }

  lemma StepKeepsHold(s: State, e: Event, who: Who)
    requires HoldInv(s, who) && WriterInv(s) && Enabled(s, e)
    ensures HoldInv(Step(s, e), who)
  {
    match e
    case Enter(_, _, _, _) => EnterKeepsHold(s, e, who);
    case Tick(_, _, _) => TickKeepsHold(s, e, who);
    case Release(_, _, _) => ReleaseKeepsHold(s, e, who);
  }

  /** Without an outer hold there is no inner one and no writer. */
  ghost predicate WriterInv(s: State) {
    && (s.outer.None? ==> s.inner.None? && s.writer.None?)
    && (s.writer == Some(Inner) ==> s.inner.Some?)
  }

  /** The outer holder's next tick after the deadline lost its writer. */
  ghost predicate GapInv(s: State) {
    s.outer.Some? && s.writer.None? ==>
      && s.since <= s.now
      && s.outer.value.nextTick <= s.since + Periods(s.lapsed + 1, HeartbeatMs(s.outer.value.holdMs))
  }

  ghost predicate Inv(s: State) {
    s.now >= 0.0 && WriterInv(s) && HoldInv(s, Outer) && HoldInv(s, Inner) && GapInv(s)
  }

  lemma StepKeepsWriter(s: State, e: Event)
    requires WriterInv(s) && Enabled(s, e)
    ensures WriterInv(Step(s, e))
  {
    assert s.writer.None? || s.writer.value.Outer? || s.writer.value.Inner?;
  }

  lemma StepKeepsGap(s: State, e: Event)
    requires Inv(s) && Enabled(s, e)
    ensures GapInv(Step(s, e))
  {
    if s.outer.Some? {
      PeriodsStep(0, HeartbeatMs(s.outer.value.holdMs));
      PeriodsStep(s.lapsed + 1, HeartbeatMs(s.outer.value.holdMs));
    } else if e.Enter? {
      PeriodsStep(0, HeartbeatMs(e.holdMs));
    }
  }

  lemma StepKeepsInv(s: State, e: Event)
    requires Inv(s) && Enabled(s, e)
    ensures Inv(Step(s, e))
  {
    StepKeepsWriter(s, e);
    StepKeepsHold(s, e, Outer);
    StepKeepsHold(s, e, Inner);
    StepKeepsGap(s, e);
  }

  lemma {:induction false} RunsKeepInv(ss: seq<State>, es: seq<Event>, k: nat)
    requires Run(ss, es) && k < |ss|
    ensures Inv(ss[k])
  {
    if k > 0 {
      RunsKeepInv(ss, es, k - 1);
      StepKeepsInv(ss[k - 1], es[k - 1]);
    }
  }

  // Ahead of the clock.

  predicate AheadAt(s: State, t: real) {
    t < s.deadline
  }

  /** From now until `horizon` the stored deadline is in the future. */
  ghost predicate AheadUntil(s: State, horizon: real) {
    forall t: real :: s.now <= t <= horizon ==> AheadAt(s, t)
  }

  /**
   Over every interleaving of two nested holders, as long as the deadline has a
   writer it stays ahead of the clock until that holder's next tick exactly
   when its hold time exceeds the heartbeats it may have missed and one more.
   */
  lemma WrittenDeadlineIsAheadIff(ss: seq<State>, es: seq<Event>, k: nat)
    requires Run(ss, es) && k < |ss| && ss[k].writer.Some?
    ensures HoldOf(ss[k], ss[k].writer.value).Some?
    ensures var hold := HoldOf(ss[k], ss[k].writer.value).value;
      AheadUntil(ss[k], hold.nextTick) <==> hold.holdMs > (hold.missed + 1) as real * HeartbeatMs(hold.holdMs)
  {
    RunsKeepInv(ss, es, k);
    var s := ss[k];
    var hold := HoldOf(s, s.writer.value).value;
    PeriodsScale(hold.missed + 1, HeartbeatMs(hold.holdMs));
    assert HoldInv(s, s.writer.value);
    assert AheadAt(s, hold.nextTick) <==> hold.nextTick < s.deadline;
  }

  /** The event stores a new deadline. */
  predicate Writes(e: Event) {
    (e.Enter? && e.ok) || (e.Tick? && e.fires)
  }

  /** The event can leave the outer holder without a deadline of its own. */
  predicate Orphans(e: Event) {
    (e.Release? && e.who == Inner) || (e.Enter? && e.who == Outer && !e.ok)
  }

  ghost predicate WrittenBetween(es: seq<Event>, i: nat, k: nat)
    requires i < k <= |es|
  {
    exists m :: i < m < k && Writes(es[m])
  }

  lemma {:induction false} RunsKeepWriter(ss: seq<State>, es: seq<Event>, k: nat)
    requires Run(ss, es) && k < |ss|
    ensures WriterInv(ss[k])
  {
    if k > 0 {
      RunsKeepWriter(ss, es, k - 1);
      StepKeepsWriter(ss[k - 1], es[k - 1]);
    }
  }

  lemma StepIntoGap(s: State, e: Event)
    requires WriterInv(s) && Enabled(s, e) && Step(s, e).outer.Some? && Step(s, e).writer.None?
    ensures !Writes(e)
    ensures if s.outer.Some? && s.writer.None? then Step(s, e).since == s.since else Orphans(e) && e.at == Step(s, e).since
  {
    assert s.writer.None? || s.writer.value.Outer? || s.writer.value.Inner?;
  }

  /** A deadline without a writer under an outer hold goes back to one orphaning event, with no write since. */
  lemma {:induction false} GapStartedAt(ss: seq<State>, es: seq<Event>, k: nat) returns (i: nat)
    requires Run(ss, es) && k < |ss| && ss[k].outer.Some? && ss[k].writer.None?
    ensures i < k && Orphans(es[i]) && es[i].at == ss[k].since
    ensures !Writes(es[i]) && !WrittenBetween(es, i, k)
  {
    RunsKeepWriter(ss, es, k - 1);
    StepIntoGap(ss[k - 1], es[k - 1]);
    if ss[k - 1].outer.Some? && ss[k - 1].writer.None? {
      i := GapStartedAt(ss, es, k - 1);
    } else {
      i := k - 1;
    }
  }

  /** The outer holder's next tick comes at most one heartbeat, and one per tick missed, after `start`. */
  predicate NextTickWithin(s: State, start: real)
    requires s.outer.Some?
  {
    s.outer.value.nextTick - start <= (s.lapsed + 1) as real * HeartbeatMs(s.outer.value.holdMs)
  }

  lemma NextTickAfterGap(s: State)
    requires GapInv(s) && s.outer.Some? && s.writer.None?
    ensures NextTickWithin(s, s.since)
  {
    PeriodsScale(s.lapsed + 1, HeartbeatMs(s.outer.value.holdMs));
  }

  lemma RunsKeepGap(ss: seq<State>, es: seq<Event>, k: nat)
    requires Run(ss, es) && k < |ss|
    ensures GapInv(ss[k])
  {
    RunsKeepInv(ss, es, k);
  }

  /**
   Over every interleaving, the only times of an outer hold at which the key may
   fail the reader are gaps that begin with an inner release (or a failed entry
   write) and end with the next write. The outer holder's next tick is at most
   one outer heartbeat per tick it missed in the gap, and one, after its start.
   */
  lemma GapIsBounded(ss: seq<State>, es: seq<Event>, k: nat) returns (i: nat)
    requires Run(ss, es) && k < |ss| && ss[k].outer.Some? && ss[k].writer.None?
    ensures i < k && Orphans(es[i]) && !WrittenBetween(es, i, k)
    ensures NextTickWithin(ss[k], es[i].at)
  {
    i := GapStartedAt(ss, es, k);
    RunsKeepGap(ss, es, k);
    NextTickAfterGap(ss[k]);
  }

  /** The outer holder's next tick, if it fires, ends the gap at that moment. */
  lemma OuterTickEndsGap(s: State, e: Event)
    requires Enabled(s, e) && e.Tick? && e.who == Outer && e.fires
    ensures e.at == s.outer.value.nextTick && Step(s, e).writer == Some(Outer)
    ensures Step(s, e).deadline == e.at + s.outer.value.holdMs
  {
  }

  // Runs without a lapse.

  /** Every entry and release write is accepted; ticks may still be missed. */
  ghost predicate Accepted(es: seq<Event>) {
    forall i :: 0 <= i < |es| ==> !es[i].Tick? ==> es[i].ok
  }

  lemma {:induction false} GapIsZero(ss: seq<State>, es: seq<Event>, i: nat, k: nat)
    requires Run(ss, es) && Accepted(es) && i < k < |ss| && es[i].Release? && es[i].who == Inner
    requires forall m :: i < m < k ==> !Writes(es[m]) && !(es[m].Release? && es[m].who == Outer)
    ensures ss[k].deadline == 0.0 && ss[k].writer.None? && ss[k].outer.Some?
  {
    RunsKeepInv(ss, es, i);
    if k > i + 1 {
      GapIsZero(ss, es, i, k - 1);
      RunsKeepInv(ss, es, k - 1);
    }
  }

  lemma {:induction false} TimeMovesOn(ss: seq<State>, es: seq<Event>, i: nat, k: nat)
    requires Run(ss, es) && i <= k < |es|
    ensures es[i].at <= es[k].at && ss[i + 1].now == es[i].at && ss[k].now <= es[k].at
  {
    if i < k {
      TimeMovesOn(ss, es, i, k - 1);
      assert ss[k].now == es[k - 1].at;
    }
  }

  /** `es[a]` opens an outer hold that `es[b]` closes. */
  ghost predicate OuterHold(es: seq<Event>, a: nat, b: nat) {
    && a < b < |es|
    && es[a].Enter? && es[a].who == Outer && es[b].Release? && es[b].who == Outer
    && forall m :: a < m < b ==> !(es[m].Release? && es[m].who == Outer)
  }

  /** Whoever wrote the deadline has a hold time that survives the ticks it missed. */
  predicate Tolerant(s: State) {
    s.writer.Some? && HoldOf(s, s.writer.value).Some? ==>
      var hold := HoldOf(s, s.writer.value).value;
      hold.holdMs > (hold.missed + 1) as real * HeartbeatMs(hold.holdMs)
  }

  /** At every instant between event `k` and the one before it the deadline is in the future. */
  ghost predicate AheadThroughout(ss: seq<State>, es: seq<Event>, k: nat)
    requires k < |ss| && k < |es|
  {
    forall t: real :: ss[k].now <= t < es[k].at ==> AheadAt(ss[k], t)
  }

  /** After an inner release at `i` something writes again, or the outer hold ends, at the same instant. */
  ghost predicate RecoversAtOnce(es: seq<Event>, i: nat, b: nat)
    requires i < b < |es|
  {
    exists m :: i < m <= b && (m == b || Writes(es[m])) && es[m].at == es[i].at
  }

  lemma {:induction false} OuterStays(ss: seq<State>, es: seq<Event>, a: nat, b: nat, k: nat)
    requires Run(ss, es) && OuterHold(es, a, b) && a < k <= b
    ensures ss[k].outer.Some?
  {
    if k > a + 1 {
      OuterStays(ss, es, a, b, k - 1);
    }
  }

  lemma {:induction false} FirstRecovery(ss: seq<State>, es: seq<Event>, a: nat, b: nat, i: nat, m: nat)
    requires Run(ss, es) && Accepted(es) && OuterHold(es, a, b) && a < i < m <= b
    requires es[i].Release? && es[i].who == Inner
    requires forall k :: a < k <= b ==> AheadThroughout(ss, es, k)
    requires forall j :: i < j < m ==> !Writes(es[j])
    ensures es[m].at == es[i].at
  {
    if m > i + 1 {
      FirstRecovery(ss, es, a, b, i, m - 1);
    }
    GapIsZero(ss, es, i, m);
    TimeMovesOn(ss, es, m - 1, m);
    RunsKeepInv(ss, es, m);
    assert ss[m].now == es[m - 1].at;
    assert AheadThroughout(ss, es, m);
    assert !AheadAt(ss[m], ss[m].now);
  }

  lemma {:induction false} NextWrite(es: seq<Event>, i: nat, b: nat) returns (m: nat)
    requires i < b < |es|
    ensures i < m <= b && (m == b || Writes(es[m])) && forall j :: i < j < m ==> !Writes(es[j])
    decreases b - i
  {
    m := i + 1;
    while m < b && !Writes(es[m])
      invariant i < m <= b && forall j :: i < j < m ==> !Writes(es[j])
    {
      m := m + 1;
    }
  }

  lemma NoTimeInGap(ss: seq<State>, es: seq<Event>, a: nat, b: nat, k: nat)
    requires Run(ss, es) && Accepted(es) && OuterHold(es, a, b) && a < k <= b && ss[k].writer.None?
    requires forall i :: a < i < b && es[i].Release? && es[i].who == Inner ==> RecoversAtOnce(es, i, b)
    ensures es[k].at <= ss[k].now
  {
    OuterStays(ss, es, a, b, k);
    var i := GapStartedAt(ss, es, k);
    if i <= a {
      assert Writes(es[a]);
      assert false;
    }
    assert RecoversAtOnce(es, i, b);
    var m :| i < m <= b && (m == b || Writes(es[m])) && es[m].at == es[i].at;
    TimeMovesOn(ss, es, i, k - 1);
    TimeMovesOn(ss, es, k, m);
    assert ss[k].now == es[k - 1].at;
  }

  /**
   Over every interleaving in which each writer's hold time survives its missed
   ticks, the key is ahead of the clock at every instant of an outer hold if and
   only if each inner release in it is met, at that very instant, by another
   write or by the end of the hold.
   */
  lemma NoLapseIff(ss: seq<State>, es: seq<Event>, a: nat, b: nat)
    requires Run(ss, es) && Accepted(es) && OuterHold(es, a, b)
    requires forall k :: a < k <= b ==> Tolerant(ss[k])
    ensures (forall k :: a < k <= b ==> AheadThroughout(ss, es, k))
        <==> forall i :: a < i < b && es[i].Release? && es[i].who == Inner ==> RecoversAtOnce(es, i, b)
  {
    if forall k :: a < k <= b ==> AheadThroughout(ss, es, k) {
      forall i | a < i < b && es[i].Release? && es[i].who == Inner
        ensures RecoversAtOnce(es, i, b)
      {
        var m := NextWrite(es, i, b);
        FirstRecovery(ss, es, a, b, i, m);
      }
    }
    if forall i :: a < i < b && es[i].Release? && es[i].who == Inner ==> RecoversAtOnce(es, i, b) {
      forall k | a < k <= b
        ensures AheadThroughout(ss, es, k)
      {
        if ss[k].writer.Some? {
          WrittenDeadlineIsAheadIff(ss, es, k);
          assert Tolerant(ss[k]) && InTime(ss[k], es[k].at);
        } else {
          NoTimeInGap(ss, es, a, b, k);
        }
      }
    }
  }

  /** With hold times of three seconds or more, one missed tick in a row is within tolerance. */
  lemma OneMissIsTolerated(s: State)
    requires s.writer.Some? && HoldOf(s, s.writer.value).Some?
    requires HoldOf(s, s.writer.value).value.holdMs >= 3000.0 && HoldOf(s, s.writer.value).value.missed <= 1
    ensures Tolerant(s)
  {
    var hold := HoldOf(s, s.writer.value).value;
    MissedTicks(hold.holdMs);
    ToleratesIff(hold.holdMs, hold.missed);
  }

  /**
   The lapse is real at the default hold time: a nested hold taken at second one
   and released at second two leaves the outer holder's key at zero until its
   next tick at second twenty.
   */
  lemma NestedHoldLapses() returns (ss: seq<State>, es: seq<Event>)
    ensures Run(ss, es) && Accepted(es) && |es| == 5 && OuterHold(es, 0, 4)
    ensures ss[3].outer.Some? && ss[3].deadline == 0.0 && ss[3].now == 2000.0
    ensures es[3] == Tick(Outer, 20000.0, true)
    ensures forall t: real :: 2000.0 <= t < 20000.0 ==> !AheadAt(ss[3], t)
  {
    var hold := RESTORE_BARRIER_HOLD_MS;
    assert HeartbeatMs(hold) == 20000.0;
    var s0 := State(0.0, 0.0, None, None, None, 0.0, 0);
    var s1 := State(60000.0, 0.0, Some(Hold(hold, 20000.0, 0)), None, Some(Outer), 0.0, 0);
    var s2 := State(61000.0, 1000.0, s1.outer, Some(Hold(hold, 21000.0, 0)), Some(Inner), 0.0, 0);
    var s3 := State(0.0, 2000.0, s1.outer, None, None, 2000.0, 0);
    var s4 := State(80000.0, 20000.0, Some(Hold(hold, 40000.0, 0)), None, Some(Outer), 2000.0, 0);
    var s5 := State(0.0, 30000.0, None, None, None, 30000.0, 0);
    es := [Enter(Outer, 0.0, hold, true), Enter(Inner, 1000.0, hold, true), Release(Inner, 2000.0, true),
           Tick(Outer, 20000.0, true), Release(Outer, 30000.0, true)];
    ss := [s0, s1, s2, s3, s4, s5];
    assert Step(s0, es[0]) == s1 && Step(s1, es[1]) == s2 && Step(s2, es[2]) == s3 && Step(s3, es[3]) == s4 && Step(s4, es[4]) == s5;
  }
}
