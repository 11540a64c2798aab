/**
 The user-skills status cache of components/AIChatSidePanel.tsx: one cached
 result, one slot for an unfinished fetch, and a version that every
 invalidation moves on. A fetch settles and finalises in two separate events.
 */
module SkillsCache {
  import opened Prelude

  const TTL_MS := 60_000

  type Status = Option<string>   // null when the bridge is missing or the fetch failed

  datatype FetchPhase = Pending | Settled | Finalised

  /** `version` is the version the fetch was started under; `startedAt` is the event it was started by. */
  datatype Fetch = Fetch(version: nat, startedAt: nat, phase: FetchPhase)

  datatype Origin = NoBridge(at: nat) | FromFetch(id: nat)

  datatype Cached = Cached(version: nat, result: Status, updatedAt: int, origin: Origin)

  datatype Slot = Slot(version: nat, id: nat)

  datatype State = State(
    version: nat,
    cache: Option<Cached>,
    slot: Option<Slot>,
    fetches: seq<Fetch>,
    clock: nat,            // events so far
    invalidatedAt: nat)    // the event of the latest invalidation

  datatype Outcome = Fulfilled(status: Status) | Rejected

  datatype Event =
    | Load(hasBridge: bool, now: int)
    | Settle(id: nat, outcome: Outcome, now: int)
    | Finalise(id: nat)
    | Invalidate

  /** What a load hands its caller: an answer at once, or the promise of a fetch. */
  datatype Reply = Answer(status: Status) | Promise(id: nat)

  const INITIAL := State(0, None, None, [], 1, 0)

  predicate Enabled(s: State, e: Event) {
    match e
    case Load(_, _) => true
    case Settle(id, _, _) => id < |s.fetches| && s.fetches[id].phase == Pending
    case Finalise(id) => id < |s.fetches| && s.fetches[id].phase == Settled
    case Invalidate => true
  }

  predicate IsFresh(s: State, now: int) {
    s.cache.Some? && s.cache.value.version == s.version && now - s.cache.value.updatedAt < TTL_MS
  }

  predicate Joins(s: State) {
    s.slot.Some? && s.slot.value.version == s.version
  }

  function LoadReply(s: State, hasBridge: bool, now: int): Reply {
    if !hasBridge then Answer(None)
    else if IsFresh(s, now) then Answer(s.cache.value.result)
    else if Joins(s) then Promise(s.slot.value.id)
    else Promise(|s.fetches|)
  }

  /** What the promise of a fetch resolves to; None stands for undefined. */
  function SettleReply(s: State, id: nat, outcome: Outcome): Option<Status>
    requires id < |s.fetches|
  {
    if s.fetches[id].version != s.version then None
    else Some(if outcome.Fulfilled? then outcome.status else None)
  }

  function AfterLoad(s: State, hasBridge: bool, now: int): State {
    if !hasBridge then s.(cache := Some(Cached(s.version, None, now, NoBridge(s.clock))))
    else if IsFresh(s, now) || Joins(s) then s
    else s.(slot := Some(Slot(s.version, |s.fetches|)), fetches := s.fetches + [Fetch(s.version, s.clock, Pending)])
  }

  function AfterSettle(s: State, id: nat, outcome: Outcome, now: int): State
    requires id < |s.fetches|
  {
    var reply := SettleReply(s, id, outcome);
    s.(fetches := s.fetches[id := s.fetches[id].(phase := Settled)],
       cache := if reply.None? then s.cache else Some(Cached(s.version, reply.value, now, FromFetch(id))))
  }

  function AfterFinalise(s: State, id: nat): State
    requires id < |s.fetches|
  {
    s.(fetches := s.fetches[id := s.fetches[id].(phase := Finalised)],
       slot := if s.slot.Some? && s.slot.value.version == s.fetches[id].version then None else s.slot)
  }

  function Step(s: State, e: Event): State
    requires Enabled(s, e)
  {
    var after := match e
      case Load(hasBridge, now) => AfterLoad(s, hasBridge, now)
      case Settle(id, outcome, now) => AfterSettle(s, id, outcome, now)
      case Finalise(id) => AfterFinalise(s, id)
      case Invalidate => s.(version := s.version + 1, cache := None, slot := None, invalidatedAt := s.clock);
    after.(clock := s.clock + 1)
  }

  predicate Outstanding(s: State, id: nat) {
    id < |s.fetches| && s.fetches[id].phase != Finalised
  }

  /** The fetch was started after the latest invalidation. */
  predicate Current(s: State, id: nat) {
    id < |s.fetches| && s.fetches[id].startedAt > s.invalidatedAt
  }

  ghost predicate FetchInv(s: State, id: nat)
    requires id < |s.fetches|
  {
    var f := s.fetches[id];
    && f.version <= s.version && f.startedAt < s.clock
    && (f.version == s.version <==> f.startedAt > s.invalidatedAt)
    && (f.version == s.version && f.phase != Finalised ==> s.slot == Some(Slot(f.version, id)))
  }

  /** Unfinished fetches differ in version, and the slot belongs to an unfinished current one. */
  ghost predicate SlotInv(s: State) {
    && (forall id :: 0 <= id < |s.fetches| ==> FetchInv(s, id))
    && (forall i, j :: 0 <= i < j < |s.fetches| && Outstanding(s, i) && Outstanding(s, j) ==> s.fetches[i].version != s.fetches[j].version)
    && (s.slot.Some? ==>
          s.slot.value.version == s.version && Outstanding(s, s.slot.value.id) && s.fetches[s.slot.value.id].version == s.version)
  }

  /** The cached result is of the current version and was obtained after the latest invalidation. */
  ghost predicate CacheInv(s: State) {
    s.cache.Some? ==>
      && s.cache.value.version == s.version
      && match s.cache.value.origin
         case NoBridge(at) => at > s.invalidatedAt && s.cache.value.result == None
         case FromFetch(id) => Current(s, id) && s.fetches[id].phase != Pending
  }

  ghost predicate Inv(s: State) {
    s.invalidatedAt < s.clock && SlotInv(s) && CacheInv(s)
  }

  lemma StepKeepsSlot(s: State, e: Event)
    requires s.invalidatedAt < s.clock && SlotInv(s) && Enabled(s, e)
    ensures SlotInv(Step(s, e))
  {
    var after := Step(s, e);
    if e.Settle? || e.Finalise? {
      assert FetchInv(s, e.id);
    }
    forall id | 0 <= id < |after.fetches|
      ensures FetchInv(after, id)
    {
      assert id < |s.fetches| ==> FetchInv(s, id);
    }
    forall i, j | 0 <= i < j < |after.fetches| && Outstanding(after, i) && Outstanding(after, j)
      ensures after.fetches[i].version != after.fetches[j].version
    {
      assert FetchInv(s, i) && Outstanding(s, i);
    }
  }

  lemma StepKeepsCache(s: State, e: Event)
    requires Inv(s) && Enabled(s, e)
    ensures CacheInv(Step(s, e))
  {
    if e.Settle? {
      assert FetchInv(s, e.id);
    }
  }

  lemma StepKeepsInv(s: State, e: Event)
    requires Inv(s) && Enabled(s, e)
    ensures Inv(Step(s, e))
  {
    StepKeepsSlot(s, e);
    StepKeepsCache(s, e);
  }

  ghost predicate Run(ss: seq<State>, es: seq<Event>) {
    && |ss| == |es| + 1 && ss[0] == INITIAL
    && forall i :: 0 <= i < |es| ==> Enabled(ss[i], es[i]) && ss[i + 1] == Step(ss[i], es[i])
  }

  lemma {:induction false} RunsKeepInv(ss: seq<State>, es: seq<Event>, k: nat)
    requires Run(ss, es) && k < |ss|
    ensures Inv(ss[k])
  {
    if k > 0 {
      RunsKeepInv(ss, es, k - 1);
      StepKeepsInv(ss[k - 1], es[k - 1]);
    }
  }

  lemma {:induction false} ClockCounts(ss: seq<State>, es: seq<Event>, k: nat)
    requires Run(ss, es) && k < |ss|
    ensures ss[k].clock == k + 1
  {
    if k > 0 {
      ClockCounts(ss, es, k - 1);
    }
  }

  lemma {:induction false} InvalidationsAreRemembered(ss: seq<State>, es: seq<Event>, i: nat, k: nat)
    requires Run(ss, es) && i < k < |ss| && es[i].Invalidate?
    ensures ss[k].invalidatedAt >= i + 1
  {
    ClockCounts(ss, es, k - 1);
    if k > i + 1 {
      InvalidationsAreRemembered(ss, es, i, k - 1);
    }
  }

  lemma {:induction false} FetchesKeepTheirStart(ss: seq<State>, es: seq<Event>, id: nat, j: nat, k: nat)
    requires Run(ss, es) && j <= k < |ss| && id < |ss[j].fetches|
    ensures id < |ss[k].fetches|
    ensures ss[k].fetches[id].startedAt == ss[j].fetches[id].startedAt && ss[k].fetches[id].version == ss[j].fetches[id].version
  {
    if k > j {
      FetchesKeepTheirStart(ss, es, id, j, k - 1);
    }
  }

  /** The event that started a fetch: a load that found no fresh result and nothing to join. */
  lemma {:induction false} FetchWasStartedAt(ss: seq<State>, es: seq<Event>, id: nat, k: nat) returns (at: nat)
    requires Run(ss, es) && k < |ss| && id < |ss[k].fetches|
    ensures at < k && es[at].Load? && LoadReply(ss[at], es[at].hasBridge, es[at].now) == Promise(id)
    ensures id == |ss[at].fetches| && ss[k].fetches[id].startedAt == at + 1
  {
    if id < |ss[k - 1].fetches| {
      at := FetchWasStartedAt(ss, es, id, k - 1);
    } else {
      at := k - 1;
      ClockCounts(ss, es, k - 1);
    }
  }

  /**
   In every interleaving, once an invalidation has happened no later load
   answers from anything older: a cached answer was fetched, and a promise
   handed out was started, by a later event than the invalidation.
   */
  lemma LoadsIgnoreWhatWasInvalidated(ss: seq<State>, es: seq<Event>, i: nat, k: nat)
    requires Run(ss, es) && i < k < |es| && es[i].Invalidate? && es[k].Load? && es[k].hasBridge
    ensures var reply := LoadReply(ss[k], true, es[k].now);
      && (reply.Promise? ==> reply.id < |ss[k + 1].fetches| && ss[k + 1].fetches[reply.id].startedAt > i + 1)
      && (reply.Answer? ==>
            && ss[k].cache.value.result == reply.status && es[k].now - ss[k].cache.value.updatedAt < TTL_MS
            && match ss[k].cache.value.origin
               case NoBridge(at) => at > i + 1 && reply.status == None
               case FromFetch(id) => id < |ss[k].fetches| && ss[k].fetches[id].startedAt > i + 1)
  {
    RunsKeepInv(ss, es, k);
    InvalidationsAreRemembered(ss, es, i, k);
    ClockCounts(ss, es, k);
    if Joins(ss[k]) {
      assert FetchInv(ss[k], ss[k].slot.value.id);
    }
  }

  // What loads answer.

  /** The event obtains a status: a load without a bridge, or a fetch that settles while it is current. */
  predicate Obtains(s: State, e: Event) {
    (e.Load? && !e.hasBridge) || (e.Settle? && Current(s, e.id))
  }

  /** The status the event obtains: what the bridge gave, and null without a bridge or after a failure. */
  function StatusOf(e: Event): Status {
    if e.Settle? && e.outcome.Fulfilled? then e.outcome.status else None
  }

  /** The event at `at` obtained the latest status before `k`, and nothing was invalidated since. */
  ghost predicate LatestStatus(ss: seq<State>, es: seq<Event>, at: int, k: nat)
    requires |ss| == |es| + 1 && k <= |es|
  {
    0 <= at < k && Obtains(ss[at], es[at]) && forall m :: at < m < k ==> !es[m].Invalidate? && !Obtains(ss[m], es[m])
  }

  lemma StepCaches(s: State, e: Event)
    requires Inv(s) && Enabled(s, e)
    ensures Obtains(s, e) ==>
      Step(s, e).cache.Some? && Step(s, e).cache.value.result == StatusOf(e) && Step(s, e).cache.value.updatedAt == e.now
    ensures e.Invalidate? ==> Step(s, e).cache == None
    ensures !Obtains(s, e) && !e.Invalidate? ==> Step(s, e).cache == s.cache
  {
    if e.Settle? {
      assert FetchInv(s, e.id);
    }
  }

  /** Over every run, the cache holds the latest status obtained since the last invalidation, and is empty if there is none. */
  lemma {:induction false} CacheIsLatest(ss: seq<State>, es: seq<Event>, k: nat)
    requires Run(ss, es) && k <= |es|
    ensures ss[k].cache.Some? <==> exists at :: LatestStatus(ss, es, at, k)
    ensures forall at :: LatestStatus(ss, es, at, k) ==>
      ss[k].cache.Some? && ss[k].cache.value.result == StatusOf(es[at]) && ss[k].cache.value.updatedAt == es[at].now
  {
    if k > 0 {
      var last := k - 1;
      CacheIsLatest(ss, es, last);
      RunsKeepInv(ss, es, last);
      assert Enabled(ss[last], es[last]) && ss[k] == Step(ss[last], es[last]);
      StepCaches(ss[last], es[last]);
      forall at
        ensures LatestStatus(ss, es, at, k)
            <==> if Obtains(ss[last], es[last]) then at == last else !es[last].Invalidate? && LatestStatus(ss, es, at, last)
      {
        LatestMovesOn(ss, es, at, last);
      }
    }
  }

  lemma LatestMovesOn(ss: seq<State>, es: seq<Event>, at: int, last: nat)
    requires |ss| == |es| + 1 && last < |es|
    ensures LatestStatus(ss, es, at, last + 1)
        <==> if Obtains(ss[last], es[last]) then at == last else !es[last].Invalidate? && LatestStatus(ss, es, at, last)
  {
    if LatestStatus(ss, es, at, last + 1) && at < last {
      assert !es[last].Invalidate? && !Obtains(ss[last], es[last]);
      assert LatestStatus(ss, es, at, last);
    }
    if LatestStatus(ss, es, at, last) && !es[last].Invalidate? && !Obtains(ss[last], es[last]) {
      assert LatestStatus(ss, es, at, last + 1);
    }
  }

  /**
   Over every run, a load with a bridge answers at once if and only if a status
   was obtained since the last invalidation and less than a minute ago, and then
   it answers the latest one.
   */
  lemma LoadAnswersIff(ss: seq<State>, es: seq<Event>, k: nat)
    requires Run(ss, es) && k < |es| && es[k].Load? && es[k].hasBridge
    ensures var reply := LoadReply(ss[k], true, es[k].now);
      && (reply.Answer? <==> exists at :: LatestStatus(ss, es, at, k) && es[k].now - es[at].now < 60_000)
      && forall at :: LatestStatus(ss, es, at, k) && reply.Answer? ==> reply.status == StatusOf(es[at])
  {
    CacheIsLatest(ss, es, k);
    RunsKeepInv(ss, es, k);
  }

  /** At most one fetch per version is ever outstanding, and only a current one holds the slot. */
  lemma OneFetchPerVersion(ss: seq<State>, es: seq<Event>, k: nat, i: nat, j: nat)
    requires Run(ss, es) && k < |ss| && Outstanding(ss[k], i) && Outstanding(ss[k], j)
    requires ss[k].fetches[i].version == ss[k].fetches[j].version
    ensures i == j
    ensures Current(ss[k], i) <==> ss[k].slot == Some(Slot(ss[k].version, i))
  {
    RunsKeepInv(ss, es, k);
    assert FetchInv(ss[k], i) && FetchInv(ss[k], j);
  }

  /** A fetch overtaken by an invalidation resolves to undefined and touches neither cache nor slot. */
  lemma SupersededFetchIsInert(ss: seq<State>, es: seq<Event>, i: nat, k: nat, id: nat)
    requires Run(ss, es) && i < k < |es| && es[i].Invalidate? && id < |ss[i].fetches|
    ensures es[k].Settle? && es[k].id == id ==>
      SettleReply(ss[k], id, es[k].outcome) == None && ss[k + 1].cache == ss[k].cache && ss[k + 1].slot == ss[k].slot
    ensures es[k].Finalise? && es[k].id == id ==> ss[k + 1].cache == ss[k].cache && ss[k + 1].slot == ss[k].slot
  {
    RunsKeepInv(ss, es, i);
    RunsKeepInv(ss, es, k);
    assert FetchInv(ss[i], id);
    FetchesKeepTheirStart(ss, es, id, i, k);
    ClockCounts(ss, es, i);
    InvalidationsAreRemembered(ss, es, i, k);
    assert FetchInv(ss[k], id);
  }

  /** Comparing versions is enough: a finalising fetch whose version matches the slot is the slot's own. */
  lemma FinaliseFreesItsOwnSlot(s: State, id: nat)
    requires Inv(s) && Enabled(s, Finalise(id))
    ensures s.slot.Some? && s.slot.value.version == s.fetches[id].version <==> s.slot == Some(Slot(s.version, id))
    ensures Step(s, Finalise(id)).slot == if s.slot == Some(Slot(s.version, id)) then None else s.slot
  {
    assert FetchInv(s, id);
  }

  /** Whether a fetch is current shows in its version, and an unfinished current fetch holds the slot. */
  lemma CurrentHoldsSlot(s: State)
    requires Inv(s)
    ensures forall id :: 0 <= id < |s.fetches| ==> (Current(s, id) <==> s.fetches[id].version == s.version)
    ensures forall id :: Outstanding(s, id) && Current(s, id) ==> Joins(s) && s.slot.value.id == id
  {
    forall id | 0 <= id < |s.fetches|
      ensures Current(s, id) <==> s.fetches[id].version == s.version
      ensures Outstanding(s, id) && Current(s, id) ==> Joins(s) && s.slot.value.id == id
    {
      assert FetchInv(s, id);
    }
  }

  /** The module-level variables of the source. */
  class SkillsStatusCache {
    var version: nat
    var cache: Option<Cached>
    var slot: Option<Slot>
    var fetches: seq<Fetch>
    var clock: nat
    ghost var invalidatedAt: nat

    ghost function View(): State
      reads this
    {
      State(version, cache, slot, fetches, clock, invalidatedAt)
    }

    constructor ()
      ensures View() == INITIAL && Inv(View())
    {
      version, cache, slot, fetches, clock, invalidatedAt := 0, None, None, [], 1, 0;
    }

    method InvalidateUserSkillsStatusCache()
      requires Inv(View())
      modifies this
      ensures View() == Step(old(View()), Invalidate) && Inv(View())
      ensures cache == None && slot == None && forall id :: Outstanding(View(), id) ==> !Current(View(), id)
    {
      StepKeepsInv(View(), Invalidate);
      CurrentHoldsSlot(View());
      CurrentHoldsSlot(Step(View(), Invalidate));
      version := version + 1;
      cache := None;
      slot := None;
      invalidatedAt := clock;
      clock := clock + 1;
    }

    method LoadUserSkillsStatus(hasBridge: bool, now: int) returns (reply: Reply)
      requires Inv(View())
      modifies this
      ensures View() == Step(old(View()), Load(hasBridge, now)) && Inv(View())
      ensures reply == LoadReply(old(View()), hasBridge, now)
      ensures !hasBridge ==> reply == Answer(None)
      ensures reply.Promise? ==> slot == Some(Slot(version, reply.id)) && Outstanding(View(), reply.id) && Current(View(), reply.id)
      ensures |fetches| > |old(fetches)| ==> forall id :: Outstanding(old(View()), id) ==> !Current(old(View()), id)
    {
      StepKeepsInv(View(), Load(hasBridge, now));
      CurrentHoldsSlot(View());
      CurrentHoldsSlot(Step(View(), Load(hasBridge, now)));
      var requestVersion := version;
      var at := clock;
      clock := clock + 1;
      if !hasBridge {
        cache := Some(Cached(requestVersion, None, now, NoBridge(at)));
        return Answer(None);
      }
      if cache.Some? && cache.value.version == requestVersion && now - cache.value.updatedAt < TTL_MS {
        return Answer(cache.value.result);
      }
      if slot.None? || slot.value.version != requestVersion {
        fetches := fetches + [Fetch(requestVersion, at, Pending)];
        slot := Some(Slot(requestVersion, |fetches| - 1));
      }
      reply := Promise(slot.value.id);
    }

    /** The `then` handler, or the `catch` handler when the fetch rejected. */
    method OnSettled(id: nat, outcome: Outcome, now: int) returns (reply: Option<Status>)
      requires Inv(View()) && Enabled(View(), Settle(id, outcome, now))
      modifies this
      ensures View() == Step(old(View()), Settle(id, outcome, now)) && Inv(View())
      ensures reply == SettleReply(old(View()), id, outcome)
      ensures reply == if Current(View(), id) then Some(if outcome.Fulfilled? then outcome.status else None) else None
      ensures slot == old(slot)
    {
      StepKeepsInv(View(), Settle(id, outcome, now));
      assert FetchInv(View(), id);
      fetches := fetches[id := fetches[id].(phase := Settled)];
      clock := clock + 1;
      if version != fetches[id].version {
        return None;
      }
      var result := if outcome.Fulfilled? then outcome.status else None;
      cache := Some(Cached(fetches[id].version, result, now, FromFetch(id)));
      reply := Some(result);
    }

    method OnFinally(id: nat)
      requires Inv(View()) && Enabled(View(), Finalise(id))
      modifies this
      ensures View() == Step(old(View()), Finalise(id)) && Inv(View())
      ensures slot == (if old(slot) == Some(Slot(version, id)) then None else old(slot)) && cache == old(cache)
    {
      StepKeepsInv(View(), Finalise(id));
      FinaliseFreesItsOwnSlot(View(), id);
      if slot.Some? && slot.value.version == fetches[id].version {
        slot := None;
      }
      fetches := fetches[id := fetches[id].(phase := Finalised)];
      clock := clock + 1;
    }
  }
}
