/**
 The runtime model cache of components/AIChatSidePanelHelpers.ts: a map kept in
 insertion order, with expiry, a capacity, and one shared load per key.
 */
module ModelCache {
  import opened Prelude

  type Key = string

  datatype Model = Model(id: string, name: string)

  datatype Catalog = Catalog(currentModelId: Option<string>, models: seq<Model>)

  datatype Entry = Entry(catalog: Catalog, updatedAt: int)

  datatype Slot = Slot(key: Key, entry: Entry)

  /** Models without an id are dropped before a catalog is stored or returned. */
  function Normalize(c: Catalog): Catalog {
    c.(models := KeepNamed(c.models))
  }

  function KeepNamed(models: seq<Model>): seq<Model> {
    if models == [] then []
    else (if models[0].id != "" then [models[0]] else []) + KeepNamed(models[1..])
  }

  predicate IsEmptyCatalog(c: Catalog) {
    c.models == [] && (c.currentModelId.None? || c.currentModelId.value == "")
  }

  // The entry map. A JavaScript Map iterates in insertion order, so it is a
  // sequence of slots with distinct keys.

  predicate HasKey(slots: seq<Slot>, key: Key) {
    exists i :: 0 <= i < |slots| && slots[i].key == key
  }

  function Get(slots: seq<Slot>, key: Key): (r: Option<Entry>)
    ensures r.Some? <==> HasKey(slots, key)
    ensures r.Some? ==> exists i :: 0 <= i < |slots| && slots[i] == Slot(key, r.value)
  {
    if slots == [] then None
    else if slots[0].key == key then
      assert slots[0] == Slot(key, slots[0].entry);
      Some(slots[0].entry)
    else
      var r := Get(slots[1..], key);
      assert HasKey(slots[1..], key) ==> HasKey(slots, key);
      assert forall i :: 1 <= i < |slots| ==> slots[i] == slots[1..][i - 1];
      r
  }

  function Without(slots: seq<Slot>, key: Key): seq<Slot> {
    if slots == [] then []
    else (if slots[0].key != key then [slots[0]] else []) + Without(slots[1..], key)
  }

  /** Delete and re-insert: the key moves to the end of the order. */
  function Touch(slots: seq<Slot>, key: Key, entry: Entry): seq<Slot> {
    Without(slots, key) + [Slot(key, entry)]
  }

  function DropExpired(slots: seq<Slot>, now: int, ttl: int): seq<Slot> {
    if slots == [] then []
    else (if now - slots[0].entry.updatedAt < ttl then [slots[0]] else []) + DropExpired(slots[1..], now, ttl)
  }

  function KeepNewest(slots: seq<Slot>, max: nat): seq<Slot> {
    if |slots| > max then slots[|slots| - max..] else slots
  }

  function Prune(slots: seq<Slot>, now: int, ttl: int, max: nat): seq<Slot> {
    KeepNewest(DropExpired(slots, now, ttl), max)
  }

  // Loads. A load is pending until its promise settles, answered once its
  // `then` handler ran, and finalised once its `finally` handler ran.

  datatype LoadStatus = Pending | Answered | Finalised

  datatype Load = Load(key: Key, cached: Option<Entry>, status: LoadStatus)

  datatype Config = Config(ttl: int, max: nat)

  datatype CacheState = CacheState(slots: seq<Slot>, inFlight: map<Key, nat>, loads: seq<Load>, touched: seq<Key>)

  datatype Outcome = Loaded(catalog: Catalog) | Rejected

  /** One synchronous stretch of the cache's code, with the clock values it reads. */
  datatype Event =
    | Read(key: Key, now: int)
    | Refresh(key: Key, force: bool, now: int, checkNow: int)
    | Settle(id: nat, outcome: Outcome, storeNow: int, pruneNow: int)
    | Finalise(id: nat)

  predicate Enabled(s: CacheState, e: Event) {
    match e
    case Read(_, _) => true
    case Refresh(_, _, _, _) => true
    case Settle(id, _, _, _) => id < |s.loads| && s.loads[id].status == Pending
    case Finalise(id) => id < |s.loads| && s.loads[id].status == Answered
  }

  /** Whether a refresh is answered from the cache. */
  predicate ServesCached(cfg: Config, pruned: seq<Slot>, e: Event)
    requires e.Refresh?
  {
    var cached := Get(pruned, e.key);
    !e.force && cached.Some? && e.checkNow - cached.value.updatedAt < cfg.ttl
  }

  function Step(cfg: Config, s: CacheState, e: Event): CacheState
    requires Enabled(s, e)
  {
    match e
    case Read(key, now) =>
      var pruned := Prune(s.slots, now, cfg.ttl, cfg.max);
      var hit := Get(pruned, key);
      if hit.None? then s.(slots := pruned)
      else s.(slots := Touch(pruned, key, hit.value), touched := s.touched + [key])
    case Refresh(key, force, now, _) =>
      var pruned := Prune(s.slots, now, cfg.ttl, cfg.max);
      if ServesCached(cfg, pruned, e) then
        s.(slots := Touch(pruned, key, Get(pruned, key).value), touched := s.touched + [key])
      else if key in s.inFlight then s.(slots := pruned)
      else s.(slots := pruned,
              loads := s.loads + [Load(key, Get(pruned, key), Pending)],
              inFlight := s.inFlight[key := |s.loads|])
    case Settle(id, outcome, storeNow, pruneNow) =>
      var settled := s.(loads := s.loads[id := s.loads[id].(status := Answered)]);
      if outcome.Rejected? || IsEmptyCatalog(Normalize(outcome.catalog)) then settled
      else
        var key := s.loads[id].key;
        settled.(slots := Prune(Touch(s.slots, key, Entry(Normalize(outcome.catalog), storeNow)), pruneNow, cfg.ttl, cfg.max),
                 touched := s.touched + [key])
    case Finalise(id) =>
      var key := s.loads[id].key;
      s.(loads := s.loads[id := s.loads[id].(status := Finalised)],
         inFlight := if key in s.inFlight && s.inFlight[key] == id then s.inFlight - {key} else s.inFlight)
  }

  // The recency specification: when was a key last touched?

  function LastTouch(touched: seq<Key>, key: Key): (t: int)
    ensures -1 <= t < |touched|
    ensures t >= 0 ==> touched[t] == key
    ensures forall i :: t < i < |touched| ==> touched[i] != key
  {
    if touched == [] then -1
    else if touched[|touched| - 1] == key then |touched| - 1
    else LastTouch(touched[..|touched| - 1], key)
  }

  /** The slots are exactly in order of last touch. */
  ghost predicate InRecencyOrder(slots: seq<Slot>, touched: seq<Key>) {
    && (forall i :: 0 <= i < |slots| ==> LastTouch(touched, slots[i].key) >= 0)
    && (forall i, j :: 0 <= i < j < |slots| ==>
          LastTouch(touched, slots[i].key) < LastTouch(touched, slots[j].key))
  }

  /** An occupied in-flight slot belongs to an unfinished load of its key. */
  ghost predicate SlotsAreLoading(s: CacheState) {
    forall key :: key in s.inFlight ==>
      s.inFlight[key] < |s.loads| && s.loads[s.inFlight[key]].key == key && s.loads[s.inFlight[key]].status != Finalised
  }

  /** An unfinished load occupies its key's slot. */
  ghost predicate LoadsHaveSlots(s: CacheState) {
    forall id :: 0 <= id < |s.loads| && s.loads[id].status != Finalised ==>
      s.loads[id].key in s.inFlight && s.inFlight[s.loads[id].key] == id
  }

  /** A key's in-flight slot is occupied exactly while its one load is unfinished. */
  ghost predicate SlotsMatchLoads(s: CacheState) {
    SlotsAreLoading(s) && LoadsHaveSlots(s)
  }

  ghost predicate Inv(cfg: Config, s: CacheState) {
    && InRecencyOrder(s.slots, s.touched)
    && |s.slots| <= cfg.max
    && SlotsMatchLoads(s)
  }

  // `Subsequence(a, b)` through a strictly increasing index map.
  ghost predicate Subsequence(a: seq<Slot>, b: seq<Slot>) {
    exists f: seq<nat> :: Picks(a, b, f)
  }

  ghost predicate Picks(a: seq<Slot>, b: seq<Slot>, f: seq<nat>) {
    && |f| == |a|
    && (forall i :: 0 <= i < |a| ==> f[i] < |b| && a[i] == b[f[i]])
    && (forall i, j :: 0 <= i < j < |a| ==> f[i] < f[j])
  }

  lemma PicksCons(a: seq<Slot>, b: seq<Slot>, keep: bool)
    requires b != [] && Subsequence(a, b[1..])
    ensures Subsequence((if keep then [b[0]] else []) + a, b)
  {
    var f :| Picks(a, b[1..], f);
    var g := (if keep then [0] else []) + seq(|f|, i requires 0 <= i < |f| => f[i] + 1);
    assert Picks((if keep then [b[0]] else []) + a, b, g);
  }

  lemma {:induction false} DropExpiredMembers(slots: seq<Slot>, now: int, ttl: int)
    ensures forall x :: x in DropExpired(slots, now, ttl) <==> x in slots && now - x.entry.updatedAt < ttl
  {
    if slots != [] {
      DropExpiredMembers(slots[1..], now, ttl);
      assert slots == [slots[0]] + slots[1..];
    }
  }

  lemma {:induction false} DropExpiredSubsequence(slots: seq<Slot>, now: int, ttl: int)
    ensures Subsequence(DropExpired(slots, now, ttl), slots)
  {
    if slots == [] {
      assert Picks([], slots, []);
    } else {
      DropExpiredSubsequence(slots[1..], now, ttl);
      PicksCons(DropExpired(slots[1..], now, ttl), slots, now - slots[0].entry.updatedAt < ttl);
    }
  }

  lemma DropExpiredPicks(slots: seq<Slot>, now: int, ttl: int)
    ensures Subsequence(DropExpired(slots, now, ttl), slots)
    ensures forall i :: 0 <= i < |slots| && now - slots[i].entry.updatedAt < ttl ==> slots[i] in DropExpired(slots, now, ttl)
    ensures forall x :: x in DropExpired(slots, now, ttl) ==> x in slots && now - x.entry.updatedAt < ttl
  {
    DropExpiredMembers(slots, now, ttl);
    DropExpiredSubsequence(slots, now, ttl);
  }

  lemma {:induction false} WithoutPicks(slots: seq<Slot>, key: Key)
    ensures Subsequence(Without(slots, key), slots)
    ensures forall i :: 0 <= i < |slots| && slots[i].key != key ==> slots[i] in Without(slots, key)
    ensures forall x :: x in Without(slots, key) ==> x.key != key
    ensures |Without(slots, key)| <= |slots|
    ensures HasKey(slots, key) ==> |Without(slots, key)| < |slots|
  {
    if slots == [] {
      assert Picks([], slots, []);
    } else {
      WithoutPicks(slots[1..], key);
      PicksCons(Without(slots[1..], key), slots, slots[0].key != key);
      if HasKey(slots, key) && slots[0].key != key {
        var i :| 0 <= i < |slots| && slots[i].key == key;
        assert slots[1..][i - 1].key == key;
      }
    }
  }

  lemma PruneKeepsOrder(slots: seq<Slot>, now: int, ttl: int, max: nat, touched: seq<Key>)
    requires InRecencyOrder(slots, touched)
    ensures var p := Prune(slots, now, ttl, max);
      && InRecencyOrder(p, touched)
      && |p| <= max
      && (forall x :: x in p ==> x in slots && now - x.entry.updatedAt < ttl)
  {
    DropExpiredPicks(slots, now, ttl);
    SubsequenceKeepsOrder(DropExpired(slots, now, ttl), slots, touched);
  }

  lemma LastTouchAppend(touched: seq<Key>, key: Key, other: Key)
    ensures LastTouch(touched + [key], other) == if other == key then |touched| else LastTouch(touched, other)
  {
    assert (touched + [key])[..|touched|] == touched;
  }

  lemma SubsequenceKeepsOrder(a: seq<Slot>, b: seq<Slot>, touched: seq<Key>)
    requires Subsequence(a, b) && InRecencyOrder(b, touched)
    ensures InRecencyOrder(a, touched)
    ensures |a| <= |b|
  {
    var f :| Picks(a, b, f);
    PicksAreFar(a, b, f, |a|);
  }

  lemma {:induction false} PicksAreFar(a: seq<Slot>, b: seq<Slot>, f: seq<nat>, k: nat)
    requires Picks(a, b, f) && k <= |a|
    ensures k <= |b| && (k > 0 ==> k - 1 <= f[k - 1] < |b|)
  {
    if k > 0 {
      PicksAreFar(a, b, f, k - 1);
      assert a[k - 1] == b[f[k - 1]];
    }
  }

  lemma WithoutKeepsOrder(slots: seq<Slot>, key: Key, touched: seq<Key>)
    requires InRecencyOrder(slots, touched)
    ensures InRecencyOrder(Without(slots, key), touched)
    ensures forall i :: 0 <= i < |Without(slots, key)| ==> Without(slots, key)[i].key != key
    ensures |Without(slots, key)| + (if HasKey(slots, key) then 1 else 0) <= |slots|
  {
    WithoutPicks(slots, key);
    SubsequenceKeepsOrder(Without(slots, key), slots, touched);
    assert forall i :: 0 <= i < |Without(slots, key)| ==> Without(slots, key)[i] in Without(slots, key);
  }

  lemma AppendKeepsOrder(slots: seq<Slot>, last: Slot, touched: seq<Key>)
    requires InRecencyOrder(slots, touched)
    requires forall i :: 0 <= i < |slots| ==> slots[i].key != last.key
    ensures InRecencyOrder(slots + [last], touched + [last.key])
  {
    var longer, all := touched + [last.key], slots + [last];
    forall i | 0 <= i < |all|
      ensures LastTouch(longer, all[i].key) == if i < |slots| then LastTouch(touched, slots[i].key) else |touched|
    {
      LastTouchAppend(touched, last.key, all[i].key);
    }
  }

  lemma TouchKeepsOrder(slots: seq<Slot>, key: Key, entry: Entry, touched: seq<Key>)
    requires InRecencyOrder(slots, touched)
    ensures InRecencyOrder(Touch(slots, key, entry), touched + [key])
    ensures HasKey(slots, key) ==> |Touch(slots, key, entry)| <= |slots|
  {
    WithoutKeepsOrder(slots, key, touched);
    AppendKeepsOrder(Without(slots, key), Slot(key, entry), touched);
  }

  /** Serving an entry re-inserts it at the end of an already pruned map. */
  lemma ServeKeepsOrder(cfg: Config, s: CacheState, key: Key, now: int)
    requires InRecencyOrder(s.slots, s.touched)
    requires Get(Prune(s.slots, now, cfg.ttl, cfg.max), key).Some?
    ensures var pruned := Prune(s.slots, now, cfg.ttl, cfg.max);
      var slots := Touch(pruned, key, Get(pruned, key).value);
      InRecencyOrder(slots, s.touched + [key]) && |slots| <= cfg.max
  {
    PruneKeepsOrder(s.slots, now, cfg.ttl, cfg.max, s.touched);
    var pruned := Prune(s.slots, now, cfg.ttl, cfg.max);
    TouchKeepsOrder(pruned, key, Get(pruned, key).value, s.touched);
  }

  lemma StoreKeepsOrder(cfg: Config, s: CacheState, key: Key, entry: Entry, now: int)
    requires InRecencyOrder(s.slots, s.touched)
    ensures var slots := Prune(Touch(s.slots, key, entry), now, cfg.ttl, cfg.max);
      InRecencyOrder(slots, s.touched + [key]) && |slots| <= cfg.max
  {
    TouchKeepsOrder(s.slots, key, entry, s.touched);
    PruneKeepsOrder(Touch(s.slots, key, entry), now, cfg.ttl, cfg.max, s.touched + [key]);
  }

  lemma StepKeepsOrder(cfg: Config, s: CacheState, e: Event)
    requires InRecencyOrder(s.slots, s.touched) && |s.slots| <= cfg.max && Enabled(s, e)
    ensures InRecencyOrder(Step(cfg, s, e).slots, Step(cfg, s, e).touched)
    ensures |Step(cfg, s, e).slots| <= cfg.max
  {
    match e {
      case Read(key, now) =>
        PruneKeepsOrder(s.slots, now, cfg.ttl, cfg.max, s.touched);
        if Get(Prune(s.slots, now, cfg.ttl, cfg.max), key).Some? {
          ServeKeepsOrder(cfg, s, key, now);
        }
      case Refresh(key, force, now, _) =>
        PruneKeepsOrder(s.slots, now, cfg.ttl, cfg.max, s.touched);
        if ServesCached(cfg, Prune(s.slots, now, cfg.ttl, cfg.max), e) {
          ServeKeepsOrder(cfg, s, key, now);
        }
      case Settle(id, outcome, storeNow, pruneNow) =>
        if outcome.Loaded? && !IsEmptyCatalog(Normalize(outcome.catalog)) {
          StoreKeepsOrder(cfg, s, s.loads[id].key, Entry(Normalize(outcome.catalog), storeNow), pruneNow);
        }
      case Finalise(id) =>
    }
  }

  lemma StepKeepsSlots(cfg: Config, s: CacheState, e: Event)
    requires SlotsMatchLoads(s) && Enabled(s, e)
    ensures SlotsAreLoading(Step(cfg, s, e))
  {
  }

  lemma StepKeepsLoads(cfg: Config, s: CacheState, e: Event)
    requires SlotsMatchLoads(s) && Enabled(s, e)
    ensures LoadsHaveSlots(Step(cfg, s, e))
  {
  }

  /** Whatever happens next keeps recency order, capacity and one load per key. */
  lemma StepKeepsInv(cfg: Config, s: CacheState, e: Event)
    requires Inv(cfg, s) && Enabled(s, e)
    ensures Inv(cfg, Step(cfg, s, e))
  {
    StepKeepsOrder(cfg, s, e);
    StepKeepsSlots(cfg, s, e);
    StepKeepsLoads(cfg, s, e);
  }

  ghost predicate Run(cfg: Config, states: seq<CacheState>, events: seq<Event>) {
    && |states| == |events| + 1
    && forall i :: 0 <= i < |events| ==> Enabled(states[i], events[i]) && states[i + 1] == Step(cfg, states[i], events[i])
  }

  ghost predicate Unfinished(s: CacheState, id: int) {
    0 <= id < |s.loads| && s.loads[id].status != Finalised
  }

  const EMPTY: CacheState := CacheState([], map[], [], [])

  /**
   Over every run from the empty cache: the map order is the order of last
   touch, the size never exceeds the limit, and each key has at most one
   unfinished load, forced or not.
   */
  lemma {:induction false} RunsStayRecencyOrdered(cfg: Config, states: seq<CacheState>, events: seq<Event>, k: nat)
    requires Run(cfg, states, events) && states[0] == EMPTY && k < |states|
    ensures InRecencyOrder(states[k].slots, states[k].touched)
    ensures |states[k].slots| <= cfg.max
    ensures forall a, b :: Unfinished(states[k], a) && Unfinished(states[k], b) ==>
      states[k].loads[a].key == states[k].loads[b].key ==> a == b
  {
    RunsKeepInv(cfg, states, events, k);
  }

  lemma {:induction false} RunsKeepInv(cfg: Config, states: seq<CacheState>, events: seq<Event>, k: nat)
    requires Run(cfg, states, events) && states[0] == EMPTY && k < |states|
    ensures Inv(cfg, states[k])
  {
    if k > 0 {
      RunsKeepInv(cfg, states, events, k - 1);
      StepKeepsInv(cfg, states[k - 1], events[k - 1]);
    }
  }

  /** The identity test in the `finally` handler always succeeds, freeing the key's slot. */
  lemma FinaliseFreesItsSlot(cfg: Config, s: CacheState, id: nat)
    requires Inv(cfg, s) && Enabled(s, Finalise(id))
    ensures s.loads[id].key in s.inFlight && s.inFlight[s.loads[id].key] == id
    ensures Step(cfg, s, Finalise(id)).inFlight == s.inFlight - {s.loads[id].key}
  {
    assert s.loads[id].status != Finalised;
  }

  /** A capacity eviction always takes less recently touched keys than the ones it keeps. */
  lemma EvictsLeastRecent(slots: seq<Slot>, max: nat, touched: seq<Key>, gone: Slot, kept: Slot)
    requires InRecencyOrder(slots, touched)
    requires gone in slots && gone !in KeepNewest(slots, max) && kept in KeepNewest(slots, max)
    ensures LastTouch(touched, gone.key) < LastTouch(touched, kept.key)
    ensures |KeepNewest(slots, max)| == max
  {
    var d := |slots| - max;
    var i :| 0 <= i < |slots| && slots[i] == gone;
    var j :| 0 <= j < |slots[d..]| && slots[d..][j] == kept;
    assert forall k :: d <= k < |slots| ==> slots[k] in slots[d..];
  }

  /** What is found in the pruned map was stored, and is live. */
  lemma PrunedWasStored(slots: seq<Slot>, now: int, cfg: Config, key: Key)
    requires Get(Prune(slots, now, cfg.ttl, cfg.max), key).Some?
    ensures var entry := Get(Prune(slots, now, cfg.ttl, cfg.max), key).value;
      Slot(key, entry) in slots && now - entry.updatedAt < cfg.ttl
  {
    var pruned := Prune(slots, now, cfg.ttl, cfg.max);
    var i :| 0 <= i < |pruned| && pruned[i] == Slot(key, Get(pruned, key).value);
    DropExpiredMembers(slots, now, cfg.ttl);
    assert pruned[i] in DropExpired(slots, now, cfg.ttl);
  }

  /** Slot `i` holds the key's entry, live at both looks at the clock. */
  predicate IsLiveAt(cfg: Config, slots: seq<Slot>, i: int, key: Key, now: int, checkNow: int) {
    0 <= i < |slots| && slots[i].key == key && now - slots[i].entry.updatedAt < cfg.ttl && checkNow - slots[i].entry.updatedAt < cfg.ttl
  }

  /** A refresh is answered at once, and with the stored entry, if and only if it is not forced and the key's entry is live. */
  lemma ServesIff(cfg: Config, s: CacheState, e: Event)
    requires Inv(cfg, s) && e.Refresh?
    ensures ServesCached(cfg, Prune(s.slots, e.now, cfg.ttl, cfg.max), e)
        <==> !e.force && exists i :: IsLiveAt(cfg, s.slots, i, e.key, e.now, e.checkNow)
    ensures ServesCached(cfg, Prune(s.slots, e.now, cfg.ttl, cfg.max), e) ==>
      exists i :: IsLiveAt(cfg, s.slots, i, e.key, e.now, e.checkNow) && s.slots[i].entry == Get(Prune(s.slots, e.now, cfg.ttl, cfg.max), e.key).value
  {
    if ServesCached(cfg, Prune(s.slots, e.now, cfg.ttl, cfg.max), e) {
      PrunedWasStored(s.slots, e.now, cfg, e.key);
      var entry := Get(Prune(s.slots, e.now, cfg.ttl, cfg.max), e.key).value;
      var i :| 0 <= i < |s.slots| && s.slots[i] == Slot(e.key, entry);
      assert IsLiveAt(cfg, s.slots, i, e.key, e.now, e.checkNow);
    } else if i :| IsLiveAt(cfg, s.slots, i, e.key, e.now, e.checkNow) {
      LiveEntryIsFound(cfg, s, i, e.now);
    }
  }

  /** In a map within its limit a live entry outlives the pruning. */
  lemma LiveEntryIsFound(cfg: Config, s: CacheState, i: nat, now: int)
    requires Inv(cfg, s) && i < |s.slots| && now - s.slots[i].entry.updatedAt < cfg.ttl
    ensures Get(Prune(s.slots, now, cfg.ttl, cfg.max), s.slots[i].key) == Some(s.slots[i].entry)
  {
    DropExpiredPicks(s.slots, now, cfg.ttl);
    SubsequenceKeepsOrder(DropExpired(s.slots, now, cfg.ttl), s.slots, s.touched);
    var pruned := Prune(s.slots, now, cfg.ttl, cfg.max);
    var j :| 0 <= j < |pruned| && pruned[j] == s.slots[i];
    GetUnique(pruned, j, s.touched);
  }

  /** The result a caller gets back at once; `None` means a promise is still pending. */
  function ReadResult(cfg: Config, s: CacheState, key: Key, now: int): Option<Entry> {
    Get(Prune(s.slots, now, cfg.ttl, cfg.max), key)
  }

  /** The entry a settled load resolves to, with the time its catalog was loaded; `None` is a rejection. */
  function Answer(s: CacheState, e: Event): Option<Entry>
    requires e.Settle? && Enabled(s, e)
  {
    match e.outcome
    case Rejected => None
    case Loaded(c) =>
      if IsEmptyCatalog(Normalize(c)) && s.loads[e.id].cached.Some? then s.loads[e.id].cached
      else Some(Entry(Normalize(c), e.storeNow))
  }

  /** Nothing of age `ttl` or more is ever read or served by an immediate refresh. */
  lemma NothingExpiredIsServed(cfg: Config, s: CacheState, e: Event)
    requires Inv(cfg, s)
    ensures e.Read? && ReadResult(cfg, s, e.key, e.now).Some? ==>
      e.now - ReadResult(cfg, s, e.key, e.now).value.updatedAt < cfg.ttl
    ensures e.Refresh? && ServesCached(cfg, Prune(s.slots, e.now, cfg.ttl, cfg.max), e) ==>
      var served := Get(Prune(s.slots, e.now, cfg.ttl, cfg.max), e.key).value;
      e.now - served.updatedAt < cfg.ttl && e.checkNow - served.updatedAt < cfg.ttl
  {
    if e.Read? || e.Refresh? {
      PruneKeepsOrder(s.slots, e.now, cfg.ttl, cfg.max, s.touched);
    }
  }

  /** A failed or empty load leaves every stored entry as it was. */
  lemma EmptyLoadsChangeNothing(cfg: Config, s: CacheState, e: Event)
    requires e.Settle? && Enabled(s, e)
    requires e.outcome.Rejected? || (KeepNamed(e.outcome.catalog.models) == [] && e.outcome.catalog.currentModelId in {None, Some("")})
    ensures Step(cfg, s, e).slots == s.slots && Step(cfg, s, e).touched == s.touched
  {
  }

  /** A just-stored entry survives its own prune exactly when the clock moved by less than the ttl. */
  lemma StoredSurvivesIff(cfg: Config, s: CacheState, e: Event)
    requires cfg.max >= 1 && Inv(cfg, s) && e.Settle? && Enabled(s, e)
    requires e.outcome.Loaded? && !IsEmptyCatalog(Normalize(e.outcome.catalog))
    ensures Get(Step(cfg, s, e).slots, s.loads[e.id].key)
         == if e.pruneNow - e.storeNow < cfg.ttl then Some(Entry(Normalize(e.outcome.catalog), e.storeNow)) else None
  {
    var key, entry := s.loads[e.id].key, Entry(Normalize(e.outcome.catalog), e.storeNow);
    StoreKeepsOrder(cfg, s, key, entry, e.pruneNow);
    StoredLastIff(cfg, s.slots, Slot(key, entry), e.pruneNow, s.touched);
  }

  lemma StoredLastIff(cfg: Config, slots: seq<Slot>, last: Slot, now: int, touched: seq<Key>)
    requires cfg.max >= 1 && InRecencyOrder(slots, touched)
    ensures var after := Prune(Touch(slots, last.key, last.entry), now, cfg.ttl, cfg.max);
      Get(after, last.key) == if now - last.entry.updatedAt < cfg.ttl then Some(last.entry) else None
  {
    var w := Without(slots, last.key);
    DropExpiredLast(w, last, now, cfg.ttl);
    WithoutKeepsOrder(slots, last.key, touched);
    if now - last.entry.updatedAt < cfg.ttl {
      AppendKeepsOrder(w, last, touched);
      PruneKeepsOrder(w + [last], now, cfg.ttl, cfg.max, touched + [last.key]);
      LiveLast(DropExpired(w, now, cfg.ttl), last, cfg.max, touched + [last.key]);
    } else {
      PruneOmits(w, now, cfg, last.key);
    }
  }

  lemma LiveLast(slots: seq<Slot>, last: Slot, max: nat, touched: seq<Key>)
    requires max >= 1 && InRecencyOrder(KeepNewest(slots + [last], max), touched)
    ensures Get(KeepNewest(slots + [last], max), last.key) == Some(last.entry)
  {
    var after := KeepNewest(slots + [last], max);
    GetUnique(after, |after| - 1, touched);
  }

  lemma PruneOmits(slots: seq<Slot>, now: int, cfg: Config, key: Key)
    requires forall i :: 0 <= i < |slots| ==> slots[i].key != key
    ensures Get(Prune(slots, now, cfg.ttl, cfg.max), key) == None
  {
    DropExpiredPicks(slots, now, cfg.ttl);
    var d := DropExpired(slots, now, cfg.ttl);
    assert forall i :: 0 <= i < |d| ==> d[i] in d;
  }

  lemma DropExpiredLast(slots: seq<Slot>, last: Slot, now: int, ttl: int)
    ensures DropExpired(slots + [last], now, ttl)
         == DropExpired(slots, now, ttl) + (if now - last.entry.updatedAt < ttl then [last] else [])
  {
    DropExpiredConcat(slots, [last], now, ttl);
    assert [last][1..] == [];
  }

  lemma GetUnique(slots: seq<Slot>, i: nat, touched: seq<Key>)
    requires InRecencyOrder(slots, touched) && i < |slots|
    ensures Get(slots, slots[i].key) == Some(slots[i].entry)
  {
    assert HasKey(slots, slots[i].key);
  }

  lemma StepKeepsBegunLoads(cfg: Config, s: CacheState, e: Event, id: nat)
    requires Enabled(s, e) && id < |s.loads|
    ensures id < |Step(cfg, s, e).loads|
    ensures Step(cfg, s, e).loads[id].key == s.loads[id].key && Step(cfg, s, e).loads[id].cached == s.loads[id].cached
  {
  }

  /** The event began load `id`: a refresh that found nothing to serve and nothing to join. */
  predicate Begins(cfg: Config, s: CacheState, e: Event, id: nat) {
    e.Refresh? && id == |s.loads| && e.key !in s.inFlight && !ServesCached(cfg, Prune(s.slots, e.now, cfg.ttl, cfg.max), e)
  }

  /** What the refresh that begins a load finds in the pruned cache. */
  function Found(cfg: Config, s: CacheState, e: Event): Option<Entry>
    requires e.Refresh?
  {
    Get(Prune(s.slots, e.now, cfg.ttl, cfg.max), e.key)
  }

  /** Every load goes back to the refresh that began it, and holds what that refresh found. */
  lemma {:induction false} LoadWasBegun(cfg: Config, ss: seq<CacheState>, es: seq<Event>, k: nat, id: nat) returns (begun: nat)
    requires Run(cfg, ss, es) && ss[0] == EMPTY && k < |ss| && id < |ss[k].loads|
    ensures begun < k && Begins(cfg, ss[begun], es[begun], id)
    ensures ss[k].loads[id].key == es[begun].key && ss[k].loads[id].cached == Found(cfg, ss[begun], es[begun])
  {
    if id < |ss[k - 1].loads| {
      begun := LoadWasBegun(cfg, ss, es, k - 1, id);
      StepKeepsBegunLoads(cfg, ss[k - 1], es[k - 1], id);
    } else {
      begun := k - 1;
    }
  }

  predicate IsExpired(cfg: Config, entry: Entry, now: int) {
    now - entry.updatedAt >= cfg.ttl
  }

  /** What a refresh finds is live by its first look at the clock; it loads over it only by force or if it expires by the second. */
  lemma FoundIsLive(cfg: Config, s: CacheState, e: Event, id: nat)
    requires Inv(cfg, s) && Begins(cfg, s, e, id) && Found(cfg, s, e).Some?
    ensures !IsExpired(cfg, Found(cfg, s, e).value, e.now)
    ensures e.force || IsExpired(cfg, Found(cfg, s, e).value, e.checkNow)
  {
    NothingExpiredIsServed(cfg, s, Read(e.key, e.now));
  }

  /**
   Over every run, a load answers whoever began or joined it with an expired
   entry if and only if the refresh that began it found an entry, the load came
   back empty, and by then that entry had expired. Such a refresh was forced, or
   the entry expired between its two looks at the clock.
   */
  lemma ExpiredAnswerIff(cfg: Config, ss: seq<CacheState>, es: seq<Event>, k: nat) returns (begun: nat)
    requires Run(cfg, ss, es) && ss[0] == EMPTY && cfg.ttl > 0 && k < |es| && es[k].Settle?
    ensures begun < k && Begins(cfg, ss[begun], es[begun], es[k].id) && es[begun].key == ss[k].loads[es[k].id].key
    ensures var answer, found := Answer(ss[k], es[k]), Found(cfg, ss[begun], es[begun]);
      && (answer.Some? && IsExpired(cfg, answer.value, es[k].storeNow)
          <==> && es[k].outcome.Loaded? && IsEmptyCatalog(Normalize(es[k].outcome.catalog))
               && found.Some? && IsExpired(cfg, found.value, es[k].storeNow))
      && (found.Some? ==> es[begun].force || IsExpired(cfg, found.value, es[begun].checkNow))
  {
    begun := LoadWasBegun(cfg, ss, es, k, es[k].id);
    RunsKeepInv(cfg, ss, es, begun);
    if Found(cfg, ss[begun], es[begun]).Some? {
      FoundIsLive(cfg, ss[begun], es[begun], es[k].id);
    }
  }

  /** A refresh that is not forced and sees one time throughout. */
  predicate IsPlain(e: Event) {
    e.Refresh? ==> !e.force && e.now == e.checkNow
  }

  /** In runs of plain refreshes no load ever has an entry to fall back on, so every answer was loaded by the load itself. */
  lemma PlainRunsAnswerFresh(cfg: Config, ss: seq<CacheState>, es: seq<Event>, k: nat)
    requires Run(cfg, ss, es) && ss[0] == EMPTY && k < |es| && forall i :: 0 <= i < k ==> IsPlain(es[i])
    ensures forall id :: 0 <= id < |ss[k].loads| ==> ss[k].loads[id].cached == None
    ensures es[k].Settle? && Answer(ss[k], es[k]).Some? ==> Answer(ss[k], es[k]).value.updatedAt == es[k].storeNow
  {
    forall id | 0 <= id < |ss[k].loads|
      ensures ss[k].loads[id].cached == None
    {
      var begun := LoadWasBegun(cfg, ss, es, k, id);
      RunsKeepInv(cfg, ss, es, begun);
      assert IsPlain(es[begun]);
      if Found(cfg, ss[begun], es[begun]).Some? {
        FoundIsLive(cfg, ss[begun], es[begun], id);
      }
    }
  }

  lemma RunGrows(cfg: Config, ss: seq<CacheState>, es: seq<Event>, e: Event, after: CacheState)
    requires Run(cfg, ss, es) && Enabled(ss[|es|], e) && Step(cfg, ss[|es|], e) == after
    ensures Run(cfg, ss + [after], es + [e])
  {
  }

  const SHORT := Config(10, 1)
  const LOADED := Entry(Catalog(Some("m"), []), 0)

  /** A first load has stored its catalog at time 0 and is done. */
  ghost function LoadedOnce(): CacheState {
    CacheState([Slot("k", LOADED)], map[], [Load("k", None, Finalised)], ["k"])
  }

  lemma FirstLoadStores(s: CacheState)
    requires s == CacheState([], map["k" := 0], [Load("k", None, Pending)], [])
    ensures Step(SHORT, s, Settle(0, Loaded(LOADED.catalog), 0, 0))
         == CacheState([Slot("k", LOADED)], map["k" := 0], [Load("k", None, Answered)], ["k"])
  {
    var slots := [Slot("k", LOADED)];
    assert KeepNamed([]) == [] && Normalize(LOADED.catalog) == LOADED.catalog;
    assert slots[1..] == [] && DropExpired(slots, 0, 10) == slots && Touch([], "k", LOADED) == slots;
  }

  lemma FirstLoad() returns (ss: seq<CacheState>, es: seq<Event>)
    ensures Run(SHORT, ss, es) && ss[0] == EMPTY && |es| == 3 && ss[3] == LoadedOnce()
  {
    var s1 := CacheState([], map["k" := 0], [Load("k", None, Pending)], []);
    var s2 := CacheState([Slot("k", LOADED)], map["k" := 0], [Load("k", None, Answered)], ["k"]);
    FirstLoadStores(s1);
    RunGrows(SHORT, [EMPTY], [], Refresh("k", false, 0, 0), s1);
    ss, es := [EMPTY] + [s1], [Refresh("k", false, 0, 0)];
    RunGrows(SHORT, ss, es, Settle(0, Loaded(LOADED.catalog), 0, 0), s2);
    ss, es := ss + [s2], es + [Settle(0, Loaded(LOADED.catalog), 0, 0)];
    RunGrows(SHORT, ss, es, Finalise(0), LoadedOnce());
    ss, es := ss + [LoadedOnce()], es + [Finalise(0)];
  }

  /** A run that answers with an expired entry: a forced refresh over it comes back empty after its time. */
  lemma FallbackMayBeExpired() returns (ss: seq<CacheState>, es: seq<Event>)
    ensures Run(SHORT, ss, es) && ss[0] == EMPTY && |es| == 4 && es[3] == Refresh("k", true, 5, 5)
    ensures var done := Settle(1, Loaded(Catalog(None, [])), 20, 20);
      && Enabled(ss[4], done) && Answer(ss[4], done) == Some(LOADED) && IsExpired(SHORT, LOADED, done.storeNow)
      && ReadResult(SHORT, ss[4], "k", done.storeNow) == None
  {
    ss, es := FirstLoad();
    var slots := [Slot("k", LOADED)];
    assert slots[1..] == [] && DropExpired(slots, 5, 10) == slots && DropExpired(slots, 20, 10) == [];
    assert Get(slots, "k") == Some(LOADED);
    assert KeepNamed([]) == [];
    var s4 := LoadedOnce().(inFlight := map["k" := 1], loads := [Load("k", None, Finalised), Load("k", Some(LOADED), Pending)]);
    RunGrows(SHORT, ss, es, Refresh("k", true, 5, 5), s4);
    ss, es := ss + [s4], es + [Refresh("k", true, 5, 5)];
  }

  lemma {:induction false} DropExpiredConcat(a: seq<Slot>, b: seq<Slot>, now: int, ttl: int)
    ensures DropExpired(a + b, now, ttl) == DropExpired(a, now, ttl) + DropExpired(b, now, ttl)
  {
    if a == [] {
      assert a + b == b;
    } else {
      assert (a + b)[1..] == a[1..] + b;
      DropExpiredConcat(a[1..], b, now, ttl);
    }
  }

  /** The prune loop has dropped the expired entries of `slots` before `i`, and only those. */
  ghost predicate PrunedUpTo(before: seq<Slot>, slots: seq<Slot>, i: nat, now: int, ttl: int)
    requires i <= |slots|
  {
    DropExpired(before, now, ttl) == slots[..i] + DropExpired(slots[i..], now, ttl)
  }

  lemma PruneScans(before: seq<Slot>, slots: seq<Slot>, i: nat, now: int, ttl: int)
    requires i < |slots| && PrunedUpTo(before, slots, i, now, ttl)
    ensures now - slots[i].entry.updatedAt >= ttl ==> PrunedUpTo(before, slots[..i] + slots[i + 1..], i, now, ttl)
    ensures now - slots[i].entry.updatedAt < ttl ==> PrunedUpTo(before, slots, i + 1, now, ttl)
  {
    assert slots[i..] == [slots[i]] + slots[i + 1..];
    assert slots[i..][1..] == slots[i + 1..];
    assert (slots[..i] + slots[i + 1..])[i..] == slots[i + 1..];
    assert (slots[..i] + slots[i + 1..])[..i] == slots[..i];
    assert slots[..i + 1] == slots[..i] + [slots[i]];
  }

  /** The cache object: the two maps the source closes over, and the loads it started. */
  class RuntimeModelCache {
    const cfg: Config
    var slots: seq<Slot>
    var inFlight: map<Key, nat>
    var loads: seq<Load>
    ghost var touched: seq<Key>

    ghost function View(): CacheState
      reads this
    {
      CacheState(slots, inFlight, loads, touched)
    }

    constructor (ttl: int, maxEntries: int)
      ensures cfg == Config(ttl, if maxEntries < 1 then 1 else maxEntries)
      ensures View() == EMPTY && Inv(cfg, View())
    {
      cfg := Config(ttl, if maxEntries < 1 then 1 else maxEntries);
      slots, inFlight, loads, touched := [], map[], [], [];
    }

    method PruneEntries(now: int)
      modifies this`slots
      ensures View() == old(View()).(slots := Prune(old(slots), now, cfg.ttl, cfg.max))
    {
      DeleteExpired(now);
      EvictOldest();
    }

    method DeleteExpired(now: int)
      modifies this`slots
      ensures slots == DropExpired(old(slots), now, cfg.ttl)
    {
      var i := 0;
      while i < |slots|
        invariant 0 <= i <= |slots|
        invariant PrunedUpTo(old(slots), slots, i, now, cfg.ttl)
        decreases |slots| - i
      {
        PruneScans(old(slots), slots, i, now, cfg.ttl);
        if now - slots[i].entry.updatedAt >= cfg.ttl {
          slots := slots[..i] + slots[i + 1..];
        } else {
          i := i + 1;
        }
      }
      assert slots[..i] == slots && slots[i..] == [];
    }

    method EvictOldest()
      modifies this`slots
      ensures slots == KeepNewest(old(slots), cfg.max)
    {
      while |slots| > cfg.max
        invariant KeepNewest(slots, cfg.max) == KeepNewest(old(slots), cfg.max)
      {
        slots := slots[1..];
      }
    }

    method TouchEntry(key: Key, entry: Entry)
      modifies this
      ensures View() == old(View()).(slots := Touch(old(slots), key, entry), touched := old(touched) + [key])
    {
      slots := Without(slots, key);
      slots := slots + [Slot(key, entry)];
      touched := touched + [key];
    }

    method Read(key: Key, now: int) returns (hit: Option<Entry>)
      requires Inv(cfg, View())
      modifies this
      ensures View() == Step(cfg, old(View()), Event.Read(key, now)) && Inv(cfg, View())
      ensures hit == ReadResult(cfg, old(View()), key, now)
      ensures hit.Some? <==> exists i :: IsLiveAt(cfg, old(slots), i, key, now, now)
      ensures hit.Some? ==> exists i :: IsLiveAt(cfg, old(slots), i, key, now, now) && old(slots)[i].entry == hit.value
    {
      StepKeepsInv(cfg, View(), Event.Read(key, now));
      ServesIff(cfg, View(), Event.Refresh(key, false, now, now));
      NothingExpiredIsServed(cfg, View(), Event.Read(key, now));
      PruneEntries(now);
      hit := Get(slots, key);
      if hit.Some? {
        TouchEntry(key, hit.value);
      }
    }

    /** Answers from the cache, joins the key's unfinished load, or starts one. */
    method Refresh(key: Key, force: bool, now: int, checkNow: int) returns (served: Option<Catalog>, joined: Option<nat>)
      requires Inv(cfg, View())
      modifies this
      ensures View() == Step(cfg, old(View()), Event.Refresh(key, force, now, checkNow)) && Inv(cfg, View())
      ensures served.Some? <==> joined.None?
      ensures served.Some? <==> ServesCached(cfg, Prune(old(slots), now, cfg.ttl, cfg.max), Event.Refresh(key, force, now, checkNow))
      ensures served.Some? <==> !force && exists i :: IsLiveAt(cfg, old(slots), i, key, now, checkNow)
      ensures served.Some? ==> exists i :: IsLiveAt(cfg, old(slots), i, key, now, checkNow) && old(slots)[i].entry.catalog == served.value
      ensures joined.Some? ==> joined.value < |loads| && loads[joined.value].key == key && loads[joined.value].status != Finalised
      ensures key in old(inFlight) ==> |loads| == |old(loads)|
    {
      StepKeepsInv(cfg, View(), Event.Refresh(key, force, now, checkNow));
      ServesIff(cfg, View(), Event.Refresh(key, force, now, checkNow));
      served, joined := None, None;
      PruneEntries(now);
      var cached := Get(slots, key);
      if !force && cached.Some? && checkNow - cached.value.updatedAt < cfg.ttl {
        TouchEntry(key, cached.value);
        served := Some(cached.value.catalog);
      } else if key in inFlight {
        joined := Some(inFlight[key]);
      } else {
        var id := BeginLoad(key, cached);
        joined := Some(id);
      }
    }

    method BeginLoad(key: Key, cached: Option<Entry>) returns (id: nat)
      modifies this`inFlight, this`loads
      ensures id == |old(loads)| && inFlight == old(inFlight)[key := id] && loads == old(loads) + [Load(key, cached, Pending)]
    {
      id := |loads|;
      inFlight := inFlight[key := id];
      loads := loads + [Load(key, cached, Pending)];
    }

    /** The `then` handler, or the rejection that skips it. */
    method OnSettled(id: nat, outcome: Outcome, storeNow: int, pruneNow: int) returns (answer: Option<Catalog>)
      requires Inv(cfg, View()) && Enabled(View(), Settle(id, outcome, storeNow, pruneNow))
      modifies this
      ensures View() == Step(cfg, old(View()), Settle(id, outcome, storeNow, pruneNow)) && Inv(cfg, View())
      ensures var resolved := Answer(old(View()), Settle(id, outcome, storeNow, pruneNow));
        answer == if resolved.Some? then Some(resolved.value.catalog) else None
    {
      StepKeepsInv(cfg, View(), Settle(id, outcome, storeNow, pruneNow));
      var load := loads[id];
      loads := loads[id := load.(status := Answered)];
      if outcome.Rejected? {
        return None;
      }
      var normalized := Normalize(outcome.catalog);
      if IsEmptyCatalog(normalized) {
        return Some(if load.cached.Some? then load.cached.value.catalog else normalized);
      }
      TouchEntry(load.key, Entry(normalized, storeNow));
      PruneEntries(pruneNow);
      answer := Some(normalized);
    }

    /** The `finally` handler. */
    method OnFinally(id: nat)
      requires Inv(cfg, View()) && Enabled(View(), Event.Finalise(id))
      modifies this
      ensures View() == Step(cfg, old(View()), Event.Finalise(id)) && Inv(cfg, View())
      ensures inFlight == old(inFlight) - {old(loads)[id].key} && slots == old(slots)
    {
      StepKeepsInv(cfg, View(), Event.Finalise(id));
      FinaliseFreesItsSlot(cfg, View(), id);
      var key := loads[id].key;
      if key in inFlight && inFlight[key] == id {
        inFlight := inFlight - {key};
      }
      loads := loads[id := loads[id].(status := Finalised)];
    }
  }
}
