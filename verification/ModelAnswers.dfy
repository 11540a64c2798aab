/**
 Which catalog the model cache answers with. Over every run, whatever is stored,
 read or served for a key is the normalised catalog of the last load of that
 key that came back with something.
 */
module ModelAnswers {
  import opened Prelude
  import opened ModelCache

  // Normalising.

  /** Normalising drops the models without an id and nothing else, and keeps the others in order. */
  lemma {:induction false} NormalizedKeepsNamed(models: seq<Model>, x: Model)
    ensures multiset(KeepNamed(models))[x] == if x.id == "" then 0 else multiset(models)[x]
  {
    if models != [] {
      NormalizedKeepsNamed(models[1..], x);
      assert models == [models[0]] + models[1..];
    }
  }

  lemma {:induction false} NormalizedInOrder(a: seq<Model>, b: seq<Model>)
    ensures KeepNamed(a + b) == KeepNamed(a) + KeepNamed(b)
  {
    if a == [] {
      assert a + b == b;
    } else {
      assert (a + b)[1..] == a[1..] + b;
      NormalizedInOrder(a[1..], b);
    }
  }

  /** A catalog is worth storing: it names a current model or has a model with an id. */
  ghost predicate HasSomething(c: Catalog) {
    c.currentModelId !in {None, Some("")} || exists i :: 0 <= i < |c.models| && c.models[i].id != ""
  }

  lemma {:induction false} NoneNamedIff(models: seq<Model>)
    ensures KeepNamed(models) == [] <==> forall i :: 0 <= i < |models| ==> models[i].id == ""
  {
    if models != [] {
      NoneNamedIff(models[1..]);
      assert forall i :: 1 <= i < |models| ==> models[i] == models[1..][i - 1];
      assert forall i :: 0 <= i < |models| - 1 ==> models[1..][i] == models[i + 1];
    }
  }

  lemma EmptyIff(c: Catalog)
    ensures IsEmptyCatalog(Normalize(c)) <==> !HasSomething(c)
    ensures Normalize(c).currentModelId == c.currentModelId
  {
    NoneNamedIff(c.models);
  }

  // What a slot holds.

  /** The event settles a load of the key with something worth storing. */
  ghost predicate Stores(s: CacheState, e: Event, key: Key) {
    e.Settle? && Enabled(s, e) && s.loads[e.id].key == key && e.outcome.Loaded? && HasSomething(e.outcome.catalog)
  }

  lemma PruneMembers(slots: seq<Slot>, now: int, cfg: Config, x: Slot)
    requires x in Prune(slots, now, cfg.ttl, cfg.max)
    ensures x in slots && now - x.entry.updatedAt < cfg.ttl
  {
    DropExpiredMembers(slots, now, cfg.ttl);
  }

  lemma TouchMembers(slots: seq<Slot>, key: Key, entry: Entry, x: Slot)
    requires x in Touch(slots, key, entry)
    ensures if x.key == key then x.entry == entry else x in slots
  {
    WithoutMembers(slots, key, x);
  }

  lemma {:induction false} WithoutMembers(slots: seq<Slot>, key: Key, x: Slot)
    ensures x in Without(slots, key) <==> x in slots && x.key != key
  {
    if slots != [] {
      WithoutMembers(slots[1..], key, x);
      assert slots == [slots[0]] + slots[1..];
    }
  }

  lemma SlotAfterServing(cfg: Config, s: CacheState, key: Key, now: int, x: Slot)
    requires Get(Prune(s.slots, now, cfg.ttl, cfg.max), key).Some?
    requires var pruned := Prune(s.slots, now, cfg.ttl, cfg.max);
      x in Touch(pruned, key, Get(pruned, key).value)
    ensures x in s.slots
  {
    var pruned := Prune(s.slots, now, cfg.ttl, cfg.max);
    TouchMembers(pruned, key, Get(pruned, key).value, x);
    PrunedWasStored(s.slots, now, cfg, key);
    if x.key != key {
      PruneMembers(s.slots, now, cfg, x);
    }
  }

  lemma SlotAfterSettling(cfg: Config, s: CacheState, e: Event, x: Slot)
    requires e.Settle? && Enabled(s, e) && x in Step(cfg, s, e).slots
    ensures if Stores(s, e, x.key) then x.entry == Entry(Normalize(e.outcome.catalog), e.storeNow) else x in s.slots
  {
    if e.outcome.Loaded? {
      EmptyIff(e.outcome.catalog);
      if HasSomething(e.outcome.catalog) {
        var touched := Touch(s.slots, s.loads[e.id].key, Entry(Normalize(e.outcome.catalog), e.storeNow));
        PruneMembers(touched, e.pruneNow, cfg, x);
        TouchMembers(s.slots, s.loads[e.id].key, Entry(Normalize(e.outcome.catalog), e.storeNow), x);
      }
    }
  }

  /** A slot is new exactly if the event stores its key; every other slot was there before. */
  lemma SlotAfterStep(cfg: Config, s: CacheState, e: Event, x: Slot)
    requires Enabled(s, e) && x in Step(cfg, s, e).slots
    ensures if Stores(s, e, x.key) then x.entry == Entry(Normalize(e.outcome.catalog), e.storeNow) else x in s.slots
  {
    match e
    case Read(key, now) =>
      if Get(Prune(s.slots, now, cfg.ttl, cfg.max), key).Some? {
        SlotAfterServing(cfg, s, key, now, x);
      } else {
        PruneMembers(s.slots, now, cfg, x);
      }
    case Refresh(key, _, now, _) =>
      if ServesCached(cfg, Prune(s.slots, now, cfg.ttl, cfg.max), e) {
        SlotAfterServing(cfg, s, key, now, x);
      } else {
        PruneMembers(s.slots, now, cfg, x);
      }
    case Settle(_, _, _, _) => SlotAfterSettling(cfg, s, e, x);
    case Finalise(_) =>
  }

  /** The last event before `k` that stored the key is `at`. */
  ghost predicate LastStored(ss: seq<CacheState>, es: seq<Event>, at: nat, k: nat, key: Key)
    requires |ss| == |es| + 1
  {
    at < k <= |es| && Stores(ss[at], es[at], key) && forall m :: at < m < k ==> !Stores(ss[m], es[m], key)
  }

  /** Over every run, what is stored under a key is the normalised catalog of the last load of that key that came back with something. */
  lemma {:induction false} SlotWasLoaded(cfg: Config, ss: seq<CacheState>, es: seq<Event>, k: nat, x: Slot) returns (at: nat)
    requires Run(cfg, ss, es) && ss[0] == EMPTY && k <= |es| && x in ss[k].slots
    ensures LastStored(ss, es, at, k, x.key)
    ensures x.entry == Entry(Normalize(es[at].outcome.catalog), es[at].storeNow)
  {
    SlotAfterStep(cfg, ss[k - 1], es[k - 1], x);
    if Stores(ss[k - 1], es[k - 1], x.key) {
      at := k - 1;
    } else {
      at := SlotWasLoaded(cfg, ss, es, k - 1, x);
    }
  }

  /** What a read or a refresh answers at once, with the time it was loaded. */
  function ServedAtOnce(cfg: Config, s: CacheState, e: Event): Option<Entry>
    requires e.Read? || e.Refresh?
  {
    if e.Read? then ReadResult(cfg, s, e.key, e.now)
    else if ServesCached(cfg, Prune(s.slots, e.now, cfg.ttl, cfg.max), e) then Found(cfg, s, e)
    else None
  }

  /**
   Over every run, what a read or a refresh answers at once is the normalised
   catalog of the last load of its key that came back with something, and that
   was stored less than the ttl ago. A forced refresh never answers at once.
   */
  lemma ServedWasLoaded(cfg: Config, ss: seq<CacheState>, es: seq<Event>, k: nat) returns (at: nat)
    requires Run(cfg, ss, es) && ss[0] == EMPTY && k < |es| && (es[k].Read? || es[k].Refresh?)
    requires ServedAtOnce(cfg, ss[k], es[k]).Some?
    ensures LastStored(ss, es, at, k, es[k].key)
    ensures ServedAtOnce(cfg, ss[k], es[k]) == Some(Entry(Normalize(es[at].outcome.catalog), es[at].storeNow))
    ensures es[k].now - es[at].storeNow < cfg.ttl
    ensures es[k].Refresh? ==> !es[k].force && es[k].checkNow - es[at].storeNow < cfg.ttl
  {
    PrunedWasStored(ss[k].slots, es[k].now, cfg, es[k].key);
    at := SlotWasLoaded(cfg, ss, es, k, Slot(es[k].key, ServedAtOnce(cfg, ss[k], es[k]).value));
  }

  /**
   Over every run, what a load answers: its own normalised catalog when it came
   back with something, what the refresh that began it found when it came back
   empty, its own empty catalog when that found nothing, and a rejection only
   when it was rejected.
   */
  lemma LoadAnswers(cfg: Config, ss: seq<CacheState>, es: seq<Event>, k: nat) returns (begun: nat)
    requires Run(cfg, ss, es) && ss[0] == EMPTY && k < |es| && es[k].Settle?
    ensures begun < k && Begins(cfg, ss[begun], es[begun], es[k].id) && es[begun].key == ss[k].loads[es[k].id].key
    ensures var answer, found := Answer(ss[k], es[k]), Found(cfg, ss[begun], es[begun]);
      match es[k].outcome
      case Rejected => answer == None
      case Loaded(c) => answer == if !HasSomething(c) && found.Some? then found else Some(Entry(Normalize(c), es[k].storeNow))
  {
    begun := LoadWasBegun(cfg, ss, es, k, es[k].id);
    if es[k].outcome.Loaded? {
      EmptyIff(es[k].outcome.catalog);
    }
  }

  // Recency.

  /** The key an event uses: what it answers at once, or what it stores. */
  ghost function UsedBy(cfg: Config, s: CacheState, e: Event): seq<Key> {
    if e.Read? || e.Refresh? then (if ServedAtOnce(cfg, s, e).Some? then [e.key] else [])
    else if e.Settle? && e.id < |s.loads| && Stores(s, e, s.loads[e.id].key) then [s.loads[e.id].key]
    else []
  }

  /** The keys used before event `k`, in order. */
  ghost function Uses(cfg: Config, ss: seq<CacheState>, es: seq<Event>, k: nat): seq<Key>
    requires k <= |es| < |ss|
  {
    if k == 0 then [] else Uses(cfg, ss, es, k - 1) + UsedBy(cfg, ss[k - 1], es[k - 1])
  }

  lemma StepUses(cfg: Config, s: CacheState, e: Event)
    requires Enabled(s, e)
    ensures Step(cfg, s, e).touched == s.touched + UsedBy(cfg, s, e)
  {
    if e.Settle? && e.outcome.Loaded? {
      EmptyIff(e.outcome.catalog);
    }
  }

  /** Over every run, the map is in the order in which its keys were last answered or stored. */
  lemma {:induction false} OrderedByLastUse(cfg: Config, ss: seq<CacheState>, es: seq<Event>, k: nat)
    requires Run(cfg, ss, es) && ss[0] == EMPTY && k <= |es|
    ensures ss[k].touched == Uses(cfg, ss, es, k) && InRecencyOrder(ss[k].slots, Uses(cfg, ss, es, k))
  {
    RunsKeepInv(cfg, ss, es, k);
    if k > 0 {
      OrderedByLastUse(cfg, ss, es, k - 1);
      StepUses(cfg, ss[k - 1], es[k - 1]);
    }
  }
}
