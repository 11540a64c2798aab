/**
 Interleavings on the remembered-passphrase record. Mutations are chained on one
 promise; loads run outside the chain. Every stretch of code between two awaits
 is one event, so a run is any sequence of enabled events.
 */
module PassphraseProtocol {
  import opened Prelude
  import opened PassphraseStore

  // Queued mutations: each is started by the settling of the one before it.

  datatype JobStatus = Waiting | Running | Wrote | Settled

  datatype Job = Job(after: Option<nat>, status: JobStatus)

  /** A mutation's one synchronous write, with the aliases its awaits produced. */
  datatype Write =
    | SaveEntry(path: Path, encrypted: Cipher, aliasKeys: set<string>)
    | RemoveEntries(pathKeys: set<string>)

  // Loads: up to three attempts, each snapshot, resolve, decrypt one by one.

  datatype Phase =
    | Idle
    | Resolving(snapshot: Store, snapAt: nat)
    | Scanning(snapshot: Store, snapAt: nat, aliasKeys: set<string>, paths: seq<Path>, next: nat)
    | Returned(value: Option<string>)
    | Threw

  datatype Load = Load(keyPath: Path, attempt: nat, phase: Phase)

  datatype World = World(
    stored: Option<Store>,
    jobs: seq<Job>,
    queueTail: Option<nat>,
    loads: seq<Load>,
    clock: nat,                 // events so far
    writtenAt: map<Path, nat>,  // the clock of the last save at each path
    commits: seq<nat>)          // the mutations that wrote, in the order they wrote

  datatype Event =
    | Submit
    | Start(job: nat)
    | Commit(job: nat, write: Write)
    | Settle(job: nat)
    | StartLoad(keyPath: Path)
    | TakeSnapshot(load: nat)
    | Resolve(load: nat, aliasKeys: set<string>, order: seq<Path>)
    | Decrypt(load: nat, usable: Option<string>)
    | DecryptFails(load: nat)

  ghost predicate Enumerates(order: seq<Path>, store: Store) {
    && (forall p :: p in order <==> p in store)
    && (forall i, j :: 0 <= i < j < |order| ==> order[i] != order[j])
  }

  ghost predicate Enabled(w: World, e: Event) {
    match e
    case Submit => true
    case Start(j) => j < |w.jobs| && w.jobs[j].status == Waiting
      && (w.jobs[j].after.None? || (w.jobs[j].after.value < |w.jobs| && w.jobs[w.jobs[j].after.value].status == Settled))
    case Commit(j, _) => j < |w.jobs| && w.jobs[j].status == Running
    case Settle(j) => j < |w.jobs| && (w.jobs[j].status == Running || w.jobs[j].status == Wrote)
    case StartLoad(_) => true
    case TakeSnapshot(l) => l < |w.loads| && w.loads[l].phase.Idle?
    case Resolve(l, _, order) => l < |w.loads| && w.loads[l].phase.Resolving? && Enumerates(order, w.loads[l].phase.snapshot)
    case Decrypt(l, _) => l < |w.loads| && w.loads[l].phase.Scanning? && w.loads[l].phase.next < |w.loads[l].phase.paths|
    case DecryptFails(l) => l < |w.loads| && w.loads[l].phase.Scanning?
  }

  function FilterMatching(order: seq<Path>, key: PathKey, aliasKeys: set<string>): (r: seq<Path>)
    ensures forall p :: p in r <==> p in order && key(p) in aliasKeys
  {
    if order == [] then []
    else (if key(order[0]) in aliasKeys then [order[0]] else []) + FilterMatching(order[1..], key, aliasKeys)
  }

  function IndexOf(paths: seq<Path>, p: Path): (i: int)
    ensures -1 <= i < |paths|
    ensures i >= 0 ==> paths[i] == p
    ensures i < 0 ==> p !in paths
  {
    if paths == [] then -1
    else if paths[0] == p then 0
    else
      var i := IndexOf(paths[1..], p);
      if i < 0 then -1 else i + 1
  }

  /** The stored spellings of the class, the one asked for first. */
  function PathsToTry(order: seq<Path>, keyPath: Path, key: PathKey, aliasKeys: set<string>): (r: seq<Path>)
    ensures forall p :: p in r <==> p in order && key(p) in aliasKeys
    ensures keyPath in r ==> r[0] == keyPath
  {
    var stored := FilterMatching(order, key, aliasKeys);
    var exact := IndexOf(stored, keyPath);
    if exact > 0 then
      var r := [stored[exact]] + stored[..exact] + stored[exact + 1..];
      assert stored == stored[..exact] + [stored[exact]] + stored[exact + 1..];
      r
    else stored
  }

  function WrittenAt(w: World, p: Path): nat {
    if p in w.writtenAt then w.writtenAt[p] else 0
  }

  function ApplyWrite(key: PathKey, w: World, write: Write): World {
    match write
    case SaveEntry(path, encrypted, aliasKeys) =>
      w.(stored := Some(AfterWrite(Contents(w.stored), key, path, encrypted, aliasKeys)),
         writtenAt := w.writtenAt[path := w.clock])
    case RemoveEntries(pathKeys) =>
      w.(stored := if w.stored.None? then None else Some(AfterRemove(w.stored.value, key, pathKeys)))
  }

  /** An attempt that found stored spellings of its path scans them; otherwise it is done. */
  function Resolved(key: PathKey, load: Load, aliasKeys: set<string>, order: seq<Path>): Load
    requires load.phase.Resolving?
  {
    var paths := PathsToTry(order, load.keyPath, key, aliasKeys);
    load.(phase := if paths == [] then Returned(None)
                   else Scanning(load.phase.snapshot, load.phase.snapAt, aliasKeys, paths, 0))
  }

  /** The last step of an attempt that ends with its comparison and, if that passes, its clean-up. */
  function FinishAttempt(key: PathKey, w: World, l: nat, usable: Option<string>): World
    requires l < |w.loads| && w.loads[l].phase.Scanning? && w.loads[l].phase.next < |w.loads[l].phase.paths|
  {
    var load := w.loads[l];
    var ph := load.phase;
    if EntriesChanged(ph.snapshot, Contents(w.stored), key, ph.aliasKeys) then
      w.(loads := w.loads[l := if load.attempt < 2 then load.(attempt := load.attempt + 1, phase := Idle)
                               else load.(phase := Returned(None))])
    else
      var latest := Contents(w.stored);
      var cleaned := if usable.Some? then AfterDuplicates(latest, ph.paths, ph.paths[ph.next])
                     else AfterInvalid(latest, map p | p in ph.snapshot && p in ph.paths :: ph.snapshot[p]);
      w.(loads := w.loads[l := load.(phase := Returned(usable))],
         stored := if w.stored.None? then None else Some(cleaned))
  }

  function Effect(key: PathKey, w: World, e: Event): World
    requires Enabled(w, e)
  {
    match e
    case Submit => w.(jobs := w.jobs + [Job(w.queueTail, Waiting)], queueTail := Some(|w.jobs|))
    case Start(j) => w.(jobs := w.jobs[j := w.jobs[j].(status := Running)])
    case Commit(j, write) =>
      ApplyWrite(key, w, write).(jobs := w.jobs[j := w.jobs[j].(status := Wrote)], commits := w.commits + [j])
    case Settle(j) => w.(jobs := w.jobs[j := w.jobs[j].(status := Settled)])
    case StartLoad(keyPath) => w.(loads := w.loads + [Load(keyPath, 0, Idle)])
    case TakeSnapshot(l) =>
      w.(loads := w.loads[l := w.loads[l].(phase :=
           if w.stored.None? then Returned(None) else Resolving(w.stored.value, w.clock))])
    case Resolve(l, aliasKeys, order) =>
      w.(loads := w.loads[l := Resolved(key, w.loads[l], aliasKeys, order)])
    case Decrypt(l, usable) =>
      var ph := w.loads[l].phase;
      if usable.None? && ph.next + 1 < |ph.paths| then
        w.(loads := w.loads[l := w.loads[l].(phase := ph.(next := ph.next + 1))])
      else FinishAttempt(key, w, l, usable)
    case DecryptFails(l) => w.(loads := w.loads[l := w.loads[l].(phase := Threw)])
  }

  function Step(key: PathKey, w: World, e: Event): World
    requires Enabled(w, e)
  {
    Effect(key, w, e).(clock := w.clock + 1)
  }

  ghost predicate Run(key: PathKey, ws: seq<World>, es: seq<Event>) {
    && |ws| == |es| + 1
    && forall i :: 0 <= i < |es| ==> Enabled(ws[i], es[i]) && ws[i + 1] == Step(key, ws[i], es[i])
  }

  ghost predicate Initial(w: World) {
    && w.jobs == [] && w.queueTail == None && w.loads == [] && w.clock == 0
    && w.writtenAt == map[] && w.commits == []
  }

  // The queue.

  ghost predicate QueueInv(w: World) {
    && w.queueTail == (if |w.jobs| == 0 then None else Some(|w.jobs| - 1))
    && Chained(w.jobs)
    && InSubmissionOrder(w.jobs, w.commits)
  }

  /** Each mutation waits for the one before it, so all earlier ones have settled once it runs. */
  ghost predicate Chained(jobs: seq<Job>) {
    && (forall i :: 0 <= i < |jobs| ==> jobs[i].after == if i == 0 then None else Some(i - 1))
    && (forall i, j :: 0 <= i < j < |jobs| && jobs[j].status != Waiting ==> jobs[i].status == Settled)
  }

  ghost predicate InSubmissionOrder(jobs: seq<Job>, commits: seq<nat>) {
    && (forall c :: 0 <= c < |commits| ==> commits[c] < |jobs| && jobs[commits[c]].status in {Wrote, Settled})
    && (forall c, d :: 0 <= c < d < |commits| ==> commits[c] < commits[d])
  }

  predicate InProgress(w: World, job: int) {
    0 <= job < |w.jobs| && w.jobs[job].status in {Running, Wrote}
  }

  lemma CommitKeepsOrder(jobs: seq<Job>, commits: seq<nat>, j: nat)
    requires Chained(jobs) && InSubmissionOrder(jobs, commits)
    requires j < |jobs| && jobs[j].status == Running
    ensures Chained(jobs[j := jobs[j].(status := Wrote)])
    ensures InSubmissionOrder(jobs[j := jobs[j].(status := Wrote)], commits + [j])
  {
  }

  lemma StepKeepsQueue(key: PathKey, w: World, e: Event)
    requires QueueInv(w) && Enabled(w, e)
    ensures QueueInv(Step(key, w, e))
  {
    var after := Step(key, w, e);
    if e.Commit? {
      CommitKeepsOrder(w.jobs, w.commits, e.job);
    } else if !e.Submit? && !e.Start? && !e.Settle? {
      assert after.jobs == w.jobs && after.queueTail == w.queueTail && after.commits == w.commits;
    }
  }

  /**
   In every interleaving the queued mutations run one at a time, each after all
   earlier ones have settled, and they write in the order they were submitted.
   */
  lemma {:induction false} MutationsRunInOrder(key: PathKey, ws: seq<World>, es: seq<Event>, k: nat)
    requires Run(key, ws, es) && Initial(ws[0]) && k < |ws|
    ensures QueueInv(ws[k])
    ensures forall i, j :: InProgress(ws[k], i) && InProgress(ws[k], j) ==> i == j
    ensures forall c, d :: 0 <= c < d < |ws[k].commits| ==> ws[k].commits[c] < ws[k].commits[d]
  {
    if k > 0 {
      MutationsRunInOrder(key, ws, es, k - 1);
      StepKeepsQueue(key, ws[k - 1], es[k - 1]);
    }
  }

  // Loads against writes.

  /** What an unfinished attempt knows about the snapshot it took. */
  ghost predicate LoadInv(key: PathKey, w: World, load: Load) {
    && load.attempt <= 2
    && (load.phase.Resolving? || load.phase.Scanning? ==> load.phase.snapAt < w.clock)
    && (load.phase.Scanning? ==>
          && load.phase.next < |load.phase.paths|
          && (forall p :: p in load.phase.paths <==> p in load.phase.snapshot && key(p) in load.phase.aliasKeys))
  }

  ghost predicate StoreInv(key: PathKey, w: World) {
    && (forall p :: WrittenAt(w, p) <= w.clock)
    && (forall l :: 0 <= l < |w.loads| ==> LoadInv(key, w, w.loads[l]))
  }

  lemma StepKeepsLoad(key: PathKey, w: World, e: Event, l: nat)
    requires StoreInv(key, w) && Enabled(w, e) && l < |Step(key, w, e).loads|
    ensures LoadInv(key, Step(key, w, e), Step(key, w, e).loads[l])
  {
    if l < |w.loads| {
      assert LoadInv(key, w, w.loads[l]);
      match e
      case Decrypt(_, _) =>
      case Resolve(_, _, _) =>
      case TakeSnapshot(_) =>
      case _ =>
    }
  }

  lemma StepKeepsStoreInv(key: PathKey, w: World, e: Event)
    requires StoreInv(key, w) && Enabled(w, e)
    ensures StoreInv(key, Step(key, w, e))
  {
    var after := Step(key, w, e);
    forall p
      ensures WrittenAt(after, p) <= after.clock
    {
      assert WrittenAt(w, p) <= w.clock;
    }
    forall l | 0 <= l < |after.loads|
      ensures LoadInv(key, after, after.loads[l])
    {
      StepKeepsLoad(key, w, e, l);
    }
  }

  /** The entry at `p` is the business of this write. */
  predicate Covers(key: PathKey, write: Write, p: Path) {
    match write
    case SaveEntry(path, _, aliasKeys) => p == path || key(p) in aliasKeys
    case RemoveEntries(pathKeys) => key(p) in pathKeys
  }

  /** This event ends an attempt whose comparison passes. */
  predicate CleansUp(key: PathKey, w: World, e: Event)
    requires Enabled(w, e)
  {
    e.Decrypt?
    && (e.usable.Some? || w.loads[e.load].phase.next + 1 == |w.loads[e.load].phase.paths|)
    && !EntriesChanged(w.loads[e.load].phase.snapshot, Contents(w.stored), key, w.loads[e.load].phase.aliasKeys)
  }

  /**
   The record changes at a path only through a mutation that covers it or a
   clean-up that deletes it. A clean-up deletes only entries of its own alias
   class, and only with the ciphertext its snapshot had there.
   */
  lemma OnlyWritesAndCleanupsChange(key: PathKey, w: World, e: Event, p: Path)
    requires StoreInv(key, w) && Enabled(w, e)
    requires Lookup(Contents(Step(key, w, e).stored), p) != Lookup(Contents(w.stored), p)
    ensures (e.Commit? && Covers(key, e.write, p))
         || (CleansUp(key, w, e)
             && p !in Contents(Step(key, w, e).stored)
             && key(p) in w.loads[e.load].phase.aliasKeys
             && Lookup(w.loads[e.load].phase.snapshot, p) == Lookup(Contents(w.stored), p))
  {
    if e.Decrypt? {
      assert LoadInv(key, w, w.loads[e.load]);
    }
  }

  lemma {:induction false} RunsKeepStoreInv(key: PathKey, ws: seq<World>, es: seq<Event>, k: nat)
    requires Run(key, ws, es) && Initial(ws[0]) && k < |ws|
    ensures StoreInv(key, ws[k])
  {
    if k > 0 {
      RunsKeepStoreInv(key, ws, es, k - 1);
      StepKeepsStoreInv(key, ws[k - 1], es[k - 1]);
    }
  }

  lemma UnchangedLookup(key: PathKey, snapshot: Store, latest: Store, aliasKeys: set<string>, p: Path)
    requires !EntriesChanged(snapshot, latest, key, aliasKeys)
    ensures key(p) in aliasKeys ==> Lookup(snapshot, p) == Lookup(latest, p)
  {
    assert p in snapshot.Keys + latest.Keys <==> p in snapshot || p in latest;
  }

  ghost predicate DeletesLaterSave(key: PathKey, ws: seq<World>, es: seq<Event>, k: nat, p: Path) {
    && Run(key, ws, es) && Initial(ws[0])
    && k < |es| && es[k].Decrypt?
    && p in Contents(ws[k].stored) && p !in Contents(ws[k + 1].stored)
    && WrittenAt(ws[k], p) > ws[k].loads[es[k].load].phase.snapAt
  }

  /** Paths compared as they are, as every POSIX path is. */
  const PLAIN_KEY: PathKey := (p: string) => p

  lemma RunExtends(key: PathKey, ws: seq<World>, es: seq<Event>, e: Event, after: World)
    requires Run(key, ws, es) && Enabled(ws[|es|], e) && Step(key, ws[|es|], e) == after
    ensures Run(key, ws + [after], es + [e])
  {
  }

  /** The record, mid-load, after the unreadable text was saved a second time. */
  ghost function SavedAgain(): World {
    World(Some(map["k" := ""]), [Job(None, Wrote)], Some(0), [Load("k", 0, Resolving(map["k" := ""], 1))],
          5, map["k" := 4], [0])
  }

  /** The same record when the first load has read its snapshot. */
  ghost function SnapshotRead(): World {
    World(Some(map["k" := ""]), [], None, [Load("k", 0, Resolving(map["k" := ""], 1))], 2, map[], [])
  }

  lemma RepeatedSaveReads() returns (ws: seq<World>, es: seq<Event>)
    ensures Run(PLAIN_KEY, ws, es) && Initial(ws[0]) && |es| == 2 && ws[2] == SnapshotRead()
  {
    var store: Store := map["k" := ""];
    var w0 := World(Some(store), [], None, [], 0, map[], []);
    var w1 := w0.(loads := [Load("k", 0, Idle)], clock := 1);
    RunExtends(PLAIN_KEY, [w0], [], StartLoad("k"), w1);
    RunExtends(PLAIN_KEY, [w0] + [w1], [StartLoad("k")], TakeSnapshot(0), SnapshotRead());
    ws, es := [w0] + [w1] + [SnapshotRead()], [StartLoad("k")] + [TakeSnapshot(0)];
  }

  lemma RepeatedSaveBegins() returns (ws: seq<World>, es: seq<Event>)
    ensures Run(PLAIN_KEY, ws, es) && Initial(ws[0]) && |es| == 5 && ws[5] == SavedAgain()
  {
    ws, es := RepeatedSaveReads();
    var w3 := SnapshotRead().(jobs := [Job(None, Waiting)], queueTail := Some(0), clock := 3);
    var w4 := w3.(jobs := [Job(None, Running)], clock := 4);
    RunExtends(PLAIN_KEY, ws, es, Submit, w3);
    ws, es := ws + [w3], es + [Submit];
    RunExtends(PLAIN_KEY, ws, es, Start(0), w4);
    ws, es := ws + [w4], es + [Start(0)];
    RepeatedSaveWrites(PLAIN_KEY, w4, SavedAgain(), map["k" := ""]);
    RunExtends(PLAIN_KEY, ws, es, Commit(0, SaveEntry("k", "", {"k"})), SavedAgain());
    ws, es := ws + [SavedAgain()], es + [Commit(0, SaveEntry("k", "", {"k"}))];
  }

  /** A run in which a load deletes a save made while it was reading: the very text its snapshot held, unreadable, is saved again. */
  lemma RepeatedSaveIsDeleted() returns (ws: seq<World>, es: seq<Event>)
    ensures DeletesLaterSave(PLAIN_KEY, ws, es, 6, "k")
  {
    var key, store: Store := PLAIN_KEY, map["k" := ""];
    ws, es := RepeatedSaveBegins();
    var w6 := SavedAgain().(loads := [Load("k", 0, Scanning(store, 1, {"k"}, ["k"], 0))], clock := 6);
    var w7 := w6.(loads := [Load("k", 0, Returned(None))], stored := Some(map[]), clock := 7);
    RepeatedSaveScans(key, SavedAgain(), w6, store);
    RunExtends(key, ws, es, Resolve(0, {"k"}, ["k"]), w6);
    ws, es := ws + [w6], es + [Resolve(0, {"k"}, ["k"])];
    RepeatedSaveDeletes(key, w6, w7, store);
    RunExtends(key, ws, es, Decrypt(0, None), w7);
    ws, es := ws + [w7], es + [Decrypt(0, None)];
  }

  lemma RepeatedSaveWrites(key: PathKey, w: World, after: World, store: Store)
    requires key == PLAIN_KEY && store == map["k" := ""]
    requires w.stored == Some(store) && w.jobs == [Job(None, Running)] && w.writtenAt == map[] && w.clock == 4
    requires w.commits == []
    requires after == w.(jobs := [Job(None, Wrote)], commits := [0], writtenAt := map["k" := 4], clock := 5)
    ensures Step(key, w, Commit(0, SaveEntry("k", "", {"k"}))) == after
  {
    assert AfterWrite(store, key, "k", "", {"k"}) == store;
    assert w.jobs[0 := Job(None, Wrote)] == [Job(None, Wrote)];
  }

  lemma RepeatedSaveScans(key: PathKey, w: World, after: World, store: Store)
    requires key == PLAIN_KEY && store == map["k" := ""]
    requires w.loads == [Load("k", 0, Resolving(store, 1))] && w.clock == 5
    requires after == w.(loads := [Load("k", 0, Scanning(store, 1, {"k"}, ["k"], 0))], clock := 6)
    ensures Enabled(w, Resolve(0, {"k"}, ["k"])) && Step(key, w, Resolve(0, {"k"}, ["k"])) == after
  {
    assert Enumerates(["k"], store);
    assert FilterMatching(["k"], key, {"k"}) == ["k"] + FilterMatching([], key, {"k"});
    assert PathsToTry(["k"], "k", key, {"k"}) == ["k"];
  }

  lemma RepeatedSaveDeletes(key: PathKey, w: World, after: World, store: Store)
    requires key == PLAIN_KEY && store == map["k" := ""] && w.stored == Some(store) && w.clock == 6
    requires w.loads == [Load("k", 0, Scanning(store, 1, {"k"}, ["k"], 0))]
    requires after == w.(loads := [Load("k", 0, Returned(None))], stored := Some(map[]), clock := 7)
    ensures Step(key, w, Decrypt(0, None)) == after
  {
    assert !EntriesChanged(store, store, key, {"k"});
    var invalid := map p | p in store && p in ["k"] :: store[p];
    assert invalid == store;
    assert AfterInvalid(store, invalid) == map[];
  }

  /**
   A load answers as of the moment it finishes: the class it saw is the class
   stored now, and afterwards only the entry it decrypted is left of it, or
   nothing when no entry could be read.
   */
  lemma FinishedLoadIsCurrent(key: PathKey, w: World, e: Event)
    requires StoreInv(key, w) && Enabled(w, e) && CleansUp(key, w, e)
    ensures var ph := w.loads[e.load].phase;
      var after := Step(key, w, e);
      && after.loads[e.load].phase == Returned(e.usable)
      && Matching(Contents(w.stored), key, ph.aliasKeys) == PathSet(ph.paths)
      && Matching(Contents(after.stored), key, ph.aliasKeys) == (if e.usable.Some? then {ph.paths[ph.next]} else {})
      && (e.usable.Some? ==> Lookup(Contents(after.stored), ph.paths[ph.next]) == Lookup(ph.snapshot, ph.paths[ph.next]))
      && (forall p :: key(p) !in ph.aliasKeys ==> Lookup(Contents(after.stored), p) == Lookup(Contents(w.stored), p))
  {
    var ph := w.loads[e.load].phase;
    assert LoadInv(key, w, w.loads[e.load]);
    forall p
      ensures key(p) in ph.aliasKeys ==> Lookup(ph.snapshot, p) == Lookup(Contents(w.stored), p)
    {
      UnchangedLookup(key, ph.snapshot, Contents(w.stored), ph.aliasKeys, p);
    }
    assert ph.paths[0] in ph.paths && ph.paths[ph.next] in ph.paths;
    assert ph.paths[0] in Contents(w.stored);
  }
}
