/**
 What the remembered-passphrase protocol promises over whole runs: which entries
 a load deletes, when a readable save is safe from loads, and what a load started
 after it returns. Nothing is presumed of alias sets: a save and a load of one
 key may resolve differently, as they do when the home lookup fails for one.
 */
module PassphraseSafety {
  import opened Prelude
  import opened PassphraseStore
  import opened PassphraseProtocol
  import opened PassphraseAliases

  // Which entries a load deletes.

  /** The event ends an attempt that passes its comparison, and `p` is one of the entries it does not keep. */
  predicate Discards(key: PathKey, w: World, e: Event, p: Path)
    requires Enabled(w, e)
  {
    && CleansUp(key, w, e)
    && key(p) in w.loads[e.load].phase.aliasKeys
    && (e.usable.Some? ==> p != w.loads[e.load].phase.paths[w.loads[e.load].phase.next])
  }

  lemma DeletedAt(key: PathKey, w: World, e: Event, p: Path)
    requires StoreInv(key, w) && Enabled(w, e) && e.Decrypt? && p in Contents(w.stored)
    ensures p !in Contents(Step(key, w, e).stored) <==> Discards(key, w, e, p)
  {
    assert LoadInv(key, w, w.loads[e.load]);
    if CleansUp(key, w, e) {
      UnchangedLookup(key, w.loads[e.load].phase.snapshot, Contents(w.stored), w.loads[e.load].phase.aliasKeys, p);
    }
  }

  /**
   Over every run, a load deletes a stored entry if and only if its comparison
   passes, the entry is of the class it resolved, and it is not the one it decrypted.
   */
  lemma LoadDeletesIff(key: PathKey, ws: seq<World>, es: seq<Event>, k: nat, p: Path)
    requires Run(key, ws, es) && Initial(ws[0]) && k < |es| && es[k].Decrypt? && p in Contents(ws[k].stored)
    ensures p !in Contents(ws[k + 1].stored) <==> Discards(key, ws[k], es[k], p)
  {
    RunsKeepStoreInv(key, ws, es, k);
    DeletedAt(key, ws[k], es[k], p);
  }

  /** A class whose only entry is `p` has not changed exactly when the snapshot held only that. */
  lemma UnchangedSingleton(snapshot: Store, latest: Store, key: PathKey, aliasKeys: set<string>, p: Path)
    requires Matching(latest, key, aliasKeys) == {p}
    ensures !EntriesChanged(snapshot, latest, key, aliasKeys)
        <==> Matching(snapshot, key, aliasKeys) == {p} && Lookup(snapshot, p) == Lookup(latest, p)
  {
    assert p in Matching(latest, key, aliasKeys);
    if !EntriesChanged(snapshot, latest, key, aliasKeys) {
      forall q
        ensures q in Matching(snapshot, key, aliasKeys) <==> q in Matching(latest, key, aliasKeys)
      {
        assert q in snapshot.Keys + latest.Keys <==> q in snapshot || q in latest;
      }
    } else {
      var q :| q in snapshot.Keys + latest.Keys && key(q) in aliasKeys && Lookup(snapshot, q) != Lookup(latest, q);
      assert q in latest ==> q in Matching(latest, key, aliasKeys);
      assert q in snapshot ==> q in Matching(snapshot, key, aliasKeys);
    }
  }

  // Decryptions that depend on the ciphertext alone.

  /** The event reports what the entry it tried decrypts to. */
  predicate Decrypts(crypto: Crypto, w: World, e: Event)
    requires Enabled(w, e)
  {
    e.Decrypt? ==>
      var ph := w.loads[e.load].phase;
      var tried := ph.paths[ph.next];
      e.usable == if tried in ph.snapshot then Usable(crypto, ph.snapshot[tried]) else None
  }

  ghost predicate DecryptsAll(crypto: Crypto, key: PathKey, ws: seq<World>, es: seq<Event>)
    requires Run(key, ws, es)
  {
    forall i :: 0 <= i < |es| ==> Decrypts(crypto, ws[i], es[i])
  }

  /** What a scan has passed over could not be read. */
  ghost predicate PassedOver(crypto: Crypto, load: Load) {
    load.phase.Scanning? ==> forall j :: 0 <= j < load.phase.next && j < |load.phase.paths| ==>
      load.phase.paths[j] in load.phase.snapshot ==> Usable(crypto, load.phase.snapshot[load.phase.paths[j]]).None?
  }

  lemma StepKeepsPassedOver(key: PathKey, crypto: Crypto, w: World, e: Event, l: nat)
    requires Enabled(w, e) && Decrypts(crypto, w, e) && l < |Step(key, w, e).loads|
    requires l < |w.loads| ==> PassedOver(crypto, w.loads[l])
    ensures PassedOver(crypto, Step(key, w, e).loads[l])
  {
  }

  lemma {:induction false} RunsKeepPassedOver(key: PathKey, crypto: Crypto, ws: seq<World>, es: seq<Event>, k: nat, l: nat)
    requires Run(key, ws, es) && Initial(ws[0]) && DecryptsAll(crypto, key, ws, es) && k < |ws| && l < |ws[k].loads|
    ensures PassedOver(crypto, ws[k].loads[l])
  {
    if k > 0 {
      if l < |ws[k - 1].loads| {
        RunsKeepPassedOver(key, crypto, ws, es, k - 1, l);
      }
      assert Decrypts(crypto, ws[k - 1], es[k - 1]);
      StepKeepsPassedOver(key, crypto, ws[k - 1], es[k - 1], l);
    }
  }

  /** A load that finishes over a class with a readable entry has decrypted something. */
  lemma ReadableIsFound(key: PathKey, crypto: Crypto, w: World, e: Event, p: Path)
    requires StoreInv(key, w) && Enabled(w, e) && CleansUp(key, w, e) && Decrypts(crypto, w, e)
    requires PassedOver(crypto, w.loads[e.load]) && key(p) in w.loads[e.load].phase.aliasKeys
    requires p in Contents(w.stored) && Usable(crypto, Contents(w.stored)[p]).Some?
    ensures e.usable.Some?
  {
    var ph := w.loads[e.load].phase;
    assert LoadInv(key, w, w.loads[e.load]);
    UnchangedLookup(key, ph.snapshot, Contents(w.stored), ph.aliasKeys, p);
    assert p in ph.paths;
    var j :| 0 <= j < |ph.paths| && ph.paths[j] == p;
  }

  /**
   Over every run, a load deletes an entry that can be read if and only if its
   comparison passes and it has decrypted another spelling of the entry's class.
   */
  lemma ReadableEntryDeletedIff(key: PathKey, crypto: Crypto, ws: seq<World>, es: seq<Event>, k: nat, p: Path)
    requires Run(key, ws, es) && Initial(ws[0]) && DecryptsAll(crypto, key, ws, es) && k < |es| && es[k].Decrypt?
    requires p in Contents(ws[k].stored) && Usable(crypto, Contents(ws[k].stored)[p]).Some?
    ensures p !in Contents(ws[k + 1].stored)
        <==> && CleansUp(key, ws[k], es[k]) && es[k].usable.Some? && key(p) in ws[k].loads[es[k].load].phase.aliasKeys
             && ws[k].loads[es[k].load].phase.paths[ws[k].loads[es[k].load].phase.next] != p
  {
    RunsKeepStoreInv(key, ws, es, k);
    RunsKeepPassedOver(key, crypto, ws, es, k, es[k].load);
    assert Decrypts(crypto, ws[k], es[k]);
    DeletedAt(key, ws[k], es[k], p);
    if CleansUp(key, ws[k], es[k]) && key(p) in ws[k].loads[es[k].load].phase.aliasKeys {
      ReadableIsFound(key, crypto, ws[k], es[k], p);
    }
  }

  // When a save is safe.

  /** A mutation's write that concerns the entry at `p`. */
  predicate WritesOver(key: PathKey, e: Event, p: Path) {
    e.Commit? && Covers(key, e.write, p)
  }

  /** The event decrypts this very entry. */
  predicate Tries(w: World, e: Event, p: Path, encrypted: Cipher)
    requires Enabled(w, e)
  {
    e.Decrypt? && w.loads[e.load].phase.paths[w.loads[e.load].phase.next] == p
    && Lookup(w.loads[e.load].phase.snapshot, p) == Some(encrypted)
  }

  predicate ReadsAs(w: World, e: Event, p: Path, encrypted: Cipher, secret: string)
    requires Enabled(w, e)
  {
    Tries(w, e, p, encrypted) ==> e.usable == Some(secret)
  }

  /** A load that cleans up the class of `p` finds no other entry stored in it. */
  predicate Alone(key: PathKey, w: World, e: Event, p: Path)
    requires Enabled(w, e)
  {
    CleansUp(key, w, e) && key(p) in w.loads[e.load].phase.aliasKeys ==>
      Matching(Contents(w.stored), key, w.loads[e.load].phase.aliasKeys) <= {p}
  }

  lemma StepSparesReadable(key: PathKey, w: World, e: Event, p: Path, encrypted: Cipher, secret: string)
    requires StoreInv(key, w) && Enabled(w, e) && Lookup(Contents(w.stored), p) == Some(encrypted)
    requires !WritesOver(key, e, p) && ReadsAs(w, e, p, encrypted, secret) && Alone(key, w, e, p)
    ensures Lookup(Contents(Step(key, w, e).stored), p) == Some(encrypted)
  {
    if Lookup(Contents(Step(key, w, e).stored), p) != Lookup(Contents(w.stored), p) {
      OnlyWritesAndCleanupsChange(key, w, e, p);
      LoneEntryIsKept(key, w, e, p);
    }
  }

  /** A clean-up whose class holds only `p` has just tried `p`. */
  lemma LoneEntryIsKept(key: PathKey, w: World, e: Event, p: Path)
    requires StoreInv(key, w) && Enabled(w, e) && CleansUp(key, w, e) && Alone(key, w, e, p)
    requires p in Contents(w.stored) && key(p) in w.loads[e.load].phase.aliasKeys
    ensures Tries(w, e, p, Contents(w.stored)[p])
    ensures e.usable.Some? ==> p in Contents(Step(key, w, e).stored)
  {
    var ph := w.loads[e.load].phase;
    assert LoadInv(key, w, w.loads[e.load]);
    assert p in Matching(Contents(w.stored), key, ph.aliasKeys);
    UnchangedSingleton(ph.snapshot, Contents(w.stored), key, ph.aliasKeys, p);
    assert ph.paths[ph.next] in ph.paths;
    assert ph.paths[ph.next] in Matching(ph.snapshot, key, ph.aliasKeys);
    DeletedAt(key, w, e, p);
  }

  /**
   Over every run, whatever its alias sets, a save that reads back whenever it
   is tried outlives every load, until a mutation covers its path, as long as no
   load finishes over a class in which another entry is stored.
   */
  lemma {:induction false} LoneSaveSurvives(key: PathKey, ws: seq<World>, es: seq<Event>, i: nat, k: nat, secret: string)
    requires Run(key, ws, es) && Initial(ws[0]) && i < k <= |es| && es[i].Commit? && es[i].write.SaveEntry?
    requires forall m :: i < m < k ==> !WritesOver(key, es[m], es[i].write.path)
    requires forall m :: i < m < k ==> ReadsAs(ws[m], es[m], es[i].write.path, es[i].write.encrypted, secret)
    requires forall m :: i < m < k ==> Alone(key, ws[m], es[m], es[i].write.path)
    ensures Lookup(Contents(ws[k].stored), es[i].write.path) == Some(es[i].write.encrypted)
  {
    if k == i + 1 {
      assert ws[k] == Step(key, ws[i], es[i]);
    } else {
      LoneSaveSurvives(key, ws, es, i, k - 1, secret);
      RunsKeepStoreInv(key, ws, es, k - 1);
      StepSparesReadable(key, ws[k - 1], es[k - 1], es[i].write.path, es[i].write.encrypted, secret);
    }
  }

  // What a load returns.

  /**
   Over every run, a secret a load returns is the decryption of an entry of its
   class that is stored at that moment, and that is all the class then holds.
   */
  lemma ReturnedSecretIsStored(key: PathKey, crypto: Crypto, ws: seq<World>, es: seq<Event>, k: nat, l: nat)
    returns (p: Path)
    requires Run(key, ws, es) && Initial(ws[0]) && k < |es| && Decrypts(crypto, ws[k], es[k])
    requires l < |ws[k].loads| && !ws[k].loads[l].phase.Returned?
    requires ws[k + 1].loads[l].phase.Returned? && ws[k + 1].loads[l].phase.value.Some?
    ensures es[k].Decrypt? && es[k].load == l && ws[k].loads[l].phase.Scanning?
    ensures var K := ws[k].loads[l].phase.aliasKeys;
      && Matching(Contents(ws[k + 1].stored), key, K) == {p}
      && p in Contents(ws[k].stored) && Lookup(Contents(ws[k + 1].stored), p) == Lookup(Contents(ws[k].stored), p)
      && crypto.decrypt(Contents(ws[k].stored)[p]) == ws[k + 1].loads[l].phase.value
      && ws[k + 1].loads[l].phase.value.value != "" && !crypto.isPlaceholder(ws[k + 1].loads[l].phase.value.value)
  {
    var w, e := ws[k], es[k];
    RunsKeepStoreInv(key, ws, es, k);
    assert ws[k + 1] == Step(key, w, e) && e.Decrypt? && e.load == l;
    assert LoadInv(key, w, w.loads[l]) && Decrypts(crypto, w, e);
    var ph := w.loads[l].phase;
    p := ph.paths[ph.next];
    assert p in ph.paths;
    FinishedLoadIsCurrent(key, w, e);
    UnchangedLookup(key, ph.snapshot, Contents(w.stored), ph.aliasKeys, p);
  }

  /** A load of the class begun after the save: whatever it has read so far is that save, and so is what it returns. */
  ghost predicate SeesSave(key: PathKey, K: set<string>, load: Load, p: Path, encrypted: Cipher, secret: string) {
    match load.phase
    case Idle => true
    case Resolving(snapshot, _) => Matching(snapshot, key, K) == {p} && snapshot[p] == encrypted
    case Scanning(snapshot, _, aliasKeys, paths, next) =>
      && aliasKeys == K && Matching(snapshot, key, K) == {p} && snapshot[p] == encrypted
      && next < |paths| && paths[next] == p
    case Returned(value) => value == Some(secret)
    case Threw => true
  }

  lemma StepKeepsSeeing(key: PathKey, K: set<string>, w: World, e: Event, l: nat, p: Path, encrypted: Cipher, secret: string)
    requires StoreInv(key, w) && Lookup(Contents(w.stored), p) == Some(encrypted) && Matching(Contents(w.stored), key, K) == {p}
    requires Enabled(w, e) && ReadsAs(w, e, p, encrypted, secret) && (e.Resolve? && e.load == l ==> e.aliasKeys == K)
    requires l < |w.loads| && SeesSave(key, K, w.loads[l], p, encrypted, secret)
    ensures l < |Step(key, w, e).loads| && SeesSave(key, K, Step(key, w, e).loads[l], p, encrypted, secret)
  {
    assert p in Matching(Contents(w.stored), key, K) && LoadInv(key, w, w.loads[l]);
    match e
    case Resolve(m, _, order) =>
      if m == l {
        var paths := PathsToTry(order, w.loads[l].keyPath, key, K);
        assert p in Matching(w.loads[l].phase.snapshot, key, K) && p in order && p in paths;
        assert paths[0] in paths && paths[0] in Matching(w.loads[l].phase.snapshot, key, K);
      }
    case Decrypt(m, _) =>
      if m == l {
        UnchangedSingleton(w.loads[l].phase.snapshot, Contents(w.stored), key, K, p);
        assert Tries(w, e, p, encrypted);
      }
    case _ =>
  }

  /** The run starts load `l` at `j`, and whenever the load resolves its aliases they are `K`. */
  ghost predicate LoadsClass(K: set<string>, ws: seq<World>, es: seq<Event>, j: nat, l: nat)
    requires |ws| == |es| + 1
  {
    && j < |es| && es[j].StartLoad? && l == |ws[j].loads|
    && forall m :: j < m < |es| && es[m].Resolve? && es[m].load == l ==> es[m].aliasKeys == K
  }

  /** From the save at `i` until `k` its entry is stored, all alone in the class, and reads back whenever tried. */
  ghost predicate StaysReadable(key: PathKey, K: set<string>, ws: seq<World>, es: seq<Event>, i: nat, k: nat, secret: string)
    requires Run(key, ws, es) && i < k <= |es| && es[i].Commit? && es[i].write.SaveEntry?
  {
    forall m :: i < m < k ==>
      && Lookup(Contents(ws[m].stored), es[i].write.path) == Some(es[i].write.encrypted)
      && Matching(Contents(ws[m].stored), key, K) == {es[i].write.path}
      && ReadsAs(ws[m], es[m], es[i].write.path, es[i].write.encrypted, secret)
  }

  /**
   Over every run, a load begun after a save that stays stored, readable and
   alone in the load's class returns that secret unless it throws; it never
   gives up with an empty answer.
   */
  lemma {:induction false} LoadAfterLoneSaveReturnsIt(key: PathKey, K: set<string>, ws: seq<World>, es: seq<Event>,
                                                      i: nat, j: nat, k: nat, l: nat, secret: string)
    requires Run(key, ws, es) && Initial(ws[0]) && i < j < k <= |es| && es[i].Commit? && es[i].write.SaveEntry?
    requires StaysReadable(key, K, ws, es, i, k, secret) && LoadsClass(K, ws, es, j, l)
    ensures l < |ws[k].loads| && SeesSave(key, K, ws[k].loads[l], es[i].write.path, es[i].write.encrypted, secret)
    ensures ws[k].loads[l].phase.Returned? ==> ws[k].loads[l].phase.value == Some(secret)
  {
    if k > j + 1 {
      LoadAfterLoneSaveReturnsIt(key, K, ws, es, i, j, k - 1, l, secret);
      RunsKeepStoreInv(key, ws, es, k - 1);
      StepKeepsSeeing(key, K, ws[k - 1], es[k - 1], l, es[i].write.path, es[i].write.encrypted, secret);
    } else {
      assert ws[k] == Step(key, ws[j], es[j]);
    }
  }

  // A readable save that a load deletes.

  const HOME := "/home/u"
  const HOME_PATH := "/home/u/k"
  const TILDE_PATH := "~/k"

  /** Texts are stored as they are and read back as they are. */
  const CLEAR: Crypto := Crypto((t: string) => Some(t), (t: string) => Some(t), (t: string) => false)

  /** With the home known both spellings resolve to both; with the lookup failing a path resolves to itself. */
  lemma HomeDecidesTheClass(lower: string -> string)
    ensures AliasKeys(lower, Some(HOME), HOME_PATH) == {HOME_PATH, TILDE_PATH}
    ensures AliasKeys(lower, None, TILDE_PATH) == {TILDE_PATH}
  {
    assert HOME + "/" <= HOME_PATH && "~/" + HOME_PATH[|HOME| + 1..] == TILDE_PATH;
    PosixAliases(lower, HOME, HOME_PATH);
  }

  /** The record when the load has resolved: the old entry and the one saved beside it. */
  ghost function SavedBeside(): World {
    var store := map[HOME_PATH := "old", TILDE_PATH := "new"];
    World(Some(store), [Job(None, Wrote)], Some(0),
          [Load(HOME_PATH, 0, Scanning(store, 4, {HOME_PATH, TILDE_PATH}, [HOME_PATH, TILDE_PATH], 0))],
          6, map[TILDE_PATH := 2], [0])
  }

  lemma SaveBesideWrites(w: World, after: World)
    requires w == World(Some(map[HOME_PATH := "old"]), [Job(None, Running)], Some(0), [], 2, map[], [])
    requires after == World(Some(map[HOME_PATH := "old", TILDE_PATH := "new"]), [Job(None, Wrote)], Some(0), [], 3, map[TILDE_PATH := 2], [0])
    ensures var e := Commit(0, SaveEntry(TILDE_PATH, "new", {TILDE_PATH}));
      Enabled(w, e) && Step(PLAIN_KEY, w, e) == after
  {
    var store: Store := map[HOME_PATH := "old"];
    assert HOME_PATH[0] != TILDE_PATH[0];
    assert AfterWrite(store, PLAIN_KEY, TILDE_PATH, "new", {TILDE_PATH}) == store[TILDE_PATH := "new"];
  }

  lemma SaveWithoutHome() returns (ws: seq<World>, es: seq<Event>)
    ensures Run(PLAIN_KEY, ws, es) && Initial(ws[0]) && |es| == 3 && es[2] == Commit(0, SaveEntry(TILDE_PATH, "new", {TILDE_PATH}))
    ensures ws[3] == World(Some(map[HOME_PATH := "old", TILDE_PATH := "new"]), [Job(None, Wrote)], Some(0), [], 3, map[TILDE_PATH := 2], [0])
    ensures forall i :: 0 <= i < 3 ==> !es[i].Decrypt?
  {
    var store: Store := map[HOME_PATH := "old"];
    var w0 := World(Some(store), [], None, [], 0, map[], []);
    var w1 := w0.(jobs := [Job(None, Waiting)], queueTail := Some(0), clock := 1);
    var w2 := w1.(jobs := [Job(None, Running)], clock := 2);
    var w3 := w2.(stored := Some(store[TILDE_PATH := "new"]), jobs := [Job(None, Wrote)], clock := 3,
                  writtenAt := map[TILDE_PATH := 2], commits := [0]);
    SaveBesideWrites(w2, w3);
    RunExtends(PLAIN_KEY, [w0], [], Submit, w1);
    ws, es := [w0] + [w1], [Submit];
    RunExtends(PLAIN_KEY, ws, es, Start(0), w2);
    ws, es := ws + [w2], es + [Start(0)];
    RunExtends(PLAIN_KEY, ws, es, Commit(0, SaveEntry(TILDE_PATH, "new", {TILDE_PATH})), w3);
    ws, es := ws + [w3], es + [Commit(0, SaveEntry(TILDE_PATH, "new", {TILDE_PATH}))];
  }

  lemma LoadWithHomeResolves(w: World)
    requires w == World(Some(map[HOME_PATH := "old", TILDE_PATH := "new"]), [Job(None, Wrote)], Some(0),
                        [Load(HOME_PATH, 0, Resolving(map[HOME_PATH := "old", TILDE_PATH := "new"], 4))], 5, map[TILDE_PATH := 2], [0])
    ensures var e := Resolve(0, {HOME_PATH, TILDE_PATH}, [HOME_PATH, TILDE_PATH]);
      Enabled(w, e) && Step(PLAIN_KEY, w, e) == SavedBeside()
  {
    var order, K := [HOME_PATH, TILDE_PATH], {HOME_PATH, TILDE_PATH};
    assert HOME_PATH[0] != TILDE_PATH[0];
    assert order[1..] == [TILDE_PATH] && order[1..][1..] == [];
    assert FilterMatching(order[1..], PLAIN_KEY, K) == [TILDE_PATH];
    assert FilterMatching(order, PLAIN_KEY, K) == order;
    assert PathsToTry(order, HOME_PATH, PLAIN_KEY, K) == order;
  }

  lemma LoadWithHomeDeletes()
    ensures var e := Decrypt(0, Some("old"));
      && Enabled(SavedBeside(), e) && Decrypts(CLEAR, SavedBeside(), e)
      && Step(PLAIN_KEY, SavedBeside(), e) == SavedBeside().(
           stored := Some(map[HOME_PATH := "old"]), loads := [Load(HOME_PATH, 0, Returned(Some("old")))], clock := 7)
  {
    var store, K := map[HOME_PATH := "old", TILDE_PATH := "new"], {HOME_PATH, TILDE_PATH};
    assert HOME_PATH[0] != TILDE_PATH[0];
    assert !EntriesChanged(store, store, PLAIN_KEY, K);
    assert PathSet([HOME_PATH, TILDE_PATH]) == K;
    assert AfterDuplicates(store, [HOME_PATH, TILDE_PATH], HOME_PATH) == map[HOME_PATH := "old"];
  }

  lemma DecryptionsExtend(key: PathKey, crypto: Crypto, ws: seq<World>, es: seq<Event>, e: Event, after: World)
    requires Run(key, ws, es) && DecryptsAll(crypto, key, ws, es)
    requires Enabled(ws[|es|], e) && Decrypts(crypto, ws[|es|], e) && Step(key, ws[|es|], e) == after
    ensures Run(key, ws + [after], es + [e]) && DecryptsAll(crypto, key, ws + [after], es + [e])
  {
    RunExtends(key, ws, es, e, after);
  }

  lemma LoadFollows() returns (ws: seq<World>, es: seq<Event>)
    ensures Run(PLAIN_KEY, ws, es) && Initial(ws[0]) && |es| == 6 && ws[6] == SavedBeside() && DecryptsAll(CLEAR, PLAIN_KEY, ws, es)
    ensures es[2] == Commit(0, SaveEntry(TILDE_PATH, "new", {TILDE_PATH})) && es[3] == StartLoad(HOME_PATH)
    ensures forall m :: 2 < m < 6 ==> !es[m].Commit?
  {
    ws, es := SaveWithoutHome();
    var store := map[HOME_PATH := "old", TILDE_PATH := "new"];
    var w4 := ws[3].(loads := [Load(HOME_PATH, 0, Idle)], clock := 4);
    var w5 := w4.(loads := [Load(HOME_PATH, 0, Resolving(store, 4))], clock := 5);
    DecryptionsExtend(PLAIN_KEY, CLEAR, ws, es, StartLoad(HOME_PATH), w4);
    ws, es := ws + [w4], es + [StartLoad(HOME_PATH)];
    DecryptionsExtend(PLAIN_KEY, CLEAR, ws, es, TakeSnapshot(0), w5);
    ws, es := ws + [w5], es + [TakeSnapshot(0)];
    LoadWithHomeResolves(w5);
    var resolved := Resolve(0, {HOME_PATH, TILDE_PATH}, [HOME_PATH, TILDE_PATH]);
    DecryptionsExtend(PLAIN_KEY, CLEAR, ws, es, resolved, SavedBeside());
    ws, es := ws + [SavedBeside()], es + [resolved];
  }

  /**
   A run in which a load deletes a readable save: the save's home lookup failed,
   so it left the older spelling stored; the load's did not, so it reads the
   older spelling first, returns it, and removes the save as a duplicate.
   */
  lemma ReadableSaveIsLost() returns (ws: seq<World>, es: seq<Event>)
    ensures Run(PLAIN_KEY, ws, es) && Initial(ws[0]) && |es| == 7 && DecryptsAll(CLEAR, PLAIN_KEY, ws, es)
    ensures es[2] == Commit(0, SaveEntry(TILDE_PATH, "new", {TILDE_PATH})) && es[3] == StartLoad(HOME_PATH)
    ensures Usable(CLEAR, "new").Some? && forall m :: 2 < m < 7 ==> !WritesOver(PLAIN_KEY, es[m], TILDE_PATH)
    ensures Contents(ws[6].stored) == map[HOME_PATH := "old", TILDE_PATH := "new"] && Contents(ws[7].stored) == map[HOME_PATH := "old"]
    ensures ws[7].loads == [Load(HOME_PATH, 0, Returned(Some("old")))]
  {
    ws, es := LoadFollows();
    var w7 := SavedBeside().(stored := Some(map[HOME_PATH := "old"]), loads := [Load(HOME_PATH, 0, Returned(Some("old")))], clock := 7);
    LoadWithHomeDeletes();
    DecryptionsExtend(PLAIN_KEY, CLEAR, ws, es, Decrypt(0, Some("old")), w7);
    ws, es := ws + [w7], es + [Decrypt(0, Some("old"))];
  }
}
