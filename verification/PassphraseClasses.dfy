/**
 The promises of the protocol in runs whose saves and loads resolve aliases
 consistently: every alias set is the class in question or disjoint from it, as
 it is under one POSIX home whose lookup does not fail.
 */
module PassphraseClasses {
  import opened Prelude
  import opened PassphraseStore
  import opened PassphraseProtocol
  import opened PassphraseAliases
  import opened PassphraseSafety

  predicate SaveRespects(key: PathKey, K: set<string>, e: Event) {
    e.Commit? && e.write.SaveEntry? ==>
      if key(e.write.path) in K then e.write.aliasKeys == K else e.write.aliasKeys !! K
  }

  ghost predicate SavesRespect(key: PathKey, K: set<string>, es: seq<Event>) {
    forall i :: 0 <= i < |es| ==> SaveRespects(key, K, es[i])
  }

  predicate LoadRespects(K: set<string>, e: Event) {
    e.Resolve? ==> e.aliasKeys == K || e.aliasKeys !! K
  }

  ghost predicate LoadsRespect(K: set<string>, es: seq<Event>) {
    forall i :: 0 <= i < |es| ==> LoadRespects(K, es[i])
  }

  /** Under a POSIX home the class of any path is respected by whatever resolves its aliases there. */
  lemma PosixEventsRespect(lower: string -> string, home: string, key: PathKey, p: Path, e: Event, q: Path)
    requires IsPosixHome(home) && !IsWindowsShaped(p) && !IsWindowsShaped(q)
    requires forall s :: key(s) == DefaultKeyPassphrasePathKey(lower, s)
    ensures var K := AliasKeys(lower, Some(home), p);
      && (e.Commit? && e.write.SaveEntry? && e.write.path == q && e.write.aliasKeys == AliasKeys(lower, Some(home), q) ==> SaveRespects(key, K, e))
      && (e.Resolve? && e.aliasKeys == AliasKeys(lower, Some(home), q) ==> LoadRespects(K, e))
  {
    AliasClasses(lower, home, p, q);
  }

  // A save leaves one entry of its class, and nothing but a save adds one.

  /** An entry of the class saved during the run is the class's only entry. */
  ghost predicate SoleSave(key: PathKey, K: set<string>, w: World) {
    forall p :: p in Matching(Contents(w.stored), key, K) && p in w.writtenAt ==>
      Matching(Contents(w.stored), key, K) == {p}
  }

  lemma StepKeepsSoleSave(key: PathKey, K: set<string>, w: World, e: Event)
    requires SoleSave(key, K, w) && Enabled(w, e) && SaveRespects(key, K, e)
    ensures SoleSave(key, K, Step(key, w, e))
  {
    var after := Step(key, w, e);
    var before, now := Matching(Contents(w.stored), key, K), Matching(Contents(after.stored), key, K);
    forall p | p in now && p in after.writtenAt
      ensures now == {p}
    {
      if e.Commit? && e.write.SaveEntry? && key(e.write.path) in K {
        assert now == {e.write.path};
      } else {
        assert now <= before && p in before && p in w.writtenAt;
      }
    }
  }

  lemma {:induction false} RunsKeepSoleSave(key: PathKey, K: set<string>, ws: seq<World>, es: seq<Event>, k: nat)
    requires Run(key, ws, es) && Initial(ws[0]) && SavesRespect(key, K, es) && k < |ws|
    ensures SoleSave(key, K, ws[k])
  {
    if k > 0 {
      RunsKeepSoleSave(key, K, ws, es, k - 1);
      StepKeepsSoleSave(key, K, ws[k - 1], es[k - 1]);
    }
  }

  // Which saves a load deletes.

  /** The last spelling to try has decrypted to nothing usable, like all before it. */
  predicate NothingUsable(w: World, e: Event)
    requires Enabled(w, e)
  {
    e.Decrypt? && e.usable.None? && w.loads[e.load].phase.next + 1 == |w.loads[e.load].phase.paths|
  }

  /** All the snapshot held of the class is `p`, with the ciphertext it has now. */
  predicate SnapshotHeldOnly(key: PathKey, w: World, e: Event, p: Path)
    requires Enabled(w, e) && e.Decrypt?
  {
    var ph := w.loads[e.load].phase;
    && Matching(ph.snapshot, key, ph.aliasKeys) == {p}
    && Lookup(ph.snapshot, p) == Lookup(Contents(w.stored), p)
  }

  lemma SavedEntryDeletedAt(key: PathKey, w: World, e: Event, p: Path)
    requires StoreInv(key, w) && Enabled(w, e) && e.Decrypt?
    requires SoleSave(key, w.loads[e.load].phase.aliasKeys, w)
    requires p in Contents(w.stored) && p in w.writtenAt
    ensures p !in Contents(Step(key, w, e).stored)
        <==> key(p) in w.loads[e.load].phase.aliasKeys && NothingUsable(w, e) && SnapshotHeldOnly(key, w, e, p)
  {
    var ph, store := w.loads[e.load].phase, Contents(w.stored);
    assert LoadInv(key, w, w.loads[e.load]);
    assert ph.paths[ph.next] in ph.paths;
    assert ph.paths[ph.next] in Matching(ph.snapshot, key, ph.aliasKeys);
    if key(p) in ph.aliasKeys {
      assert p in Matching(store, key, ph.aliasKeys);
      UnchangedSingleton(ph.snapshot, store, key, ph.aliasKeys, p);
      if NothingUsable(w, e) && SnapshotHeldOnly(key, w, e, p) {
        assert p in Matching(ph.snapshot, key, ph.aliasKeys) && p in ph.paths;
      }
    }
  }

  /**
   Over every run, a load deletes an entry saved during the run, before or
   after its snapshot, if and only if the entry is of its class, the load found
   nothing usable, and its snapshot held just that entry with that ciphertext.
   So a load that decrypts something never deletes a save, and no load deletes
   a later save unless the save repeated the very ciphertext that was there.
   */
  lemma SavedEntryDeletedIff(key: PathKey, ws: seq<World>, es: seq<Event>, k: nat, p: Path)
    requires Run(key, ws, es) && Initial(ws[0]) && k < |es| && es[k].Decrypt?
    requires SavesRespect(key, ws[k].loads[es[k].load].phase.aliasKeys, es)
    requires p in Contents(ws[k].stored) && p in ws[k].writtenAt
    ensures p !in Contents(ws[k + 1].stored)
        <==> key(p) in ws[k].loads[es[k].load].phase.aliasKeys && NothingUsable(ws[k], es[k]) && SnapshotHeldOnly(key, ws[k], es[k], p)
  {
    RunsKeepStoreInv(key, ws, es, k);
    RunsKeepSoleSave(key, ws[k].loads[es[k].load].phase.aliasKeys, ws, es, k);
    SavedEntryDeletedAt(key, ws[k], es[k], p);
  }

  // How long a save lasts.

  /** Every load scanning at this point scans the class or has nothing to do with it. */
  ghost predicate ScansRespect(K: set<string>, w: World) {
    forall l :: 0 <= l < |w.loads| && w.loads[l].phase.Scanning? ==>
      w.loads[l].phase.aliasKeys == K || w.loads[l].phase.aliasKeys !! K
  }

  lemma StepKeepsScans(key: PathKey, K: set<string>, w: World, e: Event)
    requires ScansRespect(K, w) && Enabled(w, e) && LoadRespects(K, e)
    ensures ScansRespect(K, Step(key, w, e))
  {
  }

  lemma {:induction false} RunsKeepScans(key: PathKey, K: set<string>, ws: seq<World>, es: seq<Event>, k: nat)
    requires Run(key, ws, es) && Initial(ws[0]) && LoadsRespect(K, es) && k < |ws|
    ensures ScansRespect(K, ws[k])
  {
    if k > 0 {
      RunsKeepScans(key, K, ws, es, k - 1);
      StepKeepsScans(key, K, ws[k - 1], es[k - 1]);
    }
  }

  /** A load of the class ends having found nothing usable. */
  predicate DropsUnreadable(K: set<string>, w: World, e: Event)
    requires Enabled(w, e)
  {
    NothingUsable(w, e) && w.loads[e.load].phase.aliasKeys == K
  }

  /** The class holds the entry saved at `p` and nothing else. */
  ghost predicate HoldsSaved(key: PathKey, K: set<string>, w: World, p: Path, encrypted: Cipher) {
    && Lookup(Contents(w.stored), p) == Some(encrypted) && p in w.writtenAt
    && Matching(Contents(w.stored), key, K) == {p}
  }

  lemma StepKeepsSaved(key: PathKey, K: set<string>, w: World, e: Event, p: Path, encrypted: Cipher)
    requires StoreInv(key, w) && SoleSave(key, K, w) && ScansRespect(K, w) && HoldsSaved(key, K, w, p, encrypted)
    requires Enabled(w, e) && SaveRespects(key, K, e) && !WritesOver(key, e, p)
    requires !(DropsUnreadable(K, w, e) && SnapshotHeldOnly(key, w, e, p))
    ensures HoldsSaved(key, K, Step(key, w, e), p, encrypted)
  {
    var after := Step(key, w, e);
    assert p in Matching(Contents(w.stored), key, K);
    if Lookup(Contents(after.stored), p) != Lookup(Contents(w.stored), p) {
      OnlyWritesAndCleanupsChange(key, w, e, p);
      SavedEntryDeletedAt(key, w, e, p);
      assert false;
    }
    StepKeepsSoleSave(key, K, w, e);
    assert p in Matching(Contents(after.stored), key, K);
  }

  lemma SavedAt(key: PathKey, K: set<string>, w: World, e: Event)
    requires Enabled(w, e) && e.Commit? && e.write.SaveEntry? && e.write.aliasKeys == K && key(e.write.path) in K
    ensures HoldsSaved(key, K, Step(key, w, e), e.write.path, e.write.encrypted)
  {
    WriteLeavesOne(Contents(w.stored), key, e.write.path, e.write.encrypted, K);
  }

  /**
   No save is lost: over every run it is what the class holds, and all it
   holds, until a later mutation covers its path or a load that found nothing
   usable deletes it. Loads that decrypt something never end it.
   */
  lemma {:induction false} SavedEntrySurvives(key: PathKey, K: set<string>, ws: seq<World>, es: seq<Event>, i: nat, k: nat)
    requires Run(key, ws, es) && Initial(ws[0]) && SavesRespect(key, K, es) && LoadsRespect(K, es)
    requires i < k <= |es| && es[i].Commit? && es[i].write.SaveEntry? && key(es[i].write.path) in K
    requires forall m :: i < m < k ==> !WritesOver(key, es[m], es[i].write.path)
    requires forall m :: i < m < k ==> !(DropsUnreadable(K, ws[m], es[m]) && SnapshotHeldOnly(key, ws[m], es[m], es[i].write.path))
    ensures HoldsSaved(key, K, ws[k], es[i].write.path, es[i].write.encrypted)
  {
    if k == i + 1 {
      assert SaveRespects(key, K, es[i]);
      SavedAt(key, K, ws[i], es[i]);
    } else {
      SavedEntrySurvives(key, K, ws, es, i, k - 1);
      RunsKeepStoreInv(key, ws, es, k - 1);
      RunsKeepSoleSave(key, K, ws, es, k - 1);
      RunsKeepScans(key, K, ws, es, k - 1);
      StepKeepsSaved(key, K, ws[k - 1], es[k - 1], es[i].write.path, es[i].write.encrypted);
    }
  }

  // Saves that can be read.

  lemma {:induction false} SavedPathsStay(key: PathKey, ws: seq<World>, es: seq<Event>, i: nat, k: nat)
    requires Run(key, ws, es) && i < k < |ws| && es[i].Commit? && es[i].write.SaveEntry?
    ensures es[i].write.path in ws[k].writtenAt
  {
    if k > i + 1 {
      SavedPathsStay(key, ws, es, i, k - 1);
    } else {
      assert ws[k] == Step(key, ws[i], es[i]);
    }
  }

  /** A run that resolves the class consistently, with a save of it at `i`. */
  ghost predicate SavesInClass(key: PathKey, K: set<string>, ws: seq<World>, es: seq<Event>, i: nat) {
    && Run(key, ws, es) && Initial(ws[0]) && SavesRespect(key, K, es) && LoadsRespect(K, es)
    && i < |es| && es[i].Commit? && es[i].write.SaveEntry? && key(es[i].write.path) in K
  }

  /** Consistent aliases keep a save alone in its class for as long as it is stored. */
  lemma SaveStaysAlone(key: PathKey, K: set<string>, ws: seq<World>, es: seq<Event>, i: nat, m: nat)
    requires SavesInClass(key, K, ws, es, i) && i < m < |es| && es[i].write.path in Contents(ws[m].stored)
    ensures Matching(Contents(ws[m].stored), key, K) == {es[i].write.path}
    ensures Alone(key, ws[m], es[m], es[i].write.path)
  {
    SavedPathsStay(key, ws, es, i, m);
    RunsKeepSoleSave(key, K, ws, es, m);
    RunsKeepScans(key, K, ws, es, m);
    assert es[i].write.path in Matching(Contents(ws[m].stored), key, K);
  }

  /** With consistent aliases a save that reads back outlives every load until a mutation covers its path. */
  lemma {:induction false} ReadableSaveSurvives(key: PathKey, K: set<string>, ws: seq<World>, es: seq<Event>, i: nat, k: nat, secret: string)
    requires SavesInClass(key, K, ws, es, i) && i < k <= |es|
    requires forall m :: i < m < k ==> !WritesOver(key, es[m], es[i].write.path)
    requires forall m :: i < m < k ==> ReadsAs(ws[m], es[m], es[i].write.path, es[i].write.encrypted, secret)
    ensures Lookup(Contents(ws[k].stored), es[i].write.path) == Some(es[i].write.encrypted)
  {
    forall m | i < m < k
      ensures Alone(key, ws[m], es[m], es[i].write.path)
    {
      ReadableSaveSurvives(key, K, ws, es, i, m, secret);
      SaveStaysAlone(key, K, ws, es, i, m);
    }
    LoneSaveSurvives(key, ws, es, i, k, secret);
  }

  /** With consistent aliases a load begun after such a save returns its secret, unless it throws. */
  lemma LoadAfterSaveReturnsIt(key: PathKey, K: set<string>, ws: seq<World>, es: seq<Event>, i: nat, j: nat, k: nat, l: nat, secret: string)
    requires SavesInClass(key, K, ws, es, i) && i < j < k <= |es| && LoadsClass(K, ws, es, j, l)
    requires forall m :: i < m < k ==> !WritesOver(key, es[m], es[i].write.path)
    requires forall m :: i < m < k ==> ReadsAs(ws[m], es[m], es[i].write.path, es[i].write.encrypted, secret)
    ensures l < |ws[k].loads|
    ensures ws[k].loads[l].phase.Returned? ==> ws[k].loads[l].phase.value == Some(secret)
  {
    forall m | i < m < k
      ensures Lookup(Contents(ws[m].stored), es[i].write.path) == Some(es[i].write.encrypted)
      ensures Matching(Contents(ws[m].stored), key, K) == {es[i].write.path}
    {
      ReadableSaveSurvives(key, K, ws, es, i, m, secret);
      SaveStaysAlone(key, K, ws, es, i, m);
    }
    LoadAfterLoneSaveReturnsIt(key, K, ws, es, i, j, k, l, secret);
  }
}
