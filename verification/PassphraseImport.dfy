/**
 Remembering an imported key passphrase and deleting a vault key
 (application/defaultKeyPassphrases.ts): one queued mutation that reads the
 vault's reference keys and the passphrase record, and may only write when
 neither holds a different passphrase. Between its awaits the vault's keys can
 be edited and loads can clean entries up; other mutations wait in the queue.
 */
module PassphraseImport {
  import opened Prelude
  import opened PassphraseStore
  import opened PassphraseAliases

  datatype SshKey = SshKey(
    id: string,
    isReference: bool,
    filePath: Option<Path>,
    passphrase: Option<string>,
    savePassphrase: Option<bool>)

  /** What the fingerprint records of a reference key. */
  datatype Record = Record(id: string, filePath: Option<Path>, passphrase: Option<string>, savePassphrase: Option<bool>)

  ghost predicate PermutesRecords(f: seq<Record> -> seq<Record>) {
    forall s :: multiset(f(s)) == multiset(s)
  }

  /** Sorting the records by id. */
  type RecordOrder = f: seq<Record> -> seq<Record> | PermutesRecords(f) witness (s: seq<Record>) => s

  /**
   What is fixed during one import. The path's aliases are resolved anew for the
   write, for the key scan and for every verification read; a home lookup that
   fails in between makes the sets differ.
   */
  datatype Import = Import(
    key: PathKey,
    writeKeys: set<string>,   // the aliases resolved for the fingerprint and the write
    scanKeys: set<string>,    // those resolved again for scanning the vault's keys
    keyPath: Path,
    passphrase: string,
    crypto: Crypto,
    order: RecordOrder)

  datatype Verdict = Saved | Conflict | Unreadable

  datatype Phase =
    | Waiting(first: seq<SshKey>, attempt: nat)
    | Comparing(first: seq<SshKey>, attempt: nat, snapshot: Store, readKeys: set<string>)
    | Encrypting(first: seq<SshKey>, readKeys: set<string>)
    | Finished(verdict: Verdict)

  datatype World = World(stored: Option<Store>, keys: seq<SshKey>, phase: Phase)

  datatype Event =
    | TakeSnapshot(readKeys: set<string>)
    | Compare
    | Write(encrypted: Cipher)
    | KeysEdited(keys: seq<SshKey>)   // elsewhere in the app
    | CleanedUp(gone: set<Path>)      // by a load

  predicate Enabled(w: World, e: Event) {
    match e
    case TakeSnapshot(_) => w.phase.Waiting?
    case Compare => w.phase.Comparing?
    case Write(_) => w.phase.Encrypting?
    case KeysEdited(_) => true
    case CleanedUp(_) => true
  }

  predicate Refers(key: PathKey, aliasKeys: set<string>, k: SshKey) {
    k.isReference && k.filePath.Some? && k.filePath.value != "" && key(k.filePath.value) in aliasKeys
  }

  predicate HasPassphrase(k: SshKey) {
    k.passphrase.Some? && k.passphrase.value != ""
  }

  function Records(im: Import, keys: seq<SshKey>): seq<Record> {
    if keys == [] then []
    else
      var k := keys[0];
      (if Refers(im.key, im.writeKeys, k) then [Record(k.id, k.filePath, k.passphrase, k.savePassphrase)] else [])
      + Records(im, keys[1..])
  }

  function Fingerprint(im: Import, keys: seq<SshKey>): seq<Record> {
    im.order(Records(im, keys))
  }

  /** Something held for the classes that were read cannot be read. */
  predicate AnyUnreadable(im: Import, readKeys: set<string>, keys: seq<SshKey>, store: Store) {
    || (exists p :: p in Matching(store, im.key, readKeys) && Usable(im.crypto, store[p]).None?)
    || (exists k :: k in keys && Refers(im.key, im.scanKeys, k) && HasPassphrase(k) && im.crypto.isPlaceholder(k.passphrase.value))
  }

  /** Something readable held for them is another passphrase. */
  predicate AnyDifferent(im: Import, readKeys: set<string>, keys: seq<SshKey>, store: Store) {
    || (exists p :: p in Matching(store, im.key, readKeys) && Usable(im.crypto, store[p]) !in {None, Some(im.passphrase)})
    || (exists k :: k in keys && Refers(im.key, im.scanKeys, k) && HasPassphrase(k)
                    && !im.crypto.isPlaceholder(k.passphrase.value) && k.passphrase.value != im.passphrase)
  }

  function Judged(im: Import, readKeys: set<string>, first: seq<SshKey>, store: Store): Phase {
    if AnyUnreadable(im, readKeys, first, store) then Finished(Unreadable)
    else if AnyDifferent(im, readKeys, first, store) then Finished(Conflict)
    else Encrypting(first, readKeys)
  }

  function Remembered(im: Import, keys: seq<SshKey>): (r: seq<SshKey>)
    ensures |r| == |keys|
    ensures forall i :: 0 <= i < |keys| ==>
      r[i] == if Refers(im.key, im.writeKeys, keys[i])
              then keys[i].(passphrase := Some(im.passphrase), savePassphrase := Some(true)) else keys[i]
  {
    seq(|keys|, i requires 0 <= i < |keys| =>
      if Refers(im.key, im.writeKeys, keys[i]) then keys[i].(passphrase := Some(im.passphrase), savePassphrase := Some(true)) else keys[i])
  }

  function Step(im: Import, w: World, e: Event): World
    requires Enabled(w, e)
  {
    match e
    case TakeSnapshot(readKeys) =>
      if Matching(Contents(w.stored), im.key, readKeys) == {} then w.(phase := Judged(im, readKeys, w.phase.first, map[]))
      else w.(phase := Comparing(w.phase.first, w.phase.attempt, Contents(w.stored), readKeys))
    case Compare =>
      if !EntriesChanged(w.phase.snapshot, Contents(w.stored), im.key, w.phase.readKeys) then
        w.(phase := Judged(im, w.phase.readKeys, w.phase.first, w.phase.snapshot))
      else w.(phase := if w.phase.attempt < 2 then Waiting(w.phase.first, w.phase.attempt + 1) else Finished(Unreadable))
    case Write(encrypted) =>
      if Fingerprint(im, w.keys) != Fingerprint(im, w.phase.first) then w.(phase := Finished(Conflict))
      else World(Some(AfterWrite(Contents(w.stored), im.key, im.keyPath, encrypted, im.writeKeys)),
                 Remembered(im, w.keys), Finished(Saved))
    case KeysEdited(keys) => w.(keys := keys)
    case CleanedUp(gone) => w.(stored := if w.stored.None? then None else Some(w.stored.value - gone))
  }

  ghost predicate Run(im: Import, ws: seq<World>, es: seq<Event>) {
    && |ws| == |es| + 1
    && ws[0].phase == Waiting(ws[0].keys, 0)
    && forall i :: 0 <= i < |es| ==> Enabled(ws[i], es[i]) && ws[i + 1] == Step(im, ws[i], es[i])
  }

  /** Every stored spelling of a class decrypts to the imported passphrase. */
  ghost predicate StoreAgrees(im: Import, aliasKeys: set<string>, store: Store) {
    forall p :: p in Matching(store, im.key, aliasKeys) ==> Usable(im.crypto, store[p]) == Some(im.passphrase)
  }

  predicate KeyAgrees(im: Import, k: SshKey) {
    HasPassphrase(k) ==> k.passphrase.value == im.passphrase
  }

  /** Every reference key of a class that has a passphrase has the imported one. */
  ghost predicate KeysAgree(im: Import, aliasKeys: set<string>, keys: seq<SshKey>) {
    forall k :: k in keys && Refers(im.key, aliasKeys, k) ==> KeyAgrees(im, k)
  }

  ghost predicate Inv(im: Import, w: World) {
    w.phase.Encrypting? ==> StoreAgrees(im, w.phase.readKeys, Contents(w.stored)) && KeysAgree(im, im.scanKeys, w.phase.first)
  }

  lemma JudgedAgrees(im: Import, readKeys: set<string>, first: seq<SshKey>, store: Store)
    requires Judged(im, readKeys, first, store).Encrypting?
    ensures StoreAgrees(im, readKeys, store) && KeysAgree(im, im.scanKeys, first)
  {
    forall p | p in Matching(store, im.key, readKeys)
      ensures Usable(im.crypto, store[p]) == Some(im.passphrase)
    {
      assert Usable(im.crypto, store[p]) in {None, Some(im.passphrase)};
    }
  }

  lemma UnchangedAgrees(im: Import, readKeys: set<string>, snapshot: Store, latest: Store)
    requires !EntriesChanged(snapshot, latest, im.key, readKeys) && StoreAgrees(im, readKeys, snapshot)
    ensures StoreAgrees(im, readKeys, latest)
  {
    forall p | p in Matching(latest, im.key, readKeys)
      ensures Usable(im.crypto, latest[p]) == Some(im.passphrase)
    {
      assert p in snapshot.Keys + latest.Keys;
      assert p in Matching(snapshot, im.key, readKeys);
    }
  }

  lemma StepKeepsInv(im: Import, w: World, e: Event)
    requires Inv(im, w) && Enabled(w, e)
    ensures Inv(im, Step(im, w, e))
  {
    var after := Step(im, w, e);
    match e
    case TakeSnapshot(readKeys) =>
      if after.phase.Encrypting? {
        JudgedAgrees(im, readKeys, w.phase.first, map[]);
      }
    case Compare =>
      if after.phase.Encrypting? {
        JudgedAgrees(im, w.phase.readKeys, w.phase.first, w.phase.snapshot);
        UnchangedAgrees(im, w.phase.readKeys, w.phase.snapshot, Contents(w.stored));
      }
    case CleanedUp(gone) =>
      assert forall p :: p in Contents(after.stored) ==> p in Contents(w.stored) && Contents(after.stored)[p] == Contents(w.stored)[p];
    case _ =>
  }

  lemma {:induction false} RunsKeepInv(im: Import, ws: seq<World>, es: seq<Event>, k: nat)
    requires Run(im, ws, es) && k < |ws|
    ensures Inv(im, ws[k])
  {
    if k > 0 {
      RunsKeepInv(im, ws, es, k - 1);
      StepKeepsInv(im, ws[k - 1], es[k - 1]);
    }
  }

  lemma {:induction false} RecordedIff(im: Import, keys: seq<SshKey>, r: Record)
    ensures r in Records(im, keys) <==> exists k :: k in keys && Refers(im.key, im.writeKeys, k)
                                                    && r == Record(k.id, k.filePath, k.passphrase, k.savePassphrase)
  {
    if keys != [] {
      RecordedIff(im, keys[1..], r);
      assert keys == [keys[0]] + keys[1..];
    }
  }

  lemma SameMembers(a: seq<Record>, b: seq<Record>, r: Record)
    requires multiset(a) == multiset(b)
    ensures r in a <==> r in b
  {
    assert r in a <==> r in multiset(a);
    assert r in b <==> r in multiset(b);
  }

  /** Equal fingerprints: keys the scan covered when the import began still agree. */
  lemma FingerprintGuards(im: Import, first: seq<SshKey>, latest: seq<SshKey>)
    requires Fingerprint(im, latest) == Fingerprint(im, first) && KeysAgree(im, im.scanKeys, first)
    ensures forall k :: k in latest && Refers(im.key, im.writeKeys, k) && Refers(im.key, im.scanKeys, k) ==> KeyAgrees(im, k)
  {
    assert multiset(Records(im, latest)) == multiset(Fingerprint(im, latest)) == multiset(Records(im, first));
    forall k | k in latest && Refers(im.key, im.writeKeys, k) && Refers(im.key, im.scanKeys, k)
      ensures KeyAgrees(im, k)
    {
      var r := Record(k.id, k.filePath, k.passphrase, k.savePassphrase);
      RecordedIff(im, latest, r);
      SameMembers(Records(im, latest), Records(im, first), r);
      RecordedIff(im, first, r);
    }
  }

  /**
   Whatever happens between its awaits, an import that saves overwrites another
   stored passphrase exactly at a spelling its last read did not cover, and one
   of a vault key exactly at a key its scan did not cover.
   */
  lemma ImportOverwritesIff(im: Import, ws: seq<World>, es: seq<Event>, k: nat)
    requires Run(im, ws, es) && k < |es| && es[k].Write? && ws[k + 1].phase == Finished(Saved)
    ensures StoreAgrees(im, im.writeKeys, Contents(ws[k].stored))
        <==> StoreAgrees(im, im.writeKeys - ws[k].phase.readKeys, Contents(ws[k].stored))
    ensures KeysAgree(im, im.writeKeys, ws[k].keys) <==> KeysAgree(im, im.writeKeys - im.scanKeys, ws[k].keys)
  {
    RunsKeepInv(im, ws, es, k);
    FingerprintGuards(im, ws[k].phase.first, ws[k].keys);
    var store, unread := Contents(ws[k].stored), im.writeKeys - ws[k].phase.readKeys;
    assert forall p :: p in Matching(store, im.key, im.writeKeys) ==>
      p in Matching(store, im.key, unread) || p in Matching(store, im.key, ws[k].phase.readKeys);
  }

  /** An import whose reads covered what it writes over overwrites no other passphrase. */
  lemma CoveredImportOverwritesNoOther(im: Import, ws: seq<World>, es: seq<Event>, k: nat)
    requires Run(im, ws, es) && k < |es| && es[k].Write? && ws[k + 1].phase == Finished(Saved)
    requires im.writeKeys <= ws[k].phase.readKeys && im.writeKeys <= im.scanKeys
    ensures StoreAgrees(im, im.writeKeys, Contents(ws[k].stored)) && KeysAgree(im, im.writeKeys, ws[k].keys)
  {
    ImportOverwritesIff(im, ws, es, k);
    assert im.writeKeys - ws[k].phase.readKeys == {} && im.writeKeys - im.scanKeys == {};
  }

  /** Any spelling the write covers and the read does not can lose another passphrase. */
  lemma PartialReadDropsPassphrase(im: Import, readKeys: set<string>, lost: Path, other: Cipher, encrypted: Cipher)
    returns (ws: seq<World>, es: seq<Event>)
    requires im.key(lost) in im.writeKeys && im.key(lost) !in readKeys && lost != im.keyPath
    requires Usable(im.crypto, other).Some? && Usable(im.crypto, other) != Some(im.passphrase)
    ensures Run(im, ws, es) && es == [TakeSnapshot(readKeys), Write(encrypted)] && ws[2].phase == Finished(Saved)
    ensures Contents(ws[0].stored) == map[lost := other] && lost !in Contents(ws[2].stored)
  {
    var store: Store := map[lost := other];
    var w0 := World(Some(store), [], Waiting([], 0));
    assert Matching(store, im.key, readKeys) == {} && Matching(map[], im.key, readKeys) == {};
    var w1 := w0.(phase := Encrypting([], readKeys));
    assert Step(im, w0, TakeSnapshot(readKeys)) == w1;
    assert lost in Matching(store, im.key, im.writeKeys);
    ws, es := [w0, w1, Step(im, w1, Write(encrypted))], [TakeSnapshot(readKeys), Write(encrypted)];
  }

  /** Any reference key the write covers and the scan does not can have its passphrase replaced. */
  lemma PartialScanReplacesPassphrase(im: Import, id: string, path: Path, other: string, encrypted: Cipher)
    returns (ws: seq<World>, es: seq<Event>)
    requires path != "" && im.key(path) in im.writeKeys && im.key(path) !in im.scanKeys
    requires other != "" && other != im.passphrase
    ensures var k := SshKey(id, true, Some(path), Some(other), Some(true));
      && Run(im, ws, es) && es == [TakeSnapshot({}), Write(encrypted)] && ws[2].phase == Finished(Saved)
      && ws[0].keys == [k] && ws[2].keys == [k.(passphrase := Some(im.passphrase))]
  {
    var k := SshKey(id, true, Some(path), Some(other), Some(true));
    var w0 := World(None, [k], Waiting([k], 0));
    var w1 := w0.(phase := Encrypting([k], {}));
    assert !Refers(im.key, im.scanKeys, k) && Refers(im.key, im.writeKeys, k);
    assert Step(im, w0, TakeSnapshot({})) == w1;
    ws, es := [w0, w1, Step(im, w1, Write(encrypted))], [TakeSnapshot({}), Write(encrypted)];
  }

  /** An import that refuses has changed nothing itself, at any of its steps. */
  lemma RefusedImportWritesNothing(im: Import, w: World, e: Event)
    requires Enabled(w, e) && (e.TakeSnapshot? || e.Compare? || e.Write?)
    requires Step(im, w, e).phase != Finished(Saved)
    ensures Step(im, w, e).stored == w.stored && Step(im, w, e).keys == w.keys
  {
  }

  predicate Imports(passphrase: string, crypto: Crypto) {
    passphrase != "" && !crypto.isPlaceholder(passphrase)
  }

  /** A verdict does not depend on what is already the imported passphrase. */
  lemma JudgedAfterSave(im: Import, keys: seq<SshKey>, store: Store, other: string)
    requires Imports(im.passphrase, im.crypto) && other != im.passphrase
    requires StoreAgrees(im, im.scanKeys, store) && Matching(store, im.key, im.scanKeys) != {}
    requires forall k :: k in keys && Refers(im.key, im.scanKeys, k) ==> k.passphrase == Some(im.passphrase)
    ensures Judged(im, im.scanKeys, keys, store) == Encrypting(keys, im.scanKeys)
    ensures Judged(im.(passphrase := other), im.scanKeys, keys, store) == Finished(Conflict)
  {
    var p :| p in Matching(store, im.key, im.scanKeys);
    var again := im.(passphrase := other);
    assert Usable(again.crypto, store[p]) !in {None, Some(again.passphrase)};
  }

  /**
   After a save the class has one entry, at the imported path, and every
   reference key of it carries the passphrase. A second import that resolves the
   same class is accepted with the same passphrase and a conflict with any other.
   */
  lemma SavedImportIsRemembered(im: Import, w: World, encrypted: Cipher, other: string)
    requires w.phase.Encrypting? && Step(im, w, Write(encrypted)).phase == Finished(Saved)
    requires im.key(im.keyPath) in im.writeKeys && Imports(im.passphrase, im.crypto)
    requires im.crypto.decrypt(encrypted) == Some(im.passphrase) && other != im.passphrase
    ensures var after := Step(im, w, Write(encrypted));
      var again := im.(scanKeys := im.writeKeys);
      && Matching(after.stored.value, im.key, im.writeKeys) == {im.keyPath}
      && (forall p :: im.key(p) !in im.writeKeys ==> Lookup(after.stored.value, p) == Lookup(Contents(w.stored), p))
      && Judged(again, im.writeKeys, after.keys, after.stored.value) == Encrypting(after.keys, im.writeKeys)
      && Judged(again.(passphrase := other), im.writeKeys, after.keys, after.stored.value) == Finished(Conflict)
  {
    var after := Step(im, w, Write(encrypted));
    WriteLeavesOne(Contents(w.stored), im.key, im.keyPath, encrypted, im.writeKeys);
    JudgedAfterSave(im.(scanKeys := im.writeKeys), after.keys, after.stored.value, other);
  }

  // Deleting a key.

  /** What deleting a key leaves of the record, given the keys found when its queued clean-up runs. */
  function AfterDelete(store: Store, key: PathKey, deleted: SshKey, aliasKeys: set<string>, keysNow: seq<SshKey>): Store {
    if !deleted.isReference || deleted.filePath.None? || deleted.filePath.value == "" then store
    else if exists k :: k in keysNow && Refers(key, aliasKeys, k) then store
    else AfterRemove(store, key, aliasKeys)
  }

  /** Under the home, the paths of two keys have a spelling in common. */
  ghost predicate SharePassphrase(lower: string -> string, home: string, a: SshKey, b: SshKey) {
    && a.isReference && b.isReference && a.filePath.Some? && b.filePath.Some? && b.filePath.value != ""
    && AliasKeys(lower, Some(home), a.filePath.value) * AliasKeys(lower, Some(home), b.filePath.value) != {}
  }

  /**
   Deleting a reference key forgets its passphrase, under every spelling,
   exactly when no remaining reference key shares a spelling with it. The code
   compares only the remaining keys' own paths with the deleted key's aliases.
   */
  lemma DeleteForgetsIff(lower: string -> string, home: string, key: PathKey, store: Store, deleted: SshKey, keysNow: seq<SshKey>, p: Path)
    requires IsPosixHome(home) && (forall s :: key(s) == DefaultKeyPassphrasePathKey(lower, s))
    requires deleted.isReference && deleted.filePath.Some? && deleted.filePath.value != "" && !IsWindowsShaped(deleted.filePath.value)
    requires forall k :: k in keysNow && k.filePath.Some? ==> !IsWindowsShaped(k.filePath.value)
    requires p in store
    ensures var aliasKeys := AliasKeys(lower, Some(home), deleted.filePath.value);
      p !in AfterDelete(store, key, deleted, aliasKeys, keysNow)
      <==> key(p) in aliasKeys && forall k :: k in keysNow ==> !SharePassphrase(lower, home, deleted, k)
  {
    var aliasKeys := AliasKeys(lower, Some(home), deleted.filePath.value);
    forall k | k in keysNow && k.filePath.Some?
      ensures Refers(key, aliasKeys, k) <==> SharePassphrase(lower, home, deleted, k)
    {
      AliasClasses(lower, home, deleted.filePath.value, k.filePath.value);
    }
  }

  class VaultKeys {
    const im: Import
    const record: PassphraseRecord
    var keys: seq<SshKey>
    var phase: Phase

    ghost function View(): World
      reads this, record
    {
      World(record.stored, keys, phase)
    }

    constructor (im: Import, record: PassphraseRecord, keys: seq<SshKey>)
      requires record.key == im.key
      ensures View() == World(record.stored, keys, Waiting(keys, 0))
      ensures this.im == im && this.record == record && Inv(im, View())
    {
      this.im, this.record, this.keys := im, record, keys;
      phase := Waiting(keys, 0);
    }

    /** readRememberedKeyPassphrases and the two tests on its result. */
    method Judge(readKeys: set<string>, first: seq<SshKey>, store: Store) returns (next: Phase)
      ensures next == Judged(im, readKeys, first, store)
    {
      var unreadable, different := false, false;
      var rest := Matching(store, im.key, readKeys);
      while rest != {}
        invariant rest <= Matching(store, im.key, readKeys)
        invariant unreadable <==> exists p :: p in Matching(store, im.key, readKeys) - rest && Usable(im.crypto, store[p]).None?
        invariant different <==> exists p :: p in Matching(store, im.key, readKeys) - rest
                                             && Usable(im.crypto, store[p]) !in {None, Some(im.passphrase)}
      {
        var storedPath :| storedPath in rest;
        rest := rest - {storedPath};
        var plain := Usable(im.crypto, store[storedPath]);
        unreadable := unreadable || plain.None?;
        different := different || (plain.Some? && plain.value != im.passphrase);
      }
      assert Matching(store, im.key, readKeys) - rest == Matching(store, im.key, readKeys);
      var keyUnreadable, keyDifferent := ScanKeys(first);
      if unreadable || keyUnreadable {
        return Finished(Unreadable);
      }
      next := if different || keyDifferent then Finished(Conflict) else Encrypting(first, readKeys);
    }

    method ScanKeys(first: seq<SshKey>) returns (unreadable: bool, different: bool)
      ensures unreadable <==> exists k :: k in first && Refers(im.key, im.scanKeys, k) && HasPassphrase(k)
                                          && im.crypto.isPlaceholder(k.passphrase.value)
      ensures different <==> exists k :: k in first && Refers(im.key, im.scanKeys, k) && HasPassphrase(k)
                                         && !im.crypto.isPlaceholder(k.passphrase.value) && k.passphrase.value != im.passphrase
    {
      unreadable, different := false, false;
      var i := 0;
      while i < |first|
        invariant 0 <= i <= |first|
        invariant unreadable <==> exists j :: 0 <= j < i && Refers(im.key, im.scanKeys, first[j]) && HasPassphrase(first[j])
                                              && im.crypto.isPlaceholder(first[j].passphrase.value)
        invariant different <==> exists j :: 0 <= j < i && Refers(im.key, im.scanKeys, first[j]) && HasPassphrase(first[j])
                                             && !im.crypto.isPlaceholder(first[j].passphrase.value)
                                             && first[j].passphrase.value != im.passphrase
      {
        var k := first[i];
        if Refers(im.key, im.scanKeys, k) && HasPassphrase(k) {
          if im.crypto.isPlaceholder(k.passphrase.value) {
            unreadable := true;
          } else {
            different := different || k.passphrase.value != im.passphrase;
          }
        }
        i := i + 1;
      }
    }

    method Snapshot(readKeys: set<string>)
      requires phase.Waiting? && Inv(im, View())
      modifies this
      ensures View() == Step(im, old(View()), TakeSnapshot(readKeys)) && Inv(im, View())
    {
      StepKeepsInv(im, View(), TakeSnapshot(readKeys));
      var store := Contents(record.stored);
      if Matching(store, im.key, readKeys) == {} {
        phase := Judge(readKeys, phase.first, map[]);
      } else {
        phase := Comparing(phase.first, phase.attempt, store, readKeys);
      }
    }

    method CompareEntries()
      requires phase.Comparing? && record.key == im.key && Inv(im, View())
      modifies this
      ensures View() == Step(im, old(View()), Compare) && Inv(im, View())
    {
      StepKeepsInv(im, View(), Compare);
      var changed := record.MatchingStoreEntriesChanged(phase.snapshot, phase.readKeys);
      if !changed {
        phase := Judge(phase.readKeys, phase.first, phase.snapshot);
      } else if phase.attempt < 2 {
        phase := Waiting(phase.first, phase.attempt + 1);
      } else {
        phase := Finished(Unreadable);
      }
    }

    method SaveIfUnchanged(encrypted: Cipher)
      requires phase.Encrypting? && record.key == im.key && Inv(im, View())
      modifies this, record
      ensures View() == Step(im, old(View()), Write(encrypted))
      ensures phase == Finished(Saved) ==> old(StoreAgrees(im, phase.readKeys, Contents(record.stored)))
      ensures phase == Finished(Saved) ==>
        forall k :: k in old(keys) && Refers(im.key, im.writeKeys, k) && Refers(im.key, im.scanKeys, k) ==> KeyAgrees(im, k)
    {
      if Fingerprint(im, keys) != Fingerprint(im, phase.first) {
        phase := Finished(Conflict);
        return;
      }
      FingerprintGuards(im, phase.first, keys);
      record.WriteUnlocked(im.keyPath, encrypted, im.writeKeys);
      var updated, i := keys, 0;
      while i < |keys|
        invariant 0 <= i <= |keys| == |updated| && keys == old(keys)
        invariant forall j :: 0 <= j < |keys| ==> updated[j] == if j < i then Remembered(im, keys)[j] else keys[j]
      {
        if Refers(im.key, im.writeKeys, keys[i]) {
          updated := updated[i := keys[i].(passphrase := Some(im.passphrase), savePassphrase := Some(true))];
        }
        i := i + 1;
      }
      keys := updated;
      phase := Finished(Saved);
    }
  }
}
