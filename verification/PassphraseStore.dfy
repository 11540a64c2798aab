/**
 The remembered-passphrase record of application/defaultKeyPassphrases.ts: one
 stored map from key paths to ciphertexts, read whole, edited and written back.
 */
module PassphraseStore {
  import opened Prelude

  type Path = string
  type Cipher = string
  type Store = map<Path, Cipher>

  /** Maps a path to the key under which its spellings are compared. */
  type PathKey = string -> string

  function Contents(stored: Option<Store>): Store {
    if stored.Some? then stored.value else map[]
  }

  /** The stored paths that are spellings of one of the given keys. */
  function Matching(store: Store, key: PathKey, aliasKeys: set<string>): set<Path> {
    set p | p in store && key(p) in aliasKeys
  }

  /** Saving keeps one entry for the whole alias class, at the path given. */
  function AfterWrite(store: Store, key: PathKey, keyPath: Path, encrypted: Cipher, aliasKeys: set<string>): Store {
    (store - (Matching(store, key, aliasKeys) - {keyPath}))[keyPath := encrypted]
  }

  function AfterRemove(store: Store, key: PathKey, pathKeys: set<string>): Store {
    store - Matching(store, key, pathKeys)
  }

  /** Some spelling of the class was added, removed or given another ciphertext. */
  predicate EntriesChanged(previous: Store, latest: Store, key: PathKey, aliasKeys: set<string>) {
    exists p :: p in previous.Keys + latest.Keys && key(p) in aliasKeys && Lookup(previous, p) != Lookup(latest, p)
  }

  function PathSet(paths: seq<Path>): set<Path> {
    set p | p in paths
  }

  /** Clean-up once `kept` was decrypted: the other spellings go. */
  function AfterDuplicates(latest: Store, paths: seq<Path>, kept: Path): Store {
    latest - (PathSet(paths) - {kept})
  }

  /** Clean-up once nothing was readable: entries that still hold the unreadable value go. */
  function AfterInvalid(latest: Store, invalid: Store): Store {
    latest - (set p | p in invalid && Lookup(latest, p) == Some(invalid[p]))
  }

  class PassphraseRecord {
    const key: PathKey
    var stored: Option<Store>

    constructor (key: PathKey, stored: Option<Store>)
      ensures this.key == key && this.stored == stored
    {
      this.key, this.stored := key, stored;
    }

    method WriteUnlocked(keyPath: Path, encrypted: Cipher, aliasKeys: set<string>)
      modifies this
      ensures stored == Some(AfterWrite(Contents(old(stored)), key, keyPath, encrypted, aliasKeys))
      ensures Matching(stored.value, key, aliasKeys + {key(keyPath)}) >= {keyPath}
      ensures key(keyPath) in aliasKeys ==> Matching(stored.value, key, aliasKeys) == {keyPath}
      ensures forall p :: key(p) !in aliasKeys && p != keyPath ==> Lookup(stored.value, p) == Lookup(Contents(old(stored)), p)
    {
      ghost var before := Contents(stored);
      var store := Contents(stored);
      var rest := store.Keys;
      while rest != {}
        invariant rest <= before.Keys
        invariant store == before - (Matching(before, key, aliasKeys) - {keyPath} - rest)
      {
        var storedPath :| storedPath in rest;
        rest := rest - {storedPath};
        if storedPath != keyPath && key(storedPath) in aliasKeys {
          store := store - {storedPath};
        }
      }
      assert Matching(before, key, aliasKeys) - {keyPath} - rest == Matching(before, key, aliasKeys) - {keyPath};
      store := store[keyPath := encrypted];
      stored := Some(store);
    }

    method RemoveUnlocked(pathKeys: set<string>)
      modifies this
      ensures stored == if old(stored).None? then None else Some(AfterRemove(old(stored).value, key, pathKeys))
      ensures Matching(Contents(stored), key, pathKeys) == {}
      ensures forall p :: key(p) !in pathKeys ==> Lookup(Contents(stored), p) == Lookup(Contents(old(stored)), p)
    {
      if stored.None? {
        return;
      }
      var store, changed := stored.value, false;
      ghost var before := store;
      var rest := store.Keys;
      while rest != {}
        invariant rest <= before.Keys
        invariant store == before - (Matching(before, key, pathKeys) - rest)
        invariant !changed ==> store == before
      {
        var storedPath :| storedPath in rest;
        rest := rest - {storedPath};
        if key(storedPath) in pathKeys {
          store, changed := store - {storedPath}, true;
        }
      }
      assert Matching(before, key, pathKeys) - rest == Matching(before, key, pathKeys);
      if changed {
        stored := Some(store);
      }
    }

    /** The comparison a load makes between its snapshot and the record it finds afterwards. */
    method MatchingStoreEntriesChanged(previous: Store, aliasKeys: set<string>) returns (changed: bool)
      ensures changed <==> EntriesChanged(previous, Contents(stored), key, aliasKeys)
    {
      var latest := Contents(stored);
      var rest := previous.Keys + latest.Keys;
      while rest != {}
        invariant rest <= previous.Keys + latest.Keys
        invariant forall p :: p in previous.Keys + latest.Keys - rest && key(p) in aliasKeys ==> Lookup(previous, p) == Lookup(latest, p)
      {
        var path :| path in rest;
        rest := rest - {path};
        if key(path) in aliasKeys && Lookup(previous, path) != Lookup(latest, path) {
          return true;
        }
      }
      return false;
    }

    /** What a load does in one go after `kept` decrypted to something usable. */
    method FinishReadable(snapshot: Store, aliasKeys: set<string>, paths: seq<Path>, kept: Path) returns (retry: bool)
      modifies this
      ensures retry <==> EntriesChanged(snapshot, Contents(old(stored)), key, aliasKeys)
      ensures retry || old(stored).None? ==> stored == old(stored)
      ensures !retry && old(stored).Some? ==> stored == Some(AfterDuplicates(old(stored).value, paths, kept))
    {
      retry := MatchingStoreEntriesChanged(snapshot, aliasKeys);
      if retry || stored.None? {
        return;
      }
      var latest, changed, i := stored.value, false, 0;
      while i < |paths|
        invariant 0 <= i <= |paths|
        invariant latest == AfterDuplicates(old(stored).value, paths[..i], kept)
        invariant !changed ==> latest == old(stored).value
      {
        assert paths[..i + 1] == paths[..i] + [paths[i]];
        assert PathSet(paths[..i + 1]) == PathSet(paths[..i]) + {paths[i]};
        if paths[i] != kept && paths[i] in latest {
          latest, changed := latest - {paths[i]}, true;
        }
        i := i + 1;
      }
      assert paths[..i] == paths;
      if changed {
        stored := Some(latest);
      }
    }

    /** What a load does in one go after no entry decrypted to anything usable. */
    method FinishInvalid(snapshot: Store, aliasKeys: set<string>, invalid: Store) returns (retry: bool)
      modifies this
      ensures retry <==> EntriesChanged(snapshot, Contents(old(stored)), key, aliasKeys)
      ensures retry || old(stored).None? ==> stored == old(stored)
      ensures !retry && old(stored).Some? ==> stored == Some(AfterInvalid(old(stored).value, invalid))
    {
      retry := MatchingStoreEntriesChanged(snapshot, aliasKeys);
      if retry || stored.None? {
        return;
      }
      var latest, changed := stored.value, false;
      ghost var before := latest;
      var rest := invalid.Keys;
      while rest != {}
        invariant rest <= invalid.Keys
        invariant latest == AfterInvalid(before, invalid - rest)
        invariant !changed ==> latest == before
      {
        var storedPath :| storedPath in rest;
        rest := rest - {storedPath};
        if Lookup(latest, storedPath) == Some(invalid[storedPath]) {
          latest, changed := latest - {storedPath}, true;
        }
      }
      assert invalid - rest == invalid;
      if changed {
        stored := Some(latest);
      }
    }
  }
}
