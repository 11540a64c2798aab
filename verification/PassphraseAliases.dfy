/**
 Which spellings of a key path share one remembered passphrase, and what that
 means for saving under one spelling and loading under another.
 */
module PassphraseAliases {
  import opened Prelude
  import opened PassphraseStore
  import opened PassphraseProtocol

  predicate IsLetter(c: char) {
    'A' <= c <= 'Z' || 'a' <= c <= 'z'
  }

  predicate IsSeparator(c: char) {
    c == '/' || c == '\\'
  }

  predicate HasDrive(p: string) {
    |p| >= 3 && IsLetter(p[0]) && p[1] == ':' && IsSeparator(p[2])
  }

  predicate IsWindowsShaped(p: string) {
    HasDrive(p) || (|p| >= 2 && IsSeparator(p[0]) && IsSeparator(p[1]))
  }

  function Replace(s: string, from: char, to: char): (r: string)
    ensures |r| == |s|
    ensures forall i :: 0 <= i < |s| ==> r[i] == if s[i] == from then to else s[i]
  {
    seq(|s|, i requires 0 <= i < |s| => if s[i] == from then to else s[i])
  }

  /** The key under which spellings are compared; `lower` is the lower-casing of Windows paths. */
  function DefaultKeyPassphrasePathKey(lower: string -> string, p: string): string {
    if IsWindowsShaped(p) then lower(Replace(p, '\\', '/')) else p
  }

  function StripOneSlash(s: string): string {
    if s != "" && s[|s| - 1] == '/' then s[..|s| - 1] else s
  }

  function StripSeparators(s: string): string {
    if s != "" && IsSeparator(s[|s| - 1]) then StripSeparators(s[..|s| - 1]) else s
  }

  function Drop(s: string, n: nat): string {
    if n <= |s| then s[n..] else ""
  }

  /** The spellings of a path, given the home directory the bridge reports, if any. */
  function ResolveDefaultKeyPassphraseAliases(lower: string -> string, home: Option<string>, keyPath: string): set<string> {
    var windows := HasDrive(keyPath) || "\\\\" <= keyPath;
    var normalized := if windows then Replace(keyPath, '\\', '/') else keyPath;
    var plain := {keyPath, normalized};
    if home.None? || home.value == "" then plain
    else
      var normalizedHome := StripOneSlash(Replace(home.value, '\\', '/'));
      var comparableHome := DefaultKeyPassphrasePathKey(lower, normalizedHome);
      var comparablePath := DefaultKeyPassphrasePathKey(lower, normalized);
      if comparableHome + "/" <= comparablePath then
        plain + {"~/" + Drop(normalized, |normalizedHome| + 1)}
      else if "~/" <= normalized then
        var suffix := normalized[2..];
        var separator := if '\\' in home.value then '\\' else '/';
        plain + {normalizedHome + "/" + suffix,
                 StripSeparators(home.value) + [separator] + Replace(suffix, '/', separator)}
      else plain
  }

  function AliasKeys(lower: string -> string, home: Option<string>, keyPath: string): set<string> {
    set a | a in ResolveDefaultKeyPassphraseAliases(lower, home, keyPath) :: DefaultKeyPassphrasePathKey(lower, a)
  }

  /** An absolute POSIX home other than the root, spelled without a trailing slash. */
  predicate IsPosixHome(home: string) {
    |home| >= 2 && home[0] == '/' && home[1] != '/' && home[|home| - 1] != '/' && '\\' !in home
  }

  /** The other spelling of a path under a POSIX home, if it has one. */
  function OtherSpelling(home: string, p: string): Option<string> {
    if home + "/" <= p then Some("~/" + p[|home| + 1..])
    else if "~/" <= p then Some(home + "/" + p[2..])
    else None
  }

  function Spellings(home: string, p: string): (ps: set<string>)
    ensures p in ps
    ensures OtherSpelling(home, p).Some? ==> ps == {p, OtherSpelling(home, p).value}
  {
    {p} + if OtherSpelling(home, p).Some? then {OtherSpelling(home, p).value} else {}
  }

  /** Under a POSIX home the comparison keys of a path's aliases are its spellings themselves. */
  lemma PosixAliases(lower: string -> string, home: string, p: string)
    requires IsPosixHome(home) && !IsWindowsShaped(p)
    ensures AliasKeys(lower, Some(home), p) == Spellings(home, p)
    ensures forall q :: q in Spellings(home, p) ==> !IsWindowsShaped(q)
  {
    assert Replace(home, '\\', '/') == home;
    assert StripOneSlash(home) == home && StripSeparators(home) == home;
    assert !IsWindowsShaped(home);
    assert !("\\\\" <= p);
    if home + "/" <= p {
      assert Drop(p, |home| + 1) == p[|home| + 1..];
    } else if "~/" <= p {
      assert Replace(p[2..], '/', '/') == p[2..];
      var other := home + "/" + p[2..];
      assert home + ['/'] + p[2..] == other;
      assert other[0] == home[0] && other[1] == home[1];
    }
  }

  lemma OtherSpellingInvolutive(home: string, p: string)
    requires IsPosixHome(home) && OtherSpelling(home, p).Some?
    ensures OtherSpelling(home, OtherSpelling(home, p).value) == Some(p)
  {
    var q := OtherSpelling(home, p).value;
    if home + "/" <= p {
      assert q[0] == '~' && (home + "/")[0] == '/';
      assert q[2..] == p[|home| + 1..];
      assert p == home + "/" + p[|home| + 1..];
    } else {
      assert q[|home| + 1..] == p[2..];
      assert p == "~/" + p[2..];
      assert home + "/" <= q;
    }
  }

  lemma SpellingsShared(home: string, p: string, x: string)
    requires IsPosixHome(home) && x in Spellings(home, p)
    ensures Spellings(home, x) == Spellings(home, p)
  {
    if x != p {
      OtherSpellingInvolutive(home, p);
    }
  }

  lemma SpellingsAtMostTwo(home: string, p: string)
    ensures |Spellings(home, p)| <= 2
  {
    if OtherSpelling(home, p).Some? && OtherSpelling(home, p).value != p {
      assert |{p, OtherSpelling(home, p).value}| == 2;
    } else {
      assert Spellings(home, p) == {p};
    }
  }

  /**
   Sharing an alias is an equivalence: two paths have a spelling in common
   exactly when each is a spelling of the other, and then their classes are
   equal. A class has at most two members.
   */
  lemma AliasClasses(lower: string -> string, home: string, p: string, q: string)
    requires IsPosixHome(home) && !IsWindowsShaped(p) && !IsWindowsShaped(q)
    ensures |AliasKeys(lower, Some(home), p)| <= 2 && p in AliasKeys(lower, Some(home), p)
    ensures AliasKeys(lower, Some(home), p) * AliasKeys(lower, Some(home), q) != {}
       <==> AliasKeys(lower, Some(home), p) == AliasKeys(lower, Some(home), q)
    ensures q in AliasKeys(lower, Some(home), p)
       <==> AliasKeys(lower, Some(home), p) == AliasKeys(lower, Some(home), q)
  {
    PosixAliases(lower, home, p);
    PosixAliases(lower, home, q);
    SpellingsAtMostTwo(home, p);
    SpellingClasses(home, p, q);
  }

  lemma SpellingClasses(home: string, p: string, q: string)
    requires IsPosixHome(home)
    ensures Spellings(home, p) * Spellings(home, q) != {} <==> Spellings(home, p) == Spellings(home, q)
    ensures q in Spellings(home, p) <==> Spellings(home, p) == Spellings(home, q)
  {
    var a, b := Spellings(home, p), Spellings(home, q);
    if a * b != {} {
      var x :| x in a * b;
      SpellingsShared(home, p, x);
      SpellingsShared(home, q, x);
    }
    if a == b {
      assert p in a * b;
    }
    if q in a {
      SpellingsShared(home, p, q);
    }
  }

  /** The outside world of one save or load: encryption and the ciphertext test. */
  datatype Crypto = Crypto(encrypt: string -> Option<string>, decrypt: string -> Option<string>, isPlaceholder: string -> bool)

  function Encrypted(crypto: Crypto, passphrase: string): Cipher {
    if crypto.encrypt(passphrase).Some? then crypto.encrypt(passphrase).value else passphrase
  }

  function Usable(crypto: Crypto, cipher: Cipher): Option<string> {
    var plain := crypto.decrypt(cipher);
    if plain.Some? && plain.value != "" && !crypto.isPlaceholder(plain.value) then plain else None
  }

  /** The first stored spelling that decrypts to something usable. */
  function FirstUsable(crypto: Crypto, store: Store, paths: seq<Path>): (i: nat)
    requires forall p :: p in paths ==> p in store
    ensures i <= |paths|
    ensures forall j :: 0 <= j < i ==> Usable(crypto, store[paths[j]]).None?
    ensures i < |paths| ==> Usable(crypto, store[paths[i]]).Some?
  {
    if paths == [] || Usable(crypto, store[paths[0]]).Some? then 0
    else 1 + FirstUsable(crypto, store, paths[1..])
  }

  /** What a load that nothing disturbs returns. */
  function LoadedValue(crypto: Crypto, store: Store, order: seq<Path>, keyPath: Path, key: PathKey, aliasKeys: set<string>): Option<string>
    requires forall p :: p in order ==> p in store
  {
    var paths := PathsToTry(order, keyPath, key, aliasKeys);
    var i := FirstUsable(crypto, store, paths);
    if i < |paths| then Usable(crypto, store[paths[i]]) else None
  }

  lemma LoneEntryLoads(crypto: Crypto, store: Store, order: seq<Path>, keyPath: Path, key: PathKey, aliasKeys: set<string>, p: Path)
    requires Enumerates(order, store)
    requires Matching(store, key, aliasKeys) == {p}
    ensures LoadedValue(crypto, store, order, keyPath, key, aliasKeys) == Usable(crypto, store[p])
  {
    var paths := PathsToTry(order, keyPath, key, aliasKeys);
    assert forall x :: x in paths <==> x in Matching(store, key, aliasKeys);
    assert p in paths && paths[0] in paths;
    var i := FirstUsable(crypto, store, paths);
    assert i < |paths| ==> paths[i] in paths;
  }

  lemma WriteLeavesOne(store: Store, key: PathKey, p: Path, encrypted: Cipher, aliasKeys: set<string>)
    requires key(p) in aliasKeys
    ensures Matching(AfterWrite(store, key, p, encrypted, aliasKeys), key, aliasKeys) == {p}
    ensures AfterWrite(store, key, p, encrypted, aliasKeys)[p] == encrypted
  {
  }

  /**
   Saving under one spelling leaves one entry in the whole class, and loading
   any spelling of it, in whatever order the record enumerates, gives it back.
   */
  lemma SaveThenLoad(lower: string -> string, key: PathKey, home: string, crypto: Crypto, before: Store, p: Path, q: Path, secret: string, order: seq<Path>)
    requires IsPosixHome(home) && !IsWindowsShaped(p) && q in Spellings(home, p)
    requires forall s :: key(s) == DefaultKeyPassphrasePathKey(lower, s)
    requires secret != "" && !crypto.isPlaceholder(secret) && crypto.decrypt(Encrypted(crypto, secret)) == Some(secret)
    requires Enumerates(order, AfterWrite(before, key, p, Encrypted(crypto, secret), AliasKeys(lower, Some(home), p)))
    ensures var after := AfterWrite(before, key, p, Encrypted(crypto, secret), AliasKeys(lower, Some(home), p));
      && Matching(after, key, AliasKeys(lower, Some(home), q)) == {p}
      && LoadedValue(crypto, after, order, q, key, AliasKeys(lower, Some(home), q)) == Some(secret)
  {
    PosixAliases(lower, home, p);
    AliasClasses(lower, home, p, q);
    var aliasKeys := AliasKeys(lower, Some(home), p);
    WriteLeavesOne(before, key, p, Encrypted(crypto, secret), aliasKeys);
    LoneEntryLoads(crypto, AfterWrite(before, key, p, Encrypted(crypto, secret), aliasKeys), order, q, key, aliasKeys, p);
  }

  lemma UnchangedWhenSame(store: Store, key: PathKey, aliasKeys: set<string>)
    ensures !EntriesChanged(store, store, key, aliasKeys)
  {
  }

  lemma DuplicatesGone(store: Store, key: PathKey, aliasKeys: set<string>, paths: seq<Path>, kept: Path)
    requires PathSet(paths) == Matching(store, key, aliasKeys) && kept in paths
    ensures Matching(AfterDuplicates(store, paths, kept), key, aliasKeys) == {kept}
    ensures forall p :: key(p) !in aliasKeys ==> Lookup(AfterDuplicates(store, paths, kept), p) == Lookup(store, p)
  {
    assert kept in PathSet(paths);
    assert forall p :: p in PathSet(paths) ==> key(p) in aliasKeys;
  }

  lemma InvalidGone(store: Store, key: PathKey, aliasKeys: set<string>, invalid: Store)
    requires invalid == map p | p in Matching(store, key, aliasKeys) :: store[p]
    ensures Matching(AfterInvalid(store, invalid), key, aliasKeys) == {}
    ensures forall p :: key(p) !in aliasKeys ==> Lookup(AfterInvalid(store, invalid), p) == Lookup(store, p)
  {
    assert invalid.Keys == Matching(store, key, aliasKeys);
  }

  lemma EmptyPathSet(paths: seq<Path>)
    ensures PathSet(paths) == {} <==> paths == []
  {
    if paths != [] {
      assert paths[0] in PathSet(paths);
    }
  }

  method KeepUsable(record: PassphraseRecord, snapshot: Store, aliasKeys: set<string>, paths: seq<Path>, kept: Path)
    requires record.stored == Some(snapshot)
    requires PathSet(paths) == Matching(snapshot, record.key, aliasKeys) && kept in paths
    modifies record
    ensures Matching(Contents(record.stored), record.key, aliasKeys) == {kept}
    ensures forall p :: record.key(p) !in aliasKeys ==> Lookup(Contents(record.stored), p) == Lookup(snapshot, p)
  {
    UnchangedWhenSame(snapshot, record.key, aliasKeys);
    DuplicatesGone(snapshot, record.key, aliasKeys, paths, kept);
    var _ := record.FinishReadable(snapshot, aliasKeys, paths, kept);
  }

  method DropUnreadable(record: PassphraseRecord, snapshot: Store, aliasKeys: set<string>, paths: seq<Path>)
    requires record.stored == Some(snapshot)
    requires PathSet(paths) == Matching(snapshot, record.key, aliasKeys)
    modifies record
    ensures Matching(Contents(record.stored), record.key, aliasKeys) == {}
    ensures forall p :: record.key(p) !in aliasKeys ==> Lookup(Contents(record.stored), p) == Lookup(snapshot, p)
  {
    var invalid := map p | p in snapshot && p in paths :: snapshot[p];
    UnchangedWhenSame(snapshot, record.key, aliasKeys);
    assert forall p :: p in paths <==> p in PathSet(paths);
    InvalidGone(snapshot, record.key, aliasKeys, invalid);
    var _ := record.FinishInvalid(snapshot, aliasKeys, invalid);
  }

  /** An attempt of the source run without interruption, decrypting spelling after spelling. */
  method LoadOnce(record: PassphraseRecord, crypto: Crypto, keyPath: Path, aliasKeys: set<string>, order: seq<Path>)
    returns (value: Option<string>)
    requires Enumerates(order, Contents(record.stored))
    modifies record
    ensures value == LoadedValue(crypto, Contents(old(record.stored)), order, keyPath, record.key, aliasKeys)
    ensures value.Some? ==> |Matching(Contents(record.stored), record.key, aliasKeys)| == 1
    ensures value.None? ==> Matching(Contents(record.stored), record.key, aliasKeys) == {}
    ensures forall p :: record.key(p) !in aliasKeys ==> Lookup(Contents(record.stored), p) == Lookup(Contents(old(record.stored)), p)
  {
    if record.stored.None? {
      assert forall p :: p !in PathSet(order);
      EmptyPathSet(order);
      return None;
    }
    var snapshot, key := record.stored.value, record.key;
    var paths := PathsToTry(order, keyPath, key, aliasKeys);
    assert PathSet(paths) == Matching(snapshot, key, aliasKeys);
    var i := ScanUsable(crypto, snapshot, paths);
    if i < |paths| {
      KeepUsable(record, snapshot, aliasKeys, paths, paths[i]);
      return Usable(crypto, snapshot[paths[i]]);
    }
    if |paths| > 0 {
      DropUnreadable(record, snapshot, aliasKeys, paths);
    }
    return None;
  }

  /** The decryption loop: one spelling after another until one is usable. */
  method ScanUsable(crypto: Crypto, snapshot: Store, paths: seq<Path>) returns (i: nat)
    requires forall p :: p in paths ==> p in snapshot
    ensures i == FirstUsable(crypto, snapshot, paths)
  {
    i := 0;
    while i < |paths| && Usable(crypto, snapshot[paths[i]]).None?
      invariant 0 <= i <= |paths|
      invariant FirstUsable(crypto, snapshot, paths) >= i
    {
      i := i + 1;
    }
  }
}
