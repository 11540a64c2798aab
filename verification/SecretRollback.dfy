/**
 Storing a sync provider's secrets and connecting with them
 (application/pluginSyncConnectWithSecrets.ts), against the host that keeps the
 secrets and a stash of the values it overwrote
 (cmd/lemonssh/pluginExtensionService.go).
 */
module SecretRollback {
  import opened Prelude

  type Key = string

  datatype Secret = Secret(key: Key, text: string)

  datatype SecretRef = SecretRef(key: Key)

  /** A stored secret: sealed, or a row that is malformed or can no longer be opened. */
  datatype Row = Sealed(text: string) | Unreadable

  /** The secrets of the provider's plugin, and the values overwritten in this session. */
  datatype HostState = HostState(store: map<Key, Row>, stash: map<Key, string>)

  /** The host takes an empty or unreadable stored value for an absent one. */
  predicate Replaces(h: HostState, key: Key) {
    key in h.store && h.store[key].Sealed? && h.store[key].text != ""
  }

  function Put(h: HostState, secret: Secret): HostState {
    HostState(h.store[secret.key := Sealed(secret.text)],
              if Replaces(h, secret.key) then h.stash[secret.key := h.store[secret.key].text] else h.stash)
  }

  function Delete(h: HostState, keys: seq<Key>): HostState {
    h.(store := if keys == [] then map[] else map k | k in h.store && k !in keys :: h.store[k])
  }

  function Restore(h: HostState, keys: seq<Key>): HostState {
    HostState(h.store + (map k | k in h.stash && k in keys :: Sealed(h.stash[k])), map k | k in h.stash && k !in keys :: h.stash[k])
  }

  function Discard(h: HostState, keys: seq<Key>): HostState {
    h.(stash := map k | k in h.stash && k !in keys :: h.stash[k])
  }

  // What a list of puts leaves behind.

  function PutAll(h: HostState, puts: seq<Secret>): HostState {
    if puts == [] then h else Put(PutAll(h, puts[..|puts| - 1]), puts[|puts| - 1])
  }

  /** The keys whose put replaced something, or those whose put did not, in order. */
  function KeysThat(replaced: bool, h: HostState, puts: seq<Secret>): seq<Key> {
    if puts == [] then []
    else
      var before, last := puts[..|puts| - 1], puts[|puts| - 1].key;
      KeysThat(replaced, h, before) + (if Replaces(PutAll(h, before), last) == replaced then [last] else [])
  }

  /** The last non-empty text any of the puts replaced at this key. */
  function LastReplaced(h: HostState, puts: seq<Secret>, key: Key): Option<string> {
    if puts == [] then None
    else
      var before := PutAll(h, puts[..|puts| - 1]);
      if puts[|puts| - 1].key == key && Replaces(before, key) then Some(before.store[key].text)
      else LastReplaced(h, puts[..|puts| - 1], key)
  }

  predicate Puts(puts: seq<Secret>, key: Key) {
    exists i :: 0 <= i < |puts| && puts[i].key == key
  }

  /** The catch path: delete what was created, then restore what was overwritten; either call may fail. */
  function Caught(h: HostState, puts: seq<Secret>, deletes: bool, restores: bool): HostState {
    var created, overwritten := KeysThat(false, h, puts), KeysThat(true, h, puts);
    var deleted := if created == [] || !deletes then PutAll(h, puts) else Delete(PutAll(h, puts), created);
    if overwritten == [] || !restores then deleted else Restore(deleted, overwritten)
  }

  /** The rollback when both of its calls work. */
  function AfterRollback(h: HostState, puts: seq<Secret>): HostState {
    Caught(h, puts, true, true)
  }

  /** The row a restored text is stored in. */
  function RowOf(text: Option<string>): Option<Row> {
    if text.Some? then Some(Sealed(text.value)) else None
  }

  lemma PutsSnoc(puts: seq<Secret>, key: Key)
    requires puts != []
    ensures Puts(puts, key) <==> Puts(puts[..|puts| - 1], key) || puts[|puts| - 1].key == key
  {
    if Puts(puts[..|puts| - 1], key) {
      var i :| 0 <= i < |puts| - 1 && puts[..|puts| - 1][i].key == key;
      assert puts[i].key == key;
    }
    if Puts(puts, key) && puts[|puts| - 1].key != key {
      var i :| 0 <= i < |puts| && puts[i].key == key;
      assert puts[..|puts| - 1][i].key == key;
    }
  }

  /** Every key put is listed, and one that replaced something has its last replaced text stashed. */
  lemma {:induction false} PutsAreTracked(h: HostState, puts: seq<Secret>, key: Key)
    ensures Puts(puts, key) <==> key in KeysThat(false, h, puts) || key in KeysThat(true, h, puts)
    ensures key in KeysThat(true, h, puts) <==> LastReplaced(h, puts, key).Some?
    ensures LastReplaced(h, puts, key).Some? ==> Lookup(PutAll(h, puts).stash, key) == LastReplaced(h, puts, key)
    ensures !Puts(puts, key) ==> Lookup(PutAll(h, puts).store, key) == Lookup(h.store, key)
  {
    if puts != [] {
      PutsAreTracked(h, puts[..|puts| - 1], key);
      PutsSnoc(puts, key);
    }
  }

  /** Rolled back, a key holds the last text it lost to a put, or nothing if it lost none. */
  lemma RollbackPerKey(h: HostState, puts: seq<Secret>, key: Key)
    ensures Lookup(AfterRollback(h, puts).store, key)
         == if Puts(puts, key) then RowOf(LastReplaced(h, puts, key)) else Lookup(h.store, key)
  {
    PutsAreTracked(h, puts, key);
  }

  lemma SameStore(a: map<Key, Row>, b: map<Key, Row>)
    requires forall k :: Lookup(a, k) == Lookup(b, k)
    ensures a == b
  {
    forall k
      ensures k in a <==> k in b
      ensures k in a ==> a[k] == b[k]
    {
      assert Lookup(a, k) == Lookup(b, k);
    }
  }

  /**
   A failed call leaves the secret store exactly as it was if and only if, for
   every key put, the last text the puts replaced is the text held before.
   */
  lemma RollbackIsExactIff(h: HostState, puts: seq<Secret>)
    ensures AfterRollback(h, puts).store == h.store
        <==> forall i :: 0 <= i < |puts| ==> RowOf(LastReplaced(h, puts, puts[i].key)) == Lookup(h.store, puts[i].key)
  {
    var after := AfterRollback(h, puts).store;
    forall k
      ensures Lookup(after, k) == if Puts(puts, k) then RowOf(LastReplaced(h, puts, k)) else Lookup(h.store, k)
    {
      RollbackPerKey(h, puts, k);
    }
    if forall i :: 0 <= i < |puts| ==> RowOf(LastReplaced(h, puts, puts[i].key)) == Lookup(h.store, puts[i].key) {
      SameStore(after, h.store);
    }
  }

  predicate DistinctKeys(puts: seq<Secret>) {
    forall i, j :: 0 <= i < j < |puts| ==> puts[i].key != puts[j].key
  }

  lemma {:induction false} ReplacedOnce(h: HostState, puts: seq<Secret>, key: Key)
    requires DistinctKeys(puts)
    ensures LastReplaced(h, puts, key) == if Puts(puts, key) && Replaces(h, key) then Some(h.store[key].text) else None
  {
    if puts != [] {
      var before := puts[..|puts| - 1];
      ReplacedOnce(h, before, key);
      PutsSnoc(puts, key);
      PutsAreTracked(h, before, key);
    }
  }

  /**
   For pairwise distinct keys, whatever mix of created and overwritten ones,
   the rollback is exact if and only if no key put so far was stored empty or
   in a row that cannot be read.
   */
  lemma DistinctKeysRollBackIff(h: HostState, puts: seq<Secret>)
    requires DistinctKeys(puts)
    ensures AfterRollback(h, puts).store == h.store
        <==> forall i :: 0 <= i < |puts| ==> Lookup(h.store, puts[i].key) !in {Some(Sealed("")), Some(Unreadable)}
  {
    RollbackIsExactIff(h, puts);
    forall i | 0 <= i < |puts|
      ensures RowOf(LastReplaced(h, puts, puts[i].key)) == Lookup(h.store, puts[i].key)
          <==> Lookup(h.store, puts[i].key) !in {Some(Sealed("")), Some(Unreadable)}
    {
      ReplacedOnce(h, puts, puts[i].key);
    }
  }

  /** A row that cannot be read is put over without a stash, so the rollback deletes it for good. */
  lemma UnreadableRowIsDeleted(h: HostState, key: Key, text: string)
    requires Lookup(h.store, key) == Some(Unreadable)
    ensures key !in AfterRollback(h, [Secret(key, text)]).store
  {
    var puts := [Secret(key, text)];
    assert puts[0].key == key && puts[..0] == [];
    RollbackPerKey(h, puts, key);
  }

  /** Why distinctness matters: of two puts at one key, the rollback brings back the first. */
  lemma RepeatedKeyResurrects(h: HostState, key: Key, first: string, second: string)
    requires first != ""
    ensures Lookup(AfterRollback(h, [Secret(key, first), Secret(key, second)]).store, key) == Some(Sealed(first))
  {
    var puts := [Secret(key, first), Secret(key, second)];
    assert puts[..1] == [Secret(key, first)] && puts[..1][..0] == [];
    assert puts[1].key == key;
    RollbackPerKey(h, puts, key);
  }

  lemma {:induction false} PutAllTexts(h: HostState, puts: seq<Secret>, i: nat)
    requires i < |puts| && forall j :: i < j < |puts| ==> puts[j].key != puts[i].key
    ensures Lookup(PutAll(h, puts).store, puts[i].key) == Some(Sealed(puts[i].text))
  {
    if i < |puts| - 1 {
      PutAllTexts(h, puts[..|puts| - 1], i);
    }
  }

  /** One of the puts finds a readable, non-empty text at this key. */
  ghost predicate Overwrites(h: HostState, puts: seq<Secret>, key: Key) {
    exists i :: 0 <= i < |puts| && puts[i].key == key && Replaces(PutAll(h, puts[..i]), key)
  }

  lemma {:induction false} OverwritesIff(h: HostState, puts: seq<Secret>, key: Key)
    ensures Overwrites(h, puts, key) <==> LastReplaced(h, puts, key).Some?
  {
    if puts != [] {
      var before, n := puts[..|puts| - 1], |puts| - 1;
      OverwritesIff(h, before, key);
      assert forall i :: 0 <= i <= n ==> before[..i] == puts[..i];
      if Overwrites(h, before, key) {
        var i :| 0 <= i < |before| && before[i].key == key && Replaces(PutAll(h, before[..i]), key);
        assert puts[i].key == key && Replaces(PutAll(h, puts[..i]), key);
      }
      if puts[n].key == key && Replaces(PutAll(h, puts[..n]), key) {
        assert Overwrites(h, puts, key);
      }
    }
  }

  /** The last put at this key is number `i`. */
  predicate PutLast(puts: seq<Secret>, i: int, key: Key) {
    0 <= i < |puts| && puts[i].key == key && forall j :: i < j < |puts| ==> puts[j].key != key
  }

  /** After all puts a key put holds the text put there last, and every other key its old row. */
  lemma StoreAfterPuts(h: HostState, puts: seq<Secret>, key: Key)
    ensures forall i :: PutLast(puts, i, key) ==> Lookup(PutAll(h, puts).store, key) == Some(Sealed(puts[i].text))
    ensures !Puts(puts, key) ==> Lookup(PutAll(h, puts).store, key) == Lookup(h.store, key)
  {
    PutsAreTracked(h, puts, key);
    forall i | PutLast(puts, i, key)
      ensures Lookup(PutAll(h, puts).store, key) == Some(Sealed(puts[i].text))
    {
      PutAllTexts(h, puts, i);
    }
  }

  /** The stash then has the last text overwritten at a key, and is as it was where none was. */
  lemma StashAfterPuts(h: HostState, puts: seq<Secret>, key: Key)
    ensures Overwrites(h, puts, key) ==> LastReplaced(h, puts, key).Some? && Lookup(PutAll(h, puts).stash, key) == LastReplaced(h, puts, key)
    ensures !Overwrites(h, puts, key) ==> Lookup(PutAll(h, puts).stash, key) == Lookup(h.stash, key)
    ensures Overwrites(h, puts, key) <==> key in KeysThat(true, h, puts)
  {
    PutsAreTracked(h, puts, key);
    OverwritesIff(h, puts, key);
    if !Overwrites(h, puts, key) {
      StashIsKept(h, puts, key);
    }
  }

  /**
   What a successful call leaves at one key: the text put there last, or the old
   row where nothing was put; with a working discard no text that a put
   overwrote stays in the stash, and without one the last of them does.
   */
  ghost predicate SettledAt(h: HostState, puts: seq<Secret>, after: HostState, key: Key, discards: bool) {
    && (forall i :: PutLast(puts, i, key) ==> Lookup(after.store, key) == Some(Sealed(puts[i].text)))
    && (!Puts(puts, key) ==> Lookup(after.store, key) == Lookup(h.store, key))
    && (!Overwrites(h, puts, key) ==> Lookup(after.stash, key) == Lookup(h.stash, key))
    && (Overwrites(h, puts, key) ==> Lookup(after.stash, key) == (if discards then None else LastReplaced(h, puts, key)))
  }

  ghost predicate Settled(h: HostState, puts: seq<Secret>, after: HostState, discards: bool) {
    forall key :: SettledAt(h, puts, after, key, discards)
  }

  lemma SuccessPerKey(h: HostState, puts: seq<Secret>, discards: bool)
    ensures Settled(h, puts, AfterSuccess(h, puts, discards), discards)
  {
    forall key
      ensures SettledAt(h, puts, AfterSuccess(h, puts, discards), key, discards)
    {
      StoreAfterPuts(h, puts, key);
      StashAfterPuts(h, puts, key);
    }
  }

  lemma {:induction false} StashIsKept(h: HostState, puts: seq<Secret>, key: Key)
    requires LastReplaced(h, puts, key).None?
    ensures Lookup(PutAll(h, puts).stash, key) == Lookup(h.stash, key)
  {
    if puts != [] {
      StashIsKept(h, puts[..|puts| - 1], key);
    }
  }

  /** What a failed call leaves at the key that put `i` was the last to write. */
  ghost function RowAfterFailure(h: HostState, puts: seq<Secret>, i: nat, deletes: bool, restores: bool): Option<Row>
    requires i < |puts|
  {
    if Overwrites(h, puts, puts[i].key) && restores then RowOf(LastReplaced(h, puts, puts[i].key))
    else if Creates(h, puts, puts[i].key) && deletes then None
    else Some(Sealed(puts[i].text))
  }

  /**
   What a failed call leaves, key by key, whichever of its two clean-up calls
   work: an overwritten key has its last overwritten text back if restoring
   works; otherwise a key that some put created is gone if deleting works;
   otherwise it still holds the text put there last.
   */
  lemma CaughtPerKey(h: HostState, puts: seq<Secret>, key: Key, deletes: bool, restores: bool)
    ensures !Puts(puts, key) ==> Lookup(Caught(h, puts, deletes, restores).store, key) == Lookup(h.store, key)
    ensures forall i :: PutLast(puts, i, key) ==>
      Lookup(Caught(h, puts, deletes, restores).store, key) == RowAfterFailure(h, puts, i, deletes, restores)
  {
    PutsAreTracked(h, puts, key);
    CreatesIff(h, puts, key);
    StoreAfterPuts(h, puts, key);
    StashAfterPuts(h, puts, key);
  }

  /** One of the puts finds no readable, non-empty text at this key. */
  ghost predicate Creates(h: HostState, puts: seq<Secret>, key: Key) {
    exists i :: 0 <= i < |puts| && puts[i].key == key && !Replaces(PutAll(h, puts[..i]), key)
  }

  lemma {:induction false} CreatesIff(h: HostState, puts: seq<Secret>, key: Key)
    ensures Creates(h, puts, key) <==> key in KeysThat(false, h, puts)
  {
    if puts != [] {
      var before, n := puts[..|puts| - 1], |puts| - 1;
      CreatesIff(h, before, key);
      assert forall i :: 0 <= i <= n ==> before[..i] == puts[..i];
      if Creates(h, before, key) {
        var i :| 0 <= i < |before| && before[i].key == key && !Replaces(PutAll(h, before[..i]), key);
        assert puts[i].key == key && !Replaces(PutAll(h, puts[..i]), key);
      }
      if puts[n].key == key && !Replaces(PutAll(h, puts[..n]), key) {
        assert Creates(h, puts, key);
      }
    }
  }

  /** What is decided outside: the first put that throws, whether connecting works, and the rollback calls. */
  datatype Answers = Answers(putsAccepted: nat, connects: bool, deleteWorks: bool, restoreWorks: bool, discardWorks: bool)

  class SecretHost {
    var store: map<Key, Row>
    var stash: map<Key, string>

    ghost function View(): HostState
      reads this
    {
      HostState(store, stash)
    }

    constructor (store: map<Key, Row>)
      ensures View() == HostState(store, map[])
    {
      this.store, stash := store, map[];
    }

    method PutSecret(key: Key, text: string) returns (ref: SecretRef, created: bool)
      modifies this
      ensures View() == Put(old(View()), Secret(key, text)) && ref == SecretRef(key)
      ensures created <==> !Replaces(old(View()), key)
    {
      var previous := "";
      if key in store && store[key].Sealed? {
        previous := store[key].text;
      }
      store := store[key := Sealed(text)];
      if previous != "" {
        stash := stash[key := previous];
      }
      return SecretRef(key), previous == "";
    }

    /** No keys at all means every key. */
    method DeleteSecrets(keys: seq<Key>)
      modifies this`store
      ensures View() == Delete(old(View()), keys)
    {
      store := if keys == [] then map[] else map k | k in store && k !in keys :: store[k];
    }

    method RestoreSecrets(keys: seq<Key>, discard: bool)
      modifies this
      ensures View() == if discard then Discard(old(View()), keys) else Restore(old(View()), keys)
    {
      if !discard {
        store := store + (map k | k in stash && k in keys :: Sealed(stash[k]));
      }
      stash := map k | k in stash && k !in keys :: stash[k];
    }
  }

  /** The first secret's reference, or the existing credential when there are no secrets. */
  function PrimaryRef(secrets: seq<Secret>, existing: Option<SecretRef>): Option<SecretRef> {
    if secrets == [] then existing else Some(SecretRef(secrets[0].key))
  }

  /** The put loop: it stops at the first put that throws. */
  method PutSecrets(host: SecretHost, secrets: seq<Secret>, accepted: nat)
    returns (done: nat, createdKeys: seq<Key>, overwrittenKeys: seq<Key>, credential: Option<SecretRef>)
    modifies host
    ensures done == if |secrets| <= accepted then |secrets| else accepted
    ensures host.View() == PutAll(old(host.View()), secrets[..done])
    ensures createdKeys == KeysThat(false, old(host.View()), secrets[..done])
    ensures overwrittenKeys == KeysThat(true, old(host.View()), secrets[..done])
    ensures credential == if done == 0 then None else Some(SecretRef(secrets[0].key))
  {
    done, createdKeys, overwrittenKeys, credential := 0, [], [], None;
    while done < |secrets| && done < accepted
      invariant 0 <= done <= |secrets| && done <= accepted
      invariant host.View() == PutAll(old(host.View()), secrets[..done])
      invariant createdKeys == KeysThat(false, old(host.View()), secrets[..done])
      invariant overwrittenKeys == KeysThat(true, old(host.View()), secrets[..done])
      invariant credential == if done == 0 then None else Some(SecretRef(secrets[0].key))
    {
      assert secrets[..done + 1][..done] == secrets[..done];
      var ref, created := host.PutSecret(secrets[done].key, secrets[done].text);
      if created {
        createdKeys := createdKeys + [secrets[done].key];
      } else {
        overwrittenKeys := overwrittenKeys + [secrets[done].key];
      }
      if credential.None? {
        credential := Some(ref);
      }
      done := done + 1;
    }
  }

  /** The catch path. */
  method RollBack(host: SecretHost, createdKeys: seq<Key>, overwrittenKeys: seq<Key>, deletes: bool, restores: bool)
    modifies host
    ensures var deleted := if createdKeys == [] || !deletes then old(host.View()) else Delete(old(host.View()), createdKeys);
      host.View() == if overwrittenKeys == [] || !restores then deleted else Restore(deleted, overwrittenKeys)
  {
    if |createdKeys| > 0 && deletes {
      host.DeleteSecrets(createdKeys);
    }
    if |overwrittenKeys| > 0 && restores {
      host.RestoreSecrets(overwrittenKeys, false);
    }
  }

  /** The secrets put before the call fails or connects. */
  function Accepted(secrets: seq<Secret>, answers: Answers): seq<Secret> {
    if |secrets| <= answers.putsAccepted then secrets else secrets[..answers.putsAccepted]
  }

  /**
   One call. `connectedWith` is the credential handed to the provider, when it
   was asked at all.
   */
  method StorePluginSyncSecretsThenConnect(host: SecretHost, secrets: seq<Secret>, existing: Option<SecretRef>, canRestore: bool, answers: Answers)
    returns (ok: bool, connectedWith: Option<Option<SecretRef>>)
    modifies host
    ensures ok <==> |secrets| <= answers.putsAccepted && answers.connects
    ensures connectedWith == if |secrets| <= answers.putsAccepted then Some(PrimaryRef(secrets, existing)) else None
    ensures connectedWith.Some? ==> connectedWith.value == if |secrets| > 0 then Some(SecretRef(secrets[0].key)) else existing
    ensures ok ==> host.View() == AfterSuccess(old(host.View()), secrets, canRestore && answers.discardWorks)
    ensures ok ==> Settled(old(host.View()), secrets, host.View(), canRestore && answers.discardWorks)
    ensures !ok ==>
      host.View() == Caught(old(host.View()), Accepted(secrets, answers), answers.deleteWorks, canRestore && answers.restoreWorks)
  {
    var done, createdKeys, overwrittenKeys, first := PutSecrets(host, secrets, answers.putsAccepted);
    assert secrets[..done] == Accepted(secrets, answers);
    ok, connectedWith := false, None;
    if done == |secrets| {
      connectedWith := Some(if |secrets| > 0 then first else existing);
      ok := answers.connects;
    }
    if !ok {
      RollBack(host, createdKeys, overwrittenKeys, answers.deleteWorks, canRestore && answers.restoreWorks);
      return;
    }
    if |overwrittenKeys| > 0 && canRestore && answers.discardWorks {
      host.RestoreSecrets(overwrittenKeys, true);
    }
    SuccessPerKey(old(host.View()), secrets, canRestore && answers.discardWorks);
  }

  /** Connected: the secrets stay, and the stash of what they overwrote is dropped if that works. */
  function AfterSuccess(h: HostState, puts: seq<Secret>, discards: bool): HostState {
    var overwritten := KeysThat(true, h, puts);
    if overwritten == [] || !discards then PutAll(h, puts) else Discard(PutAll(h, puts), overwritten)
  }
}
