/**
 What is on disk if the process dies while a prepared migration is initialised
 or a restore is committed (application/convergentSyncMigration.ts,
 convergentSyncReplica.ts, syncPayload.ts). Both run as the callback of a
 protected apply, so every crash point is a machine of that run.
 */
module MigrationCrash {
  import opened Prelude
  import opened ProtectedApply

  /** Everything durable the two callbacks write. */
  datatype Cell = VaultCell(name: string) | ProviderBaseline(provider: string) | Replica | Initialized

  type Disk = map<Cell, string>
  type Writes = Script<Cell, string>

  const INITIALIZED_MARK := "initialized"

  /** The local apply may write any vault cells, and nothing else. */
  predicate VaultOnly(writes: Writes) {
    forall i :: 0 <= i < |writes| ==> writes[i].0.VaultCell?
  }

  function BaselineWrites(baselines: seq<(string, string)>): Writes {
    seq(|baselines|, i requires 0 <= i < |baselines| => (ProviderBaseline(baselines[i].0), baselines[i].1))
  }

  /** Apply the payload, save every provider baseline, then the replica, then the flag. */
  function MigrationScript(vault: Writes, baselines: seq<(string, string)>, state: string): Writes {
    vault + BaselineWrites(baselines) + [(Replica, state), (Initialized, INITIALIZED_MARK)]
  }

  /** Apply the payload, then record the restore in the replica if there is one. */
  function RestoreScript(vault: Writes, state: Option<string>): Writes {
    vault + (if state.Some? then [(Replica, state.value)] else [])
  }

  // Reading a partly written disk.

  lemma {:induction false} AppliedAt(origin: Disk, writes: Writes, cell: Cell, last: nat)
    requires last < |writes| && writes[last].0 == cell
    requires forall i :: last < i < |writes| ==> writes[i].0 != cell
    ensures Lookup(ApplyWrites(origin, writes), cell) == Some(writes[last].1)
  {
    if last < |writes| - 1 {
      AppliedAt(origin, writes[..|writes| - 1], cell, last);
    }
  }

  lemma {:induction false} UntouchedCell(origin: Disk, writes: Writes, cell: Cell)
    requires forall i :: 0 <= i < |writes| ==> writes[i].0 != cell
    ensures Lookup(ApplyWrites(origin, writes), cell) == Lookup(origin, cell)
  {
    if writes != [] {
      UntouchedCell(origin, writes[..|writes| - 1], cell);
    }
  }

  /** A run in which the callback prepared can only be `script`. */
  ghost predicate RunsScript<P>(cfg: Config<Cell, string, P>, ms: seq<Machine<Cell, string, P>>, es: seq<Event<Cell, string>>, script: Writes) {
    && Run(cfg, ms, es) && Initial(ms[0])
    && forall i :: 0 <= i < |es| && es[i].PrepareReturns? ==> es[i].script == script
  }

  lemma StepScript<P>(cfg: Config<Cell, string, P>, m: Machine<Cell, string, P>, e: Event<Cell, string>)
    requires Enabled(cfg, m, e)
    ensures var after := Step(cfg, m, e);
      if e.PrepareReturns? then after.script == e.script && after.done == m.done
      else after.script == m.script && (m.script == [] ==> after.done == m.done)
  {
  }

  lemma {:induction false} ScriptIsKnown<P>(cfg: Config<Cell, string, P>, ms: seq<Machine<Cell, string, P>>, es: seq<Event<Cell, string>>, script: Writes, k: nat)
    requires RunsScript(cfg, ms, es, script) && k < |ms|
    ensures ms[k].script == script || (ms[k].script == [] && ms[k].done == 0)
  {
    if k > 0 {
      ScriptIsKnown(cfg, ms, es, script, k - 1);
      StepScript(cfg, ms[k - 1], es[k - 1]);
    }
  }

  /** What every crash point has on disk: a prefix of the script applied to the old vault. */
  lemma DiskIsAPrefix<P>(cfg: Config<Cell, string, P>, ms: seq<Machine<Cell, string, P>>, es: seq<Event<Cell, string>>, script: Writes, k: nat)
    returns (done: nat)
    requires RunsScript(cfg, ms, es, script) && k < |ms|
    ensures done <= |script| && ms[k].disk == ApplyWrites(ms[0].disk, script[..done])
    ensures done == |script| <== ms[k].stage == Released(true) && ms[k].script == script
  {
    RunsKeepInv(cfg, ms, es, k);
    ScriptIsKnown(cfg, ms, es, script, k);
    done := ms[k].done;
    if ms[k].script != script {
      assert script[..0] == ms[k].script[..0];
    }
  }

  lemma MigrationShape(vault: Writes, baselines: seq<(string, string)>, state: string)
    requires VaultOnly(vault)
    ensures var script := MigrationScript(vault, baselines, state);
      var r := |vault| + |baselines|;
      && |script| == r + 2
      && script[r] == (Replica, state) && script[r + 1] == (Initialized, INITIALIZED_MARK)
      && (forall i :: 0 <= i < r ==> !script[i].0.Replica? && !script[i].0.Initialized?)
      && (forall i :: 0 <= i < |baselines| ==>
            script[|vault| + i] == (ProviderBaseline(baselines[i].0), baselines[i].1))
  {
  }

  /**
   At every crash point, "initialized" implies that the local apply finished
   and that the replica and every provider baseline are stored; a stored new
   replica already implies the baselines.
   */
  lemma InitializedMeansComplete<P>(cfg: Config<Cell, string, P>, ms: seq<Machine<Cell, string, P>>, es: seq<Event<Cell, string>>,
                                    vault: Writes, baselines: seq<(string, string)>, state: string, k: nat)
    requires VaultOnly(vault) && (forall i, j :: 0 <= i < j < |baselines| ==> baselines[i].0 != baselines[j].0)
    requires RunsScript(cfg, ms, es, MigrationScript(vault, baselines, state)) && k < |ms|
    requires Initialized !in ms[0].disk
    ensures Initialized in ms[k].disk ==>
      && ms[k].disk == ApplyWrites(ms[0].disk, MigrationScript(vault, baselines, state))
      && Lookup(ms[k].disk, Replica) == Some(state)
    ensures Initialized in ms[k].disk || (Replica in ms[k].disk && Lookup(ms[k].disk, Replica) != Lookup(ms[0].disk, Replica)) ==>
      forall i :: 0 <= i < |baselines| ==> Lookup(ms[k].disk, ProviderBaseline(baselines[i].0)) == Some(baselines[i].1)
  {
    var script := MigrationScript(vault, baselines, state);
    MigrationShape(vault, baselines, state);
    var done := DiskIsAPrefix(cfg, ms, es, script, k);
    var r := |vault| + |baselines|;
    if done < r + 2 {
      UntouchedCell(ms[0].disk, script[..done], Initialized);
    } else {
      assert script[..done] == script;
      AppliedAt(ms[0].disk, script, Replica, r);
    }
    if done <= r {
      UntouchedCell(ms[0].disk, script[..done], Replica);
    } else {
      BaselinesStored(ms[0].disk, vault, baselines, state, done);
    }
  }

  lemma BaselinesStored(origin: Disk, vault: Writes, baselines: seq<(string, string)>, state: string, done: nat)
    requires VaultOnly(vault) && (forall i, j :: 0 <= i < j < |baselines| ==> baselines[i].0 != baselines[j].0)
    requires |vault| + |baselines| <= done <= |vault| + |baselines| + 2
    ensures forall i :: 0 <= i < |baselines| ==>
      Lookup(ApplyWrites(origin, MigrationScript(vault, baselines, state)[..done]), ProviderBaseline(baselines[i].0)) == Some(baselines[i].1)
  {
    var script := MigrationScript(vault, baselines, state);
    MigrationShape(vault, baselines, state);
    forall i | 0 <= i < |baselines|
      ensures Lookup(ApplyWrites(origin, script[..done]), ProviderBaseline(baselines[i].0)) == Some(baselines[i].1)
    {
      AppliedAt(origin, script[..done], ProviderBaseline(baselines[i].0), |vault| + i);
    }
  }

  /** A restore appears in the replica only once the whole local import has landed. */
  lemma RestoreRecordedAfterImport<P>(cfg: Config<Cell, string, P>, ms: seq<Machine<Cell, string, P>>, es: seq<Event<Cell, string>>,
                                      vault: Writes, state: Option<string>, k: nat)
    requires VaultOnly(vault)
    requires RunsScript(cfg, ms, es, RestoreScript(vault, state)) && k < |ms|
    ensures Lookup(ms[k].disk, Replica) != Lookup(ms[0].disk, Replica) ==>
      && state.Some? && Lookup(ms[k].disk, Replica) == state
      && ms[k].disk == ApplyWrites(ms[0].disk, vault)[Replica := state.value]
  {
    var script := RestoreScript(vault, state);
    var done := DiskIsAPrefix(cfg, ms, es, script, k);
    if done <= |vault| {
      assert script[..done] == vault[..done];
      UntouchedCell(ms[0].disk, script[..done], Replica);
    } else {
      assert script[..done] == script && script[..|script| - 1] == vault;
    }
  }

  /** The whole script leaves the replica and the flag as it names them. */
  lemma ScriptStores(origin: Disk, vault: Writes, baselines: seq<(string, string)>, state: string)
    requires VaultOnly(vault)
    ensures var after := ApplyWrites(origin, MigrationScript(vault, baselines, state));
      Lookup(after, Replica) == Some(state) && Lookup(after, Initialized) == Some(INITIALIZED_MARK)
  {
    MigrationShape(vault, baselines, state);
    var script, r := MigrationScript(vault, baselines, state), |vault| + |baselines|;
    AppliedAt(origin, script, Replica, r);
    AppliedAt(origin, script, Initialized, r + 1);
  }

  /** What initialising checks before it starts, and the snapshot it compares with. */
  datatype Migration = Migration(
    canInitialize: bool, unlocked: bool, localSnapshot: string,
    vault: Writes, baselines: seq<(string, string)>, state: Option<string>)

  datatype Refusal = Blocked | Locked | LocalChanged | ApplyFailed

  datatype Result = Success | Refused(reason: Refusal)

  /** Which test refuses first, and whether the apply that follows goes through. */
  function InitializationResult(migration: Migration, current: string, samePayload: (string, string) -> bool,
                                faults: Faults<Cell, string>, meaningful: bool): Result {
    if !migration.canInitialize || migration.state.None? then Refused(Blocked)
    else if !migration.unlocked then Refused(Locked)
    else if !samePayload(migration.localSnapshot, current) then Refused(LocalChanged)
    else
      var script := MigrationScript(migration.vault, migration.baselines, migration.state.value);
      if Completes(faults.(prepared := Some(script)), meaningful) then Success else Refused(ApplyFailed)
  }

  /**
   Exactly when each test is the one that refuses, and when initialising
   succeeds: nothing fails early and the callback writes everything and returns.
   */
  lemma FirstRefusalIff(migration: Migration, current: string, samePayload: (string, string) -> bool,
                        faults: Faults<Cell, string>, meaningful: bool)
    ensures var result := InitializationResult(migration, current, samePayload, faults, meaningful);
      var blocked := !migration.canInitialize || migration.state.None?;
      var changed := !samePayload(migration.localSnapshot, current);
      && (result == Refused(Blocked) <==> blocked)
      && (result == Refused(Locked) <==> !blocked && !migration.unlocked)
      && (result == Refused(LocalChanged) <==> !blocked && migration.unlocked && changed)
      && (result == Success <==>
            && !blocked && migration.unlocked && !changed
            && faults.snapshotOk && (meaningful ==> faults.backupOk) && faults.callbackReturns
            && |migration.vault| + |migration.baselines| + 2 <= faults.applied)
  {
  }

  /**
   The first protected apply of initializePreparedConvergentMigration. Its
   prepare step compares the current payload with the previewed one and
   rejects before anything is written.
   */
  method InitializeMigration<P>(storage: VaultStorage<Cell, string, P>, migration: Migration, current: string,
                                samePayload: (string, string) -> bool, faults: Faults<Cell, string>, now: int, holdMs: int)
    returns (result: Result)
    requires VaultOnly(migration.vault)
    modifies storage
    ensures result == InitializationResult(migration, current, samePayload, faults, storage.cfg.meaningful(storage.cfg.build(old(storage.disk))))
    ensures result.Refused? && result.reason != ApplyFailed ==>
      storage.disk == old(storage.disk) && storage.sentinel == old(storage.sentinel) && storage.backups == old(storage.backups)
    ensures result == Success ==>
      && migration.state.Some?
      && storage.disk == ApplyWrites(old(storage.disk), MigrationScript(migration.vault, migration.baselines, migration.state.value))
      && Lookup(storage.disk, Initialized) == Some(INITIALIZED_MARK)
      && Lookup(storage.disk, Replica) == migration.state
  {
    if !migration.canInitialize || migration.state.None? {
      return Refused(Blocked);
    }
    if !migration.unlocked {
      return Refused(Locked);
    }
    var same := samePayload(migration.localSnapshot, current);
    var ok := ApplyMigration(storage, migration.vault, migration.baselines, migration.state.value, same, faults, now, holdMs);
    result := if ok then Success else Refused(if same then ApplyFailed else LocalChanged);
  }

  /** The protected apply itself; `same` is what its prepare step finds. */
  method ApplyMigration<P>(storage: VaultStorage<Cell, string, P>, vault: Writes, baselines: seq<(string, string)>, state: string,
                           same: bool, faults: Faults<Cell, string>, now: int, holdMs: int)
    returns (ok: bool)
    requires VaultOnly(vault)
    modifies storage
    ensures ok <==> same && Completes(faults.(prepared := Some(MigrationScript(vault, baselines, state))),
                                      storage.cfg.meaningful(storage.cfg.build(old(storage.disk))))
    ensures !same ==>
      storage.disk == old(storage.disk) && storage.sentinel == old(storage.sentinel) && storage.backups == old(storage.backups)
    ensures ok ==> storage.disk == ApplyWrites(old(storage.disk), MigrationScript(vault, baselines, state))
    ensures ok ==> Lookup(storage.disk, Initialized) == Some(INITIALIZED_MARK) && Lookup(storage.disk, Replica) == Some(state)
  {
    ScriptStores(storage.disk, vault, baselines, state);
    ok := RunIfSame(storage, MigrationScript(vault, baselines, state), same, faults, now, holdMs);
  }

  /** A protected apply whose prepare step rejects unless it finds things as they were. */
  method RunIfSame<P>(storage: VaultStorage<Cell, string, P>, script: Writes, same: bool, faults: Faults<Cell, string>, now: int, holdMs: int)
    returns (ok: bool)
    modifies storage
    ensures ok <==> same && Completes(faults.(prepared := Some(script)), storage.cfg.meaningful(storage.cfg.build(old(storage.disk))))
    ensures !same ==>
      storage.disk == old(storage.disk) && storage.sentinel == old(storage.sentinel) && storage.backups == old(storage.backups)
    ensures ok ==> storage.disk == ApplyWrites(old(storage.disk), script)
  {
    ok := RunPrepared(storage, faults.(prepared := if same then Some(script) else None), now, holdMs);
  }

  /** One protected apply; a callback that was never prepared leaves nothing behind. */
  method RunPrepared<P>(storage: VaultStorage<Cell, string, P>, faults: Faults<Cell, string>, now: int, holdMs: int) returns (ok: bool)
    modifies storage
    ensures ok <==> Completes(faults, storage.cfg.meaningful(storage.cfg.build(old(storage.disk))))
    ensures ok ==> storage.disk == ApplyWrites(old(storage.disk), faults.prepared.value)
    ensures faults.prepared.None? ==>
      !ok && storage.disk == old(storage.disk) && storage.sentinel == old(storage.sentinel) && storage.backups == old(storage.backups)
  {
    ghost var m;
    ok, m := storage.ApplyProtectedSyncPayload(faults, now, holdMs);
  }

  /** The convergent library's merge of a restored payload into a replica. */
  type Merge = (string, string) -> string

  /** The replica after the restore, if there is one to record it in. */
  function Restored(initialized: bool, disk: Disk, payload: string, merge: Merge): Option<string> {
    if initialized && Replica in disk then Some(merge(disk[Replica], payload)) else None
  }

  /**
   prepareRestoredPayloadConvergentWrites followed by the protected local
   import: the replica is read and merged first, and saved last.
   */
  method RestoreBackup<P>(storage: VaultStorage<Cell, string, P>, initialized: bool, vault: Writes, payload: string,
                          merge: Merge, faults: Faults<Cell, string>, now: int, holdMs: int)
    returns (ok: bool)
    requires VaultOnly(vault)
    modifies storage
    ensures initialized && Replica !in old(storage.disk) ==>
      !ok && storage.disk == old(storage.disk) && storage.sentinel == old(storage.sentinel)
    ensures !initialized || Replica in old(storage.disk) ==>
      (ok <==> Completes(faults.(prepared := Some(RestoreScript(vault, Restored(initialized, old(storage.disk), payload, merge)))),
                         storage.cfg.meaningful(storage.cfg.build(old(storage.disk)))))
    ensures ok && !initialized ==> storage.disk == ApplyWrites(old(storage.disk), vault)
    ensures ok && initialized ==>
      && Replica in old(storage.disk)
      && storage.disk == ApplyWrites(old(storage.disk), vault)[Replica := merge(old(storage.disk)[Replica], payload)]
  {
    var state: Option<string> := None;
    if initialized {
      if Replica !in storage.disk {
        return false;
      }
      state := Some(merge(storage.disk[Replica], payload));
    }
    var script := RestoreScript(vault, state);
    ok := RunPrepared(storage, faults.(prepared := Some(script)), now, holdMs);
    if initialized {
      assert script[..|script| - 1] == vault;
    } else {
      assert script == vault;
    }
  }
}
