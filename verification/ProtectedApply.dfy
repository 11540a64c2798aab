/**
 The protected apply of application/localVaultBackups.ts: barrier, prepare,
 protective backup, sentinel, non-atomic apply, clear, release. A crash may
 strike after any event, so every reachable machine is a crash state.
 */
module ProtectedApply {
  import opened Prelude

  /** The persisted apply-in-progress record. */
  datatype Sentinel = Sentinel(startedAt: int, protectiveBackupId: Option<nat>)

  /** What the next session reads back: a record without a start time counts as none. */
  function ReadInterruptedVaultApply(stored: Option<Sentinel>): Option<Sentinel> {
    if stored.Some? && stored.value.startedAt != 0 then stored else None
  }

  /** How the vault is summarised into a payload, and when a payload is worth a backup. */
  datatype Config<!K, !V, !P> = Config(build: map<K, V> -> P, meaningful: P -> bool)

  /** A non-atomic apply: durable writes that land one after another. */
  type Script<K, V> = seq<(K, V)>

  function ApplyWrites<K, V>(disk: map<K, V>, script: Script<K, V>): map<K, V> {
    if script == [] then disk
    else ApplyWrites(disk, script[..|script| - 1])[script[|script| - 1].0 := script[|script| - 1].1]
  }

  datatype Stage = Holding | Prepared | Snapshotted | BackedUp | Applying | Applied | Leaving(ok: bool) | Released(ok: bool)

  /** Whether the sentinel write has happened yet, and whether it succeeded. */
  datatype Mark = Unmarked | MarkFailed | Marked(record: Sentinel)

  datatype Machine<K, V, P> = Machine(
    disk: map<K, V>,
    sentinel: Option<Sentinel>,
    deadline: int,
    backups: seq<P>,
    stage: Stage,
    script: Script<K, V>,
    done: nat,                 // writes of the script that have landed
    pre: Option<P>,
    backupId: Option<nat>,
    omitted: bool,             // the bridge answered without a backup
    mark: Mark,
    cleared: bool,             // the sentinel was removed after success
    origin: map<K, V>,         // the vault when the apply began
    sentinelBefore: Option<Sentinel>)

  datatype Event<K, V> =
    | PrepareReturns(script: Script<K, V>)
    | SnapshotReturns
    | BackupWritten
    | BackupOmitted
    | NothingToBackUp
    | WriteSentinel(now: int, ok: bool)
    | WriteNext
    | ApplyReturns
    | ClearSentinel(ok: bool)
    | Throws                   // any await of the body rejects
    | Release(ok: bool)
    | Heartbeat(deadline: int)

  function Begin<K, V, P>(disk: map<K, V>, sentinel: Option<Sentinel>, backups: seq<P>, deadline: int): Machine<K, V, P> {
    Machine(disk, sentinel, deadline, backups, Holding, [], 0, None, None, false, Unmarked, false, disk, sentinel)
  }

  predicate Enabled<K, V, P>(cfg: Config<K, V, P>, m: Machine<K, V, P>, e: Event<K, V>) {
    match e
    case PrepareReturns(_) => m.stage == Holding
    case SnapshotReturns => m.stage == Prepared
    case BackupWritten => m.stage == Snapshotted && m.pre.Some? && cfg.meaningful(m.pre.value)
    case BackupOmitted => m.stage == Snapshotted && m.pre.Some? && cfg.meaningful(m.pre.value)
    case NothingToBackUp => m.stage == Snapshotted && m.pre.Some? && !cfg.meaningful(m.pre.value)
    case WriteSentinel(_, _) => m.stage == BackedUp
    case WriteNext => m.stage == Applying && m.done < |m.script|
    case ApplyReturns => m.stage == Applying && m.done == |m.script|
    case ClearSentinel(_) => m.stage == Applied
    case Throws => m.stage in {Holding, Prepared, Snapshotted, Applying}
    case Release(_) => m.stage.Leaving?
    case Heartbeat(_) => !m.stage.Released?
  }

  function Step<K, V, P>(cfg: Config<K, V, P>, m: Machine<K, V, P>, e: Event<K, V>): Machine<K, V, P>
    requires Enabled(cfg, m, e)
  {
    match e
    case PrepareReturns(script) => m.(stage := Prepared, script := script)
    case SnapshotReturns => m.(stage := Snapshotted, pre := Some(cfg.build(m.disk)))
    case BackupWritten => m.(stage := BackedUp, backups := m.backups + [m.pre.value], backupId := Some(|m.backups|))
    case BackupOmitted => m.(stage := BackedUp, omitted := true)
    case NothingToBackUp => m.(stage := BackedUp)
    case WriteSentinel(now, ok) =>
      var record := Sentinel(now, m.backupId);
      if ok then m.(stage := Applying, mark := Marked(record), sentinel := Some(record))
      else m.(stage := Applying, mark := MarkFailed)
    case WriteNext => m.(disk := m.disk[m.script[m.done].0 := m.script[m.done].1], done := m.done + 1)
    case ApplyReturns => m.(stage := Applied)
    case ClearSentinel(ok) =>
      if ok then m.(stage := Leaving(true), sentinel := None, cleared := true) else m.(stage := Leaving(true))
    case Throws => m.(stage := Leaving(false))
    case Release(ok) => m.(stage := Released(m.stage.ok), deadline := if ok then 0 else m.deadline)
    case Heartbeat(deadline) => m.(deadline := deadline)
  }

  ghost predicate Run<K, V, P>(cfg: Config<K, V, P>, ms: seq<Machine<K, V, P>>, es: seq<Event<K, V>>) {
    && |ms| == |es| + 1
    && forall i :: 0 <= i < |es| ==> Enabled(cfg, ms[i], es[i]) && ms[i + 1] == Step(cfg, ms[i], es[i])
  }

  ghost predicate Initial<K, V, P>(m: Machine<K, V, P>) {
    m == Begin(m.disk, m.sentinel, m.backups, m.deadline)
  }

  /** The record names a backup of exactly the pre-apply payload, or there was none to take. */
  ghost predicate NamesBackup<K, V, P>(cfg: Config<K, V, P>, m: Machine<K, V, P>, id: Option<nat>) {
    match id
    case Some(b) => b < |m.backups| && m.backups[b] == cfg.build(m.origin)
    case None => m.omitted || !cfg.meaningful(cfg.build(m.origin))
  }

  /** What is on disk: the part of the script done so far, none of it before the sentinel step. */
  ghost predicate DiskInv<K, V, P>(m: Machine<K, V, P>) {
    && m.done <= |m.script|
    && m.disk == ApplyWrites(m.origin, m.script[..m.done])
    && (m.mark.Unmarked? ==> m.done == 0 && m.stage !in {Applying, Applied})
    && (!m.mark.Unmarked? ==> m.stage.Applying? || m.stage.Applied? || m.stage.Leaving? || m.stage.Released?)
    && (m.stage in {Applied, Leaving(true), Released(true)} ==> m.done == |m.script| && !m.mark.Unmarked?)
  }

  /** What the backup and the sentinel record at each stage. */
  ghost predicate RecordInv<K, V, P>(cfg: Config<K, V, P>, m: Machine<K, V, P>) {
    && (m.cleared ==> m.stage in {Leaving(true), Released(true)})
    && (m.pre.Some? ==> m.pre.value == cfg.build(m.origin))
    && (m.stage.Snapshotted? ==> m.pre.Some?)
    && (m.stage in {Holding, Prepared, Snapshotted} ==> m.backupId == None)
    && (m.stage.BackedUp? || !m.mark.Unmarked? ==> NamesBackup(cfg, m, m.backupId))
    && (m.mark.Marked? ==> m.mark.record.protectiveBackupId == m.backupId)
    && m.sentinel == (if m.cleared then None else if m.mark.Marked? then Some(m.mark.record) else m.sentinelBefore)
  }

  ghost predicate Inv<K, V, P>(cfg: Config<K, V, P>, m: Machine<K, V, P>) {
    DiskInv(m) && RecordInv(cfg, m)
  }

  lemma StepKeepsDisk<K, V, P>(cfg: Config<K, V, P>, m: Machine<K, V, P>, e: Event<K, V>)
    requires DiskInv(m) && Enabled(cfg, m, e)
    ensures DiskInv(Step(cfg, m, e))
  {
    match e
    case WriteNext =>
      var next := m.script[..m.done + 1];
      assert next[..|next| - 1] == m.script[..m.done];
    case PrepareReturns(_) =>
      assert e.script[..0] == [] && m.script[..0] == [];
    case Throws =>
    case _ =>
  }

  lemma StepKeepsRecords<K, V, P>(cfg: Config<K, V, P>, m: Machine<K, V, P>, e: Event<K, V>)
    requires Inv(cfg, m) && Enabled(cfg, m, e)
    ensures RecordInv(cfg, Step(cfg, m, e))
  {
    match e
    case Throws =>
    case Release(_) =>
    case Heartbeat(_) =>
    case WriteSentinel(_, _) =>
    case ClearSentinel(_) =>
    case _ =>
  }

  lemma StepKeepsInv<K, V, P>(cfg: Config<K, V, P>, m: Machine<K, V, P>, e: Event<K, V>)
    requires Inv(cfg, m) && Enabled(cfg, m, e)
    ensures Inv(cfg, Step(cfg, m, e))
  {
    StepKeepsDisk(cfg, m, e);
    StepKeepsRecords(cfg, m, e);
  }

  lemma StepKeepsOrigin<K, V, P>(cfg: Config<K, V, P>, m: Machine<K, V, P>, e: Event<K, V>)
    requires Enabled(cfg, m, e)
    ensures Step(cfg, m, e).origin == m.origin && Step(cfg, m, e).sentinelBefore == m.sentinelBefore
  {
  }

  lemma {:induction false} RunsKeepInv<K, V, P>(cfg: Config<K, V, P>, ms: seq<Machine<K, V, P>>, es: seq<Event<K, V>>, k: nat)
    requires Run(cfg, ms, es) && Initial(ms[0]) && k < |ms|
    ensures Inv(cfg, ms[k])
    ensures ms[k].origin == ms[0].disk && ms[k].sentinelBefore == ms[0].sentinel
  {
    if k > 0 {
      RunsKeepInv(cfg, ms, es, k - 1);
      StepKeepsInv(cfg, ms[k - 1], es[k - 1]);
      StepKeepsOrigin(cfg, ms[k - 1], es[k - 1]);
    }
  }

  function Finished<K, V, P>(m: Machine<K, V, P>): map<K, V> {
    ApplyWrites(m.origin, m.script)
  }

  /** Neither the vault that was there nor the vault that was to be written. */
  ghost predicate Partial<K, V, P>(m: Machine<K, V, P>) {
    m.disk != m.origin && m.disk != Finished(m)
  }

  /**
   At every point of every run, a half-applied vault is flagged: the sentinel
   names a backup of the exact vault before the apply, or none because that
   vault was empty or the bridge answered without one. The only way to be
   half-applied unflagged is that the sentinel write itself failed.
   */
  lemma PartialVaultIsFlagged<K, V, P>(cfg: Config<K, V, P>, ms: seq<Machine<K, V, P>>, es: seq<Event<K, V>>, k: nat)
    requires Run(cfg, ms, es) && Initial(ms[0]) && k < |ms| && Partial(ms[k])
    ensures !ms[k].mark.Unmarked?
    ensures ms[k].mark.Marked? ==> ms[k].sentinel == Some(ms[k].mark.record)
                                   && NamesBackup(cfg, ms[k], ms[k].mark.record.protectiveBackupId)
    ensures ms[k].mark.MarkFailed? ==> ms[k].sentinel == ms[0].sentinel
    ensures NamesBackup(cfg, ms[k], ms[k].backupId)
  {
    RunsKeepInv(cfg, ms, es, k);
    assert ms[k].script[..0] == [] && ms[k].script[..|ms[k].script|] == ms[k].script;
  }

  /** The sentinel write succeeds, and not at the zero of the clock. */
  predicate WritesReadableSentinel<K, V>(e: Event<K, V>) {
    e.WriteSentinel? ==> e.ok && e.now != 0
  }

  lemma OnlyTheSentinelStepMarks<K, V, P>(cfg: Config<K, V, P>, m: Machine<K, V, P>, e: Event<K, V>)
    requires Enabled(cfg, m, e)
    ensures Step(cfg, m, e).mark
         == if e.WriteSentinel? then (if e.ok then Marked(Sentinel(e.now, m.backupId)) else MarkFailed) else m.mark
  {
  }

  lemma {:induction false} MarkIsReadable<K, V, P>(cfg: Config<K, V, P>, ms: seq<Machine<K, V, P>>, es: seq<Event<K, V>>, k: nat)
    requires Run(cfg, ms, es) && Initial(ms[0]) && k < |ms|
    requires forall i :: 0 <= i < k ==> WritesReadableSentinel(es[i])
    ensures !ms[k].mark.MarkFailed? && (ms[k].mark.Marked? ==> ms[k].mark.record.startedAt != 0)
  {
    if k > 0 {
      MarkIsReadable(cfg, ms, es, k - 1);
      assert WritesReadableSentinel(es[k - 1]);
      OnlyTheSentinelStepMarks(cfg, ms[k - 1], es[k - 1]);
    }
  }

  /**
   What the next session may conclude: if it reads no interrupted apply, and
   none was recorded before, the vault is wholly the old one or wholly the new.
   */
  lemma NothingReadMeansWhole<K, V, P>(cfg: Config<K, V, P>, ms: seq<Machine<K, V, P>>, es: seq<Event<K, V>>, k: nat)
    requires Run(cfg, ms, es) && Initial(ms[0]) && k < |ms|
    requires forall i :: 0 <= i < k ==> WritesReadableSentinel(es[i])
    requires ReadInterruptedVaultApply(ms[k].sentinel) == None
    ensures ms[k].disk == ms[0].disk || ms[k].disk == Finished(ms[k])
  {
    if Partial(ms[k]) {
      RunsKeepInv(cfg, ms, es, k);
      PartialVaultIsFlagged(cfg, ms, es, k);
      MarkIsReadable(cfg, ms, es, k);
    } else {
      RunsKeepInv(cfg, ms, es, k);
    }
  }

  /** Whoever fails before the sentinel step leaves the vault and any earlier sentinel alone. */
  lemma EarlyFailureTouchesNothing<K, V, P>(cfg: Config<K, V, P>, ms: seq<Machine<K, V, P>>, es: seq<Event<K, V>>, k: nat)
    requires Run(cfg, ms, es) && Initial(ms[0]) && k < |ms|
    requires forall i :: 0 <= i < k ==> !es[i].WriteSentinel?
    ensures ms[k].disk == ms[0].disk && ms[k].sentinel == ms[0].sentinel
    ensures !ms[k].stage.Released? || !ms[k].stage.ok
  {
    RunsKeepInv(cfg, ms, es, k);
    StaysUnmarked(cfg, ms, es, k);
    assert ms[k].script[..0] == [];
  }

  lemma {:induction false} StaysUnmarked<K, V, P>(cfg: Config<K, V, P>, ms: seq<Machine<K, V, P>>, es: seq<Event<K, V>>, k: nat)
    requires Run(cfg, ms, es) && Initial(ms[0]) && k < |ms|
    requires forall i :: 0 <= i < k ==> !es[i].WriteSentinel?
    ensures ms[k].mark.Unmarked?
  {
    if k > 0 {
      StaysUnmarked(cfg, ms, es, k - 1);
      OnlyTheSentinelStepMarks(cfg, ms[k - 1], es[k - 1]);
    }
  }

  /**
   A released apply either succeeded, with the whole script on disk, or failed;
   a failure after the sentinel step keeps the flag for the next session.
   */
  lemma ReleasedApplyIsSettled<K, V, P>(cfg: Config<K, V, P>, ms: seq<Machine<K, V, P>>, es: seq<Event<K, V>>, k: nat)
    requires Run(cfg, ms, es) && Initial(ms[0]) && k < |ms| && ms[k].stage.Released?
    ensures ms[k].stage.ok ==> ms[k].disk == Finished(ms[k])
    ensures !ms[k].stage.ok && ms[k].mark.Marked? ==> ms[k].sentinel == Some(ms[k].mark.record)
    ensures ms[k].mark.Unmarked? ==> ms[k].disk == ms[0].disk && ms[k].sentinel == ms[0].sentinel
    ensures ms[k].cleared ==> ms[k].stage.ok && ms[k].sentinel == None
  {
    RunsKeepInv(cfg, ms, es, k);
    assert ms[k].script[..0] == [] && ms[k].script[..|ms[k].script|] == ms[k].script;
  }

  predicate Succeeded(stage: Stage) {
    stage == Leaving(true) || stage == Released(true)
  }

  lemma StepToSuccess<K, V, P>(cfg: Config<K, V, P>, m: Machine<K, V, P>, e: Event<K, V>)
    requires RecordInv(cfg, m) && Enabled(cfg, m, e) && Succeeded(Step(cfg, m, e).stage)
    ensures if e.ClearSentinel? then Step(cfg, m, e).cleared == e.ok else Succeeded(m.stage) && Step(cfg, m, e).cleared == m.cleared
  {
  }

  /** An apply that is leaving successfully has tried to clear the sentinel, and `cleared` says whether it could. */
  lemma {:induction false} SuccessTriedToClear<K, V, P>(cfg: Config<K, V, P>, ms: seq<Machine<K, V, P>>, es: seq<Event<K, V>>, k: nat) returns (at: nat)
    requires Run(cfg, ms, es) && Initial(ms[0]) && k < |ms| && Succeeded(ms[k].stage)
    ensures at < k && es[at].ClearSentinel? && ms[k].cleared == es[at].ok
  {
    at := k - 1;
    assert Enabled(cfg, ms[at], es[at]) && ms[k] == Step(cfg, ms[at], es[at]);
    RunsKeepInv(cfg, ms, es, at);
    StepToSuccess(cfg, ms[at], es[at]);
    if !es[at].ClearSentinel? {
      at := SuccessTriedToClear(cfg, ms, es, at);
    }
  }

  /**
   Over every run, an apply that released successfully has removed the sentinel
   if and only if its one removal was accepted; otherwise the flag it set, or
   the one from before if that write failed, is still there.
   */
  lemma SuccessClearsSentinelIff<K, V, P>(cfg: Config<K, V, P>, ms: seq<Machine<K, V, P>>, es: seq<Event<K, V>>, k: nat) returns (at: nat)
    requires Run(cfg, ms, es) && Initial(ms[0]) && k < |ms| && ms[k].stage == Released(true)
    ensures at < k && es[at].ClearSentinel?
    ensures ms[k].sentinel == if es[at].ok then None else if ms[k].mark.Marked? then Some(ms[k].mark.record) else ms[0].sentinel
  {
    at := SuccessTriedToClear(cfg, ms, es, k);
    RunsKeepInv(cfg, ms, es, k);
  }

  /** A meaningful vault is never applied over without a backup, unless the bridge omits it silently. */
  lemma NoApplyWithoutBackup<K, V, P>(cfg: Config<K, V, P>, ms: seq<Machine<K, V, P>>, es: seq<Event<K, V>>, k: nat)
    requires Run(cfg, ms, es) && Initial(ms[0]) && k < |ms|
    requires ms[k].disk != ms[0].disk && cfg.meaningful(cfg.build(ms[0].disk)) && !ms[k].omitted
    ensures cfg.build(ms[0].disk) in ms[k].backups
  {
    RunsKeepInv(cfg, ms, es, k);
    assert ms[k].script[..0] == [];
  }

  /** What is decided outside the code during one protected apply. */
  datatype Faults<K, V> = Faults(
    prepared: Option<Script<K, V>>,
    snapshotOk: bool,
    backupOk: bool,
    bridgeAnswers: bool,
    sentinelOk: bool,
    entryOk: bool,
    lastBeat: Option<int>,   // when a heartbeat last rewrote the deadline, if one did
    applied: nat,            // writes that land before the callback throws or returns
    callbackReturns: bool,
    clearOk: bool,
    releaseOk: bool)

  /** Everything before the sentinel works out. */
  predicate GetsStarted<K, V>(faults: Faults<K, V>, meaningful: bool) {
    faults.prepared.Some? && faults.snapshotOk && (meaningful ==> faults.backupOk)
  }

  predicate Completes<K, V>(faults: Faults<K, V>, meaningful: bool) {
    GetsStarted(faults, meaningful) && |faults.prepared.value| <= faults.applied && faults.callbackReturns
  }

  /** The part of the prepared writes that lands. */
  function Landed<K, V>(faults: Faults<K, V>): Script<K, V>
    requires faults.prepared.Some?
  {
    Taken(faults.prepared.value, faults.applied)
  }

  function Taken<K, V>(script: Script<K, V>, count: nat): Script<K, V> {
    if count < |script| then script[..count] else script
  }

  /** The backup this apply takes, as the index it gets. */
  function BackupTaken<K, V>(faults: Faults<K, V>, meaningful: bool, before: nat): Option<nat> {
    if GetsStarted(faults, meaningful) && meaningful && faults.bridgeAnswers then Some(before) else None
  }

  function DiskAfter<K, V>(faults: Faults<K, V>, meaningful: bool, before: map<K, V>): map<K, V> {
    if GetsStarted(faults, meaningful) then ApplyWrites(before, Landed(faults)) else before
  }

  /** Untouched before the sentinel step, gone after a clean finish, and otherwise naming the backup. */
  function SentinelAfter<K, V>(faults: Faults<K, V>, meaningful: bool, now: int, backup: Option<nat>, before: Option<Sentinel>): Option<Sentinel> {
    if !GetsStarted(faults, meaningful) then before
    else if Completes(faults, meaningful) && faults.clearOk then None
    else if faults.sentinelOk then Some(Sentinel(now, backup)) else before
  }

  /** The steps before the sentinel that can fail, one by one. */
  predicate FailsEarly<K, V>(faults: Faults<K, V>, meaningful: bool) {
    faults.prepared.None? || !faults.snapshotOk || (meaningful && !faults.backupOk)
  }

  /**
   What each combination of faults leaves. A call that fails early changes
   nothing; otherwise as many prepared writes land as the callback gets to, and
   the flag names the backup until a callback that wrote everything and returned
   has had it removed. Only such a callback makes the call succeed.
   */
  lemma OutcomeOfFaults<K, V>(faults: Faults<K, V>, meaningful: bool, now: int, count: nat, disk: map<K, V>, before: Option<Sentinel>)
    ensures FailsEarly(faults, meaningful) ==>
      && !Completes(faults, meaningful) && DiskAfter(faults, meaningful, disk) == disk
      && BackupTaken(faults, meaningful, count) == None
      && SentinelAfter(faults, meaningful, now, BackupTaken(faults, meaningful, count), before) == before
    ensures !FailsEarly(faults, meaningful) ==>
      var script := faults.prepared.value;
      var landed := if faults.applied < |script| then faults.applied else |script|;
      var backup := if meaningful && faults.bridgeAnswers then Some(count) else None;
      var succeeds := landed == |script| && faults.callbackReturns;
      && (Completes(faults, meaningful) <==> succeeds)
      && DiskAfter(faults, meaningful, disk) == ApplyWrites(disk, script[..landed])
      && BackupTaken(faults, meaningful, count) == backup
      && SentinelAfter(faults, meaningful, now, backup, before)
         == if succeeds && faults.clearOk then None else if faults.sentinelOk then Some(Sentinel(now, backup)) else before
  {
    if faults.prepared.Some? {
      assert faults.prepared.value[..|faults.prepared.value|] == faults.prepared.value;
    }
  }

  class VaultStorage<K(==), V, P> {
    const cfg: Config<K, V, P>
    var disk: map<K, V>
    var sentinel: Option<Sentinel>
    var deadline: int
    var backups: seq<P>

    constructor (cfg: Config<K, V, P>, disk: map<K, V>, sentinel: Option<Sentinel>)
      ensures this.cfg == cfg && this.disk == disk && this.sentinel == sentinel && backups == []
    {
      this.cfg, this.disk, this.sentinel, deadline, backups := cfg, disk, sentinel, 0, [];
    }

    ghost predicate Mirrors(m: Machine<K, V, P>)
      reads this
    {
      Inv(cfg, m) && m.disk == disk && m.sentinel == sentinel && m.deadline == deadline && m.backups == backups
    }

    /** The whole of applyProtectedSyncPayload inside withRestoreBarrier. */
    method ApplyProtectedSyncPayload(faults: Faults<K, V>, now: int, holdMs: int) returns (ok: bool, ghost m: Machine<K, V, P>)
      modifies this
      ensures Mirrors(m) && m.stage == Released(ok)
      ensures m.origin == old(disk) && m.sentinelBefore == old(sentinel)
      ensures var meaningful := cfg.meaningful(cfg.build(old(disk)));
        && (ok <==> Completes(faults, meaningful))
        && disk == DiskAfter(faults, meaningful, old(disk))
        && backups == (if BackupTaken(faults, meaningful, |old(backups)|).Some? then old(backups) + [cfg.build(old(disk))] else old(backups))
        && sentinel == SentinelAfter(faults, meaningful, now, BackupTaken(faults, meaningful, |old(backups)|), old(sentinel))
      ensures deadline == if faults.releaseOk then 0
                          else if faults.lastBeat.Some? then faults.lastBeat.value + holdMs
                          else if faults.entryOk then now + holdMs else old(deadline)
    {
      if faults.entryOk {
        deadline := now + holdMs;
      }
      m := Begin(disk, sentinel, backups, deadline);
      assert m.script[..0] == [];
      ok, m := ApplyUnderBarrier(faults, now, m);
      m := ReleaseBarrier(faults, holdMs, m);
    }

    /** The heartbeats that were accepted while the body ran, and the release. */
    method ReleaseBarrier(faults: Faults<K, V>, holdMs: int, ghost m0: Machine<K, V, P>) returns (ghost m: Machine<K, V, P>)
      requires Mirrors(m0) && m0.stage.Leaving?
      modifies this`deadline
      ensures Mirrors(m) && m == m0.(stage := Released(m0.stage.ok), deadline := deadline)
      ensures deadline == if faults.releaseOk then 0
                          else if faults.lastBeat.Some? then faults.lastBeat.value + holdMs else old(deadline)
    {
      m := m0;
      if faults.lastBeat.Some? {
        deadline := faults.lastBeat.value + holdMs;
        StepKeepsInv(cfg, m, Heartbeat(deadline));
        m := Step(cfg, m, Heartbeat(deadline));
      }
      StepKeepsInv(cfg, m, Release(faults.releaseOk));
      m := Step(cfg, m, Release(faults.releaseOk));
      if faults.releaseOk {
        deadline := 0;
      }
    }

    method ApplyUnderBarrier(faults: Faults<K, V>, now: int, ghost m0: Machine<K, V, P>) returns (ok: bool, ghost m: Machine<K, V, P>)
      requires Mirrors(m0) && m0.stage == Holding && m0.mark.Unmarked?
      modifies this`disk, this`sentinel, this`backups
      ensures Mirrors(m) && m.stage == Leaving(ok)
      ensures m.origin == m0.origin && m.sentinelBefore == m0.sentinelBefore && m.deadline == m0.deadline
      ensures var meaningful := cfg.meaningful(cfg.build(old(disk)));
        && (ok <==> Completes(faults, meaningful))
        && disk == DiskAfter(faults, meaningful, old(disk))
        && backups == (if BackupTaken(faults, meaningful, |old(backups)|).Some? then old(backups) + [cfg.build(old(disk))] else old(backups))
        && sentinel == SentinelAfter(faults, meaningful, now, BackupTaken(faults, meaningful, |old(backups)|), old(sentinel))
    {
      var backupId;
      ok, backupId, m := TakeBackup(faults, m0);
      if !ok {
        return;
      }
      ok, m := ApplyMarked(faults, now, backupId, m);
    }

    /** From the sentinel on: mark, run the callback, and clear the mark if it returned. */
    method ApplyMarked(faults: Faults<K, V>, now: int, backupId: Option<nat>, ghost m0: Machine<K, V, P>) returns (ok: bool, ghost m: Machine<K, V, P>)
      requires Mirrors(m0) && m0.stage == BackedUp && m0.done == 0 && m0.backupId == backupId
      requires faults.prepared == Some(m0.script)
      modifies this`disk, this`sentinel
      ensures Mirrors(m) && m.stage == Leaving(ok)
      ensures m.origin == m0.origin && m.sentinelBefore == m0.sentinelBefore && m.deadline == m0.deadline
      ensures ok <==> |faults.prepared.value| <= faults.applied && faults.callbackReturns
      ensures disk == ApplyWrites(old(disk), Landed(faults))
      ensures sentinel == if ok && faults.clearOk then None
                          else if faults.sentinelOk then Some(Sentinel(now, backupId)) else old(sentinel)
    {
      m := MarkInProgress(now, faults.sentinelOk, backupId, m0);
      m := RunCallback(faults.prepared.value, faults.applied, m);
      ok := |faults.prepared.value| <= faults.applied && faults.callbackReturns;
      m := LeaveApply(ok, faults.clearOk, m);
    }

    /** The callback threw, or returned with everything written and the sentinel goes. */
    method LeaveApply(returned: bool, clearOk: bool, ghost m0: Machine<K, V, P>) returns (ghost m: Machine<K, V, P>)
      requires Mirrors(m0) && m0.stage == Applying && (returned ==> m0.done == |m0.script|)
      modifies this`sentinel
      ensures Mirrors(m) && m.stage == Leaving(returned)
      ensures m.origin == m0.origin && m.sentinelBefore == m0.sentinelBefore && m.deadline == m0.deadline
      ensures sentinel == if returned && clearOk then None else old(sentinel)
    {
      if !returned {
        m := Advance(m0, Throws);
        return;
      }
      m := Advance(m0, ApplyReturns);
      m := ClearInterruptedVaultApply(clearOk, m);
    }

    /** Everything before the sentinel: prepare the apply, snapshot the vault, back it up. */
    method TakeBackup(faults: Faults<K, V>, ghost m0: Machine<K, V, P>)
      returns (ok: bool, backupId: Option<nat>, ghost m: Machine<K, V, P>)
      requires Mirrors(m0) && m0.stage == Holding && m0.mark.Unmarked?
      modifies this`backups
      ensures Mirrors(m) && m.mark.Unmarked?
      ensures m.origin == m0.origin && m.sentinelBefore == m0.sentinelBefore && m.deadline == m0.deadline
      ensures m.stage == (if ok then BackedUp else Leaving(false))
      ensures ok ==> faults.prepared.Some? && m.script == faults.prepared.value && m.done == 0 && m.backupId == backupId
      ensures var meaningful := cfg.meaningful(cfg.build(disk));
        && (ok <==> GetsStarted(faults, meaningful))
        && (ok ==> backupId == BackupTaken(faults, meaningful, |old(backups)|))
        && backups == if ok && backupId.Some? then old(backups) + [cfg.build(disk)] else old(backups)
    {
      ok, backupId, m := false, None, m0;
      if faults.prepared.None? {
        m := Advance(m, Throws);
        return;
      }
      m := Advance(m, PrepareReturns(faults.prepared.value));
      if !faults.snapshotOk {
        m := Advance(m, Throws);
        return;
      }
      var pre := cfg.build(disk);
      m := Advance(m, SnapshotReturns);
      ok := true;
      if !cfg.meaningful(pre) {
        m := Advance(m, NothingToBackUp);
      } else if !faults.backupOk {
        ok := false;
        m := Advance(m, Throws);
      } else if !faults.bridgeAnswers {
        m := Advance(m, BackupOmitted);
      } else {
        StepKeepsInv(cfg, m, BackupWritten);
        m := Step(cfg, m, BackupWritten);
        backupId := Some(|backups|);
        backups := backups + [pre];
      }
    }

    method MarkInProgress(now: int, ok: bool, backupId: Option<nat>, ghost m0: Machine<K, V, P>) returns (ghost m: Machine<K, V, P>)
      requires Mirrors(m0) && m0.stage == BackedUp && m0.backupId == backupId
      modifies this`sentinel
      ensures Mirrors(m) && m == Step(cfg, m0, WriteSentinel(now, ok))
      ensures sentinel == if ok then Some(Sentinel(now, backupId)) else old(sentinel)
    {
      StepKeepsInv(cfg, m0, WriteSentinel(now, ok));
      m := Step(cfg, m0, WriteSentinel(now, ok));
      if ok {
        sentinel := Some(Sentinel(now, backupId));
      }
    }

    method ClearInterruptedVaultApply(ok: bool, ghost m0: Machine<K, V, P>) returns (ghost m: Machine<K, V, P>)
      requires Mirrors(m0) && m0.stage == Applied
      modifies this`sentinel
      ensures Mirrors(m) && m == Step(cfg, m0, Event.ClearSentinel(ok))
      ensures sentinel == if ok then None else old(sentinel)
    {
      StepKeepsInv(cfg, m0, Event.ClearSentinel(ok));
      m := Step(cfg, m0, Event.ClearSentinel(ok));
      if ok {
        sentinel := None;
      }
    }

    /** The apply callback: its writes land one by one, and it may stop part-way. */
    method RunCallback(script: Script<K, V>, count: nat, ghost m0: Machine<K, V, P>) returns (ghost m: Machine<K, V, P>)
      requires Mirrors(m0) && m0.stage == Applying && m0.done == 0 && m0.script == script
      modifies this`disk
      ensures Mirrors(m)
      ensures m == m0.(disk := disk, done := if count < |script| then count else |script|)
      ensures disk == ApplyWrites(old(disk), Taken(script, count))
    {
      m := m0;
      var i := 0;
      while i < count && i < |script|
        invariant 0 <= i <= |script| && i <= count
        invariant Mirrors(m) && m == m0.(disk := disk, done := i)
        invariant disk == ApplyWrites(old(disk), script[..i])
      {
        assert script[..i + 1][..i] == script[..i];
        StepKeepsInv(cfg, m, WriteNext);
        m := Step(cfg, m, WriteNext);
        disk := disk[script[i].0 := script[i].1];
        i := i + 1;
      }
      assert script[..|script|] == script;
    }

    /** A step that touches nothing durable. */
    ghost method Advance(m0: Machine<K, V, P>, e: Event<K, V>) returns (m: Machine<K, V, P>)
      requires Mirrors(m0) && Enabled(cfg, m0, e)
      requires var after := Step(cfg, m0, e);
        after.disk == m0.disk && after.sentinel == m0.sentinel && after.deadline == m0.deadline && after.backups == m0.backups
      ensures m == Step(cfg, m0, e) && Mirrors(m)
    {
      StepKeepsInv(cfg, m0, e);
      m := Step(cfg, m0, e);
    }
  }
}
