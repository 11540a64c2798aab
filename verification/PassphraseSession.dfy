/**
 The module-level state of application/defaultKeyPassphrases.ts as an object:
 the stored record, the promise chain and the loads in flight. Each method is
 one stretch of the source between two awaits. `RunSession` drives an object
 through any sequence of them and shows that it stays on a run of the protocol.
 */
module PassphraseSession {
  import opened Prelude
  import opened PassphraseStore
  import opened PassphraseProtocol

  class Session {
    const record: PassphraseRecord
    var jobs: seq<Job>
    var queueTail: Option<nat>
    var loads: seq<Load>
    // Bookkeeping of the model, which orders snapshots against writes.
    var clock: nat
    ghost var writtenAt: map<Path, nat>
    ghost var commits: seq<nat>

    ghost function View(): World
      reads this, record
    {
      World(record.stored, jobs, queueTail, loads, clock, writtenAt, commits)
    }

    constructor (record: PassphraseRecord)
      ensures this.record == record && Initial(View()) && View().stored == record.stored
    {
      this.record := record;
      jobs, queueTail, loads := [], None, [];
      clock, writtenAt, commits := 0, map[], [];
    }

    /** Chains a mutation behind the one submitted before it. */
    method RunPassphraseMutation() returns (job: nat)
      modifies this
      ensures View() == Step(record.key, old(View()), Submit) && job == |old(jobs)|
    {
      job := |jobs|;
      jobs := jobs + [Job(queueTail, Waiting)];
      queueTail := Some(job);
      clock := clock + 1;
    }

    method MutationStarts(job: nat)
      requires Enabled(View(), Start(job))
      modifies this
      ensures View() == Step(record.key, old(View()), Start(job))
    {
      jobs := jobs[job := jobs[job].(status := Running)];
      clock := clock + 1;
    }

    method MutationSaves(job: nat, keyPath: Path, encrypted: Cipher, aliasKeys: set<string>)
      requires Enabled(View(), Commit(job, SaveEntry(keyPath, encrypted, aliasKeys)))
      modifies this, record
      ensures View() == Step(record.key, old(View()), Commit(job, SaveEntry(keyPath, encrypted, aliasKeys)))
    {
      record.WriteUnlocked(keyPath, encrypted, aliasKeys);
      jobs := jobs[job := jobs[job].(status := Wrote)];
      commits := commits + [job];
      writtenAt := writtenAt[keyPath := clock];
      clock := clock + 1;
    }

    method MutationRemoves(job: nat, pathKeys: set<string>)
      requires Enabled(View(), Commit(job, RemoveEntries(pathKeys)))
      modifies this, record
      ensures View() == Step(record.key, old(View()), Commit(job, RemoveEntries(pathKeys)))
    {
      record.RemoveUnlocked(pathKeys);
      jobs := jobs[job := jobs[job].(status := Wrote)];
      commits := commits + [job];
      clock := clock + 1;
    }

    method MutationSettles(job: nat)
      requires Enabled(View(), Settle(job))
      modifies this
      ensures View() == Step(record.key, old(View()), Settle(job))
    {
      jobs := jobs[job := jobs[job].(status := Settled)];
      clock := clock + 1;
    }

    method LoadBegins(keyPath: Path) returns (load: nat)
      modifies this
      ensures View() == Step(record.key, old(View()), StartLoad(keyPath)) && load == |old(loads)|
    {
      load := |loads|;
      loads := loads + [Load(keyPath, 0, Idle)];
      clock := clock + 1;
    }

    method LoadReadsSnapshot(load: nat)
      requires Enabled(View(), TakeSnapshot(load))
      modifies this
      ensures View() == Step(record.key, old(View()), TakeSnapshot(load))
    {
      var phase := if record.stored.None? then Returned(None) else Resolving(record.stored.value, clock);
      loads := loads[load := loads[load].(phase := phase)];
      clock := clock + 1;
    }

    /** Filters the stored paths of the class in record order, and moves the exact path to the front. */
    method SelectPaths(keyPath: Path, aliasKeys: set<string>, order: seq<Path>) returns (paths: seq<Path>)
      ensures paths == PathsToTry(order, keyPath, record.key, aliasKeys)
    {
      paths := [];
      var i, exactIndex := |order|, -1;
      while i > 0
        invariant 0 <= i <= |order|
        invariant paths == FilterMatching(order[i..], record.key, aliasKeys)
        invariant exactIndex == IndexOf(paths, keyPath)
      {
        i := i - 1;
        assert order[i..][1..] == order[i + 1..];
        if record.key(order[i]) in aliasKeys {
          paths := [order[i]] + paths;
          exactIndex := if order[i] == keyPath then 0 else if exactIndex < 0 then -1 else exactIndex + 1;
        }
      }
      if exactIndex > 0 {
        paths := [paths[exactIndex]] + paths[..exactIndex] + paths[exactIndex + 1..];
      }
    }

    /** The aliases arrived: pick the stored spellings to try; without any the load is done. */
    method LoadResolves(load: nat, aliasKeys: set<string>, order: seq<Path>)
      requires Enabled(View(), Resolve(load, aliasKeys, order))
      modifies this
      ensures View() == Step(record.key, old(View()), Resolve(load, aliasKeys, order))
    {
      var next := Scan(loads[load], aliasKeys, order);
      loads := loads[load := next];
      clock := clock + 1;
    }

    method Scan(load: Load, aliasKeys: set<string>, order: seq<Path>) returns (next: Load)
      requires load.phase.Resolving?
      ensures next == Resolved(record.key, load, aliasKeys, order)
    {
      var paths := SelectPaths(load.keyPath, aliasKeys, order);
      next := load.(phase := if |paths| == 0 then Returned(None)
                             else Scanning(load.phase.snapshot, load.phase.snapAt, aliasKeys, paths, 0));
    }

    /** One decryption came back: go on, or compare and clean up, or start over. */
    method LoadDecrypts(load: nat, usable: Option<string>)
      requires Enabled(View(), Decrypt(load, usable))
      modifies this, record
      ensures View() == Step(record.key, old(View()), Decrypt(load, usable))
    {
      var ph := loads[load].phase;
      clock := clock + 1;
      if usable.None? && ph.next + 1 < |ph.paths| {
        loads := loads[load := loads[load].(phase := ph.(next := ph.next + 1))];
        return;
      }
      var retry;
      if usable.Some? {
        retry := record.FinishReadable(ph.snapshot, ph.aliasKeys, ph.paths, ph.paths[ph.next]);
      } else {
        var invalid := map p | p in ph.snapshot && p in ph.paths :: ph.snapshot[p];
        retry := record.FinishInvalid(ph.snapshot, ph.aliasKeys, invalid);
      }
      var next := loads[load].(phase := Returned(usable));
      if retry {
        next := if loads[load].attempt < 2
                then loads[load].(attempt := loads[load].attempt + 1, phase := Idle)
                else loads[load].(phase := Returned(None));
      }
      loads := loads[load := next];
    }

    method LoadThrows(load: nat)
      requires Enabled(View(), DecryptFails(load))
      modifies this
      ensures View() == Step(record.key, old(View()), DecryptFails(load))
    {
      loads := loads[load := loads[load].(phase := Threw)];
      clock := clock + 1;
    }

    /** Whether the stretch of code behind an event can run now. */
    method CanRun(e: Event) returns (can: bool)
      ensures can <==> Enabled(View(), e)
    {
      match e
      case Submit => return true;
      case Start(j) =>
        if |jobs| <= j || jobs[j].status != Waiting {
          return false;
        }
        can := jobs[j].after.None? || (jobs[j].after.value < |jobs| && jobs[jobs[j].after.value].status == Settled);
      case Commit(j, _) => return j < |jobs| && jobs[j].status == Running;
      case Settle(j) => return j < |jobs| && (jobs[j].status == Running || jobs[j].status == Wrote);
      case StartLoad(_) => return true;
      case TakeSnapshot(l) => return l < |loads| && loads[l].phase.Idle?;
      case Resolve(l, _, order) =>
        if |loads| <= l || !loads[l].phase.Resolving? {
          return false;
        }
        var snapshot := loads[l].phase.snapshot;
        can := PathSet(order) == snapshot.Keys && forall i, j | 0 <= i < |order| && i < j < |order| :: order[i] != order[j];
        assert forall p :: p in PathSet(order) <==> p in order;
        assert PathSet(order) == snapshot.Keys <==> forall p :: p in order <==> p in snapshot;
      case Decrypt(l, _) =>
        return l < |loads| && loads[l].phase.Scanning? && loads[l].phase.next < |loads[l].phase.paths|;
      case DecryptFails(l) => return l < |loads| && loads[l].phase.Scanning?;
    }

    method Perform(e: Event)
      requires Enabled(View(), e)
      modifies this, record
      ensures View() == Step(record.key, old(View()), e)
    {
      match e
      case Submit => var _ := RunPassphraseMutation();
      case Start(j) => MutationStarts(j);
      case Commit(j, SaveEntry(path, encrypted, aliasKeys)) => MutationSaves(j, path, encrypted, aliasKeys);
      case Commit(j, RemoveEntries(pathKeys)) => MutationRemoves(j, pathKeys);
      case Settle(j) => MutationSettles(j);
      case StartLoad(keyPath) => var _ := LoadBegins(keyPath);
      case TakeSnapshot(l) => LoadReadsSnapshot(l);
      case Resolve(l, aliasKeys, order) => LoadResolves(l, aliasKeys, order);
      case Decrypt(l, usable) => LoadDecrypts(l, usable);
      case DecryptFails(l) => LoadThrows(l);
    }
  }

  /**
   Drives a fresh object over a record through the given events for as long as
   the next one can happen. What the object went through is a run of the
   protocol from its start, so everything proved of runs holds of the object.
   */
  method RunSession(record: PassphraseRecord, events: seq<Event>) returns (session: Session, performed: nat, ghost ws: seq<World>)
    modifies record
    ensures fresh(session) && session.record == record && performed <= |events|
    ensures Run(record.key, ws, events[..performed]) && Initial(ws[0]) && ws[0].stored == old(record.stored)
    ensures ws[performed] == session.View()
    ensures performed < |events| ==> !Enabled(session.View(), events[performed])
    ensures QueueInv(session.View()) && StoreInv(record.key, session.View())
    ensures forall i, j :: InProgress(session.View(), i) && InProgress(session.View(), j) ==> i == j
  {
    session := new Session(record);
    performed, ws := 0, [session.View()];
    while performed < |events|
      invariant performed <= |events| && fresh(session) && session.record == record
      invariant Run(record.key, ws, events[..performed]) && Initial(ws[0]) && ws[0].stored == old(record.stored)
      invariant ws[performed] == session.View()
    {
      var e := events[performed];
      var can := session.CanRun(e);
      if !can {
        break;
      }
      session.Perform(e);
      assert events[..performed + 1] == events[..performed] + [e];
      RunExtends(record.key, ws, events[..performed], e, session.View());
      ws := ws + [session.View()];
      performed := performed + 1;
    }
    MutationsRunInOrder(record.key, ws, events[..performed], performed);
    RunsKeepStoreInv(record.key, ws, events[..performed], performed);
  }
}
