/**
 The plugin sidecar bridge of application/pluginSyncSidecarBridge.ts: two
 durable slots in front of a plugin host that comes and goes. One operation is
 one whole call; calls are serialised.
 */
module SidecarBridge {
  import opened Prelude

  type Bundle = seq<string>   // the entries; the version is constant

  /** How the host answers an apply call. A call that fails may still have taken effect. */
  datatype ApplyReply =
    | Accepted(merged: Option<Bundle>)
    | Refused
    | ApplyFails(unavailable: bool, tookEffect: bool)

  datatype CollectReply = Gives(bundle: Bundle) | Passive | CollectFails

  /** The host as one operation finds it. */
  datatype Host = Host(canApply: bool, canCollect: bool, onApply: ApplyReply, onCollect: CollectReply)

  /** Whether each storage write of one operation is accepted. */
  datatype Storage = Storage(pendingOk: bool, knownOk: bool, fallbackOk: bool)

  datatype Outcome<T> = Done(value: T) | HostUnavailable | Failed

  // The history of the host: which downloads were queued, which reached it.

  datatype Mark = Queued(download: nat) | Applied(download: nat) | Slipped(download: nat)

  datatype State = State(
    lastKnown: Option<Bundle>,
    pending: Option<Bundle>,
    downloads: seq<Bundle>,       // every bundle an apply was asked for, in order
    pendingFrom: Option<nat>,     // the download the pending slot holds
    log: seq<Mark>)

  datatype Op =
    | Apply(bundle: Bundle, host: Host, storage: Storage)
    | Collect(liveOnly: bool, host: Host, storage: Storage)
    | Commit(synced: Option<Bundle>, storage: Storage)

  const FRESH: State := State(None, None, [], None, [])

  /** Queue a bundle for replay and remember it for uploads; either write may be rejected. */
  function Queue(s: State, bundle: Bundle, storage: Storage): (State, Outcome<()>)
    requires |s.downloads| > 0
  {
    var d := |s.downloads| - 1;
    if !storage.pendingOk then (s, Failed)
    else
      var queued := s.(pending := Some(bundle), pendingFrom := Some(d), log := s.log + [Queued(d)]);
      if !storage.knownOk then (queued, Failed)
      else (queued.(lastKnown := Some(bundle)), HostUnavailable)
  }

  /** What last-known becomes after a successful apply, and whether the call still fails. */
  function Refreshed(s: State, fallback: Bundle, host: Host, storage: Storage): (State, Outcome<()>) {
    var onFallback := if storage.fallbackOk then s.(lastKnown := Some(fallback)) else s;
    if !host.canCollect then
      if storage.knownOk then (s.(lastKnown := Some(fallback)), Done(())) else (s, Failed)
    else if host.onCollect.CollectFails? || !storage.knownOk then (onFallback, Done(()))
    else (s.(lastKnown := Some(if host.onCollect.Gives? then host.onCollect.bundle else fallback)), Done(()))
  }

  function ApplySpec(s: State, bundle: Bundle, host: Host, storage: Storage): (State, Outcome<()>) {
    var asked := s.(downloads := s.downloads + [bundle]);
    var d := |s.downloads|;
    if !host.canApply || host.onApply.Refused? then Queue(asked, bundle, storage)
    else if host.onApply.ApplyFails? then
      (if host.onApply.tookEffect then asked.(log := s.log + [Slipped(d)]) else asked,
       if host.onApply.unavailable then HostUnavailable else Failed)
    else
      Refreshed(asked.(pending := None, pendingFrom := None, log := s.log + [Applied(d)]),
                if host.onApply.merged.Some? then host.onApply.merged.value else bundle, host, storage)
  }

  predicate NonEmpty(b: Option<Bundle>) {
    b.Some? && |b.value| > 0
  }

  /** Collecting from a live host once nothing is pending. */
  function CollectLive(s: State, liveOnly: bool, host: Host, storage: Storage): (State, Outcome<Option<Bundle>>) {
    match host.onCollect
    case CollectFails => (s, Failed)
    case Passive => (s, Done(if liveOnly then None else s.lastKnown))
    case Gives(bundle) =>
      if NonEmpty(s.lastKnown) && bundle == [] then (s, Done(Some(bundle)))
      else if storage.knownOk then (s.(lastKnown := Some(bundle)), Done(Some(bundle)))
      else (s, Failed)
  }

  function Slip(s: State, host: Host): State
    requires host.onApply.ApplyFails?
  {
    if host.onApply.tookEffect && s.pendingFrom.Some? then s.(log := s.log + [Slipped(s.pendingFrom.value)]) else s
  }

  function CollectSpec(s: State, liveOnly: bool, host: Host, storage: Storage): (State, Outcome<Option<Bundle>>) {
    var held := Done(if liveOnly then None else s.pending);
    if !host.canCollect then (s, Done(if liveOnly then None else s.lastKnown))
    else if s.pending.None? then CollectLive(s, liveOnly, host, storage)
    else if !host.canApply || host.onApply.Refused? then (s, held)
    else if host.onApply.ApplyFails? then (Slip(s, host), if host.onApply.unavailable then held else Failed)
    else
      var replayed := s.(pending := None, pendingFrom := None,
                         log := if s.pendingFrom.Some? then s.log + [Applied(s.pendingFrom.value)] else s.log);
      CollectLive(replayed, liveOnly, host, storage)
  }

  function CommitSpec(s: State, bundle: Option<Bundle>, storage: Storage): (State, Outcome<()>) {
    if storage.knownOk then (s.(lastKnown := Some(if bundle.Some? then bundle.value else [])), Done(())) else (s, Failed)
  }

  function Step(s: State, op: Op): State {
    match op
    case Apply(bundle, host, storage) => ApplySpec(s, bundle, host, storage).0
    case Collect(liveOnly, host, storage) => CollectSpec(s, liveOnly, host, storage).0
    case Commit(bundle, storage) => CommitSpec(s, bundle, storage).0
  }

  /** The newest queued download no confirmed apply came after. */
  function Outstanding(log: seq<Mark>): Option<nat> {
    if log == [] then None
    else match log[|log| - 1]
      case Queued(d) => Some(d)
      case Applied(_) => None
      case Slipped(_) => Outstanding(log[..|log| - 1])
  }

  predicate ReachesHost(m: Mark) {
    m.Applied? || m.Slipped?
  }

  /** The host never sees an older download after a newer one. */
  ghost predicate InDownloadOrder(log: seq<Mark>) {
    forall i, j :: 0 <= i < j < |log| && ReachesHost(log[i]) && ReachesHost(log[j]) ==> log[i].download <= log[j].download
  }

  ghost predicate SlotInv(s: State) {
    && s.pendingFrom == Outstanding(s.log)
    && s.pending == (if s.pendingFrom.None? then None
                     else if s.pendingFrom.value < |s.downloads| then Some(s.downloads[s.pendingFrom.value]) else None)
    && (s.pendingFrom.Some? ==> s.pendingFrom.value < |s.downloads|)
    && (forall i :: 0 <= i < |s.log| ==> s.log[i].download < |s.downloads|)
  }

  ghost predicate OrderInv(s: State) {
    && InDownloadOrder(s.log)
    && (s.pendingFrom.Some? ==> forall i :: 0 <= i < |s.log| && ReachesHost(s.log[i]) ==> s.log[i].download <= s.pendingFrom.value)
  }

  lemma OutstandingSnoc(log: seq<Mark>, m: Mark)
    ensures Outstanding(log + [m]) == match m case Queued(d) => Some(d) case Applied(_) => None case Slipped(_) => Outstanding(log)
  {
    assert (log + [m])[..|log|] == log;
  }

  lemma QueueKeepsSlots(s: State, bundle: Bundle, storage: Storage)
    requires SlotInv(s) && |s.downloads| > 0 && s.downloads[|s.downloads| - 1] == bundle
    ensures SlotInv(Queue(s, bundle, storage).0)
  {
    OutstandingSnoc(s.log, Queued(|s.downloads| - 1));
  }

  /** After the newest download of `asked` reached the host, nothing is queued. */
  lemma AppliedKeepsSlots(asked: State, d: nat)
    requires SlotInv(asked) && d < |asked.downloads|
    ensures SlotInv(asked.(pending := None, pendingFrom := None, log := asked.log + [Applied(d)]))
    ensures SlotInv(asked.(log := asked.log + [Slipped(d)]))
  {
    OutstandingSnoc(asked.log, Applied(d));
    OutstandingSnoc(asked.log, Slipped(d));
  }

  lemma ApplyKeepsSlots(s: State, bundle: Bundle, host: Host, storage: Storage)
    requires SlotInv(s)
    ensures SlotInv(ApplySpec(s, bundle, host, storage).0)
  {
    var asked := s.(downloads := s.downloads + [bundle]);
    assert SlotInv(asked);
    QueueKeepsSlots(asked, bundle, storage);
    AppliedKeepsSlots(asked, |s.downloads|);
  }

  lemma CollectKeepsSlots(s: State, liveOnly: bool, host: Host, storage: Storage)
    requires SlotInv(s)
    ensures SlotInv(CollectSpec(s, liveOnly, host, storage).0)
  {
    if s.pendingFrom.Some? {
      AppliedKeepsSlots(s, s.pendingFrom.value);
    }
  }

  /** The pending slot always holds the newest download that was queued and not confirmed since. */
  lemma StepKeepsSlots(s: State, op: Op)
    requires SlotInv(s)
    ensures SlotInv(Step(s, op))
  {
    match op
    case Apply(bundle, host, storage) => ApplyKeepsSlots(s, bundle, host, storage);
    case Collect(liveOnly, host, storage) => CollectKeepsSlots(s, liveOnly, host, storage);
    case Commit(_, _) =>
  }

  /** A new download's failing call takes effect although an older one is still queued. */
  predicate Overtakes(s: State, op: Op) {
    op.Apply? && op.host.canApply && op.host.onApply.ApplyFails? && op.host.onApply.tookEffect && s.pending.Some?
  }

  lemma ApplyKeepsOrderIff(s: State, bundle: Bundle, host: Host, storage: Storage)
    requires SlotInv(s) && OrderInv(s)
    ensures OrderInv(ApplySpec(s, bundle, host, storage).0) <==> !Overtakes(s, Apply(bundle, host, storage))
  {
    var after := ApplySpec(s, bundle, host, storage).0;
    if Overtakes(s, Apply(bundle, host, storage)) {
      assert after.log[|s.log|] == Slipped(|s.downloads|);
      assert after.pendingFrom.value < |s.downloads|;
    }
  }

  lemma CollectKeepsOrder(s: State, liveOnly: bool, host: Host, storage: Storage)
    requires SlotInv(s) && OrderInv(s)
    ensures OrderInv(CollectSpec(s, liveOnly, host, storage).0)
  {
  }

  /** Download order survives a step exactly when the step does not overtake the queue. */
  lemma StepKeepsOrderIff(s: State, op: Op)
    requires SlotInv(s) && OrderInv(s)
    ensures OrderInv(Step(s, op)) <==> !Overtakes(s, op)
  {
    match op
    case Apply(bundle, host, storage) => ApplyKeepsOrderIff(s, bundle, host, storage);
    case Collect(liveOnly, host, storage) => CollectKeepsOrder(s, liveOnly, host, storage);
    case Commit(_, _) =>
  }

  ghost predicate Run(states: seq<State>, ops: seq<Op>) {
    && |states| == |ops| + 1
    && states[0] == FRESH
    && forall i :: 0 <= i < |ops| ==> states[i + 1] == Step(states[i], ops[i])
  }

  /**
   Over every serialised run in which no failing call overtakes the queue, the
   host receives downloads in order and the pending slot holds the newest
   download that was accepted and not applied.
   */
  lemma {:induction false} RunsDeliverInOrder(states: seq<State>, ops: seq<Op>, k: nat)
    requires Run(states, ops) && k <= |ops|
    requires forall i :: 0 <= i < k ==> !Overtakes(states[i], ops[i])
    ensures SlotInv(states[k]) && OrderInv(states[k])
    ensures InDownloadOrder(states[k].log)
    ensures states[k].pendingFrom == Outstanding(states[k].log)
  {
    if k > 0 {
      RunsDeliverInOrder(states, ops, k - 1);
      StepKeepsSlots(states[k - 1], ops[k - 1]);
      StepKeepsOrderIff(states[k - 1], ops[k - 1]);
    }
  }

  /** Overtaking is not harmless: the next successful replay hands the host the older bundle last. */
  lemma OvertakingBreaksOrder(s: State, op: Op, liveOnly: bool, host: Host, storage: Storage)
    requires SlotInv(s) && OrderInv(s) && Overtakes(s, op)
    requires host.canCollect && host.canApply && host.onApply.Accepted?
    ensures !InDownloadOrder(Step(Step(s, op), Collect(liveOnly, host, storage)).log)
  {
    var mid := Step(s, op);
    var after := Step(mid, Collect(liveOnly, host, storage));
    StepKeepsSlots(s, op);
    assert after.log == s.log + [Slipped(|s.downloads|), Applied(s.pendingFrom.value)];
    assert ReachesHost(after.log[|s.log|]) && ReachesHost(after.log[|s.log| + 1]);
  }

  /** A run that breaks the order: queue "a" with the host away, let applying "b" fail after it took effect, then collect. */
  lemma OvertakingRun() returns (states: seq<State>, ops: seq<Op>)
    ensures Run(states, ops) && |ops| == 3 && Overtakes(states[1], ops[1]) && !InDownloadOrder(states[3].log)
    ensures states[3].downloads == [["a"], ["b"]] && states[3].log == [Queued(0), Slipped(1), Applied(0)]
  {
    var works := Storage(true, true, true);
    var away := Host(false, false, Refused, Passive);
    var failing := Host(true, true, ApplyFails(false, true), Passive);
    var up := Host(true, true, Accepted(None), Passive);
    var s1 := State(Some(["a"]), Some(["a"]), [["a"]], Some(0), [Queued(0)]);
    var s2 := s1.(downloads := [["a"], ["b"]], log := [Queued(0), Slipped(1)]);
    var s3 := s2.(pending := None, pendingFrom := None, log := [Queued(0), Slipped(1), Applied(0)]);
    ops := [Apply(["a"], away, works), Apply(["b"], failing, works), Collect(false, up, works)];
    states := [FRESH, s1, s2, s3];
    assert Step(FRESH, ops[0]) == s1 && Step(s1, ops[1]) == s2 && Step(s2, ops[2]) == s3;
    assert ReachesHost(s3.log[1]) && ReachesHost(s3.log[2]);
  }

  /** Collect hands out a live host bundle only once nothing is pending any more. */
  lemma LiveMeansNothingPending(s: State, liveOnly: bool, host: Host, storage: Storage)
    requires SlotInv(s)
    ensures var (after, outcome) := CollectSpec(s, liveOnly, host, storage);
      && (liveOnly && outcome.Done? && outcome.value.Some? ==>
            after.pending == None && host.onCollect == Gives(outcome.value.value))
      && (!liveOnly && outcome.Done? && after.pending.Some? && host.canCollect ==> outcome.value == s.pending == after.pending)
  {
  }

  /** No collect replaces a non-empty last-known bundle by an empty one. */
  lemma CollectKeepsLastKnown(s: State, liveOnly: bool, host: Host, storage: Storage)
    requires NonEmpty(s.lastKnown)
    ensures NonEmpty(CollectSpec(s, liveOnly, host, storage).0.lastKnown)
  {
  }

  /** An upload sees an empty bundle only from a live host, a queued reset, or an empty last-known. */
  lemma EmptyUploadIsAuthoritative(s: State, host: Host, storage: Storage)
    requires SlotInv(s) && CollectSpec(s, false, host, storage).1 == Done(Some([]))
    ensures var after := CollectSpec(s, false, host, storage).0;
      || (host.canCollect && after.pending == None && host.onCollect == Gives([]))
      || s.pending == Some([])
      || s.lastKnown == Some([])
  {
  }

  /** A replay of the queue gets through, or there is nothing to replay. */
  predicate QueueIsClear(s: State, host: Host) {
    s.pending.None? || (host.canApply && host.onApply.Accepted?)
  }

  /** Collecting empties the queue exactly when the host accepts the replay, and leaves it alone otherwise. */
  lemma CollectReplaysIff(s: State, liveOnly: bool, host: Host, storage: Storage)
    requires SlotInv(s)
    ensures CollectSpec(s, liveOnly, host, storage).0.pending == if host.canCollect && QueueIsClear(s, host) then None else s.pending
  {
  }

  /**
   What a collect from a host with a clear queue answers: the host's own bundle,
   for uploads and live collects alike, and last-known becomes that bundle
   unless it would lose its entries. A passive host yields last-known to an
   upload and nothing to a live collect. It fails exactly when the host or the
   write of last-known does.
   */
  lemma LiveBundleIsHandedOut(s: State, liveOnly: bool, host: Host, storage: Storage)
    requires SlotInv(s) && host.canCollect && QueueIsClear(s, host)
    ensures var (after, outcome) := CollectSpec(s, liveOnly, host, storage);
      match host.onCollect
      case Gives(b) =>
        var kept := NonEmpty(s.lastKnown) && b == [];
        && outcome == (if kept || storage.knownOk then Done(Some(b)) else Failed)
        && after.lastKnown == (if !kept && storage.knownOk then Some(b) else s.lastKnown)
      case Passive => outcome == Done(if liveOnly then None else s.lastKnown) && after.lastKnown == s.lastKnown
      case CollectFails => outcome == Failed && after.lastKnown == s.lastKnown
  {
  }

  /**
   What a collect answers without asking the host: last-known when the host is
   away, the queued bundle when its replay is refused or finds the host
   unavailable, nothing of either to a live collect; a replay that fails
   otherwise fails the collect. Last-known stays as it was.
   */
  lemma CollectWithoutHost(s: State, liveOnly: bool, host: Host, storage: Storage)
    requires SlotInv(s) && (!host.canCollect || !QueueIsClear(s, host))
    ensures var (after, outcome) := CollectSpec(s, liveOnly, host, storage);
      && after.lastKnown == s.lastKnown
      && outcome == if !host.canCollect then Done(if liveOnly then None else s.lastKnown)
                    else if host.canApply && host.onApply.ApplyFails? && !host.onApply.unavailable then Failed
                    else Done(if liveOnly then None else s.pending)
  {
  }

  /** The bundle an accepted apply stands for when the host is not asked again: the merged one, or the one sent. */
  function Confirmed(bundle: Bundle, host: Host): Bundle
    requires host.onApply.Accepted?
  {
    if host.onApply.merged.Some? then host.onApply.merged.value else bundle
  }

  /**
   What uploads will see after an apply. Accepted: the host's fresh bundle if it
   gives one and that is stored, otherwise the confirmed bundle if any write of
   it is accepted. Queued: the bundle itself. Failed: what was known before.
   */
  lemma ApplyRemembers(s: State, bundle: Bundle, host: Host, storage: Storage)
    ensures var (after, outcome) := ApplySpec(s, bundle, host, storage);
      if host.canApply && host.onApply.Accepted? then
        var first := (!host.canCollect || host.onCollect.Passive?) && storage.knownOk;
        var second := host.canCollect && storage.fallbackOk;
        && after.pending == None
        && (outcome == Done(()) <==> host.canCollect || storage.knownOk) && (outcome == Done(()) || outcome == Failed)
        && after.lastKnown == if host.canCollect && host.onCollect.Gives? && storage.knownOk then Some(host.onCollect.bundle)
                              else if first || second then Some(Confirmed(bundle, host))
                              else s.lastKnown
      else if host.canApply && host.onApply.ApplyFails? then
        && after.lastKnown == s.lastKnown && after.pending == s.pending
        && outcome == (if host.onApply.unavailable then HostUnavailable else Failed)
      else
        && after.pending == (if storage.pendingOk then Some(bundle) else s.pending)
        && after.lastKnown == (if storage.pendingOk && storage.knownOk then Some(bundle) else s.lastKnown)
        && outcome == (if storage.pendingOk && storage.knownOk then HostUnavailable else Failed)
  {
  }

  /** What applying a payload does with the bridge's errors: host-unavailable is tolerated. */
  function DefaultApply(outcome: Outcome<()>): Outcome<()> {
    if outcome == HostUnavailable then Done(()) else outcome
  }

  /**
   If applying a payload completes, its bundle was applied or is queued. The
   one exception is a host call that itself rejects as unavailable without
   having taken effect: then the bundle is in neither place.
   */
  lemma CompletedApplyIsNotLost(s: State, bundle: Bundle, host: Host, storage: Storage)
    requires SlotInv(s)
    ensures var (after, outcome) := ApplySpec(s, bundle, host, storage);
      var d := |s.downloads|;
      DefaultApply(outcome).Done? ==>
        (after.pendingFrom != Some(d) && Applied(d) !in after.log && Slipped(d) !in after.log
         <==> host.canApply && host.onApply == ApplyFails(true, false))
  {
    var (after, outcome) := ApplySpec(s, bundle, host, storage);
    var d := |s.downloads|;
    assert forall m :: m in s.log ==> m.download != d;
    if |after.log| > |s.log| {
      assert after.log[|s.log|] in after.log;
    }
  }

  /** The content of download `d`, or a newer one that replaced it, reached the host or is still queued. */
  ghost predicate Kept(s: State, d: nat) {
    || (exists i :: 0 <= i < |s.log| && ReachesHost(s.log[i]) && s.log[i].download >= d)
    || (s.pendingFrom.Some? && s.pendingFrom.value >= d)
  }

  lemma StepGrowsLog(s: State, op: Op)
    ensures |s.log| <= |Step(s, op).log| && s.log == Step(s, op).log[..|s.log|]
  {
  }

  lemma StepKeepsKept(s: State, op: Op, d: nat)
    requires SlotInv(s) && d < |s.downloads| && Kept(s, d)
    ensures Kept(Step(s, op), d) && d < |Step(s, op).downloads|
  {
    var after := Step(s, op);
    StepGrowsLog(s, op);
    if i :| 0 <= i < |s.log| && ReachesHost(s.log[i]) && s.log[i].download >= d {
      assert after.log[i] == s.log[i];
    } else if |after.log| > |s.log| {
      assert ReachesHost(after.log[|s.log|]) || after.pendingFrom.Some?;
    }
  }

  lemma CompletedIsKept(s: State, bundle: Bundle, host: Host, storage: Storage)
    requires SlotInv(s) && DefaultApply(ApplySpec(s, bundle, host, storage).1).Done?
    requires !(host.canApply && host.onApply == ApplyFails(true, false))
    ensures Kept(ApplySpec(s, bundle, host, storage).0, |s.downloads|)
  {
    var after := ApplySpec(s, bundle, host, storage).0;
    if |after.log| > |s.log| {
      assert after.log[|s.log|].download == |s.downloads|;
    }
  }

  lemma {:induction false} RunsKeepSlots(states: seq<State>, ops: seq<Op>, k: nat)
    requires Run(states, ops) && k <= |ops|
    ensures SlotInv(states[k])
  {
    if k > 0 {
      RunsKeepSlots(states, ops, k - 1);
      StepKeepsSlots(states[k - 1], ops[k - 1]);
    }
  }

  /**
   Over every serialised run, a download whose apply completed stays accounted
   for ever after: it, or a newer download, reached the host or is queued.
   */
  lemma {:induction false} CompletedDownloadsStayKept(states: seq<State>, ops: seq<Op>, i: nat, k: nat)
    requires Run(states, ops) && i < k <= |ops| && ops[i].Apply?
    requires DefaultApply(ApplySpec(states[i], ops[i].bundle, ops[i].host, ops[i].storage).1).Done?
    requires !(ops[i].host.canApply && ops[i].host.onApply == ApplyFails(true, false))
    ensures |states[i].downloads| < |states[k].downloads| && Kept(states[k], |states[i].downloads|)
  {
    RunsKeepSlots(states, ops, k - 1);
    if k == i + 1 {
      CompletedIsKept(states[i], ops[i].bundle, ops[i].host, ops[i].storage);
    } else {
      CompletedDownloadsStayKept(states, ops, i, k - 1);
      StepKeepsKept(states[k - 1], ops[k - 1], |states[i].downloads|);
    }
  }

  /** A rejected queue write is never mistaken for an unavailable host. */
  lemma RejectedQueueWriteSurfaces(s: State, bundle: Bundle, host: Host, storage: Storage)
    requires !host.canApply || host.onApply.Refused?
    ensures DefaultApply(ApplySpec(s, bundle, host, storage).1).Done? <==> storage.pendingOk && storage.knownOk
    ensures !storage.pendingOk ==> ApplySpec(s, bundle, host, storage).0.pending == s.pending
  {
  }

  /** One provider's result of a sync round; `merged` is present when it carries sidecars. */
  datatype SyncResult = SyncResult(success: bool, merged: Option<Bundle>)

  class Bridge {
    var lastKnown: Option<Bundle>
    var pending: Option<Bundle>
    ghost var downloads: seq<Bundle>
    ghost var pendingFrom: Option<nat>
    ghost var log: seq<Mark>

    ghost function View(): State
      reads this
    {
      State(lastKnown, pending, downloads, pendingFrom, log)
    }

    constructor ()
      ensures View() == FRESH && SlotInv(View())
    {
      lastKnown, pending, downloads, pendingFrom, log := None, None, [], None, [];
    }

    method WriteLastKnown(bundle: Bundle, accepted: bool) returns (ok: bool)
      modifies this`lastKnown
      ensures ok == accepted && lastKnown == if accepted then Some(bundle) else old(lastKnown)
    {
      ok := accepted;
      if accepted {
        lastKnown := Some(bundle);
      }
    }

    method QueueForReplay(bundle: Bundle, storage: Storage) returns (outcome: Outcome<()>)
      requires |downloads| > 0
      modifies this
      ensures (View(), outcome) == Queue(old(View()), bundle, storage)
    {
      if !storage.pendingOk {
        return Failed;
      }
      pending := Some(bundle);
      pendingFrom := Some(|downloads| - 1);
      log := log + [Queued(|downloads| - 1)];
      var ok := WriteLastKnown(bundle, storage.knownOk);
      outcome := if ok then HostUnavailable else Failed;
    }

    method ApplyPluginSyncSidecarsFromHost(bundle: Bundle, host: Host, storage: Storage) returns (outcome: Outcome<()>)
      requires SlotInv(View())
      modifies this
      ensures (View(), outcome) == ApplySpec(old(View()), bundle, host, storage) && SlotInv(View())
    {
      StepKeepsSlots(View(), Apply(bundle, host, storage));
      ghost var d := |downloads|;
      downloads := downloads + [bundle];
      if !host.canApply || host.onApply.Refused? {
        outcome := QueueForReplay(bundle, storage);
        return;
      }
      if host.onApply.ApplyFails? {
        if host.onApply.tookEffect {
          log := log + [Slipped(d)];
        }
        return if host.onApply.unavailable then HostUnavailable else Failed;
      }
      pending, pendingFrom := None, None;
      log := log + [Applied(d)];
      var fallback := if host.onApply.merged.Some? then host.onApply.merged.value else bundle;
      if host.canCollect {
        var refreshed := false;
        if host.onCollect.Gives? {
          refreshed := WriteLastKnown(host.onCollect.bundle, storage.knownOk);
        } else if host.onCollect.Passive? {
          refreshed := WriteLastKnown(fallback, storage.knownOk);
        }
        if !refreshed {
          var _ := WriteLastKnown(fallback, storage.fallbackOk);
        }
        return Done(());
      }
      var ok := WriteLastKnown(fallback, storage.knownOk);
      outcome := if ok then Done(()) else Failed;
    }

    method CollectPluginSyncSidecarsFromHost(liveOnly: bool, host: Host, storage: Storage) returns (outcome: Outcome<Option<Bundle>>)
      requires SlotInv(View())
      modifies this
      ensures (View(), outcome) == CollectSpec(old(View()), liveOnly, host, storage) && SlotInv(View())
      ensures NonEmpty(old(lastKnown)) ==> NonEmpty(lastKnown)
    {
      StepKeepsSlots(View(), Collect(liveOnly, host, storage));
      if !host.canCollect {
        return Done(if liveOnly then None else lastKnown);
      }
      if pending.Some? {
        var held := Done(if liveOnly then None else pending);
        if !host.canApply || host.onApply.Refused? {
          return held;
        }
        if host.onApply.ApplyFails? {
          if host.onApply.tookEffect {
            log := log + [Slipped(pendingFrom.value)];
          }
          return if host.onApply.unavailable then held else Failed;
        }
        log := log + [Applied(pendingFrom.value)];
        pending, pendingFrom := None, None;
      }
      if host.onCollect.CollectFails? {
        return Failed;
      }
      if host.onCollect.Passive? {
        return Done(if liveOnly then None else lastKnown);
      }
      var normalized := host.onCollect.bundle;
      if !(NonEmpty(lastKnown) && normalized == []) {
        var ok := WriteLastKnown(normalized, storage.knownOk);
        if !ok {
          return Failed;
        }
      }
      return Done(Some(normalized));
    }

    /**
     After a sync round: the first result that carries merged sidecars decides
     what becomes last-known, otherwise the uploaded payload's own; nothing is
     committed when no provider succeeded or nobody carries sidecars.
     */
    method CommitPluginSidecarsAfterSuccessfulSync(payload: Option<Bundle>, results: seq<SyncResult>, storage: Storage)
      returns (outcome: Outcome<()>)
      modifies this`lastKnown
      ensures (forall i :: 0 <= i < |results| ==> !results[i].success) ==> lastKnown == old(lastKnown) && outcome == Done(())
      ensures (exists i :: 0 <= i < |results| && results[i].success) ==>
        forall m :: 0 <= m < |results| && results[m].merged.Some? && (forall j :: 0 <= j < m ==> results[j].merged.None?) ==>
          lastKnown == (if storage.knownOk then results[m].merged else old(lastKnown)) && outcome.Done? == storage.knownOk
      ensures (exists i :: 0 <= i < |results| && results[i].success) && (forall j :: 0 <= j < |results| ==> results[j].merged.None?) ==>
        lastKnown == (if payload.Some? && storage.knownOk then payload else old(lastKnown))
        && (outcome.Done? <==> payload.None? || storage.knownOk)
      ensures View() == old(View()) || exists b :: View() == Step(old(View()), Commit(b, storage))
    {
      var succeeded, i := false, 0;
      while i < |results|
        invariant 0 <= i <= |results|
        invariant succeeded <==> exists k :: 0 <= k < i && results[k].success
      {
        succeeded := succeeded || results[i].success;
        i := i + 1;
      }
      if !succeeded {
        return Done(());
      }
      var commit := payload;
      i := 0;
      while i < |results| && results[i].merged.None?
        invariant 0 <= i <= |results|
        invariant forall j :: 0 <= j < i ==> results[j].merged.None?
      {
        i := i + 1;
      }
      if i < |results| {
        commit := results[i].merged;
      }
      if commit.None? {
        return Done(());
      }
      var ok := WriteLastKnown(commit.value, storage.knownOk);
      assert View() == Step(old(View()), Commit(commit, storage));
      outcome := if ok then Done(()) else Failed;
    }
  }
}
