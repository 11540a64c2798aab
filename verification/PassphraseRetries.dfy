/**
 When a load gives up and when it starts over. An attempt that ends over a
 changed class is repeated, up to three of them; the lemmas count those
 attempts in the run itself and say what every empty answer goes back to.
 */
module PassphraseRetries {
  import opened Prelude
  import opened PassphraseStore
  import opened PassphraseProtocol
  import opened PassphraseAliases
  import opened PassphraseSafety

  predicate Unfinished(w: World, l: nat) {
    l < |w.loads| && !w.loads[l].phase.Returned? && !w.loads[l].phase.Threw?
  }

  /** The event ends an attempt of load `l`, and its class is not what the attempt's snapshot held. */
  predicate EndsOverChange(key: PathKey, w: World, e: Event, l: nat)
    requires Enabled(w, e)
  {
    && e.Decrypt? && e.load == l
    && (e.usable.Some? || w.loads[l].phase.next + 1 == |w.loads[l].phase.paths|)
    && EntriesChanged(w.loads[l].phase.snapshot, Contents(w.stored), key, w.loads[l].phase.aliasKeys)
  }

  /** How many attempts of load `l` have ended over a changed class before event `k`. */
  function ChangedEnds(key: PathKey, ws: seq<World>, es: seq<Event>, k: nat, l: nat): nat
    requires Run(key, ws, es) && k <= |es|
  {
    if k == 0 then 0
    else ChangedEnds(key, ws, es, k - 1, l) + if EndsOverChange(key, ws[k - 1], es[k - 1], l) then 1 else 0
  }

  lemma LoadsAreKept(key: PathKey, w: World, e: Event)
    requires Enabled(w, e)
    ensures |w.loads| <= |Step(key, w, e).loads|
    ensures forall l :: 0 <= l < |w.loads| ==> Step(key, w, e).loads[l].keyPath == w.loads[l].keyPath
  {
  }

  lemma {:induction false} NoEndsBeforeStart(key: PathKey, ws: seq<World>, es: seq<Event>, k: nat, l: nat)
    requires Run(key, ws, es) && k <= |es| && l >= |ws[k].loads|
    ensures ChangedEnds(key, ws, es, k, l) == 0
  {
    if k > 0 {
      LoadsAreKept(key, ws[k - 1], es[k - 1]);
      NoEndsBeforeStart(key, ws, es, k - 1, l);
    }
  }

  lemma StepCountsAttempts(key: PathKey, w: World, e: Event, l: nat)
    requires Enabled(w, e) && Unfinished(Step(key, w, e), l)
    ensures l < |w.loads| ==> Unfinished(w, l)
    ensures Step(key, w, e).loads[l].attempt
         == if l >= |w.loads| then 0 else w.loads[l].attempt + if EndsOverChange(key, w, e, l) then 1 else 0
  {
  }

  lemma {:induction false} AttemptsAreCounted(key: PathKey, ws: seq<World>, es: seq<Event>, k: nat, l: nat)
    requires Run(key, ws, es) && Initial(ws[0]) && k <= |es| && Unfinished(ws[k], l)
    ensures ws[k].loads[l].attempt == ChangedEnds(key, ws, es, k, l) <= 2
  {
    RunsKeepStoreInv(key, ws, es, k);
    assert LoadInv(key, ws[k], ws[k].loads[l]);
    StepCountsAttempts(key, ws[k - 1], es[k - 1], l);
    if l < |ws[k - 1].loads| {
      AttemptsAreCounted(key, ws, es, k - 1, l);
    } else {
      NoEndsBeforeStart(key, ws, es, k - 1, l);
    }
  }

  /** The event shows load `l` that nothing is stored under its class. */
  ghost predicate FindsNothing(key: PathKey, w: World, e: Event, l: nat)
    requires Enabled(w, e)
  {
    || (e == TakeSnapshot(l) && w.stored.None?)
    || (e.Resolve? && e.load == l && Matching(w.loads[l].phase.snapshot, key, e.aliasKeys) == {})
  }

  lemma ResolvedIff(key: PathKey, w: World, e: Event)
    requires Enabled(w, e) && e.Resolve?
    ensures Resolved(key, w.loads[e.load], e.aliasKeys, e.order).phase == Returned(None)
        <==> Matching(w.loads[e.load].phase.snapshot, key, e.aliasKeys) == {}
  {
    var paths := PathsToTry(e.order, w.loads[e.load].keyPath, key, e.aliasKeys);
    assert forall p :: p in paths <==> p in Matching(w.loads[e.load].phase.snapshot, key, e.aliasKeys);
    if paths != [] {
      assert paths[0] in paths;
    }
  }

  lemma EmptyAnswerAt(key: PathKey, w: World, e: Event, l: nat)
    requires StoreInv(key, w) && Enabled(w, e) && Unfinished(w, l)
    ensures Step(key, w, e).loads[l].phase == Returned(None)
        <==> || FindsNothing(key, w, e, l)
             || (CleansUp(key, w, e) && e.load == l && e.usable.None?)
             || (EndsOverChange(key, w, e, l) && w.loads[l].attempt == 2)
    ensures EndsOverChange(key, w, e, l) && w.loads[l].attempt < 2 ==> Step(key, w, e).loads[l].phase == Idle
  {
    assert LoadInv(key, w, w.loads[l]);
    match e
    case Resolve(m, aliasKeys, order) =>
      if m == l {
        ResolvedIff(key, w, e);
      }
    case _ =>
  }

  /**
   Over every run, an event makes a load answer null if and only if it shows
   that nothing is stored under the load's class, or it is a clean-up after
   which nothing was usable, or it is the third of the load's own attempts to
   end over a changed class. After the first and the second the load starts over.
   */
  lemma EmptyAnswerIff(key: PathKey, ws: seq<World>, es: seq<Event>, k: nat, l: nat)
    requires Run(key, ws, es) && Initial(ws[0]) && k < |es| && Unfinished(ws[k], l)
    ensures ws[k + 1].loads[l].phase == Returned(None)
        <==> || FindsNothing(key, ws[k], es[k], l)
             || (CleansUp(key, ws[k], es[k]) && es[k].load == l && es[k].usable.None?)
             || (EndsOverChange(key, ws[k], es[k], l) && ChangedEnds(key, ws, es, k + 1, l) == 3)
    ensures EndsOverChange(key, ws[k], es[k], l) && ChangedEnds(key, ws, es, k + 1, l) < 3 ==> ws[k + 1].loads[l].phase == Idle
  {
    RunsKeepStoreInv(key, ws, es, k);
    AttemptsAreCounted(key, ws, es, k, l);
    EmptyAnswerAt(key, ws[k], es[k], l);
  }

  // What an attempt reads.

  /** Load `l` took its last snapshot before `k` at event `at`. */
  ghost predicate LastSnapshot(es: seq<Event>, at: nat, k: nat, l: nat) {
    at < k <= |es| && es[at] == TakeSnapshot(l) && forall m :: at < m < k ==> es[m] != TakeSnapshot(l)
  }

  predicate HoldsSnapshot(load: Load) {
    load.phase.Resolving? || load.phase.Scanning?
  }

  lemma StepKeepsSnapshot(key: PathKey, w: World, e: Event, l: nat)
    requires Enabled(w, e) && l < |Step(key, w, e).loads| && HoldsSnapshot(Step(key, w, e).loads[l])
    ensures l < |w.loads|
    ensures e == TakeSnapshot(l) ==> w.stored == Some(Step(key, w, e).loads[l].phase.snapshot)
    ensures e != TakeSnapshot(l) ==> HoldsSnapshot(w.loads[l]) && w.loads[l].phase.snapshot == Step(key, w, e).loads[l].phase.snapshot
  {
    match e
    case TakeSnapshot(_) =>
    case Resolve(_, _, _) =>
    case Decrypt(_, _) =>
    case DecryptFails(_) =>
    case _ =>
  }

  /** What an unfinished attempt reads is the whole record as it was when the load last looked. */
  lemma {:induction false} SnapshotWasStored(key: PathKey, ws: seq<World>, es: seq<Event>, k: nat, l: nat) returns (at: nat)
    requires Run(key, ws, es) && Initial(ws[0]) && k <= |es| && l < |ws[k].loads| && HoldsSnapshot(ws[k].loads[l])
    ensures LastSnapshot(es, at, k, l) && ws[at].stored == Some(ws[k].loads[l].phase.snapshot)
  {
    StepKeepsSnapshot(key, ws[k - 1], es[k - 1], l);
    if es[k - 1] == TakeSnapshot(l) {
      at := k - 1;
    } else {
      at := SnapshotWasStored(key, ws, es, k - 1, l);
    }
  }

  /** No entry of the class can be read: it decrypts to nothing, to an empty text, or to another placeholder. */
  ghost predicate AllUnreadable(key: PathKey, crypto: Crypto, store: Store, aliasKeys: set<string>) {
    forall p :: p in Matching(store, key, aliasKeys) ==>
      var plain := crypto.decrypt(store[p]);
      plain in {None, Some("")} || crypto.isPlaceholder(plain.value)
  }

  /**
   Over every run, what an empty answer goes back to: the record as the load
   last saw it had no entry of the class; or the class is still as it was then
   and no entry of it can be read; or the class changed during three attempts.
   */
  lemma EmptyAnswerMeans(key: PathKey, crypto: Crypto, ws: seq<World>, es: seq<Event>, k: nat, l: nat) returns (at: nat)
    requires Run(key, ws, es) && Initial(ws[0]) && DecryptsAll(crypto, key, ws, es) && k < |es| && Unfinished(ws[k], l)
    requires ws[k + 1].loads[l].phase == Returned(None)
    ensures LastSnapshot(es, at, k + 1, l)
    ensures || (at == k && ws[at].stored.None?)
            || (es[k].Resolve? && es[k].load == l && Matching(Contents(ws[at].stored), key, es[k].aliasKeys) == {})
            || (ws[k].loads[l].phase.Scanning?
                && !EntriesChanged(Contents(ws[at].stored), Contents(ws[k].stored), key, ws[k].loads[l].phase.aliasKeys)
                && AllUnreadable(key, crypto, Contents(ws[k].stored), ws[k].loads[l].phase.aliasKeys))
            || ChangedEnds(key, ws, es, k + 1, l) == 3
  {
    EmptyAnswerIff(key, ws, es, k, l);
    RunsKeepStoreInv(key, ws, es, k);
    if es[k] == TakeSnapshot(l) {
      at := k;
      return;
    }
    at := SnapshotWasStored(key, ws, es, k, l);
    if CleansUp(key, ws[k], es[k]) {
      RunsKeepPassedOver(key, crypto, ws, es, k, l);
      assert Decrypts(crypto, ws[k], es[k]);
      forall p | p in Matching(Contents(ws[k].stored), key, ws[k].loads[l].phase.aliasKeys)
        ensures var plain := crypto.decrypt(Contents(ws[k].stored)[p]);
          plain in {None, Some("")} || crypto.isPlaceholder(plain.value)
      {
        if Usable(crypto, Contents(ws[k].stored)[p]).Some? {
          ReadableIsFound(key, crypto, ws[k], es[k], p);
        }
      }
    }
  }

  // Loads that are under way when a save happens.

  /** The load has still to look at the record, or sees the save, or sees some older state of the class it will find changed. */
  ghost predicate CatchesUp(key: PathKey, K: set<string>, load: Load, p: Path, encrypted: Cipher, secret: string) {
    || SeesSave(key, K, load, p, encrypted, secret)
    || (load.phase.Resolving? && Matching(load.phase.snapshot, key, K) != {})
    || (load.phase.Scanning? && load.phase.aliasKeys == K)
  }

  lemma StepCatchesUp(key: PathKey, K: set<string>, w: World, e: Event, l: nat, p: Path, encrypted: Cipher, secret: string)
    requires StoreInv(key, w) && Lookup(Contents(w.stored), p) == Some(encrypted) && Matching(Contents(w.stored), key, K) == {p}
    requires Enabled(w, e) && ReadsAs(w, e, p, encrypted, secret) && (e.Resolve? && e.load == l ==> e.aliasKeys == K)
    requires l < |w.loads| && CatchesUp(key, K, w.loads[l], p, encrypted, secret)
    requires EndsOverChange(key, w, e, l) ==> w.loads[l].attempt < 2
    ensures l < |Step(key, w, e).loads| && CatchesUp(key, K, Step(key, w, e).loads[l], p, encrypted, secret)
  {
    assert LoadInv(key, w, w.loads[l]);
    if SeesSave(key, K, w.loads[l], p, encrypted, secret) {
      StepKeepsSeeing(key, K, w, e, l, p, encrypted, secret);
    } else if e.Resolve? && e.load == l {
      ResolvedIff(key, w, e);
    } else if e.Decrypt? && e.load == l {
      StaleAttemptEnds(key, K, w, e, l, p, encrypted, secret);
    }
  }

  /** An attempt over an older state of the class moves on, or starts over, or has the saved text after all. */
  lemma StaleAttemptEnds(key: PathKey, K: set<string>, w: World, e: Event, l: nat, p: Path, encrypted: Cipher, secret: string)
    requires StoreInv(key, w) && Lookup(Contents(w.stored), p) == Some(encrypted) && Matching(Contents(w.stored), key, K) == {p}
    requires Enabled(w, e) && ReadsAs(w, e, p, encrypted, secret) && e.Decrypt? && e.load == l
    requires w.loads[l].phase.aliasKeys == K && (EndsOverChange(key, w, e, l) ==> w.loads[l].attempt < 2)
    ensures CatchesUp(key, K, Step(key, w, e).loads[l], p, encrypted, secret)
  {
    var ph := w.loads[l].phase;
    assert LoadInv(key, w, w.loads[l]);
    if CleansUp(key, w, e) {
      UnchangedSingleton(ph.snapshot, Contents(w.stored), key, K, p);
      assert ph.paths[ph.next] in ph.paths;
      assert ph.paths[ph.next] in Matching(ph.snapshot, key, K);
      assert Tries(w, e, p, encrypted);
    }
  }

  /** From event `i` on, load `l` resolves its aliases to `K`, and what it is scanning then is `K` already. */
  ghost predicate ResolvesTo(K: set<string>, ws: seq<World>, es: seq<Event>, i: nat, l: nat)
    requires |ws| == |es| + 1 && i < |es| && l < |ws[i].loads|
  {
    && (ws[i].loads[l].phase.Scanning? ==> ws[i].loads[l].phase.aliasKeys == K)
    && forall m :: i < m < |es| && es[m].Resolve? && es[m].load == l ==> es[m].aliasKeys == K
  }

  /** A load whose snapshot has no entry of the class answers null when its aliases arrive, whatever is stored by then. */
  predicate SawNothing(key: PathKey, K: set<string>, load: Load) {
    load.phase.Resolving? && Matching(load.phase.snapshot, key, K) == {}
  }

  /** The save itself leaves every load where it was. */
  lemma SaveCatchesUp(key: PathKey, K: set<string>, w: World, e: Event, l: nat, secret: string)
    requires Enabled(w, e) && e.Commit? && e.write.SaveEntry? && Unfinished(w, l)
    requires w.loads[l].phase.Scanning? ==> w.loads[l].phase.aliasKeys == K
    requires !SawNothing(key, K, w.loads[l])
    ensures l < |Step(key, w, e).loads| && CatchesUp(key, K, Step(key, w, e).loads[l], e.write.path, e.write.encrypted, secret)
  {
  }

  lemma AttemptsLeft(key: PathKey, ws: seq<World>, es: seq<Event>, k: nat, l: nat)
    requires Run(key, ws, es) && Initial(ws[0]) && k < |es| && l < |ws[k].loads| && ChangedEnds(key, ws, es, k + 1, l) < 3
    ensures EndsOverChange(key, ws[k], es[k], l) ==> ws[k].loads[l].attempt < 2
    ensures ChangedEnds(key, ws, es, k, l) < 3
  {
    assert ChangedEnds(key, ws, es, k + 1, l) == ChangedEnds(key, ws, es, k, l) + if EndsOverChange(key, ws[k], es[k], l) then 1 else 0;
    if Unfinished(ws[k], l) {
      AttemptsAreCounted(key, ws, es, k, l);
    }
  }

  lemma {:induction false} LoadUnderWayCatchesUp(key: PathKey, K: set<string>, ws: seq<World>, es: seq<Event>, i: nat, k: nat, l: nat, secret: string)
    requires Run(key, ws, es) && Initial(ws[0]) && i < k <= |es| && es[i].Commit? && es[i].write.SaveEntry?
    requires StaysReadable(key, K, ws, es, i, k, secret) && Unfinished(ws[i], l) && ResolvesTo(K, ws, es, i, l)
    requires !SawNothing(key, K, ws[i].loads[l]) && ChangedEnds(key, ws, es, k, l) < 3
    ensures l < |ws[k].loads| && CatchesUp(key, K, ws[k].loads[l], es[i].write.path, es[i].write.encrypted, secret)
  {
    var last := k - 1;
    if last == i {
      SaveCatchesUp(key, K, ws[i], es[i], l, secret);
    } else {
      LoadsStayKnown(key, ws, es, i, last, l);
      AttemptsLeft(key, ws, es, last, l);
      LoadUnderWayCatchesUp(key, K, ws, es, i, last, l, secret);
      RunsKeepStoreInv(key, ws, es, last);
      StepCatchesUp(key, K, ws[last], es[last], l, es[i].write.path, es[i].write.encrypted, secret);
    }
  }

  lemma {:induction false} LoadsStayKnown(key: PathKey, ws: seq<World>, es: seq<Event>, i: nat, k: nat, l: nat)
    requires Run(key, ws, es) && i <= k <= |es| && l < |ws[i].loads|
    ensures l < |ws[k].loads|
  {
    if k > i {
      LoadsStayKnown(key, ws, es, i, k - 1, l);
      LoadsAreKept(key, ws[k - 1], es[k - 1]);
    }
  }

  ghost predicate StillBlind(key: PathKey, K: set<string>, load: Load) {
    SawNothing(key, K, load) || load.phase == Returned(None) || load.phase.Threw?
  }

  lemma StepKeepsBlind(key: PathKey, K: set<string>, w: World, e: Event, l: nat)
    requires Enabled(w, e) && l < |w.loads| && StillBlind(key, K, w.loads[l])
    requires e.Resolve? && e.load == l ==> e.aliasKeys == K
    ensures l < |Step(key, w, e).loads| && StillBlind(key, K, Step(key, w, e).loads[l])
  {
    if e.Resolve? && e.load == l {
      ResolvedIff(key, w, e);
    }
  }

  lemma {:induction false} BlindLoadStaysBlind(key: PathKey, K: set<string>, ws: seq<World>, es: seq<Event>, i: nat, k: nat, l: nat)
    requires Run(key, ws, es) && i <= k <= |es| && i < |es| && !es[i].Resolve? && l < |ws[i].loads|
    requires SawNothing(key, K, ws[i].loads[l]) && ResolvesTo(K, ws, es, i, l)
    ensures l < |ws[k].loads| && StillBlind(key, K, ws[k].loads[l])
  {
    if k > i {
      BlindLoadStaysBlind(key, K, ws, es, i, k - 1, l);
      StepKeepsBlind(key, K, ws[k - 1], es[k - 1], l);
    }
  }

  /**
   Over every run, a load that is under way when a secret is saved, and whose
   class changes during fewer than three of its attempts, answers with that
   secret, if it answers while the save is stored, alone and readable, if and
   only if it had not already seen a record without any entry of the class.
   */
  lemma LoadUnderWayReturnsSaveIff(key: PathKey, K: set<string>, ws: seq<World>, es: seq<Event>, i: nat, k: nat, l: nat, secret: string)
    requires Run(key, ws, es) && Initial(ws[0]) && i < k <= |es| && es[i].Commit? && es[i].write.SaveEntry?
    requires StaysReadable(key, K, ws, es, i, k, secret) && Unfinished(ws[i], l) && ResolvesTo(K, ws, es, i, l)
    requires ChangedEnds(key, ws, es, k, l) < 3
    requires l < |ws[k].loads| && ws[k].loads[l].phase.Returned?
    ensures ws[k].loads[l].phase.value == Some(secret) <==> !SawNothing(key, K, ws[i].loads[l])
    ensures SawNothing(key, K, ws[i].loads[l]) ==> ws[k].loads[l].phase.value == None
  {
    if SawNothing(key, K, ws[i].loads[l]) {
      BlindLoadStaysBlind(key, K, ws, es, i, k, l);
    } else {
      LoadUnderWayCatchesUp(key, K, ws, es, i, k, l, secret);
    }
  }

  // The order in which spellings are tried.

  /** `a` comes before `b` in the list. */
  ghost predicate Precedes(paths: seq<Path>, a: Path, b: Path) {
    exists i, j :: 0 <= i < j < |paths| && paths[i] == a && paths[j] == b
  }

  lemma PrecedesCons(head: Path, tail: seq<Path>, a: Path, b: Path)
    ensures Precedes(tail, a, b) ==> Precedes([head] + tail, a, b)
    ensures a == head && b in tail ==> Precedes([head] + tail, a, b)
  {
    var paths := [head] + tail;
    if Precedes(tail, a, b) {
      var i, j :| 0 <= i < j < |tail| && tail[i] == a && tail[j] == b;
      assert paths[i + 1] == a && paths[j + 1] == b;
    }
    if a == head && b in tail {
      var j :| 0 <= j < |tail| && tail[j] == b;
      assert paths[0] == a && paths[j + 1] == b;
    }
  }

  /** The members of `sub` come in the order of `whole`. */
  ghost predicate InOrder(sub: seq<Path>, whole: seq<Path>) {
    && (forall i :: 0 <= i < |sub| ==> sub[i] in whole)
    && (forall i, j :: 0 <= i < j < |sub| ==> Precedes(whole, sub[i], sub[j]))
  }

  lemma ConsInOrder(head: Path, tail: seq<Path>, rest: seq<Path>, keep: bool)
    requires InOrder(rest, tail)
    ensures InOrder((if keep then [head] else []) + rest, [head] + tail)
  {
    var sub, d := (if keep then [head] else []) + rest, if keep then 1 else 0;
    forall i, j | 0 <= i < j < |sub|
      ensures Precedes([head] + tail, sub[i], sub[j])
    {
      assert sub[j] == rest[j - d];
      if i >= d {
        assert sub[i] == rest[i - d];
        PrecedesCons(head, tail, rest[i - d], rest[j - d]);
      } else {
        PrecedesCons(head, tail, head, rest[j - d]);
      }
    }
  }

  lemma {:induction false} FilteredInOrder(order: seq<Path>, key: PathKey, aliasKeys: set<string>)
    ensures InOrder(FilterMatching(order, key, aliasKeys), order)
  {
    if order != [] {
      FilteredInOrder(order[1..], key, aliasKeys);
      ConsInOrder(order[0], order[1..], FilterMatching(order[1..], key, aliasKeys), key(order[0]) in aliasKeys);
      assert [order[0]] + order[1..] == order;
    }
  }

  /** Where the spelling tried as number `i` stands among the stored ones. */
  function StoredIndex(exact: int, i: nat): int {
    if exact > 0 && i == 0 then exact else if exact > 0 && i <= exact then i - 1 else i
  }

  lemma MovedToFront(stored: seq<Path>, exact: nat, i: nat)
    requires 0 < exact < |stored| && i < |stored|
    ensures |[stored[exact]] + stored[..exact] + stored[exact + 1..]| == |stored|
    ensures ([stored[exact]] + stored[..exact] + stored[exact + 1..])[i] == stored[StoredIndex(exact, i)]
  {
  }

  lemma TriedAt(order: seq<Path>, keyPath: Path, key: PathKey, aliasKeys: set<string>, i: nat)
    requires i < |PathsToTry(order, keyPath, key, aliasKeys)|
    ensures var stored := FilterMatching(order, key, aliasKeys);
      var k := StoredIndex(IndexOf(stored, keyPath), i);
      0 <= k < |stored| && PathsToTry(order, keyPath, key, aliasKeys)[i] == stored[k]
  {
    var stored := FilterMatching(order, key, aliasKeys);
    var exact := IndexOf(stored, keyPath);
    if exact > 0 {
      assert |PathsToTry(order, keyPath, key, aliasKeys)| == |stored|;
      MovedToFront(stored, exact, i);
    }
  }

  /** The spellings after the one asked for are tried in the order of the record. */
  lemma TriedInRecordOrder(order: seq<Path>, keyPath: Path, key: PathKey, aliasKeys: set<string>, i: nat, j: nat)
    requires var r := PathsToTry(order, keyPath, key, aliasKeys); i < j < |r| && r[i] != keyPath
    ensures var r := PathsToTry(order, keyPath, key, aliasKeys); Precedes(order, r[i], r[j])
  {
    var exact := IndexOf(FilterMatching(order, key, aliasKeys), keyPath);
    TriedAt(order, keyPath, key, aliasKeys, i);
    TriedAt(order, keyPath, key, aliasKeys, j);
    FilteredInOrder(order, key, aliasKeys);
    OrderedAt(FilterMatching(order, key, aliasKeys), order, StoredIndex(exact, i), StoredIndex(exact, j));
  }

  lemma OrderedAt(sub: seq<Path>, whole: seq<Path>, i: nat, j: nat)
    requires InOrder(sub, whole) && i < j < |sub|
    ensures Precedes(whole, sub[i], sub[j])
  {
  }

  /** An unfinished scan tries the spelling the load was asked for first, if that is stored and of the class. */
  ghost predicate ExactFirst(key: PathKey, load: Load) {
    load.phase.Scanning? && load.keyPath in load.phase.snapshot && key(load.keyPath) in load.phase.aliasKeys ==>
      load.phase.paths != [] && load.phase.paths[0] == load.keyPath
  }

  lemma StepKeepsExactFirst(key: PathKey, w: World, e: Event, l: nat)
    requires Enabled(w, e) && l < |Step(key, w, e).loads| && (l < |w.loads| ==> ExactFirst(key, w.loads[l]))
    ensures ExactFirst(key, Step(key, w, e).loads[l])
    ensures if l < |w.loads| then Step(key, w, e).loads[l].keyPath == w.loads[l].keyPath
            else e == StartLoad(Step(key, w, e).loads[l].keyPath)
  {
    if e.Resolve? && e.load == l {
      var paths := PathsToTry(e.order, w.loads[l].keyPath, key, e.aliasKeys);
      assert w.loads[l].keyPath in w.loads[l].phase.snapshot <==> w.loads[l].keyPath in e.order;
    }
  }

  /** Over every run, each load tries the spelling it was started for before any other stored one. */
  lemma {:induction false} LoadsTryTheirPathFirst(key: PathKey, ws: seq<World>, es: seq<Event>, k: nat, l: nat) returns (at: nat)
    requires Run(key, ws, es) && Initial(ws[0]) && k <= |es| && l < |ws[k].loads|
    ensures at < k && es[at] == StartLoad(ws[k].loads[l].keyPath) && l == |ws[at].loads|
    ensures ExactFirst(key, ws[k].loads[l])
  {
    at := k - 1;
    assert Enabled(ws[at], es[at]) && ws[k] == Step(key, ws[at], es[at]);
    if l < |ws[at].loads| {
      var last := at;
      at := LoadsTryTheirPathFirst(key, ws, es, last, l);
      StepKeepsExactFirst(key, ws[last], es[last], l);
    } else {
      StepKeepsExactFirst(key, ws[at], es[at], l);
    }
  }
}
