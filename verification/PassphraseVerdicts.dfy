/**
 Which verdict an import reaches. Reads that end over a changed class are
 repeated, up to three of them; the lemmas count them in the run and say of
 every event exactly when it decides the import, and how.
 */
module PassphraseVerdicts {
  import opened Prelude
  import opened PassphraseStore
  import opened PassphraseAliases
  import opened PassphraseImport

  /** The alias keys of the verification read that the event is part of. */
  function ReadKeysOf(w: World, e: Event): set<string>
    requires Enabled(w, e) && (e.TakeSnapshot? || e.Compare?)
  {
    if e.TakeSnapshot? then e.readKeys else w.phase.readKeys
  }

  /** A verification read ends: nothing is stored for the class, or the class is as the read found it. */
  predicate EndsRead(im: Import, w: World, e: Event)
    requires Enabled(w, e)
  {
    || (e.TakeSnapshot? && Matching(Contents(w.stored), im.key, e.readKeys) == {})
    || (e.Compare? && !EntriesChanged(w.phase.snapshot, Contents(w.stored), im.key, w.phase.readKeys))
  }

  /** A verification read finds that its class has changed meanwhile. */
  predicate FindsChange(im: Import, w: World, e: Event)
    requires Enabled(w, e)
  {
    e.Compare? && EntriesChanged(w.phase.snapshot, Contents(w.stored), im.key, w.phase.readKeys)
  }

  function ChangesFound(im: Import, ws: seq<World>, es: seq<Event>, k: nat): nat
    requires Run(im, ws, es) && k <= |es|
  {
    if k == 0 then 0 else ChangesFound(im, ws, es, k - 1) + if FindsChange(im, ws[k - 1], es[k - 1]) then 1 else 0
  }

  /** An unfinished import still goes by the keys it began with, and counts the changes it has found. */
  lemma {:induction false} ImportRemembersItsStart(im: Import, ws: seq<World>, es: seq<Event>, k: nat)
    requires Run(im, ws, es) && k <= |es| && !ws[k].phase.Finished?
    ensures ws[k].phase.first == ws[0].keys
    ensures ws[k].phase.Waiting? || ws[k].phase.Comparing? ==> ws[k].phase.attempt == ChangesFound(im, ws, es, k) <= 2
  {
    if k > 0 {
      assert Enabled(ws[k - 1], es[k - 1]) && ws[k] == Step(im, ws[k - 1], es[k - 1]);
      ImportRemembersItsStart(im, ws, es, k - 1);
    }
  }

  /** Until it compares, a read holds the whole record as it was at its snapshot, with the aliases resolved for it. */
  lemma {:induction false} ReadSawTheRecord(im: Import, ws: seq<World>, es: seq<Event>, k: nat) returns (at: nat)
    requires Run(im, ws, es) && k <= |es| && ws[k].phase.Comparing?
    ensures at < k && es[at] == TakeSnapshot(ws[k].phase.readKeys) && Contents(ws[at].stored) == ws[k].phase.snapshot
    ensures forall m :: at < m < k ==> !es[m].TakeSnapshot? && !es[m].Compare?
  {
    at := k - 1;
    assert Enabled(ws[at], es[at]) && ws[k] == Step(im, ws[at], es[at]);
    if !es[at].TakeSnapshot? {
      at := ReadSawTheRecord(im, ws, es, at);
    }
  }

  /** A read over an unchanged class judges what is stored now. */
  lemma JudgesWhatIsStored(im: Import, readKeys: set<string>, first: seq<SshKey>, seen: Store, latest: Store)
    requires !EntriesChanged(seen, latest, im.key, readKeys)
    ensures Judged(im, readKeys, first, seen) == Judged(im, readKeys, first, latest)
  {
    forall p
      ensures p in Matching(seen, im.key, readKeys) <==> p in Matching(latest, im.key, readKeys)
      ensures p in Matching(seen, im.key, readKeys) ==> seen[p] == latest[p]
    {
      assert p in seen.Keys + latest.Keys <==> p in seen || p in latest;
    }
  }

  lemma ReadIsJudged(im: Import, w: World, e: Event)
    requires Enabled(w, e) && EndsRead(im, w, e)
    ensures Step(im, w, e).phase == Judged(im, ReadKeysOf(w, e), w.phase.first, Contents(w.stored))
  {
    if e.TakeSnapshot? {
      assert !EntriesChanged(map[], Contents(w.stored), im.key, e.readKeys) by {
        assert forall p :: p in Contents(w.stored) && im.key(p) in e.readKeys ==> p in Matching(Contents(w.stored), im.key, e.readKeys);
      }
      JudgesWhatIsStored(im, e.readKeys, w.phase.first, map[], Contents(w.stored));
    } else {
      JudgesWhatIsStored(im, w.phase.readKeys, w.phase.first, w.phase.snapshot, Contents(w.stored));
    }
  }

  /** What is stored for the class and in the keys the import began with: something unreadable, something different, or agreement. */
  predicate SeesUnreadable(im: Import, w: World, e: Event, begun: seq<SshKey>)
    requires Enabled(w, e)
  {
    EndsRead(im, w, e) && AnyUnreadable(im, ReadKeysOf(w, e), begun, Contents(w.stored))
  }

  predicate SeesDifferent(im: Import, w: World, e: Event, begun: seq<SshKey>)
    requires Enabled(w, e)
  {
    EndsRead(im, w, e) && !SeesUnreadable(im, w, e, begun) && AnyDifferent(im, ReadKeysOf(w, e), begun, Contents(w.stored))
  }

  /**
   Over every run, exactly when an event decides an unfinished import. It is
   unreadable if a read ends with something unreadable, or a third read of its
   own finds a change; a conflict if a read ends with something different, or
   the keys have changed by the time of the write; saved if they have not. A
   first or second change found starts the read over, and agreement goes on to
   the write.
   */
  lemma VerdictIff(im: Import, ws: seq<World>, es: seq<Event>, k: nat)
    requires Run(im, ws, es) && k < |es| && !ws[k].phase.Finished?
    ensures var w, e, after, begun := ws[k], es[k], ws[k + 1].phase, ws[0].keys;
      && (after == Finished(Unreadable) <==>
            SeesUnreadable(im, w, e, begun) || (FindsChange(im, w, e) && ChangesFound(im, ws, es, k + 1) == 3))
      && (after == Finished(Conflict) <==>
            SeesDifferent(im, w, e, begun) || (e.Write? && Fingerprint(im, w.keys) != Fingerprint(im, begun)))
      && (after == Finished(Saved) <==> e.Write? && Fingerprint(im, w.keys) == Fingerprint(im, begun))
      && (FindsChange(im, w, e) && ChangesFound(im, ws, es, k + 1) < 3 ==> after.Waiting?)
      && (EndsRead(im, w, e) && !SeesUnreadable(im, w, e, begun) && !SeesDifferent(im, w, e, begun) ==> after.Encrypting?)
  {
    ImportRemembersItsStart(im, ws, es, k);
    if EndsRead(im, ws[k], es[k]) {
      ReadIsJudged(im, ws[k], es[k]);
    }
  }
}
