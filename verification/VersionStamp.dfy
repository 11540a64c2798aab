/**
 The version-change backup of application/localVaultBackups.ts: a stored stamp
 decides, launch after launch, whether an upgrade still owes a backup.
 */
module VersionStamp {
  import opened Prelude

  /** A backup taken because the app went from one version to another. */
  datatype Backup = Backup(source: string, target: string, payload: string)

  /** `stamped[i]` tells whether the stamp write that followed backup `i` landed. */
  datatype Stamped = Stamped(stamp: Option<string>, backups: seq<Backup>, stamped: seq<bool>)

  /**
   One launch: the version reported, the vault payload, whether a backup can be
   written, and whether the stamp write lands. It does not if storage rejects it
   or the process dies before it.
   */
  datatype Launch = Launch(version: Option<string>, payload: string, meaningful: bool, bridgeOk: bool, stampLands: bool)

  /** Trimming is the runtime's; all that matters is that trimming twice changes nothing more. */
  ghost predicate Trims(trim: string -> string) {
    forall s :: trim(trim(s)) == trim(s)
  }

  function Normalized(trim: string -> string, version: Option<string>): string {
    if version.Some? then trim(version.value) else ""
  }

  /** The launch finds a version change and can back it up. */
  predicate BacksUp(trim: string -> string, s: Stamped, l: Launch) {
    var current, previous := Normalized(trim, l.version), Normalized(trim, s.stamp);
    current != "" && previous != "" && previous != current && l.meaningful && l.bridgeOk
  }

  function AfterLaunch(trim: string -> string, s: Stamped, l: Launch): Stamped {
    var current, previous := Normalized(trim, l.version), Normalized(trim, s.stamp);
    var stamp := if l.stampLands then Some(current) else s.stamp;
    if current == "" then s
    else if previous == "" then s.(stamp := stamp)
    else if !BacksUp(trim, s, l) then s
    else Stamped(stamp, s.backups + [Backup(previous, current, l.payload)], s.stamped + [l.stampLands])
  }

  function AfterLaunches(trim: string -> string, ls: seq<Launch>): Stamped {
    if ls == [] then Stamped(None, [], []) else AfterLaunch(trim, AfterLaunches(trim, ls[..|ls| - 1]), ls[|ls| - 1])
  }

  /** Backup `i` leads from the version in which backup `i - 1` left the stamp. */
  predicate Follows(s: Stamped, i: nat)
    requires |s.stamped| == |s.backups| && 0 < i < |s.backups|
  {
    s.backups[i].source == if s.stamped[i - 1] then s.backups[i - 1].target else s.backups[i - 1].source
  }

  ghost predicate Inv(trim: string -> string, s: Stamped) {
    && |s.stamped| == |s.backups|
    && (forall i :: 0 <= i < |s.backups| ==> s.backups[i].source != s.backups[i].target && s.backups[i].target != "")
    && (forall i :: 0 < i < |s.backups| ==> Follows(s, i))
    && (|s.backups| > 0 ==>
          var last := |s.backups| - 1;
          s.stamp == Some(if s.stamped[last] then s.backups[last].target else s.backups[last].source))
    && (s.stamp.Some? ==> trim(s.stamp.value) == s.stamp.value && s.stamp.value != "")
  }

  lemma LaunchKeepsInv(trim: string -> string, s: Stamped, l: Launch)
    requires Trims(trim) && Inv(trim, s)
    ensures Inv(trim, AfterLaunch(trim, s, l))
  {
    var after := AfterLaunch(trim, s, l);
    if BacksUp(trim, s, l) {
      forall i | 0 < i < |after.backups|
        ensures Follows(after, i)
      {
        if i < |s.backups| {
          assert Follows(s, i);
        }
      }
    }
  }

  lemma {:induction false} LaunchesKeepInv(trim: string -> string, ls: seq<Launch>)
    requires Trims(trim)
    ensures Inv(trim, AfterLaunches(trim, ls))
  {
    if ls != [] {
      LaunchesKeepInv(trim, ls[..|ls| - 1]);
      LaunchKeepsInv(trim, AfterLaunches(trim, ls[..|ls| - 1]), ls[|ls| - 1]);
    }
  }

  /** Each backup starts at the version the one before it reached. */
  ghost predicate Chained(backups: seq<Backup>) {
    forall i :: 0 < i < |backups| ==> backups[i - 1].target == backups[i].source
  }

  /**
   Over every sequence of launches the backups form one unbroken chain of
   version changes if and only if the stamp write landed after every backup but
   the last; after one where it did not, the next backup starts from the same
   version again.
   */
  lemma BackupsFormAChainIff(trim: string -> string, ls: seq<Launch>)
    requires Trims(trim)
    ensures var s := AfterLaunches(trim, ls);
      && |s.stamped| == |s.backups|
      && (Chained(s.backups) <==> forall i :: 0 <= i < |s.backups| - 1 ==> s.stamped[i])
      && (forall i :: 0 < i < |s.backups| && !s.stamped[i - 1] ==> s.backups[i].source == s.backups[i - 1].source)
  {
    LaunchesKeepInv(trim, ls);
    var s := AfterLaunches(trim, ls);
    forall i | 0 <= i < |s.backups| - 1
      ensures s.stamped[i] <==> s.backups[i].target == s.backups[i + 1].source
    {
      assert Follows(s, i + 1);
    }
    forall i | 0 < i < |s.backups| && !s.stamped[i - 1]
      ensures s.backups[i].source == s.backups[i - 1].source
    {
      assert Follows(s, i);
    }
    if Chained(s.backups) {
      forall i | 0 <= i < |s.backups| - 1
        ensures s.stamped[i]
      {
        assert s.backups[i + 1 - 1].target == s.backups[i + 1].source;
      }
    }
  }

  /** The stamp is where the last backup left it: at its target if the write landed, else still at its source. */
  lemma StampFollowsBackups(trim: string -> string, ls: seq<Launch>)
    requires Trims(trim) && |AfterLaunches(trim, ls).backups| > 0
    ensures var s := AfterLaunches(trim, ls);
      |s.stamped| == |s.backups| &&
      s.stamp == Some(if s.stamped[|s.backups| - 1] then s.backups[|s.backups| - 1].target else s.backups[|s.backups| - 1].source)
  {
    LaunchesKeepInv(trim, ls);
  }

  /** The launch reports a version and the stamp write lands. */
  predicate Stamps(trim: string -> string, l: Launch) {
    Normalized(trim, l.version) != "" && l.stampLands
  }

  /**
   Until there is a stamp nothing is backed up; the first launch that reports a
   version and gets its stamp written sets the stamp to that version.
   */
  lemma {:induction false} FirstStampIsFirstVersion(trim: string -> string, ls: seq<Launch>, i: nat)
    requires Trims(trim) && i <= |ls| && forall j :: 0 <= j < i ==> !Stamps(trim, ls[j])
    ensures AfterLaunches(trim, ls[..i]) == Stamped(None, [], [])
    ensures i < |ls| && Stamps(trim, ls[i]) ==> AfterLaunches(trim, ls[..i + 1]) == Stamped(Some(trim(ls[i].version.value)), [], [])
  {
    if i > 0 {
      FirstStampIsFirstVersion(trim, ls, i - 1);
      assert ls[..i][..i - 1] == ls[..i - 1];
    }
    if i < |ls| {
      assert ls[..i + 1][..i] == ls[..i];
    }
  }

  /**
   A launch backs up exactly a change away from the stamped version that it can
   back up, and moves the stamp exactly when it did and the write lands.
   */
  lemma StampMovesOnlyWithABackup(trim: string -> string, ls: seq<Launch>, l: Launch)
    requires Trims(trim) && AfterLaunches(trim, ls).stamp.Some?
    ensures var before := AfterLaunches(trim, ls);
      var after := AfterLaunch(trim, before, l);
      var changed := l.meaningful && l.bridgeOk && Normalized(trim, l.version) !in {"", before.stamp.value};
      && after.backups == (if changed then before.backups + [Backup(before.stamp.value, Normalized(trim, l.version), l.payload)] else before.backups)
      && (after.stamp != before.stamp <==> changed && l.stampLands)
  {
    LaunchesKeepInv(trim, ls);
  }

  lemma TwoMore(trim: string -> string, ls: seq<Launch>, a: Launch, b: Launch)
    ensures AfterLaunches(trim, ls + [a, b]) == AfterLaunch(trim, AfterLaunch(trim, AfterLaunches(trim, ls), a), b)
  {
    assert (ls + [a, b])[..|ls| + 1] == ls + [a];
    assert (ls + [a])[..|ls|] == ls;
  }

  const SAME: string -> string := (s: string) => s

  /** A stamp write that does not land after its backup: the next launch backs the same change up again. */
  lemma UnstampedBackupRepeats()
    ensures var first := Launch(Some("1"), "a", true, true, true);
      var unstamped, next := Launch(Some("2"), "b", true, true, false), Launch(Some("2"), "c", true, true, true);
      AfterLaunches(SAME, [first] + [unstamped, next]).backups == [Backup("1", "2", "b"), Backup("1", "2", "c")]
  {
    var first := Launch(Some("1"), "a", true, true, true);
    var unstamped, next := Launch(Some("2"), "b", true, true, false), Launch(Some("2"), "c", true, true, true);
    assert [first][..0] == [];
    assert AfterLaunches(SAME, [first]) == Stamped(Some("1"), [], []);
    TwoMore(SAME, [first], unstamped, next);
  }

  /** A version that was only launched without a backup is passed over by the chain. */
  lemma UnbackedVersionIsSkipped()
    ensures var first := Launch(Some("1"), "a", true, true, true);
      var unbacked, next := Launch(Some("2"), "b", true, false, true), Launch(Some("3"), "c", true, true, true);
      AfterLaunches(SAME, [first] + [unbacked, next]).backups == [Backup("1", "3", "c")]
  {
    var first := Launch(Some("1"), "a", true, true, true);
    var unbacked, next := Launch(Some("2"), "b", true, false, true), Launch(Some("3"), "c", true, true, true);
    assert [first][..0] == [];
    assert AfterLaunches(SAME, [first]) == Stamped(Some("1"), [], []);
    TwoMore(SAME, [first], unbacked, next);
  }

  class StampStore {
    const trim: string -> string
    var stamp: Option<string>
    var backups: seq<Backup>
    ghost var stamped: seq<bool>

    constructor (trim: string -> string)
      ensures this.trim == trim && stamp == None && backups == [] && stamped == []
    {
      this.trim := trim;
      stamp, backups, stamped := None, [], [];
    }

    method WriteStamp(version: string, lands: bool)
      modifies this`stamp
      ensures stamp == if lands then Some(version) else old(stamp)
    {
      if lands {
        stamp := Some(version);
      }
    }

    method EnsureVersionChangeBackup(l: Launch) returns (created: bool)
      modifies this
      ensures Stamped(stamp, backups, stamped) == AfterLaunch(trim, Stamped(old(stamp), old(backups), old(stamped)), l)
      ensures created <==> |backups| == |old(backups)| + 1
    {
      created := false;
      var current := Normalized(trim, l.version);
      if current == "" {
        return;
      }
      var previous := Normalized(trim, stamp);
      if previous == "" {
        WriteStamp(current, l.stampLands);
        return;
      }
      if previous == current {
        return;
      }
      if l.meaningful {
        created := l.bridgeOk;
        if created {
          backups := backups + [Backup(previous, current, l.payload)];
          stamped := stamped + [l.stampLands];
        }
      }
      if l.meaningful && created {
        WriteStamp(current, l.stampLands);
      }
    }
  }
}
