/**
 The spellings of key paths under a Windows home: the drive path and the tilde
 path of one spelling meet, but the tilde path is compared as it is written
 while drive paths are compared in lower case, so sharing a spelling is not the
 equivalence it is under a POSIX home.
 */
module PassphraseWindows {
  import opened Prelude
  import opened PassphraseStore
  import opened PassphraseAliases

  /** Lower-casing goes character by character, turns letters into letters and leaves slashes alone. */
  ghost predicate LowersByCharacter(lower: string -> string) {
    && (forall s: string :: |lower(s)| == |s|)
    && (forall s: string, t: string :: lower(s + t) == lower(s) + lower(t))
    && (forall c: char :: IsLetter(c) ==> lower([c]) != "~")
    && lower("/") == "/"
  }

  /** A home on a drive, spelled without a trailing separator. */
  predicate IsWindowsHome(home: string) {
    HasDrive(home) && |home| >= 4 && !IsSeparator(home[|home| - 1])
  }

  /** The home as paths are compared with it. */
  function Slashed(home: string): string {
    Replace(home, '\\', '/')
  }

  function DrivePath(home: string, suffix: string): string {
    home + "\\" + suffix
  }

  lemma SlashedHome(home: string)
    requires IsWindowsHome(home)
    ensures StripOneSlash(Slashed(home)) == Slashed(home) && StripSeparators(home) == home && HasDrive(Slashed(home))
    ensures Replace(Slashed(home), '\\', '/') == Slashed(home)
  {
  }

  lemma SlashedPath(home: string, suffix: string)
    requires IsWindowsHome(home) && '\\' !in suffix
    ensures Replace(DrivePath(home, suffix), '\\', '/') == Slashed(home) + "/" + suffix
    ensures HasDrive(DrivePath(home, suffix)) && HasDrive(Slashed(home) + "/" + suffix)
    ensures Replace(Slashed(home) + "/" + suffix, '\\', '/') == Slashed(home) + "/" + suffix
  {
    var p, q := DrivePath(home, suffix), Slashed(home) + "/" + suffix;
    assert |p| == |q|;
    forall i | 0 <= i < |p|
      ensures Replace(p, '\\', '/')[i] == q[i] && q[i] != '\\'
    {
      if i > |home| {
        assert p[i] == suffix[i - |home| - 1] && q[i] == suffix[i - |home| - 1];
        assert suffix[i - |home| - 1] in suffix;
      } else if i < |home| {
        assert p[i] == home[i];
      }
    }
  }

  /** What the drive path and the tilde path are compared as. */
  lemma WindowsKeys(lower: string -> string, home: string, suffix: string)
    requires IsWindowsHome(home) && '\\' !in suffix
    ensures DefaultKeyPassphrasePathKey(lower, DrivePath(home, suffix)) == lower(Slashed(home) + "/" + suffix)
    ensures DefaultKeyPassphrasePathKey(lower, Slashed(home) + "/" + suffix) == lower(Slashed(home) + "/" + suffix)
    ensures DefaultKeyPassphrasePathKey(lower, "~/" + suffix) == "~/" + suffix
    ensures DefaultKeyPassphrasePathKey(lower, Slashed(home)) == lower(Slashed(home))
  {
    SlashedHome(home);
    SlashedPath(home, suffix);
    assert ("~/" + suffix)[0] == '~';
  }

  lemma LoweredHomeIsPrefix(lower: string -> string, home: string, suffix: string)
    requires LowersByCharacter(lower) && IsWindowsHome(home)
    ensures lower(Slashed(home)) + "/" <= lower(Slashed(home) + "/" + suffix)
  {
    var h := Slashed(home);
    assert lower(h + "/" + suffix) == lower(h + "/") + lower(suffix) == lower(h) + "/" + lower(suffix);
  }

  lemma LoweredHomeIsNoTilde(lower: string -> string, home: string, suffix: string)
    requires LowersByCharacter(lower) && IsWindowsHome(home)
    ensures !(lower(Slashed(home)) + "/" <= "~/" + suffix)
  {
    var h := Slashed(home);
    assert h == [h[0]] + h[1..] && IsLetter(h[0]);
    assert lower(h) == lower([h[0]]) + lower(h[1..]);
    var first := lower([h[0]]);
    assert |first| == 1 && first == [first[0]];
    assert (lower(h) + "/")[0] == lower([h[0]])[0] && ("~/" + suffix)[0] == '~';
  }

  /** The class of a drive path under the home: itself, compared in lower case, and the tilde path spelled alike. */
  lemma DriveAliases(lower: string -> string, home: string, suffix: string)
    requires LowersByCharacter(lower) && IsWindowsHome(home) && '\\' !in suffix
    ensures AliasKeys(lower, Some(home), DrivePath(home, suffix)) == {lower(Slashed(home) + "/" + suffix), "~/" + suffix}
  {
    var p, n := DrivePath(home, suffix), Slashed(home) + "/" + suffix;
    SlashedHome(home);
    SlashedPath(home, suffix);
    WindowsKeys(lower, home, suffix);
    LoweredHomeIsPrefix(lower, home, suffix);
    assert Drop(n, |Slashed(home)| + 1) == suffix;
    var aliases := ResolveDefaultKeyPassphraseAliases(lower, Some(home), p);
    assert aliases == {p, n, "~/" + suffix};
    assert p in aliases && "~/" + suffix in aliases;
  }

  lemma BackslashedTail(home: string, suffix: string)
    requires IsWindowsHome(home) && '\\' !in suffix
    ensures var p := home + ['\\'] + Replace(suffix, '/', '\\');
      HasDrive(p) && Replace(p, '\\', '/') == Slashed(home) + "/" + suffix
  {
    var p, q := home + ['\\'] + Replace(suffix, '/', '\\'), Slashed(home) + "/" + suffix;
    assert |p| == |q|;
    forall i | 0 <= i < |p|
      ensures Replace(p, '\\', '/')[i] == q[i]
    {
      if i > |home| {
        assert p[i] == Replace(suffix, '/', '\\')[i - |home| - 1] && q[i] == suffix[i - |home| - 1];
        assert suffix[i - |home| - 1] in suffix;
      } else if i < |home| {
        assert p[i] == home[i];
      }
    }
  }

  /** The class of a tilde path under a home spelled with backslashes: itself as written, and its drive path in lower case. */
  lemma TildeAliases(lower: string -> string, home: string, suffix: string)
    requires LowersByCharacter(lower) && IsWindowsHome(home) && '\\' in home && '\\' !in suffix
    ensures AliasKeys(lower, Some(home), "~/" + suffix) == {lower(Slashed(home) + "/" + suffix), "~/" + suffix}
  {
    var t, n := "~/" + suffix, Slashed(home) + "/" + suffix;
    var p := home + ['\\'] + Replace(suffix, '/', '\\');
    SlashedHome(home);
    WindowsKeys(lower, home, suffix);
    BackslashedTail(home, suffix);
    LoweredHomeIsNoTilde(lower, home, suffix);
    assert t[0] == '~' && t[2..] == suffix;
    assert !HasDrive(t) && !("\\\\" <= t);
    var aliases := ResolveDefaultKeyPassphraseAliases(lower, Some(home), t);
    assert aliases == {t, n, p};
    assert t in aliases && n in aliases;
  }

  /**
   Two drive paths always share a spelling when they differ in case only, yet
   they have the same class if and only if they are spelled alike after the
   home: under a Windows home sharing a spelling is no equivalence.
   */
  lemma DriveClassesIff(lower: string -> string, home: string, a: string, b: string)
    requires LowersByCharacter(lower) && IsWindowsHome(home) && '\\' in home && '\\' !in a && '\\' !in b && lower(a) == lower(b)
    ensures var ka, kb := AliasKeys(lower, Some(home), DrivePath(home, a)), AliasKeys(lower, Some(home), DrivePath(home, b));
      ka * kb != {} && (ka == kb <==> a == b)
    ensures AliasKeys(lower, Some(home), "~/" + a) == AliasKeys(lower, Some(home), DrivePath(home, a))
  {
    DriveAliases(lower, home, a);
    DriveAliases(lower, home, b);
    TildeAliases(lower, home, a);
    var h := Slashed(home);
    assert lower(h + "/" + a) == lower(h + "/") + lower(a) == lower(h + "/" + b);
    LoweredIsNoTildePath(lower, home, a, b);
    LoweredIsNoTildePath(lower, home, a, a);
    TildePathsDiffer(a, b);
    PairsShare(lower(h + "/" + a), "~/" + a, "~/" + b);
  }

  lemma TildePathsDiffer(a: string, b: string)
    ensures "~/" + a == "~/" + b <==> a == b
  {
    assert ("~/" + a)[2..] == a && ("~/" + b)[2..] == b;
  }

  lemma PairsShare(x: string, a: string, b: string)
    requires x != a && x != b
    ensures {x, a} * {x, b} != {} && ({x, a} == {x, b} <==> a == b)
  {
    assert x in {x, a} * {x, b};
    if a != b {
      assert a in {x, a} && a !in {x, b};
    }
  }

  lemma LoweredIsNoTildePath(lower: string -> string, home: string, a: string, b: string)
    requires LowersByCharacter(lower) && IsWindowsHome(home)
    ensures lower(Slashed(home) + "/" + a) != "~/" + b
  {
    LoweredHomeIsPrefix(lower, home, a);
    LoweredHomeIsNoTilde(lower, home, b);
  }

  /**
   What follows for one key: a passphrase saved under its tilde path is found
   under its drive path if and only if the two are spelled alike after the home,
   although the drive path names the same file in any case.
   */
  lemma TildeSaveIsFoundIff(lower: string -> string, key: PathKey, home: string, a: string, b: string, encrypted: Cipher)
    requires LowersByCharacter(lower) && IsWindowsHome(home) && '\\' in home && '\\' !in a && '\\' !in b && lower(a) == lower(b)
    requires forall s :: key(s) == DefaultKeyPassphrasePathKey(lower, s)
    ensures var saved := AfterWrite(map[], key, "~/" + a, encrypted, AliasKeys(lower, Some(home), "~/" + a));
      Matching(saved, key, AliasKeys(lower, Some(home), DrivePath(home, b))) == (if a == b then {"~/" + a} else {})
  {
    DriveAliases(lower, home, b);
    WindowsKeys(lower, home, a);
    LoweredIsNoTildePath(lower, home, b, a);
    TildePathsDiffer(a, b);
  }
}
