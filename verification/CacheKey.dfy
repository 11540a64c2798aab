/**
 The key of the model catalog cache (buildSdkRuntimeModelCacheKey in
 components/AIChatSidePanelHelpers.ts): the settings that decide which models
 an agent offers, joined by NUL characters.
 */
module CacheKey {
  import opened Prelude

  const NUL: char := '\0'

  datatype Agent = Agent(
    id: string,
    command: Option<string>,
    sdkBackend: Option<string>,
    acpCommand: Option<string>,
    env: map<string, string>,
    appServer: Option<bool>,     // codexRuntime: Some(true) is "app-server"
    streamingJson: bool,         // grokRuntime is "streaming-json"
    cliLogin: bool)              // cursorAuthMode is "cli-login"

  function OrEmpty(s: Option<string>): string {
    if s.Some? then s.value else ""
  }

  function Backend(agent: Agent): string {
    if OrEmpty(agent.sdkBackend) != "" then OrEmpty(agent.sdkBackend) else OrEmpty(agent.acpCommand)
  }

  function CodexRuntime(agent: Agent): string {
    if agent.appServer == Some(true) then "app-server" else "sdk"
  }

  function GrokRuntime(agent: Agent): string {
    if Backend(agent) != "grok" then "" else if agent.streamingJson then "streaming-json" else "acp"
  }

  function CursorAuth(agent: Agent): string {
    if Backend(agent) != "cursor" then "" else if agent.cliLogin then "cli-login" else "api-key"
  }

  function EnvHint(agent: Agent, name: string): string {
    name + "=" + OrEmpty(Lookup(agent.env, name))
  }

  function EnvHints(agent: Agent, hints: seq<string>): (r: seq<string>)
    ensures |r| == |hints| && forall i :: 0 <= i < |r| ==> r[i] == EnvHint(agent, hints[i])
  {
    seq(|hints|, i requires 0 <= i < |hints| => EnvHint(agent, hints[i]))
  }

  function SettingFields(agent: Agent): seq<string> {
    [agent.id, Backend(agent), OrEmpty(agent.command), CodexRuntime(agent), GrokRuntime(agent), CursorAuth(agent)]
  }

  function Fields(agent: Agent, hints: seq<string>): seq<string> {
    SettingFields(agent) + EnvHints(agent, hints)
  }

  function Joined(fields: seq<string>): string {
    if fields == [] then ""
    else if |fields| == 1 then fields[0]
    else fields[0] + [NUL] + Joined(fields[1..])
  }

  function BuildSdkRuntimeModelCacheKey(agent: Agent, hints: seq<string>): string {
    Joined(Fields(agent, hints))
  }

  predicate Plain(s: string) {
    NUL !in s
  }

  ghost predicate AllPlain(fields: seq<string>) {
    forall i :: 0 <= i < |fields| ==> Plain(fields[i])
  }

  function FirstNul(s: string): nat {
    if s == "" || s[0] == NUL then 0 else 1 + FirstNul(s[1..])
  }

  lemma {:induction false} FirstNulEnds(a: string, rest: string)
    requires Plain(a)
    ensures FirstNul(a + [NUL] + rest) == |a|
  {
    if a != "" {
      FirstNulEnds(a[1..], rest);
      assert (a + [NUL] + rest)[1..] == a[1..] + [NUL] + rest;
    }
  }

  /** A text without the separator ends where the separator first occurs. */
  lemma FirstFieldEnds(a: string, b: string, restA: string, restB: string)
    requires Plain(a) && Plain(b) && a + [NUL] + restA == b + [NUL] + restB
    ensures a == b && restA == restB
  {
    var whole := a + [NUL] + restA;
    FirstNulEnds(a, restA);
    FirstNulEnds(b, restB);
    assert a == whole[..|a|] && b == whole[..|b|];
    assert restA == whole[|a| + 1..] && restB == whole[|b| + 1..];
  }

  lemma {:induction false} JoinedInjective(a: seq<string>, b: seq<string>)
    requires |a| == |b| && AllPlain(a) && AllPlain(b) && Joined(a) == Joined(b)
    ensures a == b
  {
    if |a| > 1 {
      FirstFieldEnds(a[0], b[0], Joined(a[1..]), Joined(b[1..]));
      JoinedInjective(a[1..], b[1..]);
      assert a == [a[0]] + a[1..] && b == [b[0]] + b[1..];
    }
  }

  function CountNul(s: string): nat {
    if s == "" then 0 else (if s[0] == NUL then 1 else 0) + CountNul(s[1..])
  }

  lemma {:induction false} CountNulConcat(a: string, b: string)
    ensures CountNul(a + b) == CountNul(a) + CountNul(b)
  {
    if a == "" {
      assert a + b == b;
    } else {
      CountNulConcat(a[1..], b);
      assert (a + b)[1..] == a[1..] + b;
    }
  }

  lemma {:induction false} PlainIffNoNul(s: string)
    ensures Plain(s) <==> CountNul(s) == 0
  {
    if s != "" {
      PlainIffNoNul(s[1..]);
      assert s == [s[0]] + s[1..];
    }
  }

  /** The separators inside the fields. */
  function CountIn(fields: seq<string>): nat {
    if fields == [] then 0 else CountNul(fields[0]) + CountIn(fields[1..])
  }

  lemma {:induction false} AllPlainIffNoneIn(fields: seq<string>)
    ensures AllPlain(fields) <==> CountIn(fields) == 0
  {
    if fields != [] {
      AllPlainIffNoneIn(fields[1..]);
      PlainIffNoNul(fields[0]);
      assert forall i :: 1 <= i < |fields| ==> fields[i] == fields[1..][i - 1];
      if AllPlain(fields[1..]) && Plain(fields[0]) {
        assert AllPlain(fields);
      }
    }
  }

  /** Joining adds one separator between any two fields. */
  lemma {:induction false} JoinedCount(fields: seq<string>)
    requires fields != []
    ensures CountNul(Joined(fields)) == CountIn(fields) + |fields| - 1
  {
    if |fields| > 1 {
      JoinedCount(fields[1..]);
      CountNulConcat(fields[0] + [NUL], Joined(fields[1..]));
      CountNulConcat(fields[0], [NUL]);
      assert [NUL][1..] == "";
    } else {
      assert fields[1..] == [];
    }
  }

  /** A key built from plain fields comes from no other list of that length, plain or not. */
  lemma PlainFieldsAreKnown(a: seq<string>, b: seq<string>)
    requires |a| == |b| && AllPlain(a) && Joined(a) == Joined(b)
    ensures a == b
  {
    if a != [] {
      JoinedCount(a);
      JoinedCount(b);
      AllPlainIffNoneIn(a);
      AllPlainIffNoneIn(b);
      JoinedInjective(a, b);
    }
  }

  /** A list as long as `a` that is joined to the same text. */
  ghost predicate JoinsAlike(a: seq<string>, b: seq<string>) {
    |a| == |b| && Joined(a) == Joined(b)
  }

  lemma {:induction false} JoinedPrefix(prefix: seq<string>, a: seq<string>, b: seq<string>)
    requires a != [] && b != [] && Joined(a) == Joined(b)
    ensures Joined(prefix + a) == Joined(prefix + b)
  {
    if prefix == [] {
      assert prefix + a == a && prefix + b == b;
    } else {
      JoinedPrefix(prefix[1..], a, b);
      assert (prefix + a)[1..] == prefix[1..] + a && (prefix + b)[1..] == prefix[1..] + b;
    }
  }

  lemma JoinedPair(f: string, g: string, rest: seq<string>)
    ensures Joined([f, g] + rest) == f + [NUL] + g + (if rest == [] then "" else [NUL] + Joined(rest))
  {
    var all := [f, g] + rest;
    assert all[1..] == [g] + rest && all[1..][1..] == rest;
    if rest == [] {
      assert [g] + rest == [g];
    }
  }

  /** Two neighbours, one of them with a separator inside, can be cut differently. */
  lemma Recut(f: string, g: string) returns (f': string, g': string)
    requires !Plain(f) || !Plain(g)
    ensures f' != f && f' + [NUL] + g' == f + [NUL] + g
  {
    if !Plain(f) {
      var i :| 0 <= i < |f| && f[i] == NUL;
      f', g' := f[..i], f[i + 1..] + [NUL] + g;
      assert f == f[..i] + [NUL] + f[i + 1..];
    } else {
      var i :| 0 <= i < |g| && g[i] == NUL;
      f', g' := f + [NUL] + g[..i], g[i + 1..];
      assert g == g[..i] + [NUL] + g[i + 1..];
    }
  }

  /** A list with a separator in some field shares its key with another list. */
  lemma UnplainFieldsCollide(a: seq<string>) returns (b: seq<string>)
    requires |a| >= 2 && !AllPlain(a)
    ensures JoinsAlike(a, b) && b != a
  {
    var i :| 0 <= i < |a| && !Plain(a[i]);
    var k := if i + 1 < |a| then i else i - 1;
    var f, g := Recut(a[k], a[k + 1]);
    var rest := a[k + 2..];
    JoinedPair(a[k], a[k + 1], rest);
    JoinedPair(f, g, rest);
    JoinedPrefix(a[..k], [a[k], a[k + 1]] + rest, [f, g] + rest);
    assert a == a[..k] + ([a[k], a[k + 1]] + rest);
    b := a[..k] + ([f, g] + rest);
    assert b[k] == f;
  }

  /** The key of a list of at least two fields determines the list exactly when no field contains the separator. */
  lemma KeyDeterminesFieldsIff(a: seq<string>)
    requires |a| >= 2
    ensures AllPlain(a) <==> forall b :: JoinsAlike(a, b) ==> b == a
  {
    if AllPlain(a) {
      forall b | JoinsAlike(a, b)
        ensures b == a
      {
        PlainFieldsAreKnown(a, b);
      }
    } else {
      var b := UnplainFieldsCollide(a);
    }
  }

  /** The backend an agent runs on: the one named for the SDK, or the ACP command where that is missing or empty. */
  predicate RunsOn(agent: Agent, backend: string) {
    if agent.sdkBackend.Some? && agent.sdkBackend.value != "" then backend == agent.sdkBackend.value
    else if agent.acpCommand.Some? then backend == agent.acpCommand.value
    else backend == ""
  }

  /** The settings that select a model catalog agree. */
  ghost predicate SameCatalogSource(a: Agent, b: Agent, hints: seq<string>) {
    && (exists backend :: RunsOn(a, backend) && RunsOn(b, backend) && SameSettings(a, b, backend))
    && SameHints(a, b, hints)
  }

  /** The agents, run on one backend, agree in what matters to it. */
  predicate SameSettings(a: Agent, b: Agent, backend: string) {
    && a.id == b.id && SameText(a.command, b.command)
    && (a.appServer == Some(true) <==> b.appServer == Some(true))
    && (backend == "grok" ==> a.streamingJson == b.streamingJson)
    && (backend == "cursor" ==> a.cliLogin == b.cliLogin)
  }

  predicate SameHints(a: Agent, b: Agent, hints: seq<string>) {
    forall i :: 0 <= i < |hints| ==> SameText(Lookup(a.env, hints[i]), Lookup(b.env, hints[i]))
  }

  /** The same text, an empty one counting as missing. */
  predicate SameText(a: Option<string>, b: Option<string>) {
    a == b || (a in {None, Some("")} && b in {None, Some("")})
  }

  lemma SameTextIff(a: Option<string>, b: Option<string>)
    ensures SameText(a, b) <==> OrEmpty(a) == OrEmpty(b)
  {
  }

  lemma BackendIsRunOn(agent: Agent, backend: string)
    ensures RunsOn(agent, backend) <==> backend == Backend(agent)
  {
  }

  lemma SameHintsIff(a: Agent, b: Agent, hints: seq<string>)
    ensures EnvHints(a, hints) == EnvHints(b, hints) <==> SameHints(a, b, hints)
  {
    var ha, hb := EnvHints(a, hints), EnvHints(b, hints);
    forall i | 0 <= i < |hints|
      ensures ha[i] == hb[i] <==> SameText(Lookup(a.env, hints[i]), Lookup(b.env, hints[i]))
    {
      var prefix := hints[i] + "=";
      assert ha[i][|prefix|..] == OrEmpty(Lookup(a.env, hints[i]));
      assert hb[i][|prefix|..] == OrEmpty(Lookup(b.env, hints[i]));
      SameTextIff(Lookup(a.env, hints[i]), Lookup(b.env, hints[i]));
    }
  }

  lemma SameSettingsIff(a: Agent, b: Agent)
    ensures SettingFields(a) == SettingFields(b)
        <==> exists backend :: RunsOn(a, backend) && RunsOn(b, backend) && SameSettings(a, b, backend)
  {
    BackendIsRunOn(a, Backend(a));
    BackendIsRunOn(b, Backend(b));
    SameTextIff(a.command, b.command);
    RuntimesDiffer();
    var fa, fb := SettingFields(a), SettingFields(b);
    assert fa[0] == a.id && fa[1] == Backend(a) && fa[2] == OrEmpty(a.command) && fa[3] == CodexRuntime(a);
    assert fb[0] == b.id && fb[1] == Backend(b) && fb[2] == OrEmpty(b.command) && fb[3] == CodexRuntime(b);
    assert fa[4] == GrokRuntime(a) && fa[5] == CursorAuth(a) && fb[4] == GrokRuntime(b) && fb[5] == CursorAuth(b);
    if fa == fb {
      assert RunsOn(a, Backend(a)) && RunsOn(b, Backend(a)) && SameSettings(a, b, Backend(a));
    }
    if backend :| RunsOn(a, backend) && RunsOn(b, backend) && SameSettings(a, b, backend) {
      BackendIsRunOn(a, backend);
      BackendIsRunOn(b, backend);
    }
  }

  lemma SameFieldsIff(a: Agent, b: Agent, hints: seq<string>)
    ensures Fields(a, hints) == Fields(b, hints) <==> SameCatalogSource(a, b, hints)
  {
    SameSettingsIff(a, b);
    SameHintsIff(a, b, hints);
    var fa, fb := Fields(a, hints), Fields(b, hints);
    assert fa[..6] == SettingFields(a) && fa[6..] == EnvHints(a, hints);
    assert fb[..6] == SettingFields(b) && fb[6..] == EnvHints(b, hints);
  }

  lemma RuntimesDiffer()
    ensures "acp" != "streaming-json" && "api-key" != "cli-login"
  {
    assert "acp"[0] == 'a' && "streaming-json"[0] == 's' && "api-key"[0] == 'a' && "cli-login"[0] == 'c';
  }

  /** If one of two agents has no NUL character in its fields, they share a cache entry exactly when their catalog sources agree. */
  lemma KeyIdentifiesSource(a: Agent, b: Agent, hints: seq<string>)
    requires AllPlain(Fields(a, hints))
    ensures BuildSdkRuntimeModelCacheKey(a, hints) == BuildSdkRuntimeModelCacheKey(b, hints) <==> SameCatalogSource(a, b, hints)
  {
    SameFieldsIff(a, b, hints);
    if BuildSdkRuntimeModelCacheKey(a, hints) == BuildSdkRuntimeModelCacheKey(b, hints) {
      PlainFieldsAreKnown(Fields(a, hints), Fields(b, hints));
    }
  }

  /** With a NUL character inside a field, two different agents can share an entry. */
  lemma NulFieldsCollide(hints: seq<string>)
    ensures var a := Agent("x", None, Some("y\0z"), None, map[], None, false, false);
      var b := Agent("x\0y", None, Some("z"), None, map[], None, false, false);
      BuildSdkRuntimeModelCacheKey(a, hints) == BuildSdkRuntimeModelCacheKey(b, hints) && a.id != b.id
  {
    var a := Agent("x", None, Some("y\0z"), None, map[], None, false, false);
    var b := Agent("x\0y", None, Some("z"), None, map[], None, false, false);
    var fa, fb := Fields(a, hints), Fields(b, hints);
    assert EnvHints(a, hints) == EnvHints(b, hints);
    assert fa[2..] == fb[2..];
    assert fa[1..][1..] == fa[2..] && fb[1..][1..] == fb[2..];
    assert Joined(fa) == "x" + [NUL] + ("y\0z" + [NUL] + Joined(fa[2..]));
    assert Joined(fb) == "x\0y" + [NUL] + ("z" + [NUL] + Joined(fb[2..]));
  }
}
