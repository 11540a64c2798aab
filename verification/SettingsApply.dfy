/**
 Applying and collecting synced settings (application/syncPayload.ts): the
 terminal merge, the two merges that keep local API keys, and the reconciling
 of per-agent bindings that runs after every AI write.
 */
module SettingsApply {
  import opened Prelude

  // Terminal settings.

  datatype Value = Text(text: string) | Flag(on: bool) | Other(json: string)

  type TerminalSettings = map<string, Value>

  const BEHAVIOR := "middleClickBehavior"
  const PASTE := "middleClickPaste"

  /** The syncable list contains both middle-click keys. */
  ghost predicate CoversMiddleClick(syncable: set<string>) {
    BEHAVIOR in syncable && PASTE in syncable
  }

  function Overlaid(existing: TerminalSettings, incoming: TerminalSettings, syncable: set<string>): TerminalSettings {
    existing + (map k | k in incoming && k in syncable :: incoming[k])
  }

  /** The two middle-click settings are stored apart; whichever came in decides the other. */
  function WithMiddleClick(merged: TerminalSettings, incoming: TerminalSettings): TerminalSettings {
    if BEHAVIOR in incoming then
      var behavior := incoming[BEHAVIOR];
      if behavior == Text("context-menu") || behavior == Text("paste") || behavior == Text("disabled")
        then merged[PASTE := Flag(behavior == Text("paste"))] else merged
    else if PASTE in incoming then
      merged[BEHAVIOR := Text(if incoming[PASTE] == Flag(false) then "disabled" else "paste")]
    else merged
  }

  function MergedTerminal(existing: TerminalSettings, incoming: TerminalSettings, syncable: set<string>): TerminalSettings {
    WithMiddleClick(Overlaid(existing, incoming, syncable), incoming)
  }

  function CollectedTerminal(stored: TerminalSettings, syncable: set<string>): TerminalSettings {
    map k | k in stored && k in syncable :: stored[k]
  }

  /** A stored pair in which neither middle-click setting contradicts the other. */
  predicate MiddleClickAgrees(t: TerminalSettings) {
    && (BEHAVIOR in t && t[BEHAVIOR] in {Text("context-menu"), Text("paste"), Text("disabled")} ==>
          Lookup(t, PASTE) == Some(Flag(t[BEHAVIOR] == Text("paste"))))
    && (BEHAVIOR !in t ==> PASTE !in t)
  }

  /** Settings that are not on the syncable list survive every apply. */
  lemma LocalTerminalKeysSurvive(existing: TerminalSettings, incoming: TerminalSettings, syncable: set<string>, key: string)
    requires CoversMiddleClick(syncable) && key !in syncable
    ensures Lookup(MergedTerminal(existing, incoming, syncable), key) == Lookup(existing, key)
  {
  }

  /**
   What one device collects, another takes over key by key; a middle-click
   setting that contradicts its sibling is the only one that may not arrive.
   */
  lemma CollectedSettingsArrive(from: TerminalSettings, existing: TerminalSettings, syncable: set<string>, key: string)
    requires CoversMiddleClick(syncable) && key in from && key in syncable
    ensures var arrived := Lookup(MergedTerminal(existing, CollectedTerminal(from, syncable), syncable), key);
      && (key != PASTE || BEHAVIOR !in from ==> arrived == Some(from[key]))
      && (MiddleClickAgrees(from) ==> arrived == Some(from[key]))
  {
  }

  /** Collecting and applying on one device changes nothing exactly when its middle-click pair agrees. */
  lemma OwnTerminalSettingsComeBackIff(t: TerminalSettings, syncable: set<string>)
    requires CoversMiddleClick(syncable)
    ensures MergedTerminal(t, CollectedTerminal(t, syncable), syncable) == t <==> MiddleClickAgrees(t)
  {
    var collected := CollectedTerminal(t, syncable);
    var merged := MergedTerminal(t, collected, syncable);
    assert Overlaid(t, collected, syncable) == t;
    if PASTE in t && BEHAVIOR !in t {
      assert BEHAVIOR in merged;
    }
    if MiddleClickAgrees(t) {
      assert forall k :: k in merged <==> k in t;
    }
  }

  lemma TerminalIsIdempotent(existing: TerminalSettings, incoming: TerminalSettings, syncable: set<string>)
    ensures MergedTerminal(MergedTerminal(existing, incoming, syncable), incoming, syncable) == MergedTerminal(existing, incoming, syncable)
  {
  }

  // API keys.

  /** An API key field: missing, a string, or some other JSON value. */
  datatype KeyField = Absent | Key(text: string) | Junk(json: string)

  /** `id` is None for an entry whose id is not a string. */
  datatype Provider = Provider(id: Option<string>, apiKey: KeyField, rest: string)

  datatype WebSearch = WebSearch(providerId: Option<string>, apiKey: KeyField, rest: string)

  /** How stored texts read on this device: some are encrypted placeholders. */
  datatype Vault = Vault(isPlaceholder: string -> bool, decrypt: string -> Option<string>)

  type Sealer = string -> Option<string>   // encryption may fail

  function Plain(v: Vault, text: string): Option<string> {
    if v.isPlaceholder(text) then v.decrypt(text) else Some(text)
  }

  ghost predicate Lawful(v: Vault, seal: Sealer) {
    forall t: string :: !v.isPlaceholder(t) && seal(t).Some? ==> Plain(v, seal(t).value) == Some(t)
  }

  function LocalEncrypted(v: Vault, seal: Sealer, key: KeyField): KeyField {
    if key.Key? && !v.isPlaceholder(key.text) && seal(key.text).Some? then Key(seal(key.text).value) else key
  }

  /** What a cloud upload carries for a stored key; None when the upload is stopped. */
  function Portable(v: Vault, key: KeyField): Option<KeyField> {
    if !key.Key? || !v.isPlaceholder(key.text) then Some(key)
    else
      var decrypted := v.decrypt(key.text);
      if decrypted.None? || decrypted.value == "" || decrypted.value == key.text || v.isPlaceholder(decrypted.value) then None
      else Some(Key(decrypted.value))
  }

  /** What a plain collect carries: no placeholder of this device. */
  function Stripped(v: Vault, key: KeyField): KeyField {
    if key.Key? && v.isPlaceholder(key.text) then Absent else key
  }

  /** Two fields hold the same secret, however it is encrypted. */
  predicate SameSecret(v: Vault, a: KeyField, b: KeyField) {
    if a.Key? && b.Key? then Plain(v, a.text) == Plain(v, b.text) else a == b
  }

  /** A key that leaves one device for the cloud reads the same on the device that stores it. */
  lemma CloudCarriesKeys(sender: Vault, receiver: Vault, seal: Sealer, key: KeyField)
    requires key.Key? && Lawful(receiver, seal)
    requires Portable(sender, key).Some? && !receiver.isPlaceholder(Portable(sender, key).value.text)
    ensures var stored := LocalEncrypted(receiver, seal, Portable(sender, key).value);
      stored.Key? && Plain(receiver, stored.text) == Plain(sender, key.text)
  {
  }

  /** The last local provider with this id decides; only a string key counts. */
  function LocalKey(local: seq<Provider>, id: string): KeyField {
    if local == [] then Absent
    else if local[|local| - 1].id == Some(id) then local[|local| - 1].apiKey
    else LocalKey(local[..|local| - 1], id)
  }

  function KeyFor(local: seq<Provider>, p: Provider): KeyField {
    if p.apiKey.Absent? && p.id.Some? && LocalKey(local, p.id.value).Key? then LocalKey(local, p.id.value) else p.apiKey
  }

  function MergedProviders(local: seq<Provider>, incoming: seq<Provider>): (r: seq<Provider>)
    ensures |r| == |incoming|
    ensures forall i :: 0 <= i < |r| ==> r[i] == incoming[i].(apiKey := KeyFor(local, incoming[i]))
  {
    seq(|incoming|, i requires 0 <= i < |incoming| => incoming[i].(apiKey := KeyFor(local, incoming[i])))
  }

  function Encrypted(v: Vault, seal: Sealer, ps: seq<Provider>): (r: seq<Provider>)
    ensures |r| == |ps|
    ensures forall i :: 0 <= i < |r| ==> r[i] == ps[i].(apiKey := LocalEncrypted(v, seal, ps[i].apiKey))
  {
    seq(|ps|, i requires 0 <= i < |ps| => ps[i].(apiKey := LocalEncrypted(v, seal, ps[i].apiKey)))
  }

  function AppliedProviders(v: Vault, seal: Sealer, local: seq<Provider>, incoming: seq<Provider>): seq<Provider> {
    MergedProviders(local, Encrypted(v, seal, incoming))
  }

  predicate DistinctIds(ps: seq<Provider>) {
    forall i, j :: 0 <= i < j < |ps| && ps[i].id.Some? ==> ps[i].id != ps[j].id
  }

  /** The last entry with this id, or -1. */
  function LastWith(ps: seq<Provider>, id: string): (j: int)
    ensures -1 <= j < |ps|
    ensures j >= 0 ==> ps[j].id == Some(id)
    ensures forall k :: j < k < |ps| ==> ps[k].id != Some(id)
    ensures LocalKey(ps, id) == if j < 0 then Absent else ps[j].apiKey
  {
    if ps == [] then -1
    else if ps[|ps| - 1].id == Some(id) then |ps| - 1
    else LastWith(ps[..|ps| - 1], id)
  }

  predicate SameProviders(v: Vault, a: seq<Provider>, b: seq<Provider>) {
    |a| == |b| && forall i :: 0 <= i < |a| ==> a[i].id == b[i].id && a[i].rest == b[i].rest && SameSecret(v, a[i].apiKey, b[i].apiKey)
  }

  /** An incoming entry without a key gets the same key when the payload is applied again. */
  predicate KeyIsStable(v: Vault, local: seq<Provider>, incoming: seq<Provider>, i: nat)
    requires i < |incoming|
  {
    var p := incoming[i];
    p.apiKey.Absent? && p.id.Some? ==>
      var last := incoming[LastWith(incoming, p.id.value)].apiKey;
      match last
      case Absent => true
      case Key(k) => LocalKey(local, p.id.value).Key? && Plain(v, LocalKey(local, p.id.value).text) == Plain(v, k)
      case Junk(_) => !LocalKey(local, p.id.value).Key?
  }

  lemma EncryptedKeepsSecret(v: Vault, seal: Sealer, key: KeyField)
    requires Lawful(v, seal)
    ensures SameSecret(v, LocalEncrypted(v, seal, key), key)
    ensures LocalEncrypted(v, seal, key).Key? == key.Key? && LocalEncrypted(v, seal, key).Absent? == key.Absent?
  {
  }

  lemma LastWithSameIds(a: seq<Provider>, b: seq<Provider>, id: string)
    requires |a| == |b| && forall i :: 0 <= i < |a| ==> a[i].id == b[i].id
    ensures LastWith(a, id) == LastWith(b, id)
  {
  }

  lemma SecondKey(v: Vault, seal: Sealer, again: Sealer, local: seq<Provider>, incoming: seq<Provider>, i: nat)
    requires Lawful(v, seal) && Lawful(v, again) && i < |incoming|
    ensures var once := AppliedProviders(v, seal, local, incoming);
      var twice := AppliedProviders(v, again, once, incoming);
      SameSecret(v, twice[i].apiKey, once[i].apiKey) <==> KeyIsStable(v, local, incoming, i)
  {
    var once := AppliedProviders(v, seal, local, incoming);
    var p := incoming[i];
    EncryptedKeepsSecret(v, seal, p.apiKey);
    EncryptedKeepsSecret(v, again, p.apiKey);
    if p.apiKey.Absent? && p.id.Some? {
      LastWithSameIds(once, incoming, p.id.value);
      EncryptedKeepsSecret(v, seal, incoming[LastWith(incoming, p.id.value)].apiKey);
    }
  }

  /** Applying the same providers twice is applying them once, up to re-encryption, exactly when every key is stable. */
  lemma ProvidersIdempotentIff(v: Vault, seal: Sealer, again: Sealer, local: seq<Provider>, incoming: seq<Provider>)
    requires Lawful(v, seal) && Lawful(v, again)
    ensures var once := AppliedProviders(v, seal, local, incoming);
      SameProviders(v, AppliedProviders(v, again, once, incoming), once)
      <==> forall i :: 0 <= i < |incoming| ==> KeyIsStable(v, local, incoming, i)
  {
    forall i | 0 <= i < |incoming|
      ensures var once := AppliedProviders(v, seal, local, incoming);
        SameSecret(v, AppliedProviders(v, again, once, incoming)[i].apiKey, once[i].apiKey) <==> KeyIsStable(v, local, incoming, i)
    {
      SecondKey(v, seal, again, local, incoming, i);
    }
  }

  lemma DistinctIdsAreStable(v: Vault, local: seq<Provider>, incoming: seq<Provider>)
    requires DistinctIds(incoming)
    ensures forall i :: 0 <= i < |incoming| ==> KeyIsStable(v, local, incoming, i)
  {
    forall i | 0 <= i < |incoming| && incoming[i].id.Some?
      ensures LastWith(incoming, incoming[i].id.value) == i
    {
      var j := LastWith(incoming, incoming[i].id.value);
      assert incoming[j].id == incoming[i].id;
    }
  }

  /** Two incoming entries with one id, the first without a key: the second apply hands it the other's key. */
  lemma RepeatedIdIsUnstable(v: Vault, seal: Sealer, a: string, b: string)
    requires Lawful(v, seal) && Plain(v, a) != Plain(v, b)
    ensures var local := [Provider(Some("p"), Key(a), "")];
      var incoming := [Provider(Some("p"), Absent, ""), Provider(Some("p"), Key(b), "")];
      var once := AppliedProviders(v, seal, local, incoming);
      !SameProviders(v, AppliedProviders(v, seal, once, incoming), once)
  {
    var local := [Provider(Some("p"), Key(a), "")];
    var incoming := [Provider(Some("p"), Absent, ""), Provider(Some("p"), Key(b), "")];
    assert LastWith(incoming, "p") == 1 && LastWith(local, "p") == 0;
    assert !KeyIsStable(v, local, incoming, 0);
    ProvidersIdempotentIff(v, seal, seal, local, incoming);
  }

  /**
   Collecting strips this device's encrypted keys; applying what was collected
   puts every one of them back, whatever else changed in the payload meanwhile.
   */
  lemma StrippedKeysComeBack(v: Vault, seal: Sealer, local: seq<Provider>, incoming: seq<Provider>, i: nat, j: nat)
    requires i < |incoming| && j < |local| && DistinctIds(local)
    requires local[j].id.Some? && incoming[i].id == local[j].id && local[j].apiKey.Key?
    requires incoming[i].apiKey == Stripped(v, local[j].apiKey) && Lawful(v, seal)
    ensures SameSecret(v, AppliedProviders(v, seal, local, incoming)[i].apiKey, local[j].apiKey)
    ensures v.isPlaceholder(local[j].apiKey.text) ==> AppliedProviders(v, seal, local, incoming)[i].apiKey == local[j].apiKey
  {
    var last := LastWith(local, local[j].id.value);
    assert local[last].id == local[j].id;
    EncryptedKeepsSecret(v, seal, incoming[i].apiKey);
  }

  /** The entry's id has a local key: the last local entry with that id carries a string. */
  ghost predicate HasLocalKey(local: seq<Provider>, p: Provider, key: string) {
    p.id.Some? && exists j :: 0 <= j < |local| && local[j].id == p.id && local[j].apiKey == Key(key)
                              && forall k :: j < k < |local| ==> local[k].id != p.id
  }

  /**
   Applying changes nothing of an entry but its key. A keyless entry ends with a
   key exactly when the last local entry of its id has one, and then with that
   very text; an entry that brings a key keeps its secret.
   */
  lemma AppliedKeysComeFromTheSameId(v: Vault, seal: Sealer, local: seq<Provider>, incoming: seq<Provider>, i: nat, key: string)
    requires i < |incoming| && Lawful(v, seal)
    ensures var p, after := incoming[i], AppliedProviders(v, seal, local, incoming);
      && |after| == |incoming| && after[i].(apiKey := p.apiKey) == p
      && (p.apiKey.Absent? ==> (after[i].apiKey == Key(key) <==> HasLocalKey(local, p, key)))
      && (!p.apiKey.Absent? ==> SameSecret(v, after[i].apiKey, p.apiKey))
  {
    EncryptedKeepsSecret(v, seal, incoming[i].apiKey);
    if incoming[i].id.Some? {
      var j := LastWith(local, incoming[i].id.value);
      assert j >= 0 ==> local[j].id == incoming[i].id;
    }
  }

  function MergedWebSearch(local: Option<WebSearch>, incoming: WebSearch): WebSearch {
    if incoming.apiKey.Absent? && local.Some? && local.value.apiKey.Key? && local.value.providerId == incoming.providerId
      then incoming.(apiKey := local.value.apiKey) else incoming
  }

  function AppliedWebSearch(v: Vault, seal: Sealer, local: Option<WebSearch>, incoming: WebSearch): WebSearch {
    MergedWebSearch(local, incoming.(apiKey := LocalEncrypted(v, seal, incoming.apiKey)))
  }

  /** A key is never carried over to another search provider, and re-applying changes no secret. */
  lemma WebSearchKeepsItsKey(v: Vault, seal: Sealer, again: Sealer, local: Option<WebSearch>, incoming: WebSearch)
    requires Lawful(v, seal) && Lawful(v, again)
    ensures var once := AppliedWebSearch(v, seal, local, incoming);
      && SameSecret(v, AppliedWebSearch(v, again, Some(once), incoming).apiKey, once.apiKey)
      && (incoming.apiKey.Absent? && once.apiKey.Key? ==> local.Some? && local.value.providerId == incoming.providerId && once.apiKey == local.value.apiKey)
  {
    EncryptedKeepsSecret(v, seal, incoming.apiKey);
    EncryptedKeepsSecret(v, again, incoming.apiKey);
  }

  // Per-agent bindings.

  type Bindings = map<string, string>

  function ValidIds(ps: seq<Provider>): set<string> {
    set i | 0 <= i < |ps| && ps[i].id.Some? && ps[i].id.value != "" :: ps[i].id.value
  }

  function OrEmpty(b: Option<Bindings>): Bindings {
    if b.Some? then b.value else map[]
  }

  function Orphans(bindings: Bindings, valid: set<string>): set<string> {
    set a | a in bindings && (bindings[a] == "" || bindings[a] !in valid)
  }

  datatype AiState = AiState(
    providers: Option<seq<Provider>>,
    providerMap: Option<Bindings>,
    modelMap: Option<Bindings>,
    webSearch: Option<WebSearch>)

  function Stored(ps: Option<seq<Provider>>): seq<Provider> {
    if ps.Some? then ps.value else []
  }

  function OrphansOf(s: AiState): set<string> {
    Orphans(OrEmpty(s.providerMap), ValidIds(Stored(s.providers)))
  }

  /** Drop the bindings to missing providers and the models chosen under them; write only what changed. */
  function Reconciled(s: AiState): AiState {
    var orphans := OrphansOf(s);
    s.(providerMap := if orphans == {} then s.providerMap else Some(OrEmpty(s.providerMap) - orphans),
       modelMap := if orphans * OrEmpty(s.modelMap).Keys == {} then s.modelMap else Some(OrEmpty(s.modelMap) - orphans))
  }

  datatype WebUpdate = Leave | Remove | Set(config: WebSearch)

  datatype AiPayload = AiPayload(
    providers: Option<seq<Provider>>,
    providerMap: Option<Bindings>,
    modelMap: Option<Bindings>,
    webSearch: WebUpdate)

  /** The AI writes, before the bindings are reconciled. */
  function Written(v: Vault, seal: Sealer, s: AiState, p: AiPayload): AiState {
    AiState(
      if p.providers.Some? then Some(AppliedProviders(v, seal, Stored(s.providers), p.providers.value)) else s.providers,
      if p.providerMap.Some? then p.providerMap else s.providerMap,
      if p.modelMap.Some? then p.modelMap else s.modelMap,
      match p.webSearch
      case Leave => s.webSearch
      case Remove => None
      case Set(config) => Some(AppliedWebSearch(v, seal, s.webSearch, config)))
  }

  function AppliedAi(v: Vault, seal: Sealer, s: AiState, p: AiPayload): AiState {
    Reconciled(Written(v, seal, s, p))
  }

  /** After every apply each binding points at a provider that exists. */
  lemma BindingsPointAtProviders(v: Vault, seal: Sealer, s: AiState, p: AiPayload, agent: string)
    requires agent in OrEmpty(AppliedAi(v, seal, s, p).providerMap)
    ensures var after := AppliedAi(v, seal, s, p);
      exists i :: 0 <= i < |Stored(after.providers)| && Stored(after.providers)[i].id == Some(OrEmpty(after.providerMap)[agent])
    ensures OrEmpty(AppliedAi(v, seal, s, p).providerMap)[agent] != ""
  {
    var before, after := Written(v, seal, s, p), AppliedAi(v, seal, s, p);
    assert agent !in OrphansOf(before);
    assert OrEmpty(after.providerMap)[agent] in ValidIds(Stored(after.providers));
  }

  /** Reconciling drops a model only together with its agent's binding, and touches no other entry. */
  lemma ModelsGoWithTheirBinding(s: AiState, agent: string)
    ensures agent in OrphansOf(s) ==> agent !in OrEmpty(Reconciled(s).providerMap) && agent !in OrEmpty(Reconciled(s).modelMap)
    ensures agent !in OrphansOf(s) ==>
      && Lookup(OrEmpty(Reconciled(s).providerMap), agent) == Lookup(OrEmpty(s.providerMap), agent)
      && Lookup(OrEmpty(Reconciled(s).modelMap), agent) == Lookup(OrEmpty(s.modelMap), agent)
  {
    if agent in OrphansOf(s) && agent in OrEmpty(s.modelMap) {
      assert agent in OrphansOf(s) * OrEmpty(s.modelMap).Keys;
    }
  }

  predicate SameSearch(v: Vault, a: Option<WebSearch>, b: Option<WebSearch>) {
    if a.Some? && b.Some?
    then a.value.(apiKey := Absent) == b.value.(apiKey := Absent) && SameSecret(v, a.value.apiKey, b.value.apiKey)
    else a == b
  }

  predicate SameAi(v: Vault, a: AiState, b: AiState) {
    && a.providers.Some? == b.providers.Some? && SameProviders(v, Stored(a.providers), Stored(b.providers))
    && a.providerMap == b.providerMap && a.modelMap == b.modelMap
    && SameSearch(v, a.webSearch, b.webSearch)
  }

  /** No model in the payload belongs to an agent whose stored binding is about to be dropped. */
  predicate ModelsAreStable(v: Vault, seal: Sealer, s: AiState, p: AiPayload) {
    p.modelMap.Some? && p.providerMap.None? ==> OrphansOf(Written(v, seal, s, p)) * p.modelMap.value.Keys == {}
  }

  lemma SameIdsSameValid(a: seq<Provider>, b: seq<Provider>)
    requires |a| == |b| && forall i :: 0 <= i < |a| ==> a[i].id == b[i].id
    ensures ValidIds(a) == ValidIds(b)
  {
    forall x
      ensures x in ValidIds(a) <==> x in ValidIds(b)
    {
      if x in ValidIds(a) {
        var i :| 0 <= i < |a| && a[i].id == Some(x);
        assert b[i].id == Some(x);
      }
      if x in ValidIds(b) {
        var i :| 0 <= i < |b| && b[i].id == Some(x);
        assert a[i].id == Some(x);
      }
    }
  }

  /** The bindings after a second apply: those of the first, unless a payload model outlived its binding. */
  lemma BindingsIdempotentIff(v: Vault, seal: Sealer, again: Sealer, s: AiState, p: AiPayload)
    ensures var once := AppliedAi(v, seal, s, p);
      var twice := AppliedAi(v, again, once, p);
      && twice.providerMap == once.providerMap
      && (twice.modelMap == once.modelMap <==> ModelsAreStable(v, seal, s, p))
  {
    var first := Written(v, seal, s, p);
    var once := Reconciled(first);
    var second := Written(v, again, once, p);
    SameIdsSameValid(Stored(first.providers), Stored(second.providers));
    var valid, orphans := ValidIds(Stored(first.providers)), OrphansOf(first);
    ReconciledHasNoOrphans(first);
    if p.providerMap.Some? {
      assert OrphansOf(second) == orphans;
      assert orphans * (OrEmpty(first.modelMap) - orphans).Keys == {};
    } else {
      assert second.providerMap == once.providerMap;
      assert OrphansOf(second) == {};
      assert Reconciled(second) == second;
      if a :| a in orphans * OrEmpty(first.modelMap).Keys {
        assert a !in OrEmpty(once.modelMap);
      }
    }
  }

  lemma ReconciledHasNoOrphans(s: AiState)
    ensures Orphans(OrEmpty(Reconciled(s).providerMap), ValidIds(Stored(s.providers))) == {}
  {
  }

  lemma SearchIsIdempotent(v: Vault, seal: Sealer, again: Sealer, s: AiState, p: AiPayload)
    requires Lawful(v, seal) && Lawful(v, again)
    ensures var once := AppliedAi(v, seal, s, p);
      SameSearch(v, AppliedAi(v, again, once, p).webSearch, once.webSearch)
  {
    if p.webSearch.Set? {
      WebSearchKeepsItsKey(v, seal, again, s.webSearch, p.webSearch.config);
    }
  }

  lemma SecretsIdempotentIff(v: Vault, seal: Sealer, again: Sealer, s: AiState, p: AiPayload)
    requires Lawful(v, seal) && Lawful(v, again)
    ensures var once := AppliedAi(v, seal, s, p);
      var twice := AppliedAi(v, again, once, p);
      SameAi(v, twice, once.(providerMap := twice.providerMap, modelMap := twice.modelMap))
      <==> (p.providers.Some? ==> forall i :: 0 <= i < |p.providers.value| ==> KeyIsStable(v, Stored(s.providers), p.providers.value, i))
  {
    if p.providers.Some? {
      ProvidersIdempotentIff(v, seal, again, Stored(s.providers), p.providers.value);
    }
    SearchIsIdempotent(v, seal, again, s, p);
  }

  /**
   Applying the AI part of a payload twice is applying it once, up to
   re-encryption, exactly when no keyless entry shares its id with one that
   brings a different key, and the payload names no model for an agent whose
   local binding it orphans.
   */
  lemma AiApplyIdempotentIff(v: Vault, seal: Sealer, again: Sealer, s: AiState, p: AiPayload)
    requires Lawful(v, seal) && Lawful(v, again)
    ensures var once := AppliedAi(v, seal, s, p);
      SameAi(v, AppliedAi(v, again, once, p), once)
      <==> && ModelsAreStable(v, seal, s, p)
           && (p.providers.Some? ==> forall i :: 0 <= i < |p.providers.value| ==> KeyIsStable(v, Stored(s.providers), p.providers.value, i))
  {
    SecretsIdempotentIff(v, seal, again, s, p);
    BindingsIdempotentIff(v, seal, again, s, p);
  }

  /** The second case is real: the model dropped with an orphaned binding comes back on the next apply. */
  lemma DroppedModelReturns(v: Vault, seal: Sealer)
    ensures var s := AiState(Some([]), Some(map["agent" := "gone"]), None, None);
      var p := AiPayload(None, None, Some(map["agent" := "model"]), Leave);
      var once := AppliedAi(v, seal, s, p);
      && OrEmpty(once.modelMap) == map[]
      && OrEmpty(AppliedAi(v, seal, once, p).modelMap) == map["agent" := "model"]
  {
    var s := AiState(Some([]), Some(map["agent" := "gone"]), None, None);
    var p := AiPayload(None, None, Some(map["agent" := "model"]), Leave);
    var first := Written(v, seal, s, p);
    assert OrphansOf(first) == {"agent"};
    assert "agent" in OrphansOf(first) * OrEmpty(first.modelMap).Keys;
    var once := Reconciled(first);
    assert OrphansOf(Written(v, seal, once, p)) == {};
  }

  function KeySet(keys: seq<string>): set<string> {
    set k | k in keys
  }

  lemma OverlaidOneMore(existing: TerminalSettings, incoming: TerminalSettings, syncable: seq<string>, i: nat)
    requires i < |syncable|
    ensures var before := Overlaid(existing, incoming, KeySet(syncable[..i]));
      Overlaid(existing, incoming, KeySet(syncable[..i + 1]))
        == if syncable[i] in incoming then before[syncable[i] := incoming[syncable[i]]] else before
  {
    assert syncable[..i + 1] == syncable[..i] + [syncable[i]];
  }

  /** The storage keys these functions read and write. */
  class SettingsStorage {
    const syncable: seq<string>
    const vault: Vault
    const seal: Sealer
    var terminal: TerminalSettings
    var ai: AiState

    constructor (syncable: seq<string>, vault: Vault, seal: Sealer, terminal: TerminalSettings, ai: AiState)
      ensures this.syncable == syncable && this.vault == vault && this.seal == seal && this.terminal == terminal && this.ai == ai
    {
      this.syncable, this.vault, this.seal, this.terminal, this.ai := syncable, vault, seal, terminal, ai;
    }

    method MergeTerminalSettings(incoming: TerminalSettings)
      modifies this`terminal
      ensures terminal == MergedTerminal(old(terminal), incoming, KeySet(syncable))
    {
      var merged, i := terminal, 0;
      while i < |syncable|
        invariant 0 <= i <= |syncable| && terminal == old(terminal)
        invariant merged == Overlaid(terminal, incoming, KeySet(syncable[..i]))
      {
        OverlaidOneMore(terminal, incoming, syncable, i);
        if syncable[i] in incoming {
          merged := merged[syncable[i] := incoming[syncable[i]]];
        }
        i := i + 1;
      }
      assert syncable[..i] == syncable;
      if BEHAVIOR in incoming {
        var behavior := incoming[BEHAVIOR];
        if behavior == Text("context-menu") || behavior == Text("paste") || behavior == Text("disabled") {
          merged := merged[PASTE := Flag(behavior == Text("paste"))];
        }
      } else if PASTE in incoming {
        merged := merged[BEHAVIOR := Text(if incoming[PASTE] == Flag(false) then "disabled" else "paste")];
      }
      terminal := merged;
    }

    /** One pass over the local list, then one over the incoming one. */
    method MergeAiProvidersPreservingLocalApiKeys(incoming: seq<Provider>) returns (merged: seq<Provider>)
      ensures merged == MergedProviders(Stored(ai.providers), incoming)
    {
      var local := Stored(ai.providers);
      var localById: map<string, Provider> := map[];
      var i := 0;
      while i < |local|
        invariant 0 <= i <= |local|
        invariant forall id :: LocalKey(local[..i], id) == if id in localById then localById[id].apiKey else Absent
      {
        assert local[..i + 1][..i] == local[..i];
        if local[i].id.Some? {
          localById := localById[local[i].id.value := local[i]];
        }
        i := i + 1;
      }
      assert local[..i] == local;
      merged, i := [], 0;
      while i < |incoming|
        invariant 0 <= i <= |incoming| && |merged| == i
        invariant forall k :: 0 <= k < i ==> merged[k] == incoming[k].(apiKey := KeyFor(local, incoming[k]))
      {
        var provider := incoming[i];
        if provider.apiKey.Absent? && provider.id.Some? && provider.id.value in localById
           && localById[provider.id.value].apiKey.Key? {
          provider := provider.(apiKey := localById[provider.id.value].apiKey);
        }
        merged := merged + [provider];
        i := i + 1;
      }
    }

    method PruneOrphanPerAgentBindings()
      modifies this`ai
      ensures ai == Reconciled(old(ai))
    {
      var validIds := ValidIds(Stored(ai.providers));
      var providerMap, modelMap := OrEmpty(ai.providerMap), OrEmpty(ai.modelMap);
      var nextProviderMap: Bindings, nextModelMap := map[], modelMap;
      var providerChanged, modelChanged := false, false;
      ghost var orphans := Orphans(providerMap, validIds);
      var rest := providerMap.Keys;
      while rest != {}
        invariant rest <= providerMap.Keys
        invariant nextProviderMap == providerMap - rest - orphans
        invariant nextModelMap == modelMap - (orphans - rest)
        invariant providerChanged <==> orphans - rest != {}
        invariant modelChanged <==> (orphans - rest) * modelMap.Keys != {}
      {
        var agentId :| agentId in rest;
        ghost var before := orphans - rest;
        rest := rest - {agentId};
        var providerId := providerMap[agentId];
        if providerId != "" && providerId in validIds {
          nextProviderMap := nextProviderMap[agentId := providerId];
          assert orphans - rest == before;
        } else {
          assert agentId in orphans && orphans - rest == before + {agentId};
          providerChanged := true;
          if agentId in nextModelMap {
            assert agentId in (orphans - rest) * modelMap.Keys;
            nextModelMap, modelChanged := nextModelMap - {agentId}, true;
          } else {
            assert (before + {agentId}) * modelMap.Keys == before * modelMap.Keys;
          }
        }
      }
      assert orphans - rest == orphans && providerMap - rest - orphans == providerMap - orphans;
      assert orphans == OrphansOf(ai);
      if providerChanged {
        ai := ai.(providerMap := Some(nextProviderMap));
      }
      if modelChanged {
        ai := ai.(modelMap := Some(nextModelMap));
      }
    }

    method ApplyAi(payload: AiPayload)
      modifies this`ai
      ensures ai == AppliedAi(vault, seal, old(ai), payload)
    {
      if payload.providers.Some? {
        var merged := MergeAiProvidersPreservingLocalApiKeys(Encrypted(vault, seal, payload.providers.value));
        ai := ai.(providers := Some(merged));
      }
      if payload.modelMap.Some? {
        ai := ai.(modelMap := payload.modelMap);
      }
      if payload.providerMap.Some? {
        ai := ai.(providerMap := payload.providerMap);
      }
      match payload.webSearch {
        case Leave =>
        case Remove => ai := ai.(webSearch := None);
        case Set(config) =>
          var sealed := config.(apiKey := LocalEncrypted(vault, seal, config.apiKey));
          ai := ai.(webSearch := Some(MergedWebSearch(ai.webSearch, sealed)));
      }
      PruneOrphanPerAgentBindings();
    }
  }
}
