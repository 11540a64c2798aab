/**
 What applying and collecting leave behind, setting by setting, stated without
 the functions that compute it: which terminal settings win, which keys are
 sealed, carried or stopped, and what becomes of each agent's binding.
 */
module SettingsResults {
  import opened Prelude
  import opened SettingsApply

  // Terminal settings.

  /** A setting that is not one of the middle-click pair comes from the payload if it is there and syncable, else from this device. */
  lemma TerminalSettingAfterMerge(existing: TerminalSettings, incoming: TerminalSettings, syncable: set<string>, key: string)
    requires key != BEHAVIOR && key != PASTE
    ensures Lookup(MergedTerminal(existing, incoming, syncable), key)
         == Lookup(if key in incoming && key in syncable then incoming else existing, key)
  {
  }

  /** The three values of the behavior that say something about pasting. */
  predicate SpeaksOfPasting(v: Value) {
    v in {Text("context-menu"), Text("paste"), Text("disabled")}
  }

  /**
   After a merge the middle-click pair agrees with whichever of the two came in:
   a known behavior decides whether middle click pastes; a lone paste flag
   decides the behavior, which is disabled exactly when the flag is false; a
   payload with neither leaves both as they were.
   */
  lemma MiddleClickAfterMerge(existing: TerminalSettings, incoming: TerminalSettings, syncable: set<string>)
    requires CoversMiddleClick(syncable)
    ensures var merged := MergedTerminal(existing, incoming, syncable);
      && (BEHAVIOR in incoming ==> Lookup(merged, BEHAVIOR) == Some(incoming[BEHAVIOR]))
      && (BEHAVIOR in incoming && SpeaksOfPasting(incoming[BEHAVIOR]) ==>
            Lookup(merged, PASTE) == Some(Flag(incoming[BEHAVIOR] == Text("paste"))) && MiddleClickAgrees(merged))
      && (BEHAVIOR in incoming && !SpeaksOfPasting(incoming[BEHAVIOR]) ==>
            Lookup(merged, PASTE) == Lookup(if PASTE in incoming then incoming else existing, PASTE))
      && (BEHAVIOR !in incoming && PASTE in incoming ==>
            && Lookup(merged, PASTE) == Some(incoming[PASTE])
            && Lookup(merged, BEHAVIOR) in {Some(Text("disabled")), Some(Text("paste"))}
            && (Lookup(merged, BEHAVIOR) == Some(Text("disabled")) <==> incoming[PASTE] == Flag(false)))
      && (BEHAVIOR !in incoming && PASTE !in incoming ==>
            Lookup(merged, BEHAVIOR) == Lookup(existing, BEHAVIOR) && Lookup(merged, PASTE) == Lookup(existing, PASTE))
  {
    assert Text("disabled") != Text("paste") by {
      assert "disabled"[0] != "paste"[0];
    }
  }

  // Keys.

  /** No key in the clear where sealing works. */
  predicate IsSealed(v: Vault, seal: Sealer, key: KeyField) {
    key.Key? && !v.isPlaceholder(key.text) ==> seal(key.text).None?
  }

  /** What sealing returns is a placeholder of this device. */
  ghost predicate SealsToPlaceholders(v: Vault, seal: Sealer) {
    forall t: string :: seal(t).Some? ==> v.isPlaceholder(seal(t).value)
  }

  /** Every key an apply stores is sealed, unless sealing fails or it was stored in the clear on this device already. */
  lemma AppliedKeysAreSealed(v: Vault, seal: Sealer, local: seq<Provider>, incoming: seq<Provider>, i: nat)
    requires SealsToPlaceholders(v, seal) && i < |incoming|
    requires forall j :: 0 <= j < |local| ==> IsSealed(v, seal, local[j].apiKey)
    ensures var after := AppliedProviders(v, seal, local, incoming);
      |after| == |incoming| && IsSealed(v, seal, after[i].apiKey)
  {
    if incoming[i].id.Some? {
      var j := LastWith(local, incoming[i].id.value);
    }
  }

  lemma AppliedSearchKeyIsSealed(v: Vault, seal: Sealer, local: Option<WebSearch>, incoming: WebSearch)
    requires SealsToPlaceholders(v, seal) && (local.Some? ==> IsSealed(v, seal, local.value.apiKey))
    ensures IsSealed(v, seal, AppliedWebSearch(v, seal, local, incoming).apiKey)
  {
  }

  /** A plain collect carries no placeholder of this device, and every other key as it is. */
  lemma CollectCarriesNoPlaceholder(v: Vault, key: KeyField)
    ensures var carried := Stripped(v, key);
      && (carried.Key? ==> !v.isPlaceholder(carried.text))
      && (!(key.Key? && v.isPlaceholder(key.text)) ==> carried == key)
      && (key.Key? && v.isPlaceholder(key.text) ==> carried == Absent)
  {
  }

  /**
   A cloud upload is stopped if and only if a stored placeholder does not read
   as some other, non-empty text that is no placeholder; what it carries is then
   that text, and no upload carries a placeholder.
   */
  lemma UploadStopsIff(v: Vault, key: KeyField)
    ensures Portable(v, key).None?
        <==> && key.Key? && v.isPlaceholder(key.text)
             && (v.decrypt(key.text) in {None, Some(""), Some(key.text)} || v.isPlaceholder(v.decrypt(key.text).value))
    ensures Portable(v, key).Some? ==>
      && (Portable(v, key).value.Key? ==> !v.isPlaceholder(Portable(v, key).value.text))
      && (if key.Key? then Portable(v, key).value.Key? && Some(Portable(v, key).value.text) == Plain(v, key.text)
          else Portable(v, key).value == key)
  {
  }

  /**
   Applying a web-search setting changes nothing of it but its key. A keyless one
   takes over the local key exactly when a local string key is stored for the
   same provider, and then that very text; one that brings a key keeps its secret.
   */
  lemma SearchKeyAfterApply(v: Vault, seal: Sealer, local: Option<WebSearch>, incoming: WebSearch)
    requires Lawful(v, seal)
    ensures var after := AppliedWebSearch(v, seal, local, incoming);
      && after.(apiKey := incoming.apiKey) == incoming
      && (incoming.apiKey.Absent? ==>
            if local.Some? && local.value.apiKey.Key? && local.value.providerId == incoming.providerId
            then after.apiKey == local.value.apiKey else after.apiKey == Absent)
      && (!incoming.apiKey.Absent? ==> SameSecret(v, after.apiKey, incoming.apiKey))
  {
    EncryptedKeepsSecret(v, seal, incoming.apiKey);
  }

  // The AI part.

  /** The provider a binding names is in the list. */
  ghost predicate Names(ps: seq<Provider>, id: string) {
    id != "" && exists i :: 0 <= i < |ps| && ps[i].id == Some(id)
  }

  /** An agent's binding before reconciling: the payload's map replaces this device's. */
  function BoundTo(s: AiState, p: AiPayload, agent: string): Option<string> {
    Lookup(OrEmpty(if p.providerMap.Some? then p.providerMap else s.providerMap), agent)
  }

  function ModelOf(s: AiState, p: AiPayload, agent: string): Option<string> {
    Lookup(OrEmpty(if p.modelMap.Some? then p.modelMap else s.modelMap), agent)
  }

  /**
   What becomes of one agent: bound to a provider that does not exist after the
   apply it loses binding and model, and otherwise it has both as the payload
   says, or as this device had them where the payload is silent.
   */
  lemma AgentAfterApply(v: Vault, seal: Sealer, s: AiState, p: AiPayload, agent: string)
    ensures var after := AppliedAi(v, seal, s, p);
      var bound := BoundTo(s, p, agent);
      var lost := bound.Some? && !Names(Stored(after.providers), bound.value);
      && Lookup(OrEmpty(after.providerMap), agent) == (if lost then None else bound)
      && Lookup(OrEmpty(after.modelMap), agent) == (if lost then None else ModelOf(s, p, agent))
  {
    var before := Written(v, seal, s, p);
    ModelsGoWithTheirBinding(before, agent);
    var ps := Stored(before.providers);
    if BoundTo(s, p, agent).Some? {
      var id := BoundTo(s, p, agent).value;
      if Names(ps, id) {
        var i :| 0 <= i < |ps| && ps[i].id == Some(id);
        assert ps[i].id.value in ValidIds(ps);
      }
    }
  }

  /** The other AI settings follow the payload, and stay as they were where it is silent. */
  lemma AiFieldsAfterApply(v: Vault, seal: Sealer, s: AiState, p: AiPayload)
    ensures var after := AppliedAi(v, seal, s, p);
      && (p.providers.None? ==> after.providers == s.providers)
      && (p.providers.Some? ==> after.providers == Some(AppliedProviders(v, seal, Stored(s.providers), p.providers.value)))
      && (p.webSearch.Leave? ==> after.webSearch == s.webSearch)
      && (p.webSearch.Remove? ==> after.webSearch == None)
      && (p.webSearch.Set? ==> after.webSearch == Some(AppliedWebSearch(v, seal, s.webSearch, p.webSearch.config)))
  {
  }
}
