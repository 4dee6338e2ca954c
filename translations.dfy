/** Translation-key namespacing in the admin panel: registering a plugin's
    translations under `<plugin id>.<key>`, and building the same key for a
    lookup. */
module Translations {
  import opened Common

  /** The plugin identifier. */
  const PLUGIN_ID: string := "email-designer-5"

  /** The namespaced form of `key`. */
  function Prefix(pluginId: string, key: string): (r: string)
    ensures |r| == |pluginId| + 1 + |key|
    ensures r[..|pluginId| + 1] == pluginId + "." && r[|pluginId| + 1..] == key
  {
    pluginId + "." + key
  }

  /** Namespacing under one plugin id loses nothing: distinct keys stay distinct. */
  lemma PrefixInjective(pluginId: string, a: string, b: string)
    ensures Prefix(pluginId, a) == Prefix(pluginId, b) <==> a == b
  {
    if Prefix(pluginId, a) == Prefix(pluginId, b) {
      assert a == Prefix(pluginId, a)[|pluginId| + 1..];
    }
  }

  /** `getTranslation`: the lookup key of a message id. Total: any id, the
      empty one included, gets a key. */
  function GetTranslation(id: string): (r: string)
    ensures |r| == |PLUGIN_ID| + 1 + |id|
    ensures r[..|PLUGIN_ID| + 1] == "email-designer-5." && r[|PLUGIN_ID| + 1..] == id
  {
    Prefix(PLUGIN_ID, id)
  }

  /** Distinct message ids have distinct lookup keys. */
  lemma GetTranslationInjective(a: string, b: string)
    ensures GetTranslation(a) == GetTranslation(b) <==> a == b
  {
    PrefixInjective(PLUGIN_ID, a, b);
  }

  datatype PrefixError = EmptyPluginId  // TypeError "pluginId can't be empty"

  /** `acc` holds exactly the entries of `trad` whose keys are in `done`,
      each under its namespaced key. */
  predicate Collected(acc: map<string, string>, done: set<string>, trad: map<string, string>, pluginId: string) {
    && (forall key :: key in done ==> key in trad && Prefix(pluginId, key) in acc && acc[Prefix(pluginId, key)] == trad[key])
    && (forall key :: key in acc ==>
          |key| > |pluginId| && key[..|pluginId| + 1] == pluginId + "."
          && key[|pluginId| + 1..] in done && acc[key] == trad[key[|pluginId| + 1..]])
  }

  /** `result` holds exactly the entries of `trad`, each under its namespaced key. */
  predicate IsPrefixed(result: map<string, string>, trad: map<string, string>, pluginId: string) {
    Collected(result, trad.Keys, trad, pluginId)
  }

  /** Copying one more entry keeps the copy exact and adds a new key. */
  lemma CollectStep(acc: map<string, string>, done: set<string>, trad: map<string, string>,
                    pluginId: string, current: string)
    requires Collected(acc, done, trad, pluginId) && current in trad && current !in done
    ensures Prefix(pluginId, current) !in acc
    ensures Collected(acc[Prefix(pluginId, current) := trad[current]], done + {current}, trad, pluginId)
  {
    var key := Prefix(pluginId, current);
    assert key[|pluginId| + 1..] == current;
  }

  /** `prefixPluginTranslations`: an empty plugin id is refused; otherwise
      every key is copied, namespaced, into a fresh object. `trad` is not changed. */
  method PrefixPluginTranslations(trad: map<string, string>, pluginId: string)
    returns (r: Result<map<string, string>, PrefixError>)
    ensures r.Err? <==> pluginId == ""
    ensures r.Ok? ==> IsPrefixed(r.value, trad, pluginId) && |r.value| == |trad|
  {
    if pluginId == "" {
      return Err(EmptyPluginId);
    }
    var acc: map<string, string> := map[];
    var done: set<string> := {};
    var pending := trad.Keys;
    while pending != {}
      invariant pending <= trad.Keys && done == trad.Keys - pending
      invariant Collected(acc, done, trad, pluginId)
      invariant |acc| == |done|
      decreases pending
    {
      var current :| current in pending;
      CollectStep(acc, done, trad, pluginId, current);
      acc := acc[Prefix(pluginId, current) := trad[current]];
      done := done + {current};
      pending := pending - {current};
    }
    r := Ok(acc);
  }

  /** Looking a message id up through `getTranslation` in the translations
      registered under the plugin id finds exactly the ids the translation
      file has, with their messages. */
  lemma LookupFindsRegistered(registered: map<string, string>, trad: map<string, string>, id: string)
    requires IsPrefixed(registered, trad, PLUGIN_ID)
    ensures GetTranslation(id) in registered <==> id in trad
    ensures id in trad ==> registered[GetTranslation(id)] == trad[id]
  {
    if GetTranslation(id) in registered {
      assert GetTranslation(id)[|PLUGIN_ID| + 1..] == id;
    }
  }
}
