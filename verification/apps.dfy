/** The application registry of `src/apps.js`: the `AUTH_APPLICATIONS`
    list, the fallback to the YAML config's `apps` keys, the merge of each
    app's config record, the `<APPID>__<FIELD>` environment overrides, the
    lookup by id, and the account-service call helper. */
module Apps {
  import opened Wrappers
  import opened Js
  import opened Text
  import ApiRequest

  /** One `AUTH_APPLICATIONS` entry before merging. */
  datatype Entry = Entry(appId: string, appName: Value)

  /** An application record: its `appId` and every other property, `appName`
      included (which may hold `undefined`). */
  datatype App = App(appId: string, fields: Object)

  /** The parsed YAML config's `apps` object: each app's string properties,
      and its keys in the order `Object.keys` lists them. */
  datatype Config = Config(keys: seq<string>, apps: map<string, map<string, string>>)

  /** `keys` is what `Object.keys(apps)` gives: every app once. */
  predicate WellFormedConfig(cfg: Config) {
    && (forall i, j :: 0 <= i < j < |cfg.keys| ==> cfg.keys[i] != cfg.keys[j])
    && (forall k :: 0 <= k < |cfg.keys| ==> cfg.keys[k] in cfg.apps)
    && (forall x :: x in cfg.apps ==> x in cfg.keys)
  }

  // ---------------------------------------------------------------------
  // The AUTH_APPLICATIONS list

  /** `const [appId, appName] = item.split(":")`. */
  function ParseEntry(item: string): Entry {
    var parts := Split(item, ':');
    Entry(parts[0], if |parts| >= 2 then Str(parts[1]) else Undefined)
  }

  function ParseItems(items: seq<string>): (r: seq<Entry>)
    ensures |r| <= |items|
    ensures forall k :: 0 <= k < |r| ==> r[k].appId != ""
  {
    if |items| == 0 then []
    else
      var e := ParseEntry(items[0]);
      (if e.appId != "" then [e] else []) + ParseItems(items[1..])
  }

  /** `(process.env.AUTH_APPLICATIONS || "").split(",").map(...).filter(a => !!a.appId)`. */
  function ParseApplications(raw: Value): (r: seq<Entry>)
    ensures forall k :: 0 <= k < |r| ==> r[k].appId != ""
    ensures !Truthy(raw) ==> r == []
  {
    ParseItems(Split(ToStr(Or(raw, Str(""))), ','))
  }

  /** An entry `id:name` parses to that id and name; an entry `id` without a
      colon has an `undefined` name. */
  lemma ParseEntryFormat(id: string, name: string)
    requires ':' !in id && ':' !in name
    ensures ParseEntry(id + ":" + name) == Entry(id, Str(name))
    ensures ParseEntry(id) == Entry(id, Undefined)
  {
    SplitJoin([id, name], ':');
    SplitWithout(id, ':');
  }

  /** Text after a second colon is dropped: the name is only the text between
      the first and the second colon. */
  lemma ParseEntryDropsExtra(id: string, name: string, extra: string)
    requires ':' !in id && ':' !in name && ':' !in extra
    ensures ParseEntry(id + ":" + name + ":" + extra) == Entry(id, Str(name))
  {
    var s := id + ":" + name + ":" + extra;
    assert s == id + ":" + (name + ":" + extra);
    SplitPrefix(id, ':', name + ":" + extra);
    SplitPrefix(name, ':', extra);
    assert Split(s, ':')[0] == id && Split(s, ':')[1] == name;
  }

  /** `id:name` pairs joined by commas. */
  function FormatApplications(pairs: seq<(string, string)>): string {
    Join(FormatItems(pairs), ',')
  }

  function FormatItems(pairs: seq<(string, string)>): (r: seq<string>)
    ensures |r| == |pairs|
    ensures forall k :: 0 <= k < |r| ==> r[k] == pairs[k].0 + ":" + pairs[k].1
  {
    if |pairs| == 0 then [] else [pairs[0].0 + ":" + pairs[0].1] + FormatItems(pairs[1..])
  }

  predicate PlainName(s: string) {
    ':' !in s && ',' !in s
  }

  /** The entries `id:name` pairs stand for. */
  function PairEntries(pairs: seq<(string, string)>): (r: seq<Entry>)
    ensures |r| == |pairs|
    ensures forall k :: 0 <= k < |r| ==> r[k] == Entry(pairs[k].0, Str(pairs[k].1))
  {
    if |pairs| == 0 then [] else [Entry(pairs[0].0, Str(pairs[0].1))] + PairEntries(pairs[1..])
  }

  lemma {:induction false} ParseFormattedItems(pairs: seq<(string, string)>)
    requires forall k :: 0 <= k < |pairs| ==> pairs[k].0 != "" && PlainName(pairs[k].0) && PlainName(pairs[k].1)
    ensures ParseItems(FormatItems(pairs)) == PairEntries(pairs)
  {
    if |pairs| > 0 {
      var items := FormatItems(pairs);
      assert ParseEntry(items[0]) == Entry(pairs[0].0, Str(pairs[0].1)) by {
        ParseEntryFormat(pairs[0].0, pairs[0].1);
      }
      assert items[1..] == FormatItems(pairs[1..]);
      ParseFormattedItems(pairs[1..]);
    }
  }

  /** Round trip: a well-formed list parses to exactly its pairs, in order. */
  lemma {:induction false} ParseFormatted(pairs: seq<(string, string)>)
    requires |pairs| >= 1
    requires forall k :: 0 <= k < |pairs| ==> pairs[k].0 != "" && PlainName(pairs[k].0) && PlainName(pairs[k].1)
    ensures ParseApplications(Str(FormatApplications(pairs))) == PairEntries(pairs)
  {
    var items := FormatItems(pairs);
    forall k | 0 <= k < |items| ensures ',' !in items[k] {
      assert items[k] == pairs[k].0 + ":" + pairs[k].1;
    }
    SplitJoin(items, ',');
    ParseFormattedItems(pairs);
    assert FormatApplications(pairs) != "" by { assert |items[0]| >= 1; }
  }

  /** An unset or empty variable yields no apps. */
  lemma ParseUnset()
    ensures ParseApplications(Undefined) == []
    ensures ParseApplications(Str("")) == []
  {
  }

  /** An entry with an empty id, such as the one after a trailing comma, is
      dropped. */
  lemma ParseDropsTrailingComma(id: string, name: string)
    requires id != "" && PlainName(id) && PlainName(name)
    ensures ParseApplications(Str(id + ":" + name + ",")) == [Entry(id, Str(name))]
  {
    var item := id + ":" + name;
    ParseEntryFormat(id, name);
    assert ',' !in item;
    SplitTrailing(item, ',');
    ParseTwoItems(item + ",", item, Entry(id, Str(name)));
  }

  lemma SplitTrailing(a: string, sep: char)
    requires sep !in a
    ensures Split(a + [sep], sep) == [a, ""]
  {
    SplitJoin([a, ""], sep);
    assert Join([a, ""], sep) == a + [sep];
  }

  lemma ParseTwoItems(s: string, item: string, e: Entry)
    requires s != "" && Split(s, ',') == [item, ""]
    requires ParseEntry(item) == e && e.appId != ""
    ensures ParseApplications(Str(s)) == [e]
  {
    assert [item, ""][1..] == [""];
    assert ParseItems([""]) == [];
  }

  lemma ParseDropsEmptyId(name: string)
    requires PlainName(name)
    ensures ParseApplications(Str(":" + name)) == []
  {
    SplitWithout(":" + name, ',');
    ParseEntryFormat("", name);
    assert "" + ":" + name == ":" + name;
  }

  // ---------------------------------------------------------------------
  // Fallback to the config's keys

  /** The config's properties of app `id` as an object; `{}` when absent. */
  function ConfigObject(cfg: Config, id: string): (o: Object)
    ensures o.Keys == (if id in cfg.apps then cfg.apps[id].Keys else {})
    ensures forall x :: x in o ==> id in cfg.apps && o[x] == Str(cfg.apps[id][x])
  {
    if id in cfg.apps then map x | x in cfg.apps[id] :: Str(cfg.apps[id][x]) else map[]
  }

  /** `name || appName || key`. */
  function DisplayName(cfg: Config, key: string): Value {
    var o := ConfigObject(cfg, key);
    Or(Get(o, "name"), Or(Get(o, "appName"), Str(key)))
  }

  function FromConfig(cfg: Config): (r: seq<Entry>)
    ensures |r| == |cfg.keys|
    ensures forall k :: 0 <= k < |r| ==> r[k] == Entry(cfg.keys[k], DisplayName(cfg, cfg.keys[k]))
  {
    seq(|cfg.keys|, k requires 0 <= k < |cfg.keys| => Entry(cfg.keys[k], DisplayName(cfg, cfg.keys[k])))
  }

  /** The entries the registry is built from: the parsed list, or the
      config's keys when the parsed list is empty and the config has apps. */
  function Entries(raw: Value, cfg: Config): (r: seq<Entry>)
    ensures |ParseApplications(raw)| > 0 ==> r == ParseApplications(raw)
    ensures |ParseApplications(raw)| == 0 && |cfg.keys| == 0 ==> r == []
    ensures |ParseApplications(raw)| == 0 && |cfg.keys| > 0 ==>
      |r| == |cfg.keys| && forall k :: 0 <= k < |r| ==> r[k].appId == cfg.keys[k]
    ensures |ParseApplications(raw)| == 0 && |cfg.keys| > 0 ==>
      forall k :: 0 <= k < |r| ==> r[k].appName == DisplayName(cfg, cfg.keys[k])
  {
    var parsed := ParseApplications(raw);
    if |parsed| == 0 && |cfg.keys| > 0 then FromConfig(cfg) else parsed
  }

  /** A config app's display name is its `name`, else its `appName`, else its
      key, the first of them that is non-empty. */
  lemma DisplayNameChoice(cfg: Config, key: string)
    requires key in cfg.apps
    ensures "name" in cfg.apps[key] && cfg.apps[key]["name"] != "" ==> DisplayName(cfg, key) == Str(cfg.apps[key]["name"])
    ensures ("name" !in cfg.apps[key] || cfg.apps[key]["name"] == "") && "appName" in cfg.apps[key] && cfg.apps[key]["appName"] != ""
      ==> DisplayName(cfg, key) == Str(cfg.apps[key]["appName"])
    ensures ("name" !in cfg.apps[key] || cfg.apps[key]["name"] == "") && ("appName" !in cfg.apps[key] || cfg.apps[key]["appName"] == "")
      ==> DisplayName(cfg, key) == Str(key)
  {
  }

  // ---------------------------------------------------------------------
  // Merge with the config record

  /** `{ appId: e.appId, appName: e.appName, ...apps[e.appId] }`. */
  function Merge(e: Entry, cfg: Config): (a: App)
    ensures var own := ConfigObject(cfg, e.appId);
      && a.appId == (if "appId" in own then own["appId"].s else e.appId)
      && a.fields.Keys == own.Keys - {"appId"} + {"appName"}
      && (forall x :: x in own && x != "appId" ==> a.fields[x] == own[x])
      && ("appName" !in own ==> a.fields["appName"] == e.appName)
  {
    var own := ConfigObject(cfg, e.appId);
    App(
      if "appId" in own then own["appId"].s else e.appId,
      map x | x in own.Keys - {"appId"} + {"appName"} :: if x in own then own[x] else e.appName)
  }

  function MergeAll(es: seq<Entry>, cfg: Config): (r: seq<App>)
    ensures |r| == |es|
    ensures forall k :: 0 <= k < |r| ==> r[k] == Merge(es[k], cfg)
  {
    seq(|es|, k requires 0 <= k < |es| => Merge(es[k], cfg))
  }

  // ---------------------------------------------------------------------
  // Environment overrides

  /** The variable that overrides property `field` of app `appId`. */
  function EnvKey(appId: string, field: string): string {
    Upper(appId) + "__" + Upper(field)
  }

  /** One app after the override loop: a property takes the variable's value
      exactly when that variable is set to a non-empty string. */
  function Override(a: App, env: map<string, string>): (r: App)
    ensures r.appId == a.appId
    ensures r.fields.Keys == a.fields.Keys
    ensures forall x :: x in a.fields && Truthy(EnvGet(env, EnvKey(a.appId, x))) ==>
      r.fields[x] == Str(env[EnvKey(a.appId, x)])
    ensures forall x :: x in a.fields && r.fields[x] != a.fields[x] ==> Truthy(EnvGet(env, EnvKey(a.appId, x)))
  {
    App(a.appId, map x | x in a.fields ::
      var v := EnvGet(env, EnvKey(a.appId, x));
      if Truthy(v) then v else a.fields[x])
  }

  function OverrideAll(apps: seq<App>, env: map<string, string>): (r: seq<App>)
    ensures |r| == |apps|
    ensures forall k :: 0 <= k < |r| ==> r[k] == Override(apps[k], env)
  {
    seq(|apps|, k requires 0 <= k < |apps| => Override(apps[k], env))
  }

  /** The override pass keeps the list's length, order and ids. */
  lemma OverridePreservesIds(apps: seq<App>, env: map<string, string>)
    ensures |OverrideAll(apps, env)| == |apps|
    ensures forall k :: 0 <= k < |apps| ==> OverrideAll(apps, env)[k].appId == apps[k].appId
  {
  }

  /** With no variables set, the override pass changes nothing. */
  lemma OverrideNothingSet(apps: seq<App>)
    ensures OverrideAll(apps, map[]) == apps
  {
    forall k | 0 <= k < |apps| ensures Override(apps[k], map[]) == apps[k] {
      assert Override(apps[k], map[]).fields == apps[k].fields;
    }
  }

  /** The registry as `src/apps.js` leaves it in `global.applications`: one
      app per entry, in order, each merged with its config record and then
      overridden from the environment. */
  function Load(env: map<string, string>, cfg: Config): (r: seq<App>)
    ensures var es := Entries(EnvGet(env, "AUTH_APPLICATIONS"), cfg);
      && |r| == |es|
      && forall k :: 0 <= k < |r| ==> r[k] == Override(Merge(es[k], cfg), env)
  {
    OverrideAll(MergeAll(Entries(EnvGet(env, "AUTH_APPLICATIONS"), cfg), cfg), env)
  }

  /** With `AUTH_APPLICATIONS` set to a well-formed list, the registry holds
      the listed apps in order; an app without a config record holds only
      its listed name, unless the environment overrides that. */
  lemma {:induction false} LoadFromList(env: map<string, string>, cfg: Config, pairs: seq<(string, string)>)
    requires |pairs| >= 1
    requires forall k :: 0 <= k < |pairs| ==> pairs[k].0 != "" && PlainName(pairs[k].0) && PlainName(pairs[k].1)
    requires "AUTH_APPLICATIONS" in env && env["AUTH_APPLICATIONS"] == FormatApplications(pairs)
    requires forall id :: id in cfg.apps ==> "appId" !in cfg.apps[id]
    ensures |Load(env, cfg)| == |pairs|
    ensures forall k :: 0 <= k < |pairs| ==> Load(env, cfg)[k].appId == pairs[k].0
    ensures forall k :: 0 <= k < |pairs| && pairs[k].0 !in cfg.apps ==>
      && Load(env, cfg)[k].fields.Keys == {"appName"}
      && Load(env, cfg)[k].fields["appName"] ==
           (if Truthy(EnvGet(env, EnvKey(pairs[k].0, "appName"))) then EnvGet(env, EnvKey(pairs[k].0, "appName"))
            else Str(pairs[k].1))
  {
    ParseFormatted(pairs);
    var es := Entries(EnvGet(env, "AUTH_APPLICATIONS"), cfg);
    assert es == PairEntries(pairs);
    forall k | 0 <= k < |pairs|
      ensures Load(env, cfg)[k] == Override(Merge(Entry(pairs[k].0, Str(pairs[k].1)), cfg), env)
    {
    }
    forall k | 0 <= k < |pairs|
      ensures Load(env, cfg)[k].appId == pairs[k].0
      ensures pairs[k].0 !in cfg.apps ==>
        && Load(env, cfg)[k].fields.Keys == {"appName"}
        && Load(env, cfg)[k].fields["appName"] ==
             (if Truthy(EnvGet(env, EnvKey(pairs[k].0, "appName"))) then EnvGet(env, EnvKey(pairs[k].0, "appName"))
              else Str(pairs[k].1))
    {
      ListedApp(env, cfg, Entry(pairs[k].0, Str(pairs[k].1)));
    }
  }

  /** One listed app after the merge and the override. */
  lemma ListedApp(env: map<string, string>, cfg: Config, e: Entry)
    requires e.appId in cfg.apps ==> "appId" !in cfg.apps[e.appId]
    ensures Override(Merge(e, cfg), env).appId == e.appId
    ensures e.appId !in cfg.apps ==>
      && Override(Merge(e, cfg), env).fields.Keys == {"appName"}
      && Override(Merge(e, cfg), env).fields["appName"] ==
           (if Truthy(EnvGet(env, EnvKey(e.appId, "appName"))) then EnvGet(env, EnvKey(e.appId, "appName")) else e.appName)
  {
    assert "appId" !in ConfigObject(cfg, e.appId);
    if e.appId !in cfg.apps {
      assert Merge(e, cfg) == App(e.appId, map["appName" := e.appName]);
    }
  }

  /** Without `AUTH_APPLICATIONS`, each config app keeps its properties, and
      one that has no `appName` of its own is named by `name || appName ||
      key`, unless the environment overrides that. */
  lemma LoadConfigNames(env: map<string, string>, cfg: Config)
    requires "AUTH_APPLICATIONS" !in env
    requires WellFormedConfig(cfg) && |cfg.keys| > 0
    ensures |Load(env, cfg)| == |cfg.keys|
    ensures forall k :: 0 <= k < |cfg.keys| ==>
      Load(env, cfg)[k].fields.Keys == cfg.apps[cfg.keys[k]].Keys - {"appId"} + {"appName"}
    ensures forall k :: 0 <= k < |cfg.keys| && "appName" !in cfg.apps[cfg.keys[k]] ==>
      Load(env, cfg)[k].fields["appName"] ==
        (if Truthy(EnvGet(env, EnvKey(Load(env, cfg)[k].appId, "appName")))
         then EnvGet(env, EnvKey(Load(env, cfg)[k].appId, "appName"))
         else DisplayName(cfg, cfg.keys[k]))
  {
    var es := Entries(EnvGet(env, "AUTH_APPLICATIONS"), cfg);
    assert ParseApplications(Undefined) == [];
    forall k | 0 <= k < |cfg.keys|
      ensures es[k] == Entry(cfg.keys[k], DisplayName(cfg, cfg.keys[k]))
    {
    }
  }

  /** Without `AUTH_APPLICATIONS`, the registry lists the config's apps in key
      order (each keeps its key as id unless its record sets `appId`). */
  lemma LoadFromConfig(env: map<string, string>, cfg: Config)
    requires "AUTH_APPLICATIONS" !in env
    requires forall k :: k in cfg.apps ==> "appId" !in cfg.apps[k]
    ensures |Load(env, cfg)| == |cfg.keys|
    ensures forall k :: 0 <= k < |cfg.keys| ==> Load(env, cfg)[k].appId == cfg.keys[k]
  {
    var es := Entries(EnvGet(env, "AUTH_APPLICATIONS"), cfg);
    assert ParseApplications(Undefined) == [];
    forall k | 0 <= k < |cfg.keys| ensures Load(env, cfg)[k].appId == cfg.keys[k] {
      assert es[k].appId == cfg.keys[k];
      assert "appId" !in ConfigObject(cfg, cfg.keys[k]);
    }
  }

  // ---------------------------------------------------------------------
  // Lookup

  /** `applications.find(a => a.appId === id)`: the first app whose id is
      strictly equal to `id`. */
  function FindApp(apps: seq<App>, id: Value): (r: Option<App>)
    ensures r.None? <==> forall k :: 0 <= k < |apps| ==> Str(apps[k].appId) != id
    ensures r.Some? ==> (Str(r.value.appId) == id &&
      exists k :: 0 <= k < |apps| && apps[k] == r.value && (forall j :: 0 <= j < k ==> Str(apps[j].appId) != id))
  {
    match FindFirst(apps, (a: App) => Str(a.appId) == id)
    case Some(k) => Some(apps[k])
    case None => None
  }

  /** `global.useAppDetails(appId, scope)`: the first app with that id, or the
      error `"<scope>: Invalid appId: <id>"`. */
  function UseAppDetails(apps: seq<App>, id: Value, scope: Value): (r: Result<App>)
    ensures r.Ok? <==> exists k :: 0 <= k < |apps| && Str(apps[k].appId) == id
    ensures r.Ok? ==> (Str(r.value.appId) == id &&
      exists k :: 0 <= k < |apps| && apps[k] == r.value && (forall j :: 0 <= j < k ==> Str(apps[j].appId) != id))
    ensures r.Err? ==> r.message == ToStr(Or(scope, Str(""))) + ": Invalid appId: " + ToStr(id)
  {
    match FindApp(apps, id)
    case Some(a) => Ok(a)
    case None => Err(ToStr(Or(scope, Str(""))) + ": Invalid appId: " + ToStr(id))
  }

  /** A missing `appId` query parameter never names an app. */
  lemma UndefinedIdNeverFound(apps: seq<App>, scope: Value)
    ensures UseAppDetails(apps, Undefined, scope) == Err(ToStr(Or(scope, Str(""))) + ": Invalid appId: undefined")
  {
  }

  // ---------------------------------------------------------------------
  // The account-service call helper of `useAppAPIs`

  datatype Call = Call(request: ApiRequest.Request, data: ApiRequest.Body)

  /** `useAppAPIs(appId).callExternalApi(verb, path, payload)` where the HTTP
      exchange ends in `outcome`: an unknown app throws, any failed exchange
      yields `null`. */
  function CallExternalApi(apps: seq<App>, appId: Value, verb: string, relativePath: string,
                           payload: Option<Object>, outcome: Result<ApiRequest.Body>): (r: Result<Call>)
    ensures r.Err? <==> UseAppDetails(apps, appId, Str("useAppAPIs")).Err?
    ensures r.Ok? ==> var app := UseAppDetails(apps, appId, Str("useAppAPIs")).value;
      && r.value.request.url == ToStr(Get(app.fields, "EXTERNAL_APP_API_URL")) + relativePath
      && r.value.request.headers == [("Authorization", "Bearer " + ToStr(Get(app.fields, "EXTERNAL_APP_API_KEY"))), ("Accept", "application/json")]
      && r.value.data == (if outcome.Ok? then outcome.value else ApiRequest.NullBody)
    ensures r.Ok? ==> (r.value.request.params.Some? <==> Upper(verb) == "GET" && payload.Some?)
    ensures r.Ok? ==> (r.value.request.data.Some? <==> Upper(verb) == "POST" && payload.Some?)
    ensures r.Ok? && r.value.request.params.Some? ==> r.value.request.params == payload
    ensures r.Ok? && r.value.request.data.Some? ==> r.value.request.data == payload
  {
    match UseAppDetails(apps, appId, Str("useAppAPIs"))
    case Err(m) => Err(m)
    case Ok(app) =>
      var request := ApiRequest.Build(Get(app.fields, "EXTERNAL_APP_API_URL"), Get(app.fields, "EXTERNAL_APP_API_KEY"),
                                      verb, relativePath, payload);
      Ok(Call(request, if outcome.Ok? then outcome.value else ApiRequest.NullBody))
  }
}
