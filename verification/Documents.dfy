/** Prompt documents: decoding past the JSON, and what is accepted (snapshot.go). */
module Documents {
  import opened Options
  import opened CanonicalJson
  import Decimals

  type Params = map<string, Json>

  // One record type serves before and after loading, as in the source: loading
  // fills modelId and templatePins of a deployment and modelId of a model.
  datatype Prompt = Prompt(id: string, kind: string, defaultParams: Params)

  datatype Deployment = Deployment(
    id: string, revision: string, modelId: string, provider: string, model: string, promptVersion: Option<int>,
    params: Params, providerOptions: Params, promptPins: Option<map<string, string>>,
    templatePins: Option<map<string, string>>)

  datatype Version = Version(
    id: string, promptId: string, promptTemplateId: string, prompt: string, number: int, kind: string,
    engine: string, messages: seq<Json>, text: string, decision: Params, tools: Params)

  datatype Model = Model(id: string, modelId: string, provider: string, model: string, providerOptions: Params)

  // A decoded body.  A collection is None when it is absent or null, and an
  // entry is None when it is null; bulk tells whether any collection is named.
  datatype Raw = Raw(
    inputSchema: bool, schemaVersion: Option<int>, project: string, environment: string,
    collections: Collections, bulk: bool, detail: Detail)

  datatype Collections = Collections(
    prompts: Option<map<string, Option<Prompt>>>, deployments: Option<map<string, Option<Deployment>>>,
    versions: Option<map<string, Option<Version>>>, models: Option<map<string, Option<Model>>>)

  // The single-prompt shape; a prompt object may carry its key and no more.
  datatype Detail = Detail(
    prompt: Option<(string, Option<Prompt>)>, deployment: Option<Deployment>, version: Option<Version>,
    model: Option<Model>)

  datatype Document = Document(
    project: string, environment: string, prompts: map<string, Prompt>, deployments: map<string, Deployment>,
    versions: map<string, Version>, models: map<string, Model>)

  datatype Reason =
    | InputSchema | MissingSchema | UnsupportedSchema(version: int) | BadDetail | MissingCollection(name: string)
    | BadPrompt(key: string) | BadDeployment(key: string) | BadVersion(key: string) | BadModel(key: string)
    | Dangling(key: string)

  datatype Result<+T> = Ok(value: T) | Err(reason: Reason)

  const SCHEMA_VERSION := 1
  const EMBEDDING := "embedding"
  const DEFAULT_TEMPLATE := "default"

  /// Keys

  // fmt.Sprintf("%s@%d", prompt, number).
  function VersionKey(prompt: string, number: int): string {
    prompt + "@" + if number < 0 then "-" + Decimals.Decimal(-number) else Decimals.Decimal(number)
  }

  function ModelKey(provider: string, model: string): string {
    provider + ":" + model
  }

  function FirstColon(s: string): (i: nat)
    ensures i <= |s| && (i < |s| ==> s[i] == ':') && forall k :: 0 <= k < i ==> s[k] != ':'
  {
    if s == "" || s[0] == ':' then 0
    else
      var i := FirstColon(s[1..]);
      assert forall k :: 0 < k <= i ==> s[k] == s[1..][k - 1];
      1 + i
  }

  // strings.Cut(key, ":").
  function Cut(key: string): Option<(string, string)> {
    var i := FirstColon(key);
    if i < |key| then Some((key[..i], key[i + 1..])) else None
  }

  /// What each entry must be

  predicate FinePrompt(p: Prompt) {
    p.id == ""
  }

  predicate FineDeployment(d: Deployment) {
    && d.id == "" && d.modelId == "" && d.promptPins.None? && d.templatePins.None?
    && (d.promptVersion.Some? ==> d.promptVersion.value > 0)
    && d.provider != "" && d.model != ""
  }

  predicate FineVersion(key: string, v: Version) {
    && v.id == "" && v.promptId == "" && v.promptTemplateId == ""
    && v.prompt != "" && v.number > 0 && key == VersionKey(v.prompt, v.number)
  }

  predicate FineModel(key: string, m: Model) {
    && m.id == "" && m.modelId == "" && m.provider != "" && m.model != ""
    && Cut(key) == Some((m.provider, m.model))
  }

  function Loaded(key: string, d: Deployment): Deployment {
    d.(modelId := ModelKey(d.provider, d.model),
       templatePins := Some(
         match d.promptVersion case Some(n) => map[DEFAULT_TEMPLATE := VersionKey(key, n)] case None => map[]))
  }

  function LoadedModel(m: Model): Model {
    m.(modelId := m.model)
  }

  // What a deployment refers to is there, and is what its pin says.
  predicate Refers(doc: Document, key: string, d: Deployment) {
    && key in doc.prompts && d.modelId in doc.models
    && (doc.prompts[key].kind != EMBEDDING ==>
      && d.templatePins.Some? && d.templatePins.value != map[]
      && d.promptVersion.Some? && d.promptVersion.value > 0
      && DEFAULT_TEMPLATE in d.templatePins.value
      && var id := d.templatePins.value[DEFAULT_TEMPLATE];
         id == VersionKey(key, d.promptVersion.value) && id in doc.versions && doc.versions[id].prompt == key)
  }

  /// The whole document

  predicate IsDetail(d: Detail) {
    d.prompt.Some? || d.deployment.Some? || d.version.Some? || d.model.Some?
  }

  predicate FineDetail(d: Detail) {
    && d.prompt.Some? && d.prompt.value.1.Some? && d.deployment.Some? && d.model.Some? && d.version.Some?
    && d.prompt.value.0 != ""
    && d.model.value.provider != "" && d.model.value.model != ""
    && d.deployment.value.provider == d.model.value.provider && d.deployment.value.model == d.model.value.model
    && d.version.value.prompt == d.prompt.value.0 && d.version.value.number > 0
    && d.deployment.value.promptVersion == Some(d.version.value.number)
  }

  function FromDetail(d: Detail): Collections
    requires FineDetail(d)
  {
    var key, m := d.prompt.value.0, d.model.value;
    Collections(
      Some(map[key := d.prompt.value.1]), Some(map[key := d.deployment]),
      Some(map[VersionKey(key, d.version.value.number) := d.version]),
      Some(map[ModelKey(m.provider, m.model) := d.model]))
  }

  function Normalized(raw: Raw): Option<Collections> {
    if !IsDetail(raw.detail) then Some(raw.collections)
    else if raw.bulk || !FineDetail(raw.detail) then None
    else Some(FromDetail(raw.detail))
  }

  predicate FineEntries(c: Collections) {
    && c.prompts.Some? && c.deployments.Some? && c.versions.Some? && c.models.Some?
    && (forall k :: k in c.prompts.value && c.prompts.value[k].Some? ==> FinePrompt(c.prompts.value[k].value))
    && (forall k :: k in c.deployments.value ==>
          c.deployments.value[k].Some? && FineDeployment(c.deployments.value[k].value))
    && (forall k :: k in c.versions.value && c.versions.value[k].Some? ==> FineVersion(k, c.versions.value[k].value))
    && (forall k :: k in c.models.value && c.models.value[k].Some? ==> FineModel(k, c.models.value[k].value))
  }

  function Present<T>(entries: map<string, Option<T>>): map<string, T> {
    map k | k in entries && entries[k].Some? :: entries[k].value
  }

  function LoadedDeployments(entries: map<string, Option<Deployment>>): map<string, Deployment> {
    map k | k in entries && entries[k].Some? :: Loaded(k, entries[k].value)
  }

  function LoadedModels(entries: map<string, Option<Model>>): map<string, Model> {
    map k | k in entries && entries[k].Some? :: LoadedModel(entries[k].value)
  }

  function Build(raw: Raw, c: Collections): Document
    requires FineEntries(c)
  {
    Document(raw.project, raw.environment, Present(c.prompts.value), LoadedDeployments(c.deployments.value),
             Present(c.versions.value), LoadedModels(c.models.value))
  }

  predicate References(doc: Document) {
    forall k :: k in doc.deployments ==> Refers(doc, k, doc.deployments[k])
  }

  predicate Accepted(raw: Raw) {
    && !raw.inputSchema && raw.schemaVersion == Some(SCHEMA_VERSION) && Normalized(raw).Some?
    && FineEntries(Normalized(raw).value) && References(Build(raw, Normalized(raw).value))
  }

  function DocumentOf(raw: Raw): Document
    requires Accepted(raw)
  {
    Build(raw, Normalized(raw).value)
  }

  /// The loading loops; a Go map is ranged over in any order

  method LoadPrompts(entries: map<string, Option<Prompt>>) returns (r: Result<map<string, Prompt>>)
    ensures r.Ok? <==> forall k :: k in entries && entries[k].Some? ==> FinePrompt(entries[k].value)
    ensures r.Ok? ==> r.value == Present(entries)
    ensures r.Err? ==> r.reason.BadPrompt? && r.reason.key in entries
  {
    var left, out := entries.Keys, map[];
    while left != {}
      invariant left <= entries.Keys
      invariant forall k :: k in entries && k !in left && entries[k].Some? ==> FinePrompt(entries[k].value)
      invariant out == map k | k in entries && k !in left && entries[k].Some? :: entries[k].value
      decreases left
    {
      var key :| key in left;
      left := left - {key};
      if entries[key].Some? {
        if entries[key].value.id != "" {
          return Err(BadPrompt(key));
        }
        out := out[key := entries[key].value];
      }
    }
    return Ok(out);
  }

  method LoadDeployments(entries: map<string, Option<Deployment>>) returns (r: Result<map<string, Deployment>>)
    ensures r.Ok? <==> forall k :: k in entries ==> entries[k].Some? && FineDeployment(entries[k].value)
    ensures r.Ok? ==> r.value == LoadedDeployments(entries)
    ensures r.Err? ==> r.reason.BadDeployment? && r.reason.key in entries
  {
    hide VersionKey, ModelKey;
    var left, out := entries.Keys, map[];
    while left != {}
      invariant left <= entries.Keys
      invariant forall k :: k in entries && k !in left ==> entries[k].Some? && FineDeployment(entries[k].value)
      invariant out == map k | k in entries && k !in left && entries[k].Some? :: Loaded(k, entries[k].value)
      decreases left
    {
      var key :| key in left;
      left := left - {key};
      if entries[key].None? {
        return Err(BadDeployment(key));
      }
      var dep := entries[key].value;
      if dep.id != "" || dep.modelId != "" || dep.promptPins.Some? || dep.templatePins.Some? {
        return Err(BadDeployment(key));
      }
      if dep.promptVersion.Some? && dep.promptVersion.value <= 0 {
        return Err(BadDeployment(key));
      }
      if dep.provider == "" || dep.model == "" {
        return Err(BadDeployment(key));
      }
      dep := dep.(modelId := ModelKey(dep.provider, dep.model));
      if dep.promptVersion.Some? {
        dep := dep.(templatePins := Some(map[DEFAULT_TEMPLATE := VersionKey(key, dep.promptVersion.value)]));
      } else {
        dep := dep.(templatePins := Some(map[]));
      }
      assert dep == Loaded(key, entries[key].value);
      out := out[key := dep];
    }
    return Ok(out);
  }

  method LoadVersions(entries: map<string, Option<Version>>) returns (r: Result<map<string, Version>>)
    ensures r.Ok? <==> forall k :: k in entries && entries[k].Some? ==> FineVersion(k, entries[k].value)
    ensures r.Ok? ==> r.value == Present(entries)
    ensures r.Err? ==> r.reason.BadVersion? && r.reason.key in entries
  {
    hide VersionKey;
    var left, out := entries.Keys, map[];
    while left != {}
      invariant left <= entries.Keys
      invariant forall k :: k in entries && k !in left && entries[k].Some? ==> FineVersion(k, entries[k].value)
      invariant out == map k | k in entries && k !in left && entries[k].Some? :: entries[k].value
      decreases left
    {
      var key :| key in left;
      left := left - {key};
      if entries[key].Some? {
        var v := entries[key].value;
        if v.id != "" || v.promptId != "" || v.promptTemplateId != "" {
          return Err(BadVersion(key));
        }
        if v.prompt == "" || v.number <= 0 || key != VersionKey(v.prompt, v.number) {
          return Err(BadVersion(key));
        }
        out := out[key := v];
      }
    }
    return Ok(out);
  }

  method LoadModels(entries: map<string, Option<Model>>) returns (r: Result<map<string, Model>>)
    ensures r.Ok? <==> forall k :: k in entries && entries[k].Some? ==> FineModel(k, entries[k].value)
    ensures r.Ok? ==> r.value == LoadedModels(entries)
    ensures r.Err? ==> r.reason.BadModel? && r.reason.key in entries
  {
    hide Cut;
    var left, out := entries.Keys, map[];
    while left != {}
      invariant left <= entries.Keys
      invariant forall k :: k in entries && k !in left && entries[k].Some? ==> FineModel(k, entries[k].value)
      invariant out == map k | k in entries && k !in left && entries[k].Some? :: LoadedModel(entries[k].value)
      decreases left
    {
      var key :| key in left;
      left := left - {key};
      if entries[key].Some? {
        var m := entries[key].value;
        if m.id != "" || m.modelId != "" {
          return Err(BadModel(key));
        }
        var cut := Cut(key);
        if cut.None? || cut.value.0 == "" || cut.value.1 == "" || m.provider != cut.value.0 || m.model != cut.value.1 {
          return Err(BadModel(key));
        }
        out := out[key := m.(modelId := m.model)];
      }
    }
    return Ok(out);
  }

  method CheckReferences(doc: Document) returns (fault: Option<Reason>)
    ensures fault.None? <==> References(doc)
  {
    hide VersionKey;
    var left := doc.deployments.Keys;
    while left != {}
      invariant left <= doc.deployments.Keys
      invariant forall k :: k in doc.deployments && k !in left ==> Refers(doc, k, doc.deployments[k])
      decreases left
    {
      var key :| key in left;
      left := left - {key};
      var dep := doc.deployments[key];
      if key !in doc.prompts || dep.modelId !in doc.models {
        return Some(Dangling(key));
      }
      if doc.prompts[key].kind != EMBEDDING {
        if dep.templatePins.None? || dep.templatePins.value == map[] || dep.promptVersion.None?
          || dep.promptVersion.value <= 0 {
          return Some(Dangling(key));
        }
        var id := if DEFAULT_TEMPLATE in dep.templatePins.value then dep.templatePins.value[DEFAULT_TEMPLATE] else "";
        if id != VersionKey(key, dep.promptVersion.value) {
          return Some(Dangling(key));
        }
        VersionKeyNotEmpty(key, dep.promptVersion.value);
        if id !in doc.versions || doc.versions[id].prompt != key {
          return Some(Dangling(key));
        }
      }
    }
    return None;
  }

  lemma VersionKeyNotEmpty(prompt: string, number: int)
    ensures VersionKey(prompt, number) != ""
  {
  }

  method ParsePromptDocument(raw: Raw) returns (r: Result<Document>)
    ensures r.Ok? <==> Accepted(raw)
    ensures r.Ok? ==> r.value == DocumentOf(raw)
  {
    hide FinePrompt, FineDeployment, FineVersion, FineModel, FineDetail, FromDetail, Refers, Present;
    hide LoadedDeployments, LoadedModels;
    if raw.inputSchema {
      return Err(InputSchema);
    }
    if raw.schemaVersion.None? {
      return Err(MissingSchema);
    }
    if raw.schemaVersion.value != SCHEMA_VERSION {
      return Err(UnsupportedSchema(raw.schemaVersion.value));
    }
    var c := Normalized(raw);
    if c.None? {
      return Err(BadDetail);
    }
    var Collections(prompts, deployments, versions, models) := c.value;
    if prompts.None? || deployments.None? || versions.None? || models.None? {
      return Err(MissingCollection(if prompts.None? then "prompts" else if deployments.None? then "deployments"
                                   else if versions.None? then "prompt_versions" else "models"));
    }
    var ps := LoadPrompts(prompts.value);
    if ps.Err? { return Err(ps.reason); }
    var ds := LoadDeployments(deployments.value);
    if ds.Err? { return Err(ds.reason); }
    var vs := LoadVersions(versions.value);
    if vs.Err? { return Err(vs.reason); }
    var ms := LoadModels(models.value);
    if ms.Err? { return Err(ms.reason); }
    var doc := Document(raw.project, raw.environment, ps.value, ds.value, vs.value, ms.value);
    var fault := CheckReferences(doc);
    if fault.Some? {
      return Err(fault.value);
    }
    return Ok(doc);
  }

  /// Keys are not ambiguous

  // Whatever the prompt is called, prompt@number names one version.
  lemma VersionKeyInjective(p: string, m: nat, q: string, n: nat)
    ensures VersionKey(p, m) == VersionKey(q, n) <==> p == q && m == n
  {
    var k, d, e := VersionKey(p, m), Decimals.Decimal(m), Decimals.Decimal(n);
    LastAt(p, d);
    LastAt(q, e);
    assert k == VersionKey(q, n) ==> p == k[..|p|] == q && d == k[|p| + 1..] == e;
    if d == e {
      Decimals.DecimalInjective(m, n);
    }
  }

  // The only @ from |p| on is the one at |p|.
  lemma LastAt(p: string, d: string)
    requires forall i :: 0 <= i < |d| ==> '0' <= d[i] <= '9'
    ensures var k := p + "@" + d; k[|p|] == '@' && forall i :: |p| < i < |k| ==> k[i] != '@'
  {
  }

  // A provider without a colon is what its model key is cut back into; with
  // one it never is.
  lemma ModelKeyCut(provider: string, model: string)
    ensures Cut(ModelKey(provider, model)) == Some((provider, model)) <==> ':' !in provider
  {
    var key := ModelKey(provider, model);
    assert key[|provider|] == ':';
    if ':' !in provider {
      assert forall i :: 0 <= i < |provider| ==> key[i] == provider[i];
      assert key[..|provider|] == provider && key[|provider| + 1..] == model;
    } else {
      var i :| 0 <= i < |provider| && provider[i] == ':';
      assert key[i] == ':';
    }
  }

  lemma ModelKeyAmbiguous()
    ensures ModelKey("a:b", "c") == ModelKey("a", "b:c")
  {
  }
}
