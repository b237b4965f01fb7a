/** Resolving a prompt from an accepted document (resolver.go). */
module Resolver {
  import opened Options
  import opened CanonicalJson
  import opened Documents
  import JsonRoundTrip
  import JsonWriter
  import SortedStrings

  datatype Resolution = Resolution(
    prompt: string, kind: string, revision: string, template: string, templateNames: seq<string>,
    model: string, modelId: string, provider: string,
    params: Params, providerOptions: Params, tools: Params,
    versionId: string, versionNumber: int, engine: string,
    messages: seq<Json>, text: string, decision: Params, warnings: seq<string>)

  datatype ResolveError =
    | NotReady | EnvironmentMismatch | UnknownPrompt | Unresolved | UnknownTemplate(names: seq<string>)
    | UnsupportedToolField | BadToolDefinitions | BadToolDefinition | BadParallelToolCalls | ToolConflict(key: string)

  datatype Outcome<+T> = Resolved(value: T) | Failed(error: ResolveError)

  /// Parameters

  // Shallow merge, right side wins; a null on the right is kept.
  method MergeParams(base: Params, overriding: Params) returns (out: Params)
    ensures out == base + overriding
  {
    out := map[];
    var left := base.Keys;
    while left != {}
      invariant left <= base.Keys
      invariant out == map k | k in base && k !in left :: base[k]
      decreases left
    {
      var k :| k in left;
      left := left - {k};
      out := out[k := base[k]];
    }
    assert out == base;
    left := overriding.Keys;
    while left != {}
      invariant left <= overriding.Keys
      invariant out == base + map k | k in overriding && k !in left :: overriding[k]
      decreases left
    {
      var k :| k in left;
      left := left - {k};
      out := out[k := overriding[k]];
    }
    assert overriding == map k | k in overriding && k !in left :: overriding[k];
  }

  /// Tools

  predicate FineTool(def: Json) {
    && def.Obj?
    && "type" in def.fields && def.fields["type"] == Str("function")
    && "function" in def.fields && def.fields["function"].Obj?
    && "name" in def.fields["function"].fields
    && def.fields["function"].fields["name"].Str? && def.fields["function"].fields["name"].text != ""
    && "parameters" in def.fields["function"].fields
  }

  function Stripped(def: Json): Json
    requires FineTool(def)
  {
    Obj(def.fields - {"output_schema", "output_examples"})
  }

  function StrippedAll(defs: seq<Json>): seq<Json>
    requires forall i :: 0 <= i < |defs| ==> FineTool(defs[i])
  {
    if defs == [] then [] else [Stripped(defs[0])] + StrippedAll(defs[1..])
  }

  const TOOL_FIELDS := {"definitions", "tool_choice", "parallel_tool_calls"}

  // A key that is set to something other than null.
  predicate Given(tools: Params, key: string) {
    key in tools && tools[key] != Null
  }

  function ProviderTools(tools: Params): Outcome<Params> {
    if tools == map[] then Resolved(map[])
    else if !(tools.Keys <= TOOL_FIELDS) then Failed(UnsupportedToolField)
    else if "definitions" !in tools || !tools["definitions"].Arr? then Failed(BadToolDefinitions)
    else
      var defs := tools["definitions"].items;
      if exists i :: 0 <= i < |defs| && !FineTool(defs[i]) then Failed(BadToolDefinition)
      else if Given(tools, "parallel_tool_calls") && !tools["parallel_tool_calls"].Bool? then
        Failed(BadParallelToolCalls)
      else
        Resolved(map["tools" := Arr(StrippedAll(defs))] + Passed(tools, "tool_choice")
          + Passed(tools, "parallel_tool_calls"))
  }

  // A field handed on as it is when it is set.
  function Passed(tools: Params, key: string): Params {
    if Given(tools, key) then map[key := tools[key]] else map[]
  }

  // Byte equality of canonical JSON, which is how the code compares values.
  predicate SameBytes(a: Json, b: Json) {
    Encode(a) == Encode(b)
  }

  predicate Conflicts(params: Params, provider: Params) {
    exists k :: k in params && k in provider && !SameBytes(params[k], provider[k])
  }

  // Merging the provider parameters a version's tools stand for into params:
  // refused when a key is in both with different values.
  method MergeToolParams(params: Params, tools: Params) returns (r: Outcome<Params>)
    ensures match ProviderTools(tools)
      case Failed(error) => r == Failed(error)
      case Resolved(provider) =>
        if Conflicts(params, provider) then
          r.Failed? && r.error.ToolConflict? && r.error.key in params && r.error.key in provider
        else r == Resolved(params + provider)
  {
    hide ProviderTools, SameBytes;
    var out := MergeParams(map[], params);
    assert map[] + params == params;
    var provider := ProviderToolParams(tools);
    if provider.Failed? {
      return provider;
    }
    r := MergeChecked(out, provider.value);
  }

  method MergeChecked(params: Params, extra: Params) returns (r: Outcome<Params>)
    ensures if Conflicts(params, extra) then
        r.Failed? && r.error.ToolConflict? && r.error.key in params && r.error.key in extra
      else r == Resolved(params + extra)
  {
    hide Encode;
    var out, left := params, extra.Keys;
    while left != {}
      invariant left <= extra.Keys
      invariant forall k :: k in out <==> k in params || (k in extra && k !in left)
      invariant forall k :: k in out ==> out[k] == if k in extra && k !in left then extra[k] else params[k]
      invariant forall k :: k in params && k in extra && k !in left ==> SameBytes(params[k], extra[k])
      decreases left
    {
      var key :| key in left;
      left := left - {key};
      if key in out {
        var existing := JsonWriter.CanonicalJSON(out[key]);
        var value := JsonWriter.CanonicalJSON(extra[key]);
        if existing != value {
          assert !SameBytes(params[key], extra[key]);
          return Failed(ToolConflict(key));
        }
      }
      out := out[key := extra[key]];
    }
    assert out == params + extra;
    return Resolved(out);
  }

  method ProviderToolParams(tools: Params) returns (r: Outcome<Params>)
    ensures r == ProviderTools(tools)
  {
    hide FineTool, StrippedAll;
    if tools == map[] {
      return Resolved(map[]);
    }
    var left := tools.Keys;
    while left != {}
      invariant left <= tools.Keys && tools.Keys - left <= TOOL_FIELDS
      decreases left
    {
      var key :| key in left;
      if key !in TOOL_FIELDS {
        return Failed(UnsupportedToolField);
      }
      left := left - {key};
    }
    if "definitions" !in tools || !tools["definitions"].Arr? {
      return Failed(BadToolDefinitions);
    }
    var stripped := StripAll(tools["definitions"].items);
    if stripped.Failed? {
      return Failed(stripped.error);
    }
    var out: Params := map["tools" := Arr(stripped.value)];
    ghost var first := out;
    if Given(tools, "tool_choice") {
      out := out["tool_choice" := tools["tool_choice"]];
    }
    if Given(tools, "parallel_tool_calls") {
      if !tools["parallel_tool_calls"].Bool? {
        return Failed(BadParallelToolCalls);
      }
      out := out["parallel_tool_calls" := tools["parallel_tool_calls"]];
    }
    assert out == first + Passed(tools, "tool_choice") + Passed(tools, "parallel_tool_calls");
    return Resolved(out);
  }

  method StripAll(definitions: seq<Json>) returns (r: Outcome<seq<Json>>)
    ensures if exists i :: 0 <= i < |definitions| && !FineTool(definitions[i]) then r == Failed(BadToolDefinition)
      else r == Resolved(StrippedAll(definitions))
  {
    var stripped := [];
    assert definitions[0..] == definitions;
    for i := 0 to |definitions|
      invariant forall j :: 0 <= j < i ==> FineTool(definitions[j])
      invariant (forall j :: i <= j < |definitions| ==> FineTool(definitions[j])) ==>
        StrippedAll(definitions) == stripped + StrippedAll(definitions[i..])
    {
      hide FineTool, Stripped;
      assert definitions[i..][1..] == definitions[i + 1..] && definitions[i..][0] == definitions[i];
      if !FineTool(definitions[i]) {
        return Failed(BadToolDefinition);
      }
      stripped := stripped + [Stripped(definitions[i])];
    }
    assert stripped + [] == stripped;
    return Resolved(stripped);
  }

  /// Byte equality is value equality

  ghost predicate WellFormedParams(p: Params) {
    forall k :: k in p ==> JsonRoundTrip.WellFormed(p[k])
  }

  lemma {:induction false} StrippedWellFormed(defs: seq<Json>)
    requires forall i :: 0 <= i < |defs| ==> FineTool(defs[i]) && JsonRoundTrip.WellFormed(defs[i])
    ensures forall i :: 0 <= i < |StrippedAll(defs)| ==> JsonRoundTrip.WellFormed(StrippedAll(defs)[i])
  {
    if defs != [] {
      StrippedWellFormed(defs[1..]);
      OneWellFormed(defs[0]);
    }
  }

  lemma OneWellFormed(def: Json)
    requires FineTool(def) && JsonRoundTrip.WellFormed(def)
    ensures JsonRoundTrip.WellFormed(Stripped(def))
  {
    var out := Stripped(def).fields;
    assert forall k :: k in out ==> k in def.fields && out[k] == def.fields[k];
  }

  lemma ProviderWellFormed(tools: Params)
    requires WellFormedParams(tools) && ProviderTools(tools).Resolved?
    ensures WellFormedParams(ProviderTools(tools).value)
  {
    hide FineTool;
    if tools != map[] {
      var defs := tools["definitions"];
      assert JsonRoundTrip.WellFormed(defs);
      StrippedWellFormed(defs.items);
    }
  }

  // On decoded JSON a conflict is exactly a shared key with two values, so the
  // merge favours neither side.
  lemma MergeExact(params: Params, tools: Params)
    requires WellFormedParams(params) && WellFormedParams(tools) && ProviderTools(tools).Resolved?
    ensures var provider := ProviderTools(tools).value;
      && (!Conflicts(params, provider) <==> forall k :: k in params && k in provider ==> params[k] == provider[k])
      && (!Conflicts(params, provider) ==> params + provider == provider + params)
  {
    ProviderWellFormed(tools);
    hide ProviderTools;
    var provider := ProviderTools(tools).value;
    forall k | k in params && k in provider ensures SameBytes(params[k], provider[k]) <==> params[k] == provider[k] {
      JsonRoundTrip.EncodeInjective(params[k], provider[k]);
    }
  }

  // Merging the same tools once more changes nothing.
  lemma MergeTwice(params: Params, tools: Params)
    requires ProviderTools(tools).Resolved? && !Conflicts(params, ProviderTools(tools).value)
    ensures var provider := ProviderTools(tools).value; var out := params + provider;
      !Conflicts(out, provider) && out + provider == out
  {
    hide ProviderTools;
  }

  /// Resolution

  // The name a call means: none means the default.
  function Asked(template: string): string {
    if template == "" then DEFAULT_TEMPLATE else template
  }

  // What a resolution takes from the version it is pinned to: a body only of
  // the kind it has then.
  function WithVersion(res: Resolution, v: Version): Resolution {
    var kind := if v.kind != "" then v.kind else res.kind;
    res.(kind := kind, versionId := v.id, versionNumber := v.number, engine := v.engine, tools := v.tools,
         messages := if kind == "chat" then v.messages else res.messages,
         text := if kind == "text" then v.text else res.text,
         decision := if kind == "decision" then v.decision else res.decision)
  }

  function WithModel(res: Resolution, m: Model): Resolution {
    res.(modelId := m.id, model := m.modelId, provider := m.provider)
  }

  // What every resolution of a deployed prompt starts from.
  function Base(prompt: string, p: Prompt, d: Deployment): Resolution {
    Resolution(prompt, p.kind, d.revision, "", [], "", "", "",
      p.defaultParams + d.params, map[], map[], "", 0, "", [], "", map[], [])
  }

  function VersionWarning(id: string): string {
    "missing_prompt_version: " + id
  }

  function ModelWarning(id: string): string {
    "missing_model: " + id
  }

  function Pins(d: Deployment): map<string, string> {
    if d.templatePins.Some? then d.templatePins.value else map[]
  }

  function Names(doc: Document, prompt: string): seq<string> {
    if prompt in doc.deployments then SortedStrings.SortedKeys(Pins(doc.deployments[prompt]).Keys) else []
  }

  function Pinned(doc: Document, res: Resolution, id: string): Resolution {
    if id in doc.versions then WithVersion(res, doc.versions[id])
    else res.(warnings := res.warnings + [VersionWarning(id)])
  }

  function Served(doc: Document, res: Resolution, d: Deployment): Resolution {
    var found := d.modelId != "" && d.modelId in doc.models;
    var options := (if found then doc.models[d.modelId].providerOptions else map[]) + d.providerOptions;
    (if found then WithModel(res, doc.models[d.modelId])
     else if d.modelId != "" then res.(warnings := res.warnings + [ModelWarning(d.modelId)])
     else res).(providerOptions := options)
  }

  // The resolution of a prompt before its tools are merged into its params.
  function Resolve(doc: Document, prompt: string, template: string, environment: string): Outcome<Resolution> {
    if environment != "" && environment != doc.environment then Failed(EnvironmentMismatch)
    else if prompt !in doc.prompts then Failed(UnknownPrompt)
    else if prompt !in doc.deployments then Failed(Unresolved)
    else
      var p, d := doc.prompts[prompt], doc.deployments[prompt];
      var base, name, pins := Base(prompt, p, d), Asked(template), Pins(d);
      if p.kind == EMBEDDING then Resolved(Served(doc, base, d))
      else if name !in pins then Failed(UnknownTemplate(Names(doc, prompt)))
      else
        var named := base.(template := name, templateNames := Names(doc, prompt));
        Resolved(Served(doc, Pinned(doc, named, pins[name]), d))
  }

  // The failures that are about a version's tools.
  predicate ToolsError(e: ResolveError) {
    || e.UnsupportedToolField? || e.BadToolDefinitions? || e.BadToolDefinition?
    || e.BadParallelToolCalls? || e.ToolConflict?
  }

  // What resolving a document returns once the tools of `res` are merged.
  ghost predicate Settles(res: Resolution, r: Outcome<Resolution>) {
    match ProviderTools(res.tools)
    case Failed(error) => r == Failed(error)
    case Resolved(provider) =>
      if Conflicts(res.params, provider) then r.Failed? && r.error.ToolConflict? && r.error.key in res.params
      else r == Resolved(res.(params := res.params + provider))
  }

  // What resolving a document may return.
  ghost predicate Returns(doc: Document, prompt: string, template: string, environment: string,
      r: Outcome<Resolution>) {
    match Resolve(doc, prompt, template, environment)
    case Failed(error) => r == Failed(error)
    case Resolved(res) => Settles(res, r)
  }

  method ResolveSnapshot(snap: Option<Document>, prompt: string, template: string, environment: string)
    returns (r: Outcome<Resolution>)
    ensures snap.None? ==> r == Failed(NotReady)
    ensures snap.Some? ==> Returns(snap.value, prompt, template, environment, r)
  {
    hide ProviderTools, Conflicts, Served, WithVersion, Names, VersionWarning;
    if snap.None? {
      return Failed(NotReady);
    }
    var doc := snap.value;
    if environment != "" && environment != doc.environment {
      return Failed(EnvironmentMismatch);
    }
    if prompt !in doc.prompts {
      return Failed(UnknownPrompt);
    }
    if prompt !in doc.deployments {
      return Failed(Unresolved);
    }
    var uc, dep := doc.prompts[prompt], doc.deployments[prompt];
    var params := MergeParams(uc.defaultParams, dep.params);
    var res := Resolution(prompt, uc.kind, dep.revision, "", [], "", "", "", params,
      map[], map[], "", 0, "", [], "", map[], []);
    if uc.kind != EMBEDDING {
      var name, names, pins := if template == "" then DEFAULT_TEMPLATE else template, Names(doc, prompt), Pins(dep);
      if name !in pins {
        return Failed(UnknownTemplate(names));
      }
      res := res.(template := name, templateNames := names);
      if pins[name] in doc.versions {
        res := FillVersion(res, doc.versions[pins[name]]);
      } else {
        res := res.(warnings := res.warnings + [VersionWarning(pins[name])]);
      }
    }
    res := FillModel(doc, res, dep);
    var merged := MergeToolParams(res.params, res.tools);
    if merged.Failed? {
      return Failed(merged.error);
    }
    return Resolved(res.(params := merged.value));
  }

  method FillVersion(res: Resolution, v: Version) returns (out: Resolution)
    ensures out == WithVersion(res, v)
  {
    out := res;
    if v.kind != "" {
      out := out.(kind := v.kind);
    }
    out := out.(versionId := v.id, versionNumber := v.number, engine := v.engine, tools := v.tools);
    match out.kind {
      case "chat" => out := out.(messages := v.messages);
      case "text" => out := out.(text := v.text);
      case "decision" => out := out.(decision := v.decision);
      case _ =>
    }
  }

  method FillModel(doc: Document, res: Resolution, dep: Deployment) returns (out: Resolution)
    ensures out == Served(doc, res, dep)
  {
    out := res;
    var options: Params := map[];
    if dep.modelId != "" {
      if dep.modelId in doc.models {
        var m := doc.models[dep.modelId];
        out := out.(modelId := m.id, model := m.modelId, provider := m.provider);
        options := m.providerOptions;
      } else {
        out := out.(warnings := out.warnings + [ModelWarning(dep.modelId)]);
      }
    }
    var merged := MergeParams(options, dep.providerOptions);
    out := out.(providerOptions := merged);
  }

  /// An accepted document resolves without dangling

  // The model a deployment names, as it was checked when the document loaded.
  lemma NamedModel(raw: Raw, key: string)
    requires Accepted(raw) && key in DocumentOf(raw).deployments
    ensures var doc := DocumentOf(raw); var d := doc.deployments[key];
      && key in doc.prompts && d.modelId == ModelKey(d.provider, d.model) != "" && d.modelId in doc.models
      && var m := doc.models[d.modelId]; Cut(d.modelId) == Some((m.provider, m.modelId)) && m.id == ""
  {
    hide Cut, VersionKey, FineVersion, Present, FromDetail, FineDetail;
    var c := Normalized(raw).value;
    var doc := DocumentOf(raw);
    assert Refers(doc, key, doc.deployments[key]);
    var id := doc.deployments[key].modelId;
    assert id in c.models.value && FineModel(id, c.models.value[id].value);
  }

  // The version a deployed prompt is pinned to.
  lemma PinnedVersion(raw: Raw, key: string)
    requires Accepted(raw) && key in DocumentOf(raw).deployments && key in DocumentOf(raw).prompts
    requires DocumentOf(raw).prompts[key].kind != EMBEDDING
    ensures var doc := DocumentOf(raw); var d := doc.deployments[key];
      && d.promptVersion.Some? && d.promptVersion.value > 0
      && Pins(d) == map[DEFAULT_TEMPLATE := VersionKey(key, d.promptVersion.value)]
      && var id := Pins(d)[DEFAULT_TEMPLATE];
         id in doc.versions && doc.versions[id].prompt == key && doc.versions[id].number == d.promptVersion.value
  {
    hide Cut, VersionKey, FineModel, FineDeployment, FromDetail, FineDetail, LoadedModels;
    var c := Normalized(raw).value;
    var doc := DocumentOf(raw);
    var d := doc.deployments[key];
    assert Refers(doc, key, d);
    var id := Pins(d)[DEFAULT_TEMPLATE];
    var v := doc.versions[id];
    assert FineVersion(id, v) && id == VersionKey(key, d.promptVersion.value);
    VersionKeyInjective(v.prompt, v.number, key, d.promptVersion.value);
  }

  // A resolution that names what the deployment pinned, and nothing is missing.
  ghost predicate Clean(res: Resolution, d: Deployment) {
    && res.warnings == [] && res.revision == d.revision
    && Cut(ModelKey(d.provider, d.model)) == Some((res.provider, res.model))
    && (res.provider == d.provider && res.model == d.model <==> ':' !in d.provider)
  }

  // Every deployed prompt of an accepted document resolves, under its one
  // template, to the pinned version and the pinned model.
  lemma DefaultResolves(raw: Raw, key: string, template: string)
    requires Accepted(raw) && key in DocumentOf(raw).deployments && key in DocumentOf(raw).prompts
    requires DocumentOf(raw).prompts[key].kind != EMBEDDING
    ensures var doc := DocumentOf(raw); var d := doc.deployments[key];
      var r := Resolve(doc, key, template, "");
      && (Asked(template) != DEFAULT_TEMPLATE ==> r == Failed(UnknownTemplate([DEFAULT_TEMPLATE])))
      && (Asked(template) == DEFAULT_TEMPLATE ==>
        && r.Resolved? && Clean(r.value, d)
        && d.promptVersion == Some(r.value.versionNumber) && r.value.templateNames == [DEFAULT_TEMPLATE])
  {
    hide Accepted, DocumentOf, VersionKey, ModelKey, Cut;
    NamedModel(raw, key);
    PinnedVersion(raw, key);
    var doc := DocumentOf(raw);
    var d := doc.deployments[key];
    OneName(doc, key);
    ModelKeyCut(d.provider, d.model);
  }

  lemma OneName(doc: Document, key: string)
    requires key in doc.deployments && Pins(doc.deployments[key]).Keys == {DEFAULT_TEMPLATE}
    ensures Names(doc, key) == [DEFAULT_TEMPLATE]
  {
    SortedStrings.LeqTotal(DEFAULT_TEMPLATE, DEFAULT_TEMPLATE);
    SortedStrings.SortedKeysUnique({DEFAULT_TEMPLATE}, [DEFAULT_TEMPLATE]);
  }

  // An embedding prompt resolves whatever template is named, to no version.
  lemma EmbeddingResolves(raw: Raw, key: string, template: string)
    requires Accepted(raw) && key in DocumentOf(raw).deployments && key in DocumentOf(raw).prompts
    requires DocumentOf(raw).prompts[key].kind == EMBEDDING
    ensures var r := Resolve(DocumentOf(raw), key, template, "");
      && r.Resolved? && Clean(r.value, DocumentOf(raw).deployments[key])
      && r.value.templateNames == [] && r.value.tools == map[]
  {
    NamedModel(raw, key);
    hide Accepted, DocumentOf, ModelKey, Cut;
    var d := DocumentOf(raw).deployments[key];
    ModelKeyCut(d.provider, d.model);
  }

  // A single-prompt document is refused when the provider has a colon, so what
  // it resolves to is always the deployment's own provider and model.
  lemma DetailResolves(raw: Raw)
    requires Accepted(raw) && IsDetail(raw.detail)
    ensures FineDetail(raw.detail)
    ensures var key, d := raw.detail.prompt.value.0, raw.detail.deployment.value;
      && DocumentOf(raw).prompts.Keys == {key} == DocumentOf(raw).deployments.Keys
      && ':' !in d.provider
      && var r := Resolve(DocumentOf(raw), key, "", "");
         r.Resolved? && r.value.provider == d.provider && r.value.model == d.model && r.value.warnings == []
  {
    var key, d := raw.detail.prompt.value.0, raw.detail.deployment.value;
    var doc := DocumentOf(raw);
    DetailKeys(raw);
    NamedModel(raw, key);
    DetailModel(raw);
    ModelKeyCut(d.provider, d.model);
    if doc.prompts[key].kind == EMBEDDING { EmbeddingResolves(raw, key, ""); } else { DefaultResolves(raw, key, ""); }
    hide *;
  }

  lemma DetailKeys(raw: Raw)
    requires Accepted(raw) && IsDetail(raw.detail)
    ensures FineDetail(raw.detail)
    ensures var key, d := raw.detail.prompt.value.0, raw.detail.deployment.value;
      && DocumentOf(raw).prompts.Keys == {key} == DocumentOf(raw).deployments.Keys
      && DocumentOf(raw).deployments[key] == Loaded(key, d)
  {
    hide VersionKey, ModelKey, FineModel, FineVersion, References;
  }

  lemma DetailModel(raw: Raw)
    requires Accepted(raw) && IsDetail(raw.detail) && FineDetail(raw.detail)
    ensures var d := raw.detail.deployment.value; Cut(ModelKey(d.provider, d.model)) == Some((d.provider, d.model))
  {
    hide VersionKey, ModelKey, Cut, FineVersion, References;
    var m := raw.detail.model.value;
    var c := Normalized(raw).value;
    assert c == FromDetail(raw.detail);
    assert c.models.value[ModelKey(m.provider, m.model)] == Some(m);
    assert FineModel(ModelKey(m.provider, m.model), m);
  }

  // Neither spelling out the default template nor the document's environment
  // matters.
  lemma DefaultIsDefault(doc: Document, prompt: string, template: string, environment: string)
    requires Asked(template) == DEFAULT_TEMPLATE && environment in {"", doc.environment}
    ensures Resolve(doc, prompt, template, environment) == Resolve(doc, prompt, "", "")
  {
    hide Served, Pinned, Base, Names;
  }

  // Merging tools keeps a resolution clean, or fails on them.
  lemma SettlesCleanly(early: Resolution, r: Outcome<Resolution>, d: Deployment)
    requires Clean(early, d) && Settles(early, r)
    ensures match r case Resolved(res) => Clean(res, d) case Failed(error) => ToolsError(error)
  {
    hide Conflicts, Cut, ModelKey, Encode, FineTool, StrippedAll;
  }
}
