/** What resolving a prompt gives, over the fields of the document (resolver.go). */
module ResolverMeaning {
  import opened Options
  import opened CanonicalJson
  import opened Documents
  import opened Resolver
  import SortedStrings

  /// Tools

  predicate IsFunctionTool(def: Json) {
    && def.Obj? && "type" in def.fields && def.fields["type"] == Str("function")
    && "function" in def.fields && def.fields["function"].Obj?
    && var fn := def.fields["function"].fields;
       && "name" in fn && fn["name"].Str? && fn["name"].text != "" && "parameters" in fn
  }

  // The definition without what only this SDK reads.
  ghost predicate IsStripped(def: Json, r: Json) {
    && def.Obj? && r.Obj? && r.fields.Keys == def.fields.Keys - {"output_schema", "output_examples"}
    && forall k :: k in r.fields ==> r.fields[k] == def.fields[k]
  }

  ghost predicate AllStripped(defs: seq<Json>, r: seq<Json>) {
    |r| == |defs| && forall i :: 0 <= i < |defs| ==> IsStripped(defs[i], r[i])
  }

  predicate IsSet(tools: Params, key: string) {
    key in tools && tools[key] != Null
  }

  // The parameters a version's tools stand for, or why they stand for none.
  ghost predicate ToolsGive(tools: Params, r: Outcome<Params>) {
    if tools == map[] then r == Resolved(map[])
    else if exists k :: k in tools && k !in {"definitions", "tool_choice", "parallel_tool_calls"} then
      r == Failed(UnsupportedToolField)
    else if "definitions" !in tools || !tools["definitions"].Arr? then r == Failed(BadToolDefinitions)
    else
      var defs := tools["definitions"].items;
      if exists i :: 0 <= i < |defs| && !IsFunctionTool(defs[i]) then r == Failed(BadToolDefinition)
      else if IsSet(tools, "parallel_tool_calls") && !tools["parallel_tool_calls"].Bool? then
        r == Failed(BadParallelToolCalls)
      else
        && r.Resolved? && "tools" in r.value && r.value["tools"].Arr? && AllStripped(defs, r.value["tools"].items)
        && (forall k :: k in r.value <==>
              k == "tools" || (k in {"tool_choice", "parallel_tool_calls"} && IsSet(tools, k)))
        && (forall k :: k in r.value && k != "tools" ==> r.value[k] == tools[k])
  }

  lemma ToolsMean(tools: Params)
    ensures ToolsGive(tools, ProviderTools(tools))
  {
    hide FineTool, StrippedAll, AllStripped, IsFunctionTool;
    FieldsDiffer();
    if tools != map[] && "definitions" in tools && tools["definitions"].Arr? {
      var defs := tools["definitions"].items;
      forall i | 0 <= i < |defs| ensures FineTool(defs[i]) <==> IsFunctionTool(defs[i]) { FineIs(defs[i]); }
      if forall i :: 0 <= i < |defs| ==> FineTool(defs[i]) { StrippedMean(defs); }
    }
  }

  lemma FineIs(def: Json)
    ensures FineTool(def) <==> IsFunctionTool(def)
  {
  }

  lemma FieldsDiffer()
    ensures "tools" !in {"tool_choice", "parallel_tool_calls"} && "tool_choice" != "parallel_tool_calls"
  {
    assert |"tools"| == 5 && |"tool_choice"| == 11 && |"parallel_tool_calls"| == 19;
  }

  lemma {:induction false} StrippedMean(defs: seq<Json>)
    requires forall i :: 0 <= i < |defs| ==> FineTool(defs[i])
    ensures AllStripped(defs, StrippedAll(defs))
  {
    hide IsStripped, FineTool, Stripped;
    if defs != [] {
      StrippedMean(defs[1..]);
      OneStripped(defs[0]);
      assert forall i :: 0 < i < |defs| ==> defs[i] == defs[1..][i - 1];
    }
  }

  lemma OneStripped(def: Json)
    requires FineTool(def)
    ensures IsStripped(def, Stripped(def))
  {
  }

  /// Parameters

  // The parameters of a call: the deployment's over the prompt's defaults, and
  // those of the tools with them.
  ghost predicate ParamsAre(defaults: Params, own: Params, tools: Params, r: Params) {
    && (forall k :: k in r <==> k in defaults || k in own || k in tools)
    && (forall k :: k in own && k !in tools ==> r[k] == own[k])
    && (forall k :: k in defaults && k !in own && k !in tools ==> r[k] == defaults[k])
    && (forall k :: k in tools ==> r[k] == tools[k])
  }

  // The tools contradict a parameter: the deployment's, or a default it leaves.
  ghost predicate Clashes(defaults: Params, own: Params, tools: Params, k: string) {
    k in tools && if k in own then Encode(own[k]) != Encode(tools[k])
      else k in defaults && Encode(defaults[k]) != Encode(tools[k])
  }

  /// The whole answer

  // The version a prompt is pinned to under that template, when there is one.
  function PinnedTo(doc: Document, d: Deployment, name: string): Option<Version> {
    if d.templatePins.Some? && name in d.templatePins.value && d.templatePins.value[name] in doc.versions
    then Some(doc.versions[d.templatePins.value[name]]) else None
  }

  // What comes from the version: a body of the kind it has, and nothing without one.
  ghost predicate FromVersion(kind: string, version: Option<Version>, res: Resolution) {
    match version
    case Some(v) =>
      && res.kind == (if v.kind != "" then v.kind else kind)
      && res.versionId == v.id && res.versionNumber == v.number && res.engine == v.engine && res.tools == v.tools
      && res.messages == (if res.kind == "chat" then v.messages else [])
      && res.text == (if res.kind == "text" then v.text else "")
      && res.decision == (if res.kind == "decision" then v.decision else map[])
    case None =>
      && res.kind == kind && res.versionId == "" && res.versionNumber == 0 && res.engine == ""
      && res.tools == map[] && res.messages == [] && res.text == "" && res.decision == map[]
  }

  // What comes from the model; the deployment's options are over the model's.
  ghost predicate FromModel(d: Deployment, model: Option<Model>, res: Resolution) {
    && (match model
        case Some(m) => res.modelId == m.id && res.model == m.modelId && res.provider == m.provider
        case None => res.modelId == "" && res.model == "" && res.provider == "")
    && (forall k :: k in d.providerOptions ==>
      k in res.providerOptions && res.providerOptions[k] == d.providerOptions[k])
    && (forall k :: k in res.providerOptions && k !in d.providerOptions ==>
          model.Some? && k in model.value.providerOptions && res.providerOptions[k] == model.value.providerOptions[k])
    && (model.Some? ==> forall k :: k in model.value.providerOptions ==> k in res.providerOptions)
  }

  function NamedModel(doc: Document, d: Deployment): Option<Model> {
    if d.modelId != "" && d.modelId in doc.models then Some(doc.models[d.modelId]) else None
  }

  // What is missing from the document: the version that is pinned, the model.
  function Missing(doc: Document, d: Deployment, embeds: bool, name: string): seq<string> {
    (if !embeds && d.templatePins.Some? && name in d.templatePins.value && d.templatePins.value[name] !in doc.versions
     then ["missing_prompt_version: " + d.templatePins.value[name]] else [])
    + (if d.modelId != "" && d.modelId !in doc.models then ["missing_model: " + d.modelId] else [])
  }

  function NameOf(template: string): string {
    if template == "" then "default" else template
  }

  // The version the call reads: an embedding prompt has none.
  function VersionFor(doc: Document, p: Prompt, d: Deployment, template: string): Option<Version> {
    if p.kind == "embedding" then None else PinnedTo(doc, d, NameOf(template))
  }

  // What the resolution says besides its parameters.
  ghost predicate SaysOf(doc: Document, prompt: string, template: string, res: Resolution)
    requires prompt in doc.prompts && prompt in doc.deployments
  {
    var p, d := doc.prompts[prompt], doc.deployments[prompt];
    && res.prompt == prompt && res.revision == d.revision
    && (if p.kind == "embedding" then res.template == "" && res.templateNames == []
        else
          && d.templatePins.Some? && NameOf(template) in d.templatePins.value && res.template == NameOf(template)
          && SortedStrings.InOrder(res.templateNames, d.templatePins.value.Keys))
    && FromVersion(p.kind, VersionFor(doc, p, d, template), res)
    && FromModel(d, NamedModel(doc, d), res)
    && res.warnings == Missing(doc, d, p.kind == "embedding", NameOf(template))
  }

  // What a call to resolve answers, whatever document it is given.
  ghost predicate Answers(doc: Document, prompt: string, template: string, environment: string,
      r: Outcome<Resolution>) {
    if environment != "" && environment != doc.environment then r == Failed(EnvironmentMismatch)
    else if prompt !in doc.prompts then r == Failed(UnknownPrompt)
    else if prompt !in doc.deployments then r == Failed(Unresolved)
    else
      var p, d := doc.prompts[prompt], doc.deployments[prompt];
      if p.kind != "embedding" && (d.templatePins.None? || NameOf(template) !in d.templatePins.value) then
        && r.Failed? && r.error.UnknownTemplate?
        && SortedStrings.InOrder(r.error.names, if d.templatePins.Some? then d.templatePins.value.Keys else {})
      else
        var version := VersionFor(doc, p, d, template);
        var tools := if version.Some? then version.value.tools else map[];
        exists extra :: ToolsGive(tools, extra) && AnswersWith(doc, prompt, template, extra, r)
  }

  ghost predicate AnswersWith(doc: Document, prompt: string, template: string, extra: Outcome<Params>,
      r: Outcome<Resolution>)
    requires prompt in doc.prompts && prompt in doc.deployments
  {
    var p, d := doc.prompts[prompt], doc.deployments[prompt];
    match extra
    case Failed(error) => r == Failed(error)
    case Resolved(tools) =>
      if exists k :: Clashes(p.defaultParams, d.params, tools, k) then r.Failed? && r.error.ToolConflict?
      else
        && r.Resolved? && SaysOf(doc, prompt, template, r.value)
        && ParamsAre(p.defaultParams, d.params, tools, r.value.params)
  }

  lemma AnswerMeans(doc: Document, prompt: string, template: string, environment: string, r: Outcome<Resolution>)
    requires Returns(doc, prompt, template, environment, r)
    ensures Answers(doc, prompt, template, environment, r)
  {
    if prompt in doc.prompts && prompt in doc.deployments { NamesInOrder(doc, prompt); }
    hide Settles, Served, Pinned, Names, Base, ToolsGive, SortedStrings.InOrder, AnswersWith;
    if Resolve(doc, prompt, template, environment).Resolved? {
      EarlyMeans(doc, prompt, template, environment);
      MergedMeans(doc, prompt, template, environment, r);
    }
  }

  lemma NamesInOrder(doc: Document, prompt: string)
    requires prompt in doc.deployments
    ensures var pins := doc.deployments[prompt].templatePins;
      SortedStrings.InOrder(Names(doc, prompt), if pins.Some? then pins.value.Keys else {})
  {
    SortedStrings.SortedKeysInOrder(Pins(doc.deployments[prompt]).Keys);
  }

  // Before the tools are merged in.
  lemma EarlyMeans(doc: Document, prompt: string, template: string, environment: string)
    requires Resolve(doc, prompt, template, environment).Resolved?
    ensures var res := Resolve(doc, prompt, template, environment).value;
      && prompt in doc.prompts && prompt in doc.deployments
      && var p, d := doc.prompts[prompt], doc.deployments[prompt];
      && res.params == p.defaultParams + d.params
      && (p.kind != "embedding" ==> d.templatePins.Some? && NameOf(template) in d.templatePins.value)
      && SaysOf(doc, prompt, template, res)
  {
    hide SortedStrings.InOrder, SortedStrings.SortedKeys, Served, FromModel, FromVersion;
    NamesInOrder(doc, prompt);
    var p, d := doc.prompts[prompt], doc.deployments[prompt];
    var name := NameOf(template);
    var named := Base(prompt, p, d).(template := name, templateNames := Names(doc, prompt));
    if p.kind == "embedding" {
      NoVersion(prompt, p, d);
      ServedMeans(doc, Base(prompt, p, d), d);
      VersionKept(p.kind, None, Base(prompt, p, d), Served(doc, Base(prompt, p, d), d));
    } else {
      var pinned := Pinned(doc, named, Pins(d)[name]);
      PinnedMeans(doc, p, d, named, name);
      ServedMeans(doc, pinned, d);
      VersionKept(p.kind, PinnedTo(doc, d, name), pinned, Served(doc, pinned, d));
    }
  }

  lemma NoVersion(prompt: string, p: Prompt, d: Deployment)
    ensures FromVersion(p.kind, None, Base(prompt, p, d))
  {
  }

  lemma PinnedMeans(doc: Document, p: Prompt, d: Deployment, res: Resolution, name: string)
    requires name in Pins(d) && FromVersion(p.kind, None, res) && res.warnings == []
    ensures var r := Pinned(doc, res, Pins(d)[name]);
      && FromVersion(p.kind, PinnedTo(doc, d, name), r)
      && r.warnings == (if Pins(d)[name] in doc.versions then [] else ["missing_prompt_version: " + Pins(d)[name]])
      && r == res.(kind := r.kind, versionId := r.versionId, versionNumber := r.versionNumber, engine := r.engine,
                   tools := r.tools, messages := r.messages, text := r.text, decision := r.decision,
                   warnings := r.warnings)
  {
  }

  lemma ServedMeans(doc: Document, res: Resolution, d: Deployment)
    requires res.modelId == "" && res.model == "" && res.provider == ""
    ensures var r := Served(doc, res, d);
      && FromModel(d, NamedModel(doc, d), r)
      && r.warnings == res.warnings
           + (if d.modelId != "" && d.modelId !in doc.models then ["missing_model: " + d.modelId] else [])
      && r == res.(modelId := r.modelId, model := r.model, provider := r.provider, providerOptions := r.providerOptions,
                   warnings := r.warnings)
  {
    assert res.warnings + [] == res.warnings;
  }

  lemma VersionKept(kind: string, version: Option<Version>, res: Resolution, r: Resolution)
    requires FromVersion(kind, version, res)
    requires r == res.(modelId := r.modelId, model := r.model, provider := r.provider,
                       providerOptions := r.providerOptions, warnings := r.warnings)
    ensures FromVersion(kind, version, r)
  {
  }

  lemma MergedMeans(doc: Document, prompt: string, template: string, environment: string, r: Outcome<Resolution>)
    requires Returns(doc, prompt, template, environment, r) && Resolve(doc, prompt, template, environment).Resolved?
    requires prompt in doc.prompts && prompt in doc.deployments
    requires var res := Resolve(doc, prompt, template, environment).value;
      && res.params == doc.prompts[prompt].defaultParams + doc.deployments[prompt].params
      && SaysOf(doc, prompt, template, res)
    ensures var p, d := doc.prompts[prompt], doc.deployments[prompt];
      var version := VersionFor(doc, p, d, template);
      var extra := ProviderTools(Resolve(doc, prompt, template, environment).value.tools);
      ToolsGive(if version.Some? then version.value.tools else map[], extra)
      && AnswersWith(doc, prompt, template, extra, r)
  {
    var early := Resolve(doc, prompt, template, environment).value;
    var p, d := doc.prompts[prompt], doc.deployments[prompt];
    hide Resolve, Conflicts, ProviderTools, ToolsGive, ParamsAre, Clashes;
    ToolsMean(early.tools);
    ToolsOfVersion(doc, prompt, template, early);
    var tools := ProviderTools(early.tools);
    if tools.Resolved? {
      MergeMeans(p.defaultParams, d.params, tools.value);
      if r.Resolved? { SaysStill(doc, prompt, template, early, r.value); }
    }
    hide SaysOf;
  }

  lemma ToolsOfVersion(doc: Document, prompt: string, template: string, res: Resolution)
    requires prompt in doc.prompts && prompt in doc.deployments && SaysOf(doc, prompt, template, res)
    ensures var version := VersionFor(doc, doc.prompts[prompt], doc.deployments[prompt], template);
      res.tools == if version.Some? then version.value.tools else map[]
  {
    hide SortedStrings.InOrder, VersionFor, FromModel, Missing;
  }

  lemma SaysStill(doc: Document, prompt: string, template: string, early: Resolution, res: Resolution)
    requires prompt in doc.prompts && prompt in doc.deployments && SaysOf(doc, prompt, template, early)
    requires res == early.(params := res.params)
    ensures SaysOf(doc, prompt, template, res)
  {
    hide SortedStrings.InOrder, VersionFor, NamedModel, Missing;
  }

  lemma MergeMeans(defaults: Params, own: Params, tools: Params)
    ensures Conflicts(defaults + own, tools) <==> exists k :: Clashes(defaults, own, tools, k)
    ensures ParamsAre(defaults, own, tools, (defaults + own) + tools)
  {
    hide Encode;
    var base := defaults + own;
    forall k ensures (k in base && k in tools && !SameBytes(base[k], tools[k])) <==> Clashes(defaults, own, tools, k) {
    }
  }
}
