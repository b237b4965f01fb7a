/** Which documents load, check by check (snapshot.go). */
module DocumentsMeaning {
  import opened Options
  import opened Documents
  import Decimals

  /// The keys

  function Key(prompt: string, number: nat): string {
    prompt + "@" + Decimals.Decimal(number)
  }

  // key is provider:model, cut at the first colon.
  ghost predicate NamesModel(key: string, provider: string, model: string) {
    key == provider + ":" + model && ':' !in provider
  }

  lemma CutMeans(key: string, provider: string, model: string)
    ensures Cut(key) == Some((provider, model)) <==> NamesModel(key, provider, model)
  {
    if NamesModel(key, provider, model) {
      ModelKeyCut(provider, model);
      assert ModelKey(provider, model) == key;
    }
    var i := FirstColon(key);
    if i < |key| && provider == key[..i] && model == key[i + 1..] {
      assert key == key[..i] + ":" + key[i + 1..];
    }
  }

  /// An aggregate document

  ghost predicate DeploymentLoads(d: Deployment) {
    && d.id == "" && d.modelId == "" && d.promptPins == None && d.templatePins == None
    && d.provider != "" && d.model != "" && (d.promptVersion == None || d.promptVersion.value >= 1)
  }

  ghost predicate VersionLoads(key: string, v: Version) {
    && v.id == "" && v.promptId == "" && v.promptTemplateId == ""
    && v.prompt != "" && v.number >= 1 && key == Key(v.prompt, v.number)
  }

  ghost predicate ModelLoads(key: string, m: Model) {
    m.id == "" && m.modelId == "" && m.provider != "" && m.model != "" && NamesModel(key, m.provider, m.model)
  }

  // The collection has an entry there that is not null.
  ghost predicate Has<T>(entries: map<string, Option<T>>, key: string) {
    key in entries && entries[key].Some?
  }

  // A deployment finds its prompt, its model, and unless it embeds its version.
  ghost predicate Finds(c: Collections, key: string, d: Deployment)
    requires c.prompts.Some? && c.versions.Some? && c.models.Some?
  {
    && Has(c.prompts.value, key) && Has(c.models.value, d.provider + ":" + d.model)
    && (c.prompts.value[key].value.kind != "embedding" ==>
        && d.promptVersion.Some? && d.promptVersion.value >= 1
        && Has(c.versions.value, Key(key, d.promptVersion.value)))
  }

  ghost predicate Loads(c: Collections) {
    && c.prompts.Some? && c.deployments.Some? && c.versions.Some? && c.models.Some?
    && (forall k :: Has(c.prompts.value, k) ==> c.prompts.value[k].value.id == "")
    && (forall k :: k in c.deployments.value ==>
          && c.deployments.value[k].Some? && DeploymentLoads(c.deployments.value[k].value)
          && Finds(c, k, c.deployments.value[k].value))
    && (forall k :: Has(c.versions.value, k) ==> VersionLoads(k, c.versions.value[k].value))
    && (forall k :: Has(c.models.value, k) ==> ModelLoads(k, c.models.value[k].value))
  }

  // Exactly these aggregate documents load: of schema 1, with all four
  // collections, every entry as it has to be, and nothing dangling.
  lemma AggregateLoads(raw: Raw)
    requires raw.detail == Detail(None, None, None, None)
    ensures Accepted(raw) <==> !raw.inputSchema && raw.schemaVersion == Some(1) && Loads(raw.collections)
  {
    CollectionsLoad(raw, raw.collections);
    hide FineEntries, Loads, References, Build;
  }

  lemma CollectionsLoad(raw: Raw, c: Collections)
    ensures (FineEntries(c) && References(Build(raw, c))) <==> Loads(c)
  {
    hide FineVersion, FineModel, VersionLoads, ModelLoads, Finds, Refers, Build, VersionKey;
    if c.versions.Some? {
      forall k | k in c.versions.value && c.versions.value[k].Some?
        ensures FineVersion(k, c.versions.value[k].value) <==> VersionLoads(k, c.versions.value[k].value)
      {
        VersionIs(k, c.versions.value[k].value);
      }
    }
    if c.models.Some? {
      forall k | k in c.models.value && c.models.value[k].Some?
        ensures FineModel(k, c.models.value[k].value) <==> ModelLoads(k, c.models.value[k].value)
      {
        ModelIs(k, c.models.value[k].value);
      }
    }
    if FineEntries(c) {
      BuildDeployments(raw, c);
      forall k | k in c.deployments.value
        ensures Refers(Build(raw, c), k, Build(raw, c).deployments[k]) <==> Finds(c, k, c.deployments.value[k].value)
      {
        RefersIs(raw, c, k);
      }
    }
  }

  lemma VersionIs(key: string, v: Version)
    ensures FineVersion(key, v) <==> VersionLoads(key, v)
  {
  }

  lemma ModelIs(key: string, m: Model)
    ensures FineModel(key, m) <==> ModelLoads(key, m)
  {
    hide Cut, NamesModel;
    CutMeans(key, m.provider, m.model);
  }

  lemma BuildDeployments(raw: Raw, c: Collections)
    requires FineEntries(c)
    ensures Build(raw, c).deployments.Keys == c.deployments.value.Keys
  {
    hide FineVersion, FineModel, Loaded;
  }

  lemma RefersIs(raw: Raw, c: Collections, key: string)
    requires FineEntries(c) && key in c.deployments.value && key in Build(raw, c).deployments
    ensures Refers(Build(raw, c), key, Build(raw, c).deployments[key]) <==>
      Finds(c, key, c.deployments.value[key].value)
  {
    hide FineModel, VersionKey, Key, FineVersion;
    var d := c.deployments.value[key].value;
    var doc := Build(raw, c);
    assert FineDeployment(d) && doc.deployments[key] == Loaded(key, d);
    assert key in doc.prompts <==> Has(c.prompts.value, key);
    assert ModelKey(d.provider, d.model) in doc.models <==> Has(c.models.value, d.provider + ":" + d.model);
    if d.promptVersion.Some? {
      var n := d.promptVersion.value;
      KeyIs(key, n);
      assert VersionKey(key, n) in doc.versions <==> Has(c.versions.value, Key(key, n));
      if Has(c.versions.value, Key(key, n)) {
        PinnedVersionIs(key, n, c.versions.value[Key(key, n)].value);
        assert doc.versions[VersionKey(key, n)] == c.versions.value[Key(key, n)].value;
      }
      assert doc.deployments[key].templatePins == Some(map[DEFAULT_TEMPLATE := VersionKey(key, n)]);
      assert map[DEFAULT_TEMPLATE := VersionKey(key, n)] != map[] by {
        assert DEFAULT_TEMPLATE in map[DEFAULT_TEMPLATE := VersionKey(key, n)];
      }
    }
  }

  lemma KeyIs(prompt: string, number: nat)
    ensures VersionKey(prompt, number) == Key(prompt, number)
  {
  }

  lemma PinnedVersionIs(key: string, n: nat, v: Version)
    requires FineVersion(VersionKey(key, n), v)
    ensures v.prompt == key
  {
    hide VersionKey;
    VersionKeyInjective(v.prompt, v.number, key, n);
  }

  // What a document that loads is: its entries, each deployment with its model
  // key and its one pin, each model named as the provider names it.
  lemma LoadsAs(raw: Raw)
    requires raw.detail == Detail(None, None, None, None) && Accepted(raw)
    ensures var doc, c := DocumentOf(raw), raw.collections;
      && doc.project == raw.project && doc.environment == raw.environment
      && c.prompts.Some? && c.deployments.Some? && c.versions.Some? && c.models.Some?
      && (forall k :: k in doc.prompts <==> Has(c.prompts.value, k))
      && (forall k :: k in doc.prompts ==> doc.prompts[k] == c.prompts.value[k].value)
      && (forall k :: k in doc.versions <==> Has(c.versions.value, k))
      && (forall k :: k in doc.versions ==> doc.versions[k] == c.versions.value[k].value)
      && (forall k :: k in doc.models <==> Has(c.models.value, k))
      && (forall k :: k in doc.models ==>
            var m := c.models.value[k].value; doc.models[k] == m.(modelId := m.model))
      && doc.deployments.Keys == c.deployments.value.Keys
      && (forall k :: k in doc.deployments ==>
            && c.deployments.value[k].Some?
            && var d := c.deployments.value[k].value;
               doc.deployments[k] == d.(
                 modelId := d.provider + ":" + d.model,
                 templatePins := Some(if d.promptVersion.Some? && d.promptVersion.value >= 1
                   then map["default" := Key(k, d.promptVersion.value)] else map[])))
  {
    hide References, FineVersion, FineModel;
  }

  /// A single-prompt document

  // The parts of a single-prompt document belong together.
  ghost predicate DetailFits(d: Detail) {
    && d.prompt.Some? && d.prompt.value.1.Some? && d.deployment.Some? && d.version.Some? && d.model.Some?
    && var key, dep, v, m := d.prompt.value.0, d.deployment.value, d.version.value, d.model.value;
    && key != "" && m.provider != "" && m.model != "" && dep.provider == m.provider && dep.model == m.model
    && v.prompt == key && v.number >= 1 && dep.promptVersion == Some(v.number)
  }

  // It loads exactly when they do, each part is as it has to be, and the
  // provider has no colon; it may name no collection beside them.
  lemma DetailLoads(raw: Raw)
    requires raw.detail != Detail(None, None, None, None)
    ensures Accepted(raw) <==>
      && !raw.inputSchema && raw.schemaVersion == Some(1) && !raw.bulk && DetailFits(raw.detail)
      && raw.detail.prompt.value.1.value.id == "" && DeploymentLoads(raw.detail.deployment.value)
      && var v, m := raw.detail.version.value, raw.detail.model.value;
         && v.id == "" && v.promptId == "" && v.promptTemplateId == ""
         && m.id == "" && m.modelId == "" && ':' !in m.provider
  {
    var d := raw.detail;
    hide References, FineEntries, Loads, VersionKey;
    if FineDetail(d) {
      CollectionsLoad(raw, FromDetail(d));
      DetailCollections(d);
    }
    hide FromDetail, Build;
  }

  lemma DetailCollections(d: Detail)
    requires FineDetail(d)
    ensures Loads(FromDetail(d)) <==>
      && d.prompt.value.1.value.id == "" && DeploymentLoads(d.deployment.value)
      && d.version.value.id == "" && d.version.value.promptId == "" && d.version.value.promptTemplateId == ""
      && d.model.value.id == "" && d.model.value.modelId == "" && ':' !in d.model.value.provider
  {
    var key, v, m := d.prompt.value.0, d.version.value, d.model.value;
    var c := FromDetail(d);
    assert VersionKey(key, v.number) == Key(v.prompt, v.number);
    assert c.versions.value == map[Key(v.prompt, v.number) := Some(v)];
    assert c.models.value == map[m.provider + ":" + m.model := Some(m)];
    assert Has(c.prompts.value, key) && Has(c.versions.value, Key(key, v.number));
    assert Has(c.models.value, m.provider + ":" + m.model) && key in c.deployments.value;
    hide FromDetail, VersionKey, ModelKey;
  }
}
