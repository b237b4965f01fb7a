/**
 The client's cache as objects that update their fields (client.go, store.go).
 Each method runs between taking a lock and giving it back; the client keeps
 the run it has made so far, and its fields are always what that run gives.
 */
module FetchClient {
  import opened Options
  import opened Documents
  import opened FetchProtocol
  import FetchTheorems
  import Resolver
  import ResolverMeaning

  class SnapshotStore {
    var entries: Entries

    constructor ()
      ensures entries == map[]
    {
      entries := map[];
    }

    method GetEntry(key: string) returns (entry: Option<Entry>)
      ensures entry == Get(entries, key)
    {
      if key !in entries || entries[key].document.None? {
        return None;
      }
      return Some(entries[key]);
    }

    method Put(key: string, e: Entry)
      modifies this
      ensures entries == old(entries)[key := e]
    {
      entries := entries[key := e];
    }

    method Install(e: Entry)
      requires e.document.Some?
      modifies this
      ensures entries == PutDocument(old(entries), e)
    {
      var prompts := e.document.value.prompts;
      var left := prompts.Keys;
      ghost var before := entries;
      while left != {}
        invariant left <= prompts.Keys
        invariant entries == before + map k | k in prompts && k !in left :: e
        decreases left
      {
        var key :| key in left;
        left := left - {key};
        entries := entries[key := e];
      }
      assert (map k | k in prompts && k !in left :: e) == map k | k in prompts :: e;
    }

    method Stale(key: string, at: Time)
      modifies this
      ensures entries == MarkStale(old(entries), key, at)
    {
      if key in entries && entries[key].document.Some? && entries[key].staleSince == ZERO {
        entries := entries[key := entries[key].(staleSince := at)];
      }
    }

    method Fresh(key: string, source: Source, at: Time)
      modifies this
      ensures entries == MarkFresh(old(entries), key, source, at)
    {
      if key !in entries || entries[key].document.None? {
        return;
      }
      var clone := entries[key];
      clone := clone.(source := source);
      clone := clone.(staleSince := ZERO);
      clone := clone.(fetchedAt := at);
      entries := entries[key := clone];
    }

    method Note(key: string, at: Time)
      modifies this
      ensures entries == NoteAttempt(old(entries), key, at)
    {
      if key in entries {
        entries := entries[key := entries[key].(lastAttempt := at)];
        return;
      }
      entries := entries[key := NOTHING.(lastAttempt := at)];
    }

    method Last(key: string) returns (at: Time)
      ensures at == LastAttempt(entries, key)
    {
      if key !in entries {
        return ZERO;
      }
      return entries[key].lastAttempt;
    }
  }

  datatype Found = Found(resolution: Resolver.Resolution, source: Source, etag: string)

  class Client {
    const cfg: Config
    const store: SnapshotStore
    var inflight: map<string, nat>
    var fetches: map<nat, Fetch>
    var next: nat
    ghost var starts: map<string, seq<Time>>
    ghost const initial: Entries
    ghost var run: seq<Event>

    ghost function Now(): State
      reads this, store
    {
      State(store.entries, inflight, fetches, next, starts)
    }

    ghost predicate Valid()
      reads this, store
    {
      Now() == Exec(cfg, Initial(initial), run) && FetchTheorems.DocumentsOK(cfg, initial)
    }

    // Loads the disk cache over the bundle, and each key's own file over both.
    constructor (cfg: Config, bundle: Option<File>, disk: Option<File>, keyFiles: seq<File>, now: Time)
      ensures Valid() && fresh(store) && run == []
      ensures this.cfg == cfg && initial == Local(cfg, bundle, disk, keyFiles, now)
    {
      var store := new SnapshotStore();
      LoadLocal(store, cfg, bundle, disk, keyFiles, now);
      this.cfg, this.store := cfg, store;
      inflight, fetches, next, starts := map[], map[], 0, map[];
      initial, run := store.entries, [];
      FetchTheorems.LocalTrusted(cfg, bundle, disk, keyFiles, now);
    }

    static method LoadLocal(store: SnapshotStore, cfg: Config, bundle: Option<File>, disk: Option<File>,
        keyFiles: seq<File>, now: Time)
      requires store.entries == map[]
      modifies store
      ensures store.entries == Local(cfg, bundle, disk, keyFiles, now)
    {
      hide ReadFile, PutDocument;
      var entry := ReadSnapshotFile(cfg, bundle);
      if entry.Some? {
        store.Install(entry.value.(source := Bundle, fetchedAt := now));
      }
      entry := ReadSnapshotFile(cfg, disk);
      if entry.Some? {
        store.Install(FromDisk(entry.value, now));
      }
      ghost var before := store.entries;
      for i := 0 to |keyFiles|
        invariant store.entries == WithKeyFiles(cfg, before, keyFiles[..i], now)
      {
        assert keyFiles[..i + 1][..i] == keyFiles[..i];
        entry := ReadSnapshotFile(cfg, Some(keyFiles[i]));
        if entry.Some? {
          store.Install(FromDisk(entry.value, now));
        }
      }
      assert keyFiles[..|keyFiles|] == keyFiles;
    }

    static method ReadSnapshotFile(cfg: Config, file: Option<File>) returns (entry: Option<Entry>)
      ensures entry == ReadFile(cfg, file)
    {
      hide Accepted, DocumentOf;
      if file.None? {
        return None;
      }
      var doc := ParsePromptDocument(file.value.raw);
      if doc.Err? || !Guarded(cfg, doc.value) {
        return None;
      }
      return Some(Entry(Some(doc.value), file.value.etag, file.value.lastModified, NoSource, file.value.fetchedAt,
        ZERO, ZERO));
    }

    method IsStale(entry: Entry, now: Time) returns (stale: bool)
      ensures !stale <==> entry.source == Remote && now - entry.fetchedAt < cfg.ttl
    {
      if entry.source != Remote {
        return true;
      }
      return now - entry.fetchedAt >= cfg.ttl;
    }

    lemma Extends(before: State, ev: Event)
      requires before == Exec(cfg, Initial(initial), run)
      ensures Exec(cfg, Initial(initial), run + [ev]) == Step(cfg, before, ev)
    {
      assert (run + [ev])[..|run + [ev]| - 1] == run;
    }

    // The first look, without the lock: is there nothing to fetch?  Other steps
    // may come between it and RequestFetch.
    method IsFresh(key: string, now: Time) returns (current: bool)
      ensures current <==>
        && Get(store.entries, key).Some? && store.entries[key].source == Remote
        && now - store.entries[key].fetchedAt < cfg.ttl
    {
      var entry := store.GetEntry(key);
      if entry.None? {
        return false;
      }
      var stale := IsStale(entry.value, now);
      return !stale;
    }

    // The locked part of asking for a fresh document: the number of the fetch
    // to wait for, or none when the last attempt is too recent.
    method RequestFetch(key: string, now: Time) returns (wait: Option<nat>)
      requires Valid()
      modifies this, store
      ensures Valid() && run == old(run) + [Call(key, now)]
      ensures wait.Some? ==> key in inflight && inflight[key] == wait.value
      ensures wait.None? <==> key !in old(inflight) && old(Gated(cfg, store.entries, key, now))
      ensures wait.None? || key in old(inflight) ==> Now() == old(Now())
    {
      hide Gated, Exec, FetchTheorems.DocumentsOK;
      GatedIs(cfg, store.entries, key, now);
      Extends(Now(), Call(key, now));
      run := run + [Call(key, now)];
      if key in inflight {
        return Some(inflight[key]);
      }
      var last := store.Last(key);
      if last != ZERO && now - last < cfg.ttl {
        return None;
      }
      wait := Some(next);
      inflight := inflight[key := next];
      fetches := fetches[next := Fetch(key, now, Started)];
      starts := starts[key := (if key in starts then starts[key] else []) + [now]];
      next := next + 1;
      store.Note(key, now);
    }

    // The fetch reads the ETag it will send.
    method BeginFetch(id: nat) returns (etag: string)
      requires Valid() && id in fetches && fetches[id].phase.Started?
      modifies this
      ensures Valid() && run == old(run) + [Ask(id)] && etag == EtagOf(store.entries, fetches[id].key)
        && fetches[id].phase == Asked(etag)
    {
      hide Exec, FetchTheorems.DocumentsOK;
      Extends(Now(), Ask(id));
      run := run + [Ask(id)];
      var entry := store.GetEntry(fetches[id].key);
      etag := if entry.Some? then entry.value.etag else "";
      fetches := fetches[id := fetches[id].(phase := Asked(etag))];
    }

    // The answer is handled: the deadline is checked as the document goes in.
    method HandleReply(id: nat, reply: Reply, now: Time, late: bool)
      requires Valid() && id in fetches && fetches[id].phase.Asked?
      modifies this, store
      ensures Valid() && run == old(run) + [Answer(id, reply, now, late)]
    {
      hide Exec, FetchTheorems.DocumentsOK;
      Extends(Now(), Answer(id, reply, now, late));
      run := run + [Answer(id, reply, now, late)];
      var f := fetches[id];
      fetches := fetches[id := f.(phase := Answered)];
      Settle(f, reply, now, late);
    }

    method Settle(f: Fetch, reply: Reply, now: Time, late: bool)
      modifies store
      ensures store.entries == AfterReply(cfg, old(store.entries), f, reply, now, late)
    {
      hide Accepted, DocumentOf, Guarded;
      match reply {
        case Failure => store.Stale(f.key, now);
        case OtherStatus => store.Stale(f.key, now);
        case NotModified =>
          if late {
            store.Stale(f.key, now);
            return;
          }
          var entry := store.GetEntry(f.key);
          if entry.None? {
            return;
          }
          store.Fresh(f.key, Remote, now);
        case Body(raw, etag, lastModified) =>
          var doc := ParsePromptDocument(raw);
          if doc.Err? {
            store.Stale(f.key, now);
            return;
          }
          if !Guarded(cfg, doc.value) {
            store.Stale(f.key, now);
            return;
          }
          if f.key !in doc.value.prompts {
            store.Stale(f.key, now);
            return;
          }
          if late {
            store.Stale(f.key, now);
            return;
          }
          store.Put(f.key, Entry(Some(doc.value), etag, lastModified, Remote, now, ZERO, f.started));
      }
    }

    method EndFetch(id: nat)
      requires Valid() && id in fetches && fetches[id].phase.Answered?
      modifies this
      ensures Valid() && run == old(run) + [Finish(id)] && id !in fetches && id !in inflight.Values
    {
      hide Exec, Flights, FetchTheorems.DocumentsOK;
      FlightsRun(cfg, initial, run);
      NoOther(Now(), id);
      Extends(Now(), Finish(id));
      run := run + [Finish(id)];
      var key := fetches[id].key;
      if key in inflight && inflight[key] == id {
        inflight := inflight - {key};
      }
      fetches := fetches - {id};
    }

    // Only its own key holds a running fetch's number.
    lemma NoOther(s: State, id: nat)
      requires Flights(s) && id in s.fetches
      ensures forall k :: k in s.inflight && s.inflight[k] == id ==> k == s.fetches[id].key
    {
    }

    method SetPromptDocument(raw: Raw, now: Time) returns (r: Documents.Result<()>)
      requires Valid()
      modifies this, store
      ensures Valid() && run == old(run) + [Event.Install(raw, now)] && (r.Ok? <==> Accepted(raw))
    {
      hide Exec, Accepted, DocumentOf, FetchTheorems.DocumentsOK;
      Extends(Now(), Event.Install(raw, now));
      run := run + [Event.Install(raw, now)];
      var doc := ParsePromptDocument(raw);
      if doc.Err? {
        return Documents.Err(doc.reason);
      }
      store.Install(Entry(Some(doc.value), "", "", Manual, now, ZERO, ZERO));
      return Documents.Ok(());
    }

    // Resolving from what is served; the one way to have no answer at all is
    // that no tier holds a document with the key.  The default template resolves
    // cleanly or fails only for want of a deployment or on its tools; with an
    // environment named, as long as no document of the prompt was installed by hand.
    method Resolve(prompt: string, template: string, environment: string) returns (r: Resolver.Outcome<Found>)
      requires Valid()
      ensures environment !in {"", cfg.environment} ==> r == Resolver.Failed(Resolver.EnvironmentMismatch)
      ensures environment in {"", cfg.environment} ==>
        (r == Resolver.Failed(Resolver.NotReady) <==> Get(store.entries, prompt).None?)
      ensures r.Resolved? ==>
        (Get(store.entries, prompt).Some?
         && r.value.source == store.entries[prompt].source && r.value.etag == store.entries[prompt].etag)
      ensures environment in {"", cfg.environment} && Get(store.entries, prompt).Some? ==>
        exists res :: Gives(res, r)
          && ResolverMeaning.Answers(store.entries[prompt].document.value, prompt, template, environment, res)
      ensures
        && Resolver.Asked(template) == DEFAULT_TEMPLATE
        && (environment == "" || (environment == cfg.environment && FetchTheorems.Untouched(run, prompt))) ==>
        match r
        case Resolved(found) =>
          var doc := store.entries[prompt].document.value;
          prompt in doc.deployments && Resolver.Clean(found.resolution, doc.deployments[prompt])
        case Failed(error) => error in {Resolver.NotReady, Resolver.Unresolved} || Resolver.ToolsError(error)
    {
      hide Resolver.ProviderTools, Resolver.Conflicts, Exec, FetchTheorems.DocumentsOK, ResolverMeaning.Answers;
      if environment != "" && environment != cfg.environment {
        return Resolver.Failed(Resolver.EnvironmentMismatch);
      }
      var entry := store.GetEntry(prompt);
      if entry.None? {
        return Resolver.Failed(Resolver.NotReady);
      }
      var res := Resolver.ResolveSnapshot(entry.value.document, prompt, template, environment);
      ghost var doc := entry.value.document.value;
      Settled(doc, prompt, template, environment, res);
      AnswersHold(doc, prompt, template, environment, res);
      if Resolver.Asked(template) == DEFAULT_TEMPLATE
        && (environment == "" || FetchTheorems.Untouched(run, prompt)) {
        ServedCleanly(prompt, template, environment, res);
      }
      if res.Failed? {
        return Resolver.Failed(res.error);
      }
      return Resolver.Resolved(Found(res.value, entry.value.source, entry.value.etag));
    }

    // The answer, with where its document came from.
    ghost predicate Gives(res: Resolver.Outcome<Resolver.Resolution>, r: Resolver.Outcome<Found>) {
      match res
      case Failed(error) => r == Resolver.Failed(error)
      case Resolved(value) => r.Resolved? && r.value.resolution == value
    }

    lemma AnswersHold(doc: Document, prompt: string, template: string, environment: string,
        res: Resolver.Outcome<Resolver.Resolution>)
      requires Resolver.Returns(doc, prompt, template, environment, res)
      ensures ResolverMeaning.Answers(doc, prompt, template, environment, res)
    {
      hide *;
      ResolverMeaning.AnswerMeans(doc, prompt, template, environment, res);
    }

    lemma Settled(doc: Document, prompt: string, template: string, environment: string,
        res: Resolver.Outcome<Resolver.Resolution>)
      requires Resolver.Returns(doc, prompt, template, environment, res)
      ensures res != Resolver.Failed(Resolver.NotReady)
    {
      hide Resolver.Served, Resolver.Pinned, Resolver.Base, Resolver.Names, Resolver.Conflicts, Resolver.FineTool;
      hide Resolver.StrippedAll;
    }

    lemma ServedCleanly(prompt: string, template: string, environment: string,
        res: Resolver.Outcome<Resolver.Resolution>)
      requires Valid() && Get(store.entries, prompt).Some? && Resolver.Asked(template) == DEFAULT_TEMPLATE
      requires environment == "" || (environment == cfg.environment && FetchTheorems.Untouched(run, prompt))
      requires Resolver.Returns(store.entries[prompt].document.value, prompt, template, environment, res)
      ensures match res
        case Resolved(resolution) =>
          var doc := store.entries[prompt].document.value;
          prompt in doc.deployments && Resolver.Clean(resolution, doc.deployments[prompt])
        case Failed(error) => error == Resolver.Unresolved || Resolver.ToolsError(error)
    {
      var doc := store.entries[prompt].document.value;
      ServedIsLoaded(prompt);
      if environment != "" { ServedIsTrusted(prompt); }
      FetchTheorems.LoadedResolves(prompt, doc);
      hide *;
      Resolver.DefaultIsDefault(doc, prompt, template, environment);
      ReturnedCleanly(doc, prompt, template, environment, res);
    }

    lemma ReturnedCleanly(doc: Document, prompt: string, template: string, environment: string,
        res: Resolver.Outcome<Resolver.Resolution>)
      requires Resolver.Returns(doc, prompt, template, environment, res)
      requires var r := Resolver.Resolve(doc, prompt, template, environment);
        if prompt !in doc.deployments then r == Resolver.Failed(Resolver.Unresolved)
        else r.Resolved? && Resolver.Clean(r.value, doc.deployments[prompt])
      ensures match res
        case Resolved(resolution) => prompt in doc.deployments && Resolver.Clean(resolution, doc.deployments[prompt])
        case Failed(error) => error == Resolver.Unresolved || Resolver.ToolsError(error)
    {
      hide Resolver.Resolve, Resolver.Clean, Resolver.Settles;
      if prompt in doc.deployments {
        Resolver.SettlesCleanly(Resolver.Resolve(doc, prompt, template, environment).value, res,
          doc.deployments[prompt]);
      }
    }

    lemma ServedIsLoaded(key: string)
      requires Valid() && Get(store.entries, key).Some?
      ensures FetchTheorems.Loaded(key, store.entries[key].document.value)
    {
      hide Exec, Accepted, DocumentOf;
      assert FetchTheorems.LoadedOK(initial, key);
      FetchTheorems.LoadedRun(cfg, initial, run, key);
    }

    lemma ServedIsTrusted(key: string)
      requires Valid() && FetchTheorems.Untouched(run, key) && Get(store.entries, key).Some?
      ensures var doc := store.entries[key].document.value;
        FetchTheorems.Trusted(cfg, key, doc) && key in doc.prompts
          && (cfg.environment != "" ==> doc.environment == cfg.environment)
    {
      FetchTheorems.InvRun(cfg, initial, run, key);
      hide Exec, Flights, FetchTheorems.StartsOK, FetchTheorems.FetchesOK, FetchTheorems.Untouched, Accepted;
      hide DocumentOf;
    }
  }

  lemma GatedIs(cfg: Config, s: Entries, key: string, now: Time)
    ensures Gated(cfg, s, key, now) <==> LastAttempt(s, key) != ZERO && now - LastAttempt(s, key) < cfg.ttl
  {
  }
}
