/**
 What holds of a key over the runs of the demand-fetch cache (client.go,
 store.go): in every run, as long as no document of that key is installed by
 hand, and from one such install to the next.
 */
module FetchTheorems {
  import opened Options
  import opened Documents
  import opened FetchProtocol
  import Resolver

  // No step of the run installs a document that has the key in it.
  predicate Untouched(events: seq<Event>, key: string) {
    forall i :: 0 <= i < |events| ==> Spares(events[i], key)
  }

  /// The invariant of one key

  // A document that was accepted and has the key in it.
  ghost predicate Loaded(key: string, doc: Document) {
    key in doc.prompts && exists raw: Raw :: Accepted(raw) && doc == DocumentOf(raw)
  }

  // A document this client may serve for the key.
  ghost predicate Trusted(cfg: Config, key: string, doc: Document) {
    Guarded(cfg, doc) && Loaded(key, doc)
  }

  ghost predicate DocumentOK(cfg: Config, s: Entries, key: string) {
    Get(s, key).Some? ==> Trusted(cfg, key, s[key].document.value)
  }

  // Recorded starts of one key, each at least ttl after the one before it.
  predicate Spaced(ttl: int, starts: seq<Time>) {
    forall i :: 0 < i < |starts| && starts[i - 1] != ZERO ==> starts[i] - starts[i - 1] >= ttl
  }

  ghost predicate StartsOK(cfg: Config, s: State, key: string) {
    StartsOf(s, key) != [] ==>
      Spaced(cfg.ttl, StartsOf(s, key)) && LastAttempt(s.entries, key) == StartsOf(s, key)[|StartsOf(s, key)| - 1]
  }

  ghost predicate FetchesOK(s: State, key: string) {
    forall id :: id in s.fetches && s.fetches[id].key == key ==>
      && LastAttempt(s.entries, key) == s.fetches[id].started
      && (s.fetches[id].phase.Asked? ==> s.fetches[id].phase.etag == EtagOf(s.entries, key))
  }

  ghost predicate Inv(cfg: Config, s: State, key: string) {
    Flights(s) && DocumentOK(cfg, s.entries, key) && StartsOK(cfg, s, key) && FetchesOK(s, key)
  }

  lemma DocumentStep(cfg: Config, s: State, ev: Event, key: string)
    requires DocumentOK(cfg, s.entries, key) && Spares(ev, key)
    ensures DocumentOK(cfg, Step(cfg, s, ev).entries, key)
  {
    hide Accepted, DocumentOf, Guarded, Gated, Step, Usable, Trusted, Spares;
    ServedChanges(cfg, s, ev, key);
    if Lands(s, ev, key) && ev.reply.Body? && Usable(cfg, key, ev.reply.raw) {
      UsableTrusted(cfg, key, ev.reply.raw);
    }
  }

  lemma UsableTrusted(cfg: Config, key: string, raw: Raw)
    requires Usable(cfg, key, raw)
    ensures Trusted(cfg, key, DocumentOf(raw))
  {
    hide Accepted, DocumentOf, Guarded;
  }

  // Only a call that starts a fetch changes when the last attempt was.
  lemma LastAttemptStep(cfg: Config, s: State, ev: Event, key: string)
    requires Spares(ev, key) && FetchesOK(s, key)
    ensures LastAttempt(Step(cfg, s, ev).entries, key) ==
      if ev.Call? && ev.key == key && key !in s.inflight && !Gated(cfg, s.entries, key, ev.now) then ev.now
      else LastAttempt(s.entries, key)
  {
    hide Accepted, DocumentOf, Guarded, Gated;
  }

  lemma StartsStep(cfg: Config, s: State, ev: Event, key: string)
    requires StartsOK(cfg, s, key) && FetchesOK(s, key) && Spares(ev, key)
    ensures StartsOK(cfg, Step(cfg, s, ev), key)
  {
    LastAttemptStep(cfg, s, ev, key);
    hide AfterReply, Accepted, DocumentOf;
    var before := StartsOf(s, key);
    assert before != [] ==> Spaced(cfg.ttl, before);
  }

  lemma FetchesStep(cfg: Config, s: State, ev: Event, key: string)
    requires Flights(s) && FetchesOK(s, key) && Spares(ev, key)
    ensures FetchesOK(Step(cfg, s, ev), key)
  {
    var t := Step(cfg, s, ev);
    LastAttemptStep(cfg, s, ev, key);
    ServedChanges(cfg, s, ev, key);
    EtagServed(s.entries, key);
    EtagServed(t.entries, key);
    hide AfterReply, Accepted, DocumentOf, Gated, Usable, EtagOf, Spares;
  }

  lemma EtagServed(s: Entries, key: string)
    ensures EtagOf(s, key) == match Served(s, key) case None => "" case Some(v) => v.etag
  {
  }

  lemma InvStep(cfg: Config, s: State, ev: Event, key: string)
    requires Inv(cfg, s, key) && Spares(ev, key)
    ensures Inv(cfg, Step(cfg, s, ev), key)
  {
    hide Step, Flights, DocumentOK, StartsOK, FetchesOK, Spares;
    FlightsStep(cfg, s, ev);
    DocumentStep(cfg, s, ev, key);
    StartsStep(cfg, s, ev, key);
    FetchesStep(cfg, s, ev, key);
  }

  lemma {:induction false} InvRun(cfg: Config, entries: Entries, events: seq<Event>, key: string)
    requires DocumentOK(cfg, entries, key) && Untouched(events, key)
    ensures Inv(cfg, Exec(cfg, Initial(entries), events), key)
  {
    hide Step, Inv, DocumentOK, Spares;
    if events == [] {
      InvInitial(cfg, entries, key);
    } else {
      InvRun(cfg, entries, events[..|events| - 1], key);
      InvStep(cfg, Exec(cfg, Initial(entries), events[..|events| - 1]), events[|events| - 1], key);
    }
  }

  lemma InvInitial(cfg: Config, entries: Entries, key: string)
    requires DocumentOK(cfg, entries, key)
    ensures Inv(cfg, Initial(entries), key)
  {
    hide DocumentOK;
    FlightsInitial(entries);
  }

  /// What the client starts from

  ghost predicate DocumentsOK(cfg: Config, s: Entries) {
    forall k :: Get(s, k).Some? ==> Trusted(cfg, k, s[k].document.value)
  }

  lemma PutTrusted(cfg: Config, s: Entries, file: Option<File>, e: Entry)
    requires DocumentsOK(cfg, s) && ReadFile(cfg, file).Some? && e.document == ReadFile(cfg, file).value.document
    ensures DocumentsOK(cfg, PutDocument(s, e))
  {
    hide Accepted, DocumentOf, Guarded;
  }

  lemma {:induction false} KeyFilesTrusted(cfg: Config, s: Entries, files: seq<File>, now: Time)
    requires DocumentsOK(cfg, s)
    ensures DocumentsOK(cfg, WithKeyFiles(cfg, s, files, now))
  {
    hide DocumentsOK, PutDocument, ReadFile;
    if files != [] {
      var file := Some(files[|files| - 1]);
      KeyFilesTrusted(cfg, s, files[..|files| - 1], now);
      if ReadFile(cfg, file).Some? {
        PutTrusted(cfg, WithKeyFiles(cfg, s, files[..|files| - 1], now), file,
          FromDisk(ReadFile(cfg, file).value, now));
      }
    }
  }

  // Whatever the disk cache and the bundle hold, only documents of this
  // environment and project are loaded.
  lemma LocalTrusted(cfg: Config, bundle: Option<File>, disk: Option<File>, keyFiles: seq<File>, now: Time)
    ensures DocumentsOK(cfg, Local(cfg, bundle, disk, keyFiles, now))
  {
    hide PutDocument, ReadFile, WithKeyFiles;
    var b, d := ReadFile(cfg, bundle), ReadFile(cfg, disk);
    if b.Some? { PutTrusted(cfg, map[], bundle, b.value.(source := Bundle, fetchedAt := now)); }
    var s := WithBundle(cfg, map[], bundle, now);
    assert DocumentsOK(cfg, s);
    hide DocumentsOK;
    if d.Some? { PutTrusted(cfg, s, disk, FromDisk(d.value, now)); }
    KeyFilesTrusted(cfg, WithDisk(cfg, s, disk, now), keyFiles, now);
  }

  ghost predicate Offers(cfg: Config, file: Option<File>, key: string) {
    ReadFile(cfg, file).Some? && key in ReadFile(cfg, file).value.document.value.prompts
  }

  ghost function LastOffering(cfg: Config, files: seq<File>, key: string): Option<File> {
    if files == [] then None
    else if Offers(cfg, Some(files[|files| - 1]), key) then Some(files[|files| - 1])
    else LastOffering(cfg, files[..|files| - 1], key)
  }

  lemma {:induction false} KeyFilesOrder(cfg: Config, s: Entries, files: seq<File>, now: Time, key: string)
    ensures var t, f := WithKeyFiles(cfg, s, files, now), LastOffering(cfg, files, key);
      if f.Some? then Offers(cfg, f, key) && key in t && t[key] == FromDisk(ReadFile(cfg, f).value, now)
      else (key in t <==> key in s) && (key in s ==> t[key] == s[key])
  {
    hide ReadFile;
    if files != [] {
      KeyFilesOrder(cfg, s, files[..|files| - 1], now, key);
    }
  }

  // A key is first served from the last of the key files that offers it, else
  // from the disk cache, else from the bundle.
  lemma LocalOrder(cfg: Config, bundle: Option<File>, disk: Option<File>, keyFiles: seq<File>, now: Time, key: string)
    ensures var t, f := Local(cfg, bundle, disk, keyFiles, now), LastOffering(cfg, keyFiles, key);
      if f.Some? then Offers(cfg, f, key) && key in t && t[key] == FromDisk(ReadFile(cfg, f).value, now)
      else if Offers(cfg, disk, key) then key in t && t[key] == FromDisk(ReadFile(cfg, disk).value, now)
      else if Offers(cfg, bundle, key) then
        key in t && t[key] == ReadFile(cfg, bundle).value.(source := Bundle, fetchedAt := now)
      else key !in t
  {
    hide ReadFile, WithKeyFiles, LastOffering;
    KeyFilesOrder(cfg, WithDisk(cfg, WithBundle(cfg, map[], bundle, now), disk, now), keyFiles, now, key);
  }

  /// Over whole runs

  // The state after some events, started from what is on disk.
  function After(cfg: Config, bundle: Option<File>, disk: Option<File>, keyFiles: seq<File>, start: Time,
      events: seq<Event>): State {
    Exec(cfg, Initial(Local(cfg, bundle, disk, keyFiles, start)), events)
  }

  // What a key's invariant says after such a run.
  lemma AfterInv(cfg: Config, bundle: Option<File>, disk: Option<File>, keyFiles: seq<File>, start: Time,
      events: seq<Event>, key: string)
    requires Untouched(events, key)
    ensures Inv(cfg, After(cfg, bundle, disk, keyFiles, start, events), key)
  {
    LocalTrusted(cfg, bundle, disk, keyFiles, start);
    hide Local, Exec, Inv, Untouched;
    InvRun(cfg, Local(cfg, bundle, disk, keyFiles, start), events, key);
  }

  // Fetches of one key start at least ttl apart, though every caller reads the
  // clock before it takes the lock and clocks may go back.
  lemma AttemptsSpaced(cfg: Config, bundle: Option<File>, disk: Option<File>, keyFiles: seq<File>, start: Time,
      events: seq<Event>, key: string)
    requires Untouched(events, key)
    ensures Spaced(cfg.ttl, StartsOf(After(cfg, bundle, disk, keyFiles, start, events), key))
  {
    AfterInv(cfg, bundle, disk, keyFiles, start, events, key);
    NothingSpaced(cfg.ttl);
    hide After, DocumentOK, Spaced, Flights, FetchesOK, Untouched;
  }

  lemma NothingSpaced(ttl: int)
    ensures Spaced(ttl, [])
  {
  }

  // So on a clock that never reads zero, n starts span at least n - 1 times ttl.
  lemma {:induction false} SpacedSpan(ttl: int, starts: seq<Time>, i: nat, j: nat)
    requires Spaced(ttl, starts) && i <= j < |starts| && forall k :: 0 <= k < |starts| ==> starts[k] != ZERO
    ensures starts[j] - starts[i] >= (j - i) * ttl
  {
    if i < j {
      SpacedSpan(ttl, starts, i, j - 1);
    }
  }

  // What a key serves is a document for this environment and project that has
  // the key in it.
  lemma ServedTrusted(cfg: Config, bundle: Option<File>, disk: Option<File>, keyFiles: seq<File>, start: Time,
      events: seq<Event>, key: string)
    requires Untouched(events, key)
    ensures var s := After(cfg, bundle, disk, keyFiles, start, events).entries;
      Get(s, key).Some? ==> Trusted(cfg, key, s[key].document.value)
  {
    AfterInv(cfg, bundle, disk, keyFiles, start, events, key);
    hide After, Trusted, StartsOK, Flights, FetchesOK, Untouched;
  }

  // A 304 is about the document it promotes: the ETag the fetch sent is still
  // that document's when the answer comes.
  lemma ConfirmedIsServed(cfg: Config, bundle: Option<File>, disk: Option<File>, keyFiles: seq<File>, start: Time,
      events: seq<Event>, id: nat)
    requires var s := After(cfg, bundle, disk, keyFiles, start, events);
      id in s.fetches && Untouched(events, s.fetches[id].key)
    ensures var s := After(cfg, bundle, disk, keyFiles, start, events);
      s.fetches[id].phase.Asked? ==> s.fetches[id].phase.etag == EtagOf(s.entries, s.fetches[id].key)
  {
    AfterInv(cfg, bundle, disk, keyFiles, start, events,
      After(cfg, bundle, disk, keyFiles, start, events).fetches[id].key);
    hide After, DocumentOK, StartsOK, Flights, EtagOf, Untouched;
  }

  // Resolving a document that was accepted under its one template: a key that
  // is deployed gives its pinned version and model, with no warning.
  lemma LoadedResolves(key: string, doc: Document)
    requires Loaded(key, doc)
    ensures var r := Resolver.Resolve(doc, key, "", "");
      if key !in doc.deployments then r == Resolver.Failed(Resolver.Unresolved)
      else r.Resolved? && Resolver.Clean(r.value, doc.deployments[key])
  {
    hide Accepted, DocumentOf, Resolver.Clean, Resolver.Served, Resolver.Pinned;
    if key in doc.deployments {
      var raw: Raw :| Accepted(raw) && doc == DocumentOf(raw);
      if doc.prompts[key].kind == EMBEDDING {
        Resolver.EmbeddingResolves(raw, key, "");
      } else {
        Resolver.DefaultResolves(raw, key, "");
      }
    }
  }

  ghost predicate LoadedOK(s: Entries, key: string) {
    Get(s, key).Some? ==> Loaded(key, s[key].document.value)
  }

  lemma LoadedStep(cfg: Config, s: State, ev: Event, key: string)
    requires LoadedOK(s.entries, key)
    ensures LoadedOK(Step(cfg, s, ev).entries, key)
  {
    if Spares(ev, key) {
      hide Accepted, DocumentOf, Guarded, Gated, Step, Loaded, Spares;
      ServedChanges(cfg, s, ev, key);
      if Lands(s, ev, key) && ev.reply.Body? && Usable(cfg, key, ev.reply.raw) {
        UsableTrusted(cfg, key, ev.reply.raw);
      }
    } else {
      hide Accepted, DocumentOf;
    }
  }

  // Whatever is installed by hand, a key only ever serves an accepted document
  // that has it.
  lemma {:induction false} LoadedRun(cfg: Config, entries: Entries, events: seq<Event>, key: string)
    requires LoadedOK(entries, key)
    ensures LoadedOK(Exec(cfg, Initial(entries), events).entries, key)
  {
    hide Step, LoadedOK;
    if events != [] {
      LoadedRun(cfg, entries, events[..|events| - 1], key);
      LoadedStep(cfg, Exec(cfg, Initial(entries), events[..|events| - 1]), events[|events| - 1], key);
    }
  }

  // So whatever a key serves in the course of any run resolves cleanly.
  lemma ServedResolves(cfg: Config, bundle: Option<File>, disk: Option<File>, keyFiles: seq<File>, start: Time,
      events: seq<Event>, key: string)
    ensures var s := After(cfg, bundle, disk, keyFiles, start, events).entries;
      Get(s, key).Some? ==>
        var doc := s[key].document.value;
        var r := Resolver.Resolve(doc, key, "", "");
        if key !in doc.deployments then r == Resolver.Failed(Resolver.Unresolved)
        else r.Resolved? && Resolver.Clean(r.value, doc.deployments[key])
  {
    LocalTrusted(cfg, bundle, disk, keyFiles, start);
    hide Local, Exec, Loaded, Resolver.Resolve, Resolver.Clean;
    LoadedRun(cfg, Local(cfg, bundle, disk, keyFiles, start), events, key);
    var s := After(cfg, bundle, disk, keyFiles, start, events).entries;
    if Get(s, key).Some? {
      LoadedResolves(key, s[key].document.value);
    }
  }

  /// From one install to the next

  // The starts of a key after the first k, in a stretch with no install of it.
  ghost predicate StretchOK(cfg: Config, s: State, key: string, k: nat) {
    var starts := StartsOf(s, key);
    && Flights(s) && k <= |starts|
    && (k < |starts| ==>
          && Spaced(cfg.ttl, starts[k..]) && LastAttempt(s.entries, key) == starts[|starts| - 1]
          && FetchesOK(s, key))
  }

  lemma StretchStep(cfg: Config, s: State, ev: Event, key: string, k: nat)
    requires StretchOK(cfg, s, key, k) && Spares(ev, key)
    ensures StretchOK(cfg, Step(cfg, s, ev), key, k)
  {
    hide Step, Flights, FetchesOK, Spares, StartsOf;
    var starts, t := StartsOf(s, key), Step(cfg, s, ev);
    FlightsStep(cfg, s, ev);
    StartsGrow(cfg, s, ev, key);
    if Starts(cfg, s, ev, key) {
      FreshStart(cfg, s, ev, key);
      assert StartsOf(t, key)[k..] == starts[k..] + [ev.now];
    } else {
      assert StartsOf(t, key) == starts;
    }
    if k < |starts| {
      FetchesStep(cfg, s, ev, key);
      LastAttemptStep(cfg, s, ev, key);
    }
  }

  // The step starts a fetch of the key.
  predicate Starts(cfg: Config, s: State, ev: Event, key: string) {
    ev.Call? && ev.key == key && key !in s.inflight && !Gated(cfg, s.entries, key, ev.now)
  }

  lemma StartsGrow(cfg: Config, s: State, ev: Event, key: string)
    ensures StartsOf(Step(cfg, s, ev), key) == StartsOf(s, key) + if Starts(cfg, s, ev, key) then [ev.now] else []
  {
    hide AfterReply, Accepted, DocumentOf, Gated, NoteAttempt, EtagOf;
  }

  // A fetch that starts is the only one of its key, and the last attempt.
  lemma FreshStart(cfg: Config, s: State, ev: Event, key: string)
    requires Flights(s) && Starts(cfg, s, ev, key)
    ensures FetchesOK(Step(cfg, s, ev), key) && LastAttempt(Step(cfg, s, ev).entries, key) == ev.now
  {
    hide Gated, EtagOf;
  }

  lemma {:induction false} StretchRun(cfg: Config, entries: Entries, pre: seq<Event>, post: seq<Event>, key: string)
    requires Untouched(post, key)
    ensures StretchOK(cfg, Exec(cfg, Initial(entries), pre + post), key,
                      |StartsOf(Exec(cfg, Initial(entries), pre), key)|)
  {
    hide Step, StretchOK, Spares;
    if post == [] {
      assert pre + post == pre;
      FlightsRun(cfg, entries, pre);
      StretchStart(cfg, Exec(cfg, Initial(entries), pre), key);
    } else {
      var front := post[..|post| - 1];
      var all := pre + post;
      assert all[..|all| - 1] == pre + front && all[|all| - 1] == post[|post| - 1];
      StretchRun(cfg, entries, pre, front, key);
      StretchStep(cfg, Exec(cfg, Initial(entries), pre + front), post[|post| - 1], key,
        |StartsOf(Exec(cfg, Initial(entries), pre), key)|);
    }
  }

  lemma StretchStart(cfg: Config, s: State, key: string)
    requires Flights(s)
    ensures StretchOK(cfg, s, key, |StartsOf(s, key)|)
  {
  }

  // In any stretch of any run that installs no document of the key, the starts
  // of the stretch are at least ttl apart, whatever was installed before.
  lemma StretchSpaced(cfg: Config, bundle: Option<File>, disk: Option<File>, keyFiles: seq<File>, start: Time,
      pre: seq<Event>, post: seq<Event>, key: string)
    requires Untouched(post, key)
    ensures var before := StartsOf(After(cfg, bundle, disk, keyFiles, start, pre), key);
      var starts := StartsOf(After(cfg, bundle, disk, keyFiles, start, pre + post), key);
      |before| <= |starts| && Spaced(cfg.ttl, starts[|before|..])
  {
    hide Exec, Local, Spaced, Flights, FetchesOK, Untouched;
    StretchRun(cfg, Local(cfg, bundle, disk, keyFiles, start), pre, post, key);
    var before := StartsOf(After(cfg, bundle, disk, keyFiles, start, pre), key);
    var starts := StartsOf(After(cfg, bundle, disk, keyFiles, start, pre + post), key);
    if |starts| == |before| {
      assert starts[|before|..] == [];
      NothingSpaced(cfg.ttl);
    }
  }

  // A usable document that arrives in time restores the guard until the next
  // install, whatever was installed before.
  lemma GuardRestored(cfg: Config, bundle: Option<File>, disk: Option<File>, keyFiles: seq<File>, start: Time,
      pre: seq<Event>, ev: Event, post: seq<Event>, key: string)
    requires Lands(After(cfg, bundle, disk, keyFiles, start, pre), ev, key)
    requires ev.reply.Body? && Usable(cfg, key, ev.reply.raw) && Untouched(post, key)
    ensures var s := After(cfg, bundle, disk, keyFiles, start, pre + [ev] + post).entries;
      Get(s, key).Some? && Trusted(cfg, key, s[key].document.value)
  {
    var init := Initial(Local(cfg, bundle, disk, keyFiles, start));
    var s := Exec(cfg, init, pre);
    assert (pre + [ev])[..|pre|] == pre && (pre + [ev])[|pre|] == ev;
    hide Local, Exec, Untouched, Usable, Trusted;
    ServedChanges(cfg, s, ev, key);
    UsableTrusted(cfg, key, ev.reply.raw);
    assert Exec(cfg, init, pre + [ev]) == Step(cfg, s, ev) by { ExecLast(cfg, init, pre, ev); }
    hide Step;
    TrustedOn(cfg, init, pre + [ev], post, key);
  }

  lemma ExecLast(cfg: Config, s: State, events: seq<Event>, ev: Event)
    ensures Exec(cfg, s, events + [ev]) == Step(cfg, Exec(cfg, s, events), ev)
  {
    hide Step;
    assert (events + [ev])[..|events|] == events;
  }

  lemma {:induction false} TrustedOn(cfg: Config, s: State, pre: seq<Event>, post: seq<Event>, key: string)
    requires var t := Exec(cfg, s, pre).entries; Get(t, key).Some? && DocumentOK(cfg, t, key)
    requires Untouched(post, key)
    ensures var t := Exec(cfg, s, pre + post).entries; Get(t, key).Some? && DocumentOK(cfg, t, key)
  {
    hide Step, Get, DocumentOK, Spares;
    if post == [] {
      assert pre + post == pre;
    } else {
      var front := post[..|post| - 1];
      var all := pre + post;
      assert all[..|all| - 1] == pre + front && all[|all| - 1] == post[|post| - 1];
      TrustedOn(cfg, s, pre, front, key);
      DocumentStep(cfg, Exec(cfg, s, pre + front), post[|post| - 1], key);
      KeptStep(cfg, Exec(cfg, s, pre + front), post[|post| - 1], key);
    }
  }

  /// A document installed by hand

  // Installing a document forgets when its keys were last fetched: the next
  // call starts a fetch, however short a time ago the last one started.
  lemma InstallForgets(cfg: Config, s: State, raw: Raw, at: Time, key: string, now: Time)
    requires Accepted(raw) && key in DocumentOf(raw).prompts && key !in s.inflight
    ensures var t := Step(cfg, Step(cfg, s, Install(raw, at)), Call(key, now));
      && StartsOf(t, key) == StartsOf(s, key) + [now]
      && (StartsOf(s, key) != [] && Gated(cfg, s.entries, key, now) && StartsOK(cfg, s, key) ==>
          !Spaced(cfg.ttl, StartsOf(t, key)))
  {
    hide Accepted, DocumentOf;
    var before, t := StartsOf(s, key), Step(cfg, Step(cfg, s, Install(raw, at)), Call(key, now));
    assert LastAttempt(Step(cfg, s, Install(raw, at)).entries, key) == ZERO;
    assert StartsOf(t, key) == before + [now];
    if before != [] && Gated(cfg, s.entries, key, now) && StartsOK(cfg, s, key) {
      assert (before + [now])[|before| - 1] == before[|before| - 1] && (before + [now])[|before|] == now;
    }
  }

  // And a 304 for what was served before the install, which may be of any
  // environment, makes the installed document pass for the server's.
  lemma InstallConfirmed(cfg: Config, s: State, raw: Raw, at: Time, id: nat, now: Time)
    requires Accepted(raw) && id in s.fetches && s.fetches[id].phase.Asked?
      && s.fetches[id].key in DocumentOf(raw).prompts
    ensures var t := Step(cfg, Step(cfg, s, Install(raw, at)), Answer(id, NotModified, now, false));
      Served(t.entries, s.fetches[id].key) == Some(Service(Some(DocumentOf(raw)), "", Remote, now))
  {
    hide Accepted, DocumentOf;
  }
}
