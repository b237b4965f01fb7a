/** What each step of the cache comes to, field by field (client.go, store.go). */
module FetchMeaning {
  import opened Options
  import opened Documents
  import opened FetchProtocol
  import FetchTheorems

  // A document this client may use: of its environment and project, where the
  // client names one.
  predicate OfThisClient(cfg: Config, doc: Document) {
    && (cfg.environment == "" || doc.environment == cfg.environment)
    && (cfg.project == "" || doc.project == cfg.project)
  }

  // The key has a document.
  predicate HasDocument(s: State, key: string) {
    key in s.entries && s.entries[key].document.Some?
  }

  // The key's document, if it has one, is stale from now on at the latest.
  ghost predicate Staled(s: State, t: State, key: string, now: Time) {
    t.entries == if HasDocument(s, key) && s.entries[key].staleSince == 0
      then s.entries[key := s.entries[key].(staleSince := now)] else s.entries
  }

  // Asking for a key starts a fetch exactly when none is running for it and the
  // last attempt, if there was one, is ttl ago.
  lemma CallMeans(cfg: Config, s: State, key: string, now: Time)
    ensures var t := Step(cfg, s, Call(key, now));
      var last := if key in s.entries then s.entries[key].lastAttempt else 0;
      if key in s.inflight || (last != 0 && now - last < cfg.ttl) then t == s
      else
        && t.inflight == s.inflight[key := s.next] && t.next == s.next + 1
        && t.fetches == s.fetches[s.next := Fetch(key, now, Started)]
        && t.starts == s.starts[key := (if key in s.starts then s.starts[key] else []) + [now]]
        && t.entries == s.entries[key := if key in s.entries then s.entries[key].(lastAttempt := now)
             else Entry(None, "", "", NoSource, 0, 0, now)]
  {
  }

  // A fetch sends the ETag of the document served, if there is one.
  lemma AskMeans(cfg: Config, s: State, id: nat)
    requires id in s.fetches && s.fetches[id].phase.Started?
    ensures var key := s.fetches[id].key;
      Step(cfg, s, Ask(id)) == s.(fetches := s.fetches[id := s.fetches[id].(
        phase := Asked(if HasDocument(s, key) then s.entries[key].etag else ""))])
  {
  }

  // A 200 with an accepted document of this client that has the key replaces
  // the entry, in time; a 304 in time confirms it; anything else makes it stale.
  lemma AnswerMeans(cfg: Config, s: State, id: nat, reply: Reply, now: Time, late: bool)
    requires id in s.fetches && s.fetches[id].phase.Asked?
    ensures var t := Step(cfg, s, Answer(id, reply, now, late));
      var Fetch(key, started, _) := s.fetches[id];
      && t == s.(entries := t.entries, fetches := s.fetches[id := Fetch(key, started, Answered)])
      && match reply
         case Body(raw, etag, lastModified) =>
           if !late && Accepted(raw) && OfThisClient(cfg, DocumentOf(raw)) && key in DocumentOf(raw).prompts then
             t.entries == s.entries[key := Entry(Some(DocumentOf(raw)), etag, lastModified, Remote, now, 0, started)]
           else Staled(s, t, key, now)
         case NotModified =>
           if late then Staled(s, t, key, now)
           else t.entries == if HasDocument(s, key)
             then s.entries[key := s.entries[key].(source := Remote, staleSince := 0, fetchedAt := now)] else s.entries
         case Failure => Staled(s, t, key, now)
         case OtherStatus => Staled(s, t, key, now)
  {
    hide Accepted, DocumentOf;
  }

  lemma FinishMeans(cfg: Config, s: State, id: nat)
    requires Flights(s) && id in s.fetches && s.fetches[id].phase.Answered?
    ensures Step(cfg, s, Finish(id)) == s.(fetches := s.fetches - {id}, inflight := s.inflight - {s.fetches[id].key})
  {
  }

  // A document installed by hand is served for each of its keys, from no
  // server, as if never asked for; a refused one changes nothing.
  lemma InstallMeans(cfg: Config, s: State, raw: Raw, now: Time)
    ensures var t := Step(cfg, s, Install(raw, now));
      && t == s.(entries := t.entries)
      && if !Accepted(raw) then t == s
         else forall k ::
           if k in DocumentOf(raw).prompts then
             k in t.entries && t.entries[k] == Entry(Some(DocumentOf(raw)), "", "", Manual, now, 0, 0)
           else (k in t.entries <==> k in s.entries) && (k in s.entries ==> t.entries[k] == s.entries[k])
  {
    hide Accepted, DocumentOf;
  }

  // A file on disk counts when its document is accepted and of this client.
  lemma FileMeans(cfg: Config, file: Option<File>)
    ensures ReadFile(cfg, file) ==
      if file.Some? && Accepted(file.value.raw) && OfThisClient(cfg, DocumentOf(file.value.raw)) then
        Some(Entry(Some(DocumentOf(file.value.raw)), file.value.etag, file.value.lastModified, NoSource,
                   file.value.fetchedAt, 0, 0))
      else None
  {
    hide Accepted, DocumentOf;
  }

  // What is first served: the newest key file that has the key, else the disk
  // cache, else the bundle; a time that the disk does not give is the start.
  lemma StartMeans(cfg: Config, bundle: Option<File>, disk: Option<File>, keyFiles: seq<File>, now: Time, key: string)
    ensures var s := Local(cfg, bundle, disk, keyFiles, now);
      var file := FetchTheorems.LastOffering(cfg, keyFiles, key);
      if FetchTheorems.Offers(cfg, file, key) || FetchTheorems.Offers(cfg, disk, key) then
        var e := ReadFile(cfg, if FetchTheorems.Offers(cfg, file, key) then file else disk).value;
        key in s && s[key] == e.(source := Disk, fetchedAt := if e.fetchedAt == 0 then now else e.fetchedAt)
      else if FetchTheorems.Offers(cfg, bundle, key) then
        key in s && s[key] == ReadFile(cfg, bundle).value.(source := Bundle, fetchedAt := now)
      else key !in s
  {
    hide Local, ReadFile;
    FetchTheorems.LocalOrder(cfg, bundle, disk, keyFiles, now, key);
    NoneOffers(cfg, key);
  }

  lemma NoneOffers(cfg: Config, key: string)
    ensures !FetchTheorems.Offers(cfg, None, key)
  {
  }

  // In a run that installs no document of the key by hand, what it serves is of
  // this client's environment and project.
  lemma ServedIsOfThisClient(cfg: Config, bundle: Option<File>, disk: Option<File>, keyFiles: seq<File>, start: Time,
      events: seq<Event>, key: string)
    requires FetchTheorems.Untouched(events, key)
    ensures var s := FetchTheorems.After(cfg, bundle, disk, keyFiles, start, events);
      HasDocument(s, key) ==>
        OfThisClient(cfg, s.entries[key].document.value) && key in s.entries[key].document.value.prompts
  {
    hide FetchTheorems.After, FetchTheorems.Untouched, Accepted, DocumentOf;
    FetchTheorems.ServedTrusted(cfg, bundle, disk, keyFiles, start, events, key);
  }
}
