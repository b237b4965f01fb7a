/**
 The demand-fetch cache as a state machine (client.go, store.go): the store's
 entries, the fetches in flight, and the steps callers and fetches take.
 */
module FetchProtocol {
  import opened Options
  import opened Documents

  // An instant; ZERO is Go's zero time, which stands for "never".
  type Time = int

  const ZERO: Time := 0

  datatype Source = NoSource | Remote | Disk | Bundle | Manual

  datatype Entry = Entry(
    document: Option<Document>, etag: string, lastModified: string, source: Source,
    fetchedAt: Time, staleSince: Time, lastAttempt: Time)

  type Entries = map<string, Entry>

  datatype Config = Config(environment: string, project: string, ttl: int)

  predicate Guarded(cfg: Config, doc: Document) {
    && (cfg.environment != "" ==> doc.environment == cfg.environment)
    && (cfg.project != "" ==> doc.project == cfg.project)
  }

  /// The store

  function Get(s: Entries, key: string): Option<Entry> {
    if key in s && s[key].document.Some? then Some(s[key]) else None
  }

  function PutDocument(s: Entries, e: Entry): Entries
    requires e.document.Some?
  {
    s + map k | k in e.document.value.prompts :: e
  }

  function MarkStale(s: Entries, key: string, at: Time): Entries {
    if Get(s, key).Some? && s[key].staleSince == ZERO then s[key := s[key].(staleSince := at)] else s
  }

  function MarkFresh(s: Entries, key: string, source: Source, at: Time): Entries {
    if Get(s, key).Some? then s[key := s[key].(source := source, staleSince := ZERO, fetchedAt := at)] else s
  }

  const NOTHING := Entry(None, "", "", NoSource, ZERO, ZERO, ZERO)

  function NoteAttempt(s: Entries, key: string, at: Time): Entries {
    s[key := (if key in s then s[key] else NOTHING).(lastAttempt := at)]
  }

  function LastAttempt(s: Entries, key: string): Time {
    if key in s then s[key].lastAttempt else ZERO
  }

  function EtagOf(s: Entries, key: string): string {
    if Get(s, key).Some? then s[key].etag else ""
  }

  /// Fetches

  // What the server said: an error, 304, 200 with a decoded body, or another status.
  datatype Reply = Failure | NotModified | Body(raw: Raw, etag: string, lastModified: string) | OtherStatus

  datatype Phase = Started | Asked(etag: string) | Answered

  datatype Fetch = Fetch(key: string, started: Time, phase: Phase)

  // Every fetch that is running, by number; the number in flight for each key;
  // and, for the record, when each key's fetches were started.
  datatype State = State(entries: Entries, inflight: map<string, nat>, fetches: map<nat, Fetch>, next: nat,
    starts: map<string, seq<Time>>)

  // Call is the locked part of asking for a fresh prompt: `now` was read before
  // the lock was taken.  A fetch then reads the ETag, is answered, and ends;
  // `late` says that its deadline had passed.  Install is a manual document.
  datatype Event =
    | Call(key: string, now: Time)
    | Ask(id: nat)
    | Answer(id: nat, reply: Reply, now: Time, late: bool)
    | Finish(id: nat)
    | Install(raw: Raw, now: Time)

  // The document of a 200 reply that may be served for the key.
  predicate Usable(cfg: Config, key: string, raw: Raw) {
    Accepted(raw) && Guarded(cfg, DocumentOf(raw)) && key in DocumentOf(raw).prompts
  }

  function AfterReply(cfg: Config, s: Entries, f: Fetch, reply: Reply, now: Time, late: bool): Entries {
    match reply
    case NotModified =>
      if late then MarkStale(s, f.key, now) else MarkFresh(s, f.key, Remote, now)
    case Body(raw, etag, lastModified) =>
      if !Usable(cfg, f.key, raw) || late then MarkStale(s, f.key, now)
      else s[f.key := Entry(Some(DocumentOf(raw)), etag, lastModified, Remote, now, ZERO, f.started)]
    case _ => MarkStale(s, f.key, now)
  }

  function Gated(cfg: Config, s: Entries, key: string, now: Time): bool {
    LastAttempt(s, key) != ZERO && now - LastAttempt(s, key) < cfg.ttl
  }

  function StartsOf(s: State, key: string): seq<Time> {
    if key in s.starts then s.starts[key] else []
  }

  // One step; a step of a fetch that is not at that point changes nothing.
  function Step(cfg: Config, s: State, ev: Event): State {
    match ev
    case Call(key, now) =>
      if key in s.inflight || Gated(cfg, s.entries, key, now) then s
      else
        State(
          NoteAttempt(s.entries, key, now), s.inflight[key := s.next], s.fetches[s.next := Fetch(key, now, Started)],
              s.next + 1, s.starts[key := StartsOf(s, key) + [now]])
    case Ask(id) =>
      if id in s.fetches && s.fetches[id].phase.Started? then
        s.(fetches := s.fetches[id := s.fetches[id].(phase := Asked(EtagOf(s.entries, s.fetches[id].key)))])
      else s
    case Answer(id, reply, now, late) =>
      if id in s.fetches && s.fetches[id].phase.Asked? then
        s.(entries := AfterReply(cfg, s.entries, s.fetches[id], reply, now, late),
           fetches := s.fetches[id := s.fetches[id].(phase := Answered)])
      else s
    case Finish(id) =>
      if id in s.fetches && s.fetches[id].phase.Answered? then
        var key := s.fetches[id].key;
        s.(fetches := s.fetches - {id},
           inflight := if key in s.inflight && s.inflight[key] == id then s.inflight - {key} else s.inflight)
      else s
    case Install(raw, now) =>
      if !Accepted(raw) then s
      else
        var entry := Entry(Some(DocumentOf(raw)), "", "", Manual, now, ZERO, ZERO);
        s.(entries := PutDocument(s.entries, entry))
  }

  function Exec(cfg: Config, s: State, events: seq<Event>): State {
    if events == [] then s else Step(cfg, Exec(cfg, s, events[..|events| - 1]), events[|events| - 1])
  }

  /// What is on disk when the client starts

  datatype File = File(raw: Raw, etag: string, lastModified: string, fetchedAt: Time)

  // A readable file gives its document unless that is refused or belongs to
  // another environment or project.
  function ReadFile(cfg: Config, file: Option<File>): (r: Option<Entry>)
    ensures r.Some? ==> r.value.document.Some?
  {
    if file.None? || !Accepted(file.value.raw) || !Guarded(cfg, DocumentOf(file.value.raw)) then None
    else
      var f := file.value;
      Some(Entry(Some(DocumentOf(f.raw)), f.etag, f.lastModified, NoSource, f.fetchedAt, ZERO, ZERO))
  }

  function FromDisk(e: Entry, now: Time): Entry {
    e.(source := Disk, fetchedAt := if e.fetchedAt == ZERO then now else e.fetchedAt)
  }

  function WithBundle(cfg: Config, s: Entries, file: Option<File>, now: Time): Entries {
    match ReadFile(cfg, file)
    case None => s
    case Some(e) => PutDocument(s, e.(source := Bundle, fetchedAt := now))
  }

  function WithDisk(cfg: Config, s: Entries, file: Option<File>, now: Time): Entries {
    match ReadFile(cfg, file)
    case None => s
    case Some(e) => PutDocument(s, FromDisk(e, now))
  }

  function WithKeyFiles(cfg: Config, s: Entries, files: seq<File>, now: Time): Entries {
    if files == [] then s
    else WithDisk(cfg, WithKeyFiles(cfg, s, files[..|files| - 1], now), Some(files[|files| - 1]), now)
  }

  function Local(cfg: Config, bundle: Option<File>, disk: Option<File>, keyFiles: seq<File>, now: Time): Entries {
    WithKeyFiles(cfg, WithDisk(cfg, WithBundle(cfg, map[], bundle, now), disk, now), keyFiles, now)
  }

  function Initial(entries: Entries): State {
    State(entries, map[], map[], 0, map[])
  }

  /// Single flight, in every run

  ghost predicate Flights(s: State) {
    && (forall id :: id in s.fetches ==>
          id < s.next && s.fetches[id].key in s.inflight && s.inflight[s.fetches[id].key] == id)
    && (forall k :: k in s.inflight ==> s.inflight[k] in s.fetches && s.fetches[s.inflight[k]].key == k)
  }

  lemma FlightsStep(cfg: Config, s: State, ev: Event)
    requires Flights(s)
    ensures Flights(Step(cfg, s, ev))
  {
    hide AfterReply, PutDocument, Gated, NoteAttempt, EtagOf, Accepted, DocumentOf;
  }

  lemma {:induction false} FlightsRun(cfg: Config, entries: Entries, events: seq<Event>)
    ensures Flights(Exec(cfg, Initial(entries), events))
  {
    hide Flights, Step;
    if events == [] {
      FlightsInitial(entries);
    } else {
      FlightsRun(cfg, entries, events[..|events| - 1]);
      FlightsStep(cfg, Exec(cfg, Initial(entries), events[..|events| - 1]), events[|events| - 1]);
    }
  }

  lemma FlightsInitial(entries: Entries)
    ensures Flights(Initial(entries))
  {
  }

  // At most one fetch is running for a key, whatever the clock reads and
  // whatever documents are installed by hand.
  lemma SingleFlight(cfg: Config, entries: Entries, events: seq<Event>, i: nat, j: nat)
    ensures var s := Exec(cfg, Initial(entries), events);
      i in s.fetches && j in s.fetches && s.fetches[i].key == s.fetches[j].key ==> i == j
  {
    hide Step, Exec;
    FlightsRun(cfg, entries, events);
  }

  /// Nothing is lost, in every run

  lemma KeptStep(cfg: Config, s: State, ev: Event, key: string)
    requires Get(s.entries, key).Some?
    ensures Get(Step(cfg, s, ev).entries, key).Some?
  {
    hide Accepted, DocumentOf, Guarded, Gated;
  }

  // Once a key has a document it has one for good.
  lemma {:induction false} NeverLost(cfg: Config, s: State, events: seq<Event>, key: string)
    requires Get(s.entries, key).Some?
    ensures Get(Exec(cfg, s, events).entries, key).Some?
  {
    hide Step, Get;
    if events != [] {
      NeverLost(cfg, s, events[..|events| - 1], key);
      KeptStep(cfg, Exec(cfg, s, events[..|events| - 1]), events[|events| - 1], key);
    }
  }

  /// Only its own fetch touches a key

  function KeyOf(s: State, ev: Event): Option<string> {
    match ev
    case Call(key, _) => Some(key)
    case Ask(id) => if id in s.fetches then Some(s.fetches[id].key) else None
    case Answer(id, _, _, _) => if id in s.fetches then Some(s.fetches[id].key) else None
    case Finish(id) => if id in s.fetches then Some(s.fetches[id].key) else None
    case Install(_, _) => None
  }

  // The step installs no document that has the key in it.
  predicate Spares(ev: Event, key: string) {
    ev.Install? && Accepted(ev.raw) ==> key !in DocumentOf(ev.raw).prompts
  }

  lemma OthersUntouched(cfg: Config, s: State, ev: Event, key: string)
    requires Spares(ev, key) && KeyOf(s, ev) != Some(key)
    ensures key in Step(cfg, s, ev).entries <==> key in s.entries
    ensures key in s.entries ==> Step(cfg, s, ev).entries[key] == s.entries[key]
    ensures StartsOf(Step(cfg, s, ev), key) == StartsOf(s, key)
  {
    hide Accepted, DocumentOf, Guarded, Gated;
  }

  // The part of an entry that is what resolution reads and reports.
  datatype Service = Service(document: Option<Document>, etag: string, source: Source, fetchedAt: Time)

  function Served(s: Entries, key: string): Option<Service> {
    match Get(s, key)
    case None => None
    case Some(e) => Some(Service(e.document, e.etag, e.source, e.fetchedAt))
  }

  // The step is the answer in time to the fetch of this key.
  predicate Lands(s: State, ev: Event, key: string) {
    ev.Answer? && !ev.late && ev.id in s.fetches && s.fetches[ev.id].phase.Asked? && s.fetches[ev.id].key == key
  }

  // What a key serves changes only when its own fetch is answered in time: by
  // a usable document, which is then served, or by the word that the document
  // is current, which keeps it.  A late answer changes nothing.
  lemma ServedChanges(cfg: Config, s: State, ev: Event, key: string)
    requires Spares(ev, key)
    ensures Served(Step(cfg, s, ev).entries, key) ==
      if Lands(s, ev, key) && ev.reply.Body? && Usable(cfg, key, ev.reply.raw) then
        Some(Service(Some(DocumentOf(ev.reply.raw)), ev.reply.etag, Remote, ev.now))
      else if Lands(s, ev, key) && ev.reply.NotModified? && Get(s.entries, key).Some? then
        Some(Served(s.entries, key).value.(source := Remote, fetchedAt := ev.now))
      else Served(s.entries, key)
  {
    hide Accepted, DocumentOf, Guarded, Gated;
  }

  // A key's document is stale since the first of its fetches that failed after
  // the last one that succeeded; lateness is a failure.
  lemma StalenessChanges(cfg: Config, s: State, ev: Event, key: string)
    requires Spares(ev, key) && Get(s.entries, key).Some?
    ensures var answered :=
        ev.Answer? && ev.id in s.fetches && s.fetches[ev.id].phase.Asked? && s.fetches[ev.id].key == key;
      var good := Lands(s, ev, key) && (ev.reply.NotModified? || (ev.reply.Body? && Usable(cfg, key, ev.reply.raw)));
      var since := s.entries[key].staleSince;
      key in Step(cfg, s, ev).entries
      && Step(cfg, s, ev).entries[key].staleSince ==
        if good then ZERO else if answered && since == ZERO then ev.now else since
  {
    hide Accepted, DocumentOf, Guarded, Gated;
  }
}
