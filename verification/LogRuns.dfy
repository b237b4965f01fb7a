/**
 Whole runs of the monitoring-log buffer (buffer.go): enqueues, takes and
 replies in any order, at most one batch in flight, because one goroutine sends.
 */
module LogRuns {
  import opened Options
  import opened LogQueue
  import CanonicalJson

  datatype Event =
    | Enqueue(env: string, body: CanonicalJson.Json)
    | Take(env: string, force: bool, now: nat)
    | Reply(outcome: Outcome, now: nat)
    | Close

  datatype Flight = Flight(env: string, batch: Batch)

  // What an observer of a run remembers of each record: how often it was
  // posted, where it was enqueued, and whether a POST of it came back well.
  datatype History = History(posts: map<nat, nat>, owner: map<nat, string>, accepted: set<nat>)

  // `unaccounted` counts the records of successful POSTs that the replies named
  // neither accepted nor duplicate nor rejected.
  datatype Run = Run(st: State, flight: Option<Flight>, h: History, calls: nat, unaccounted: int)

  const START := Run(INITIAL, None, History(map[], map[], {}), 0, 0)

  function Seqs(records: seq<Record>): set<nat> {
    set rec | rec in records :: rec.seqNo
  }

  function PostsOf(h: History, q: nat): nat {
    if q in h.posts then h.posts[q] else 0
  }

  function Bumped(h: History, records: seq<Record>): History {
    h.(posts := map q | q in h.posts.Keys + Seqs(records) :: PostsOf(h, q) + if q in Seqs(records) then 1 else 0)
  }

  function FlyingIn(flight: Option<Flight>, env: string): seq<Record> {
    if flight.Some? && flight.value.env == env then flight.value.batch.records else []
  }

  function Flying(flight: Option<Flight>): nat {
    if flight.Some? then |flight.value.batch.records| else 0
  }

  function Dropped(s: Stats): nat {
    s.overflow + s.tooLarge + s.rejected + s.clientError + s.retriesExhausted + s.afterClose
  }

  // One step; a take while a batch is in flight and a reply to nothing do not
  // happen, and change nothing here.
  ghost function Apply(cfg: Config, r: Run, ev: Event): Run
    requires NoEmptyBatch(r.st.lanes) && (r.flight.Some? ==> r.flight.value.batch.records != [])
  {
    match ev
    case Enqueue(env, body) =>
      var kept := !r.st.closed && SizeOf(body) <= MAX_BATCH_BYTES;
      r.(st := Enqueued(cfg, r.st, env, body), calls := r.calls + 1,
         h := if kept then r.h.(owner := r.h.owner[r.st.seqNo + 1 := env]) else r.h)
    case Take(env, force, now) =>
      if r.flight.Some? then r
      else
        var (st, b) := Taken(cfg, r.st, env, force, now);
        if b.None? then r
        else r.(st := st, flight := Some(Flight(env, b.value)), h := Bumped(r.h, b.value.records))
    case Reply(outcome, now) =>
      if r.flight.None? then r
      else
        var Flight(env, batch) := r.flight.value;
        var r' := r.(st := Settled(cfg, r.st, env, batch, outcome, now), flight := None);
        if outcome.Posted? then
          r'.(h := r.h.(accepted := r.h.accepted + Seqs(batch.records)),
              unaccounted := r.unaccounted + |batch.records| - outcome.accepted - outcome.duplicates - outcome.rejected)
        else r'
    case Close => r.(st := r.st.(closed := true))
  }

  /// The invariant

  ghost predicate Increasing(s: seq<Record>) {
    forall i, j :: 0 <= i < j < |s| ==> s[i].seqNo < s[j].seqNo
  }

  ghost predicate RecordOK(h: History, seqNo: nat, env: string, rec: Record) {
    && rec.bytes == SizeOf(rec.body) <= MAX_BATCH_BYTES
    && 0 < rec.seqNo <= seqNo
    && rec.seqNo in h.owner && h.owner[rec.seqNo] == env
    && rec.seqNo !in h.accepted
  }

  // In-flight, ready and pending records of one environment, in that order.
  ghost predicate ChainOK(h: History, seqNo: nat, env: string, chain: seq<Record>) {
    Increasing(chain) && forall rec :: rec in chain ==> RecordOK(h, seqNo, env, rec)
  }

  // A batch's records went through the same POSTs: one per attempt counted, one
  // per split, and the one in flight if it is.
  ghost predicate BatchOK(cfg: Config, h: History, b: Batch, inFlight: nat) {
    && 0 < |b.records| <= MAX_BATCH_RECORDS
    && TotalBytes(b.records) <= MAX_BATCH_BYTES
    && b.attempts < cfg.maxAttempts
    && exists splits: nat :: splits <= 8 && SplitOK(h, b, inFlight, splits)
  }

  ghost predicate SplitOK(h: History, b: Batch, inFlight: nat, splits: nat)
    requires splits <= 8
  {
    && |b.records| <= Pow2(8 - splits)
    && forall rec :: rec in b.records ==> PostsOf(h, rec.seqNo) == b.attempts + splits + inFlight
  }

  function ReadyBytes(ready: seq<Batch>): nat {
    if ready == [] then 0 else TotalBytes(ready[0].records) + ReadyBytes(ready[1..])
  }

  ghost predicate ShapeOK(cfg: Config, h: History, l: Lane) {
    && l.readyBytes == ReadyBytes(l.ready)
    && l.pendingBytes == TotalBytes(l.pending)
    && (forall b :: b in l.ready ==> BatchOK(cfg, h, b, 0))
    && (forall rec :: rec in l.pending ==> PostsOf(h, rec.seqNo) == 0)
  }

  ghost predicate LaneOK(cfg: Config, h: History, seqNo: nat, env: string, flying: seq<Record>, l: Lane) {
    ShapeOK(cfg, h, l) && ChainOK(h, seqNo, env, flying + Records(l))
  }

  ghost predicate LanesOK(cfg: Config, h: History, seqNo: nat, flight: Option<Flight>, lanes: Lanes) {
    forall env :: env in lanes ==> LaneOK(cfg, h, seqNo, env, FlyingIn(flight, env), lanes[env])
  }

  ghost predicate HistoryOK(cfg: Config, h: History, seqNo: nat) {
    && (forall q :: q in h.posts ==> q <= seqNo && h.posts[q] <= cfg.maxAttempts + 8)
    && (forall q :: q in h.owner ==> q <= seqNo)
    && (forall q :: q in h.accepted ==> q <= seqNo)
  }

  ghost predicate FlightOK(cfg: Config, h: History, flight: Option<Flight>, lanes: Lanes) {
    flight.Some? ==> flight.value.env in lanes && BatchOK(cfg, h, flight.value.batch, 1)
  }

  ghost predicate Conserved(r: Run) {
    r.calls == Queued(r.st.lanes) + Flying(r.flight) + r.st.stats.sent + Dropped(r.st.stats) + r.unaccounted
  }

  ghost predicate Inv(cfg: Config, r: Run) {
    && LanesOK(cfg, r.h, r.st.seqNo, r.flight, r.st.lanes)
    && FlightOK(cfg, r.h, r.flight, r.st.lanes)
    && HistoryOK(cfg, r.h, r.st.seqNo)
    && Conserved(r)
    && Queued(r.st.lanes) + Flying(r.flight) <= cfg.maxBuffer + MAX_BATCH_RECORDS
  }

  lemma LanesHaveNoEmptyBatch(cfg: Config, h: History, seqNo: nat, flight: Option<Flight>, lanes: Lanes)
    requires LanesOK(cfg, h, seqNo, flight, lanes)
    ensures NoEmptyBatch(lanes)
  {
    forall env, b | env in lanes && b in lanes[env].ready ensures b.records != [] {
      assert LaneOK(cfg, h, seqNo, env, FlyingIn(flight, env), lanes[env]);
      assert BatchOK(cfg, h, b, 0);
    }
  }

  /// Dropping heads

  lemma DropHeadLaneOK(cfg: Config, h: History, seqNo: nat, env: string, flying: seq<Record>, l: Lane)
    requires LaneOK(cfg, h, seqNo, env, flying, l) && Records(l) != []
    requires forall b :: b in l.ready ==> b.records != []
    ensures LaneOK(cfg, h, seqNo, env, flying, DropHead(l))
  {
    DropHeadRecords(l);
    DropHeadShapeOK(cfg, h, l);
    ChainWithout(h, seqNo, env, flying, Records(l));
  }

  lemma ChainWithout(h: History, seqNo: nat, env: string, flying: seq<Record>, rest: seq<Record>)
    requires rest != [] && ChainOK(h, seqNo, env, flying + rest)
    ensures ChainOK(h, seqNo, env, flying + rest[1..])
  {
    hide RecordOK;
    var a, b := flying + rest, flying + rest[1..];
    forall i | 0 <= i < |b| ensures b[i] == a[if i < |flying| then i else i + 1] {
    }
  }

  lemma DropHeadShapeOK(cfg: Config, h: History, l: Lane)
    requires ShapeOK(cfg, h, l) && Records(l) != []
    requires forall b :: b in l.ready ==> b.records != []
    ensures ShapeOK(cfg, h, DropHead(l))
  {
    if l.ready != [] {
      var b := l.ready[0];
      var rest := b.(records := b.records[1..]);
      assert BatchOK(cfg, h, b, 0);
      assert TotalBytes(b.records) == b.records[0].bytes + TotalBytes(rest.records);
      if rest.records != [] {
        ShorterBatchOK(cfg, h, b, rest);
        assert ([rest] + l.ready[1..])[1..] == l.ready[1..];
      }
    }
  }

  lemma ShorterBatchOK(cfg: Config, h: History, b: Batch, rest: Batch)
    requires BatchOK(cfg, h, b, 0) && |b.records| > 1 && rest == b.(records := b.records[1..])
    ensures BatchOK(cfg, h, rest, 0)
  {
    var splits: nat :| splits <= 8 && SplitOK(h, b, 0, splits);
    assert SplitOK(h, rest, 0, splits);
  }

  lemma {:induction false} TrimmedOK(cfg: Config, h: History, seqNo: nat, flight: Option<Flight>, lanes: Lanes,
      limit: nat)
    requires LanesOK(cfg, h, seqNo, flight, lanes) && NoEmptyBatch(lanes)
    ensures LanesOK(cfg, h, seqNo, flight, Trimmed(lanes, limit))
    decreases Queued(lanes)
  {
    hide LaneOK;
    if Queued(lanes) > limit {
      var env := Oldest(lanes);
      DropHeadShrinks(lanes, env);
      DropHeadLaneOK(cfg, h, seqNo, env, FlyingIn(flight, env), lanes[env]);
      TrimmedOK(cfg, h, seqNo, flight, lanes[env := DropHead(lanes[env])], limit);
    }
  }

  /// Enqueue

  ghost predicate Agrees(h: History, h': History, env: string) {
    forall q :: q in h.owner && h.owner[q] == env ==>
      && q in h'.owner && h'.owner[q] == env && PostsOf(h', q) == PostsOf(h, q)
      && (q in h'.accepted <==> q in h.accepted)
  }

  // A lane only depends on what history says of its own records.
  lemma LaneFrame(cfg: Config, h: History, h': History, seqNo: nat, seqNo': nat, env: string, flying: seq<Record>,
      l: Lane)
    requires LaneOK(cfg, h, seqNo, env, flying, l) && seqNo <= seqNo' && Agrees(h, h', env)
    ensures LaneOK(cfg, h', seqNo', env, flying, l)
  {
    var chain := flying + Records(l);
    forall rec | rec in chain
      ensures RecordOK(h', seqNo', env, rec) && PostsOf(h', rec.seqNo) == PostsOf(h, rec.seqNo)
    {
      assert RecordOK(h, seqNo, env, rec);
    }
    forall b | b in l.ready ensures BatchOK(cfg, h', b, 0) {
      assert BatchOK(cfg, h, b, 0);
      var splits: nat :| splits <= 8 && SplitOK(h, b, 0, splits);
      InFlatten(l.ready, b);
      assert SplitOK(h', b, 0, splits);
    }
    assert forall rec :: rec in l.pending ==> rec in chain;
  }

  lemma {:induction false} InFlatten(ready: seq<Batch>, b: Batch)
    requires b in ready
    ensures forall rec :: rec in b.records ==> rec in Flatten(ready)
  {
    if ready[0] != b { InFlatten(ready[1..], b); }
  }

  lemma {:induction false} TotalBytesConcat(a: seq<Record>, b: seq<Record>)
    ensures TotalBytes(a + b) == TotalBytes(a) + TotalBytes(b)
  {
    if a == [] {
      assert a + b == b;
    } else {
      assert (a + b)[1..] == a[1..] + b;
      TotalBytesConcat(a[1..], b);
    }
  }

  lemma AppendOK(cfg: Config, h: History, seqNo: nat, env: string, flying: seq<Record>, l: Lane, rec: Record)
    requires LaneOK(cfg, h, seqNo, env, flying, l)
    requires rec.seqNo == seqNo && RecordOK(h, seqNo, env, rec) && PostsOf(h, seqNo) == 0
    requires forall x :: x in flying + Records(l) ==> x.seqNo < seqNo
    ensures LaneOK(cfg, h, seqNo, env, flying,
      l.(pending := l.pending + [rec], pendingBytes := l.pendingBytes + rec.bytes))
  {
    hide RecordOK, BatchOK, Flatten, ReadyBytes;
    TotalBytesConcat(l.pending, [rec]);
    var chain := flying + Records(l);
    var l' := l.(pending := l.pending + [rec], pendingBytes := l.pendingBytes + rec.bytes);
    assert flying + Records(l') == chain + [rec];
  }

  lemma EnqueueOK(cfg: Config, r: Run, env: string, body: CanonicalJson.Json)
    requires Inv(cfg, r) && NoEmptyBatch(r.st.lanes) && (r.flight.Some? ==> r.flight.value.batch.records != [])
    ensures Inv(cfg, Apply(cfg, r, Enqueue(env, body)))
  {
    hide LanesOK, FlightOK, HistoryOK, Queued, Trimmed, SizeOf;
    if !r.st.closed && SizeOf(body) <= MAX_BATCH_BYTES {
      hide Inv;
      var q := r.st.seqNo + 1;
      var l' := WithNew(LaneOf(r.st.lanes, env), body, q);
      var st := State(r.st.lanes[env := l'], r.st.stats, q, r.st.closed);
      AddedLanesOK(cfg, r, env, body);
      var r' := Run(st, r.flight, r.h.(owner := r.h.owner[q := env]), r.calls + 1, r.unaccounted);
      AddedInv(cfg, r, r', env, l');
      assert Apply(cfg, r, Enqueue(env, body)) == r'.(st := TrimState(cfg, st));
    }
  }

  lemma AddedInv(cfg: Config, r: Run, r': Run, env: string, l': Lane)
    requires Inv(cfg, r)
    requires r'.st == State(r.st.lanes[env := l'], r.st.stats, r.st.seqNo + 1, r.st.closed)
    requires r'.flight == r.flight && r'.calls == r.calls + 1 && r'.unaccounted == r.unaccounted
    requires r'.h == r.h.(owner := r.h.owner[r.st.seqNo + 1 := env])
    requires LanesOK(cfg, r'.h, r'.st.seqNo, r.flight, r'.st.lanes)
    requires |Records(l')| == |Records(LaneOf(r.st.lanes, env))| + 1
    ensures NoEmptyBatch(r'.st.lanes) && Inv(cfg, r'.(st := TrimState(cfg, r'.st)))
  {
    hide LanesOK, LaneOK, BatchOK, RecordOK, TrimState;
    LanesHaveNoEmptyBatch(cfg, r'.h, r'.st.seqNo, r.flight, r'.st.lanes);
    QueuedUpdate(r.st.lanes, env, l');
    FlightFrame(cfg, r.h, r'.h, r.flight, r.st.lanes, r'.st.lanes);
    hide Queued;
    TrimStateInv(cfg, r');
  }

  lemma FlightFrame(cfg: Config, h: History, h': History, flight: Option<Flight>, lanes: Lanes, lanes': Lanes)
    requires FlightOK(cfg, h, flight, lanes) && lanes.Keys <= lanes'.Keys && h'.posts == h.posts
    ensures FlightOK(cfg, h', flight, lanes')
  {
    if flight.Some? {
      var b := flight.value.batch;
      var splits: nat :| splits <= 8 && SplitOK(h, b, 1, splits);
      assert SplitOK(h', b, 1, splits);
    }
  }

  // Restoring the queue bound restores the invariant.
  lemma TrimStateInv(cfg: Config, r: Run)
    requires LanesOK(cfg, r.h, r.st.seqNo, r.flight, r.st.lanes) && NoEmptyBatch(r.st.lanes)
    requires FlightOK(cfg, r.h, r.flight, r.st.lanes) && HistoryOK(cfg, r.h, r.st.seqNo) && Conserved(r)
    ensures Inv(cfg, r.(st := TrimState(cfg, r.st)))
  {
    hide LaneOK, BatchOK, Queued;
    TrimmedOK(cfg, r.h, r.st.seqNo, r.flight, r.st.lanes, cfg.maxBuffer);
    QueuedTrimmed(r.st.lanes, cfg.maxBuffer);
    if r.flight.Some? { FlyingAtMost(cfg, r.h, r.flight.value.batch, 1); }
  }

  lemma FlyingAtMost(cfg: Config, h: History, b: Batch, inFlight: nat)
    requires BatchOK(cfg, h, b, inFlight)
    ensures 0 < |b.records| <= MAX_BATCH_RECORDS
  {
  }

  lemma AddedLanesOK(cfg: Config, r: Run, env: string, body: CanonicalJson.Json)
    requires Inv(cfg, r) && SizeOf(body) <= MAX_BATCH_BYTES
    ensures var l, q := LaneOf(r.st.lanes, env), r.st.seqNo + 1;
      && LanesOK(cfg, r.h.(owner := r.h.owner[q := env]), q, r.flight, r.st.lanes[env := WithNew(l, body, q)])
      && |Records(WithNew(l, body, q))| == |Records(l)| + 1
  {
    var l, q := LaneOf(r.st.lanes, env), r.st.seqNo + 1;
    LaneOrEmptyOK(cfg, r, env);
    InvParts(cfg, r);
    AddedLaneOK(cfg, r.h, r.st.seqNo, env, FlyingIn(r.flight, env), l, body);
    AddedOthersOK(cfg, r, env);
    hide LaneOK, HistoryOK, BatchOK, Records, WithNew, Conserved, FlightOK, Inv, FlyingIn, SizeOf, LaneOf;
    LanesWithLane(cfg, r.h.(owner := r.h.owner[q := env]), q, r.flight, r.st.lanes, env, WithNew(l, body, q));
  }

  lemma LanesWithLane(cfg: Config, h: History, seqNo: nat, flight: Option<Flight>, lanes: Lanes, env: string, l: Lane)
    requires forall e :: e in lanes && e != env ==> LaneOK(cfg, h, seqNo, e, FlyingIn(flight, e), lanes[e])
    requires LaneOK(cfg, h, seqNo, env, FlyingIn(flight, env), l)
    ensures LanesOK(cfg, h, seqNo, flight, lanes[env := l])
  {
    hide LaneOK, FlyingIn;
  }

  lemma InvParts(cfg: Config, r: Run)
    requires Inv(cfg, r)
    ensures LanesOK(cfg, r.h, r.st.seqNo, r.flight, r.st.lanes) && HistoryOK(cfg, r.h, r.st.seqNo)
  {
    hide LanesOK, HistoryOK, FlightOK, Conserved;
  }

  lemma LaneOrEmptyOK(cfg: Config, r: Run, env: string)
    requires Inv(cfg, r)
    ensures LaneOK(cfg, r.h, r.st.seqNo, env, FlyingIn(r.flight, env), LaneOf(r.st.lanes, env))
  {
    if env !in r.st.lanes {
      hide BatchOK, RecordOK, Queued;
      assert FlyingIn(r.flight, env) == [];
    }
  }

  lemma AddedLaneOK(cfg: Config, h: History, seqNo: nat, env: string, flying: seq<Record>, l: Lane,
      body: CanonicalJson.Json)
    requires LaneOK(cfg, h, seqNo, env, flying, l) && HistoryOK(cfg, h, seqNo) && SizeOf(body) <= MAX_BATCH_BYTES
    ensures var q := seqNo + 1;
      && LaneOK(cfg, h.(owner := h.owner[q := env]), q, env, flying, WithNew(l, body, q))
      && |Records(WithNew(l, body, q))| == |Records(l)| + 1
  {
    var q := seqNo + 1;
    var h' := h.(owner := h.owner[q := env]);
    assert PostsOf(h', q) == 0 && Agrees(h, h', env);
    assert RecordOK(h', q, env, Record(body, SizeOf(body), q));
    hide LaneOK, RecordOK, Agrees, HistoryOK;
    LaneFrame(cfg, h, h', seqNo, q, env, flying, l);
    LaneNumbers(cfg, h, seqNo, env, flying, l);
    AppendOK(cfg, h', q, env, flying, l, Record(body, SizeOf(body), q));
  }

  lemma AddedOthersOK(cfg: Config, r: Run, env: string)
    requires LanesOK(cfg, r.h, r.st.seqNo, r.flight, r.st.lanes) && HistoryOK(cfg, r.h, r.st.seqNo)
    ensures var q := r.st.seqNo + 1; var h := r.h.(owner := r.h.owner[q := env]);
      forall e :: e in r.st.lanes && e != env ==> LaneOK(cfg, h, q, e, FlyingIn(r.flight, e), r.st.lanes[e])
  {
    var q := r.st.seqNo + 1;
    var h := r.h.(owner := r.h.owner[q := env]);
    forall e | e in r.st.lanes && e != env ensures LaneOK(cfg, h, q, e, FlyingIn(r.flight, e), r.st.lanes[e]) {
      assert Agrees(r.h, h, e);
      hide LaneOK, Agrees;
      LaneFrame(cfg, r.h, h, r.st.seqNo, q, e, FlyingIn(r.flight, e), r.st.lanes[e]);
    }
  }

  lemma LaneNumbers(cfg: Config, h: History, seqNo: nat, env: string, flying: seq<Record>, l: Lane)
    requires LaneOK(cfg, h, seqNo, env, flying, l)
    ensures forall x :: x in flying + Records(l) ==> x.seqNo <= seqNo
  {
    forall x | x in flying + Records(l) ensures x.seqNo <= seqNo {
      assert RecordOK(h, seqNo, env, x);
    }
  }

  /// Take

  lemma {:induction false} BatchEndBounds(pending: seq<Record>, n: nat)
    requires n <= |pending| && n <= MAX_BATCH_RECORDS && TotalBytes(pending[..n]) <= MAX_BATCH_BYTES
    requires forall rec :: rec in pending ==> rec.bytes <= MAX_BATCH_BYTES
    ensures var m := BatchEnd(pending, n, TotalBytes(pending[..n]));
      m <= MAX_BATCH_RECORDS && TotalBytes(pending[..m]) <= MAX_BATCH_BYTES && (pending != [] ==> m > 0)
    decreases |pending| - n
  {
    if n < |pending| && n < MAX_BATCH_RECORDS
      && (n == 0 || TotalBytes(pending[..n]) + pending[n].bytes <= MAX_BATCH_BYTES) {
      assert pending[n] in pending;
      assert pending[..n + 1] == pending[..n] + [pending[n]];
      TotalBytesConcat(pending[..n], [pending[n]]);
      BatchEndBounds(pending, n + 1);
    }
  }

  lemma FreshBatchOK(cfg: Config, h: History, pending: seq<Record>)
    requires pending != []
    requires forall rec :: rec in pending ==> PostsOf(h, rec.seqNo) == 0 && rec.bytes <= MAX_BATCH_BYTES
    ensures BatchOK(cfg, h, Batch(pending[..BatchEnd(pending, 0, 0)], 0), 0)
  {
    assert TotalBytes(pending[..0]) == 0;
    BatchEndBounds(pending, 0);
    var b := Batch(pending[..BatchEnd(pending, 0, 0)], 0);
    assert Pow2(8) == 256;
    assert SplitOK(h, b, 0, 0);
  }

  // A taken batch is the front of the lane.
  lemma TakeFromParts(cfg: Config, h: History, seqNo: nat, env: string, l: Lane, force: bool, now: nat)
    requires LaneOK(cfg, h, seqNo, env, [], l)
    ensures var (l', b) := TakeFrom(cfg, l, force, now);
      if b.None? then l' == l
      else Records(l) == b.value.records + Records(l') && BatchOK(cfg, h, b.value, 0) && ShapeOK(cfg, h, l')
  {
    hide LaneOK, Records, BatchOK, ShapeOK, BatchEnd, TotalBytes;
    if TakeFrom(cfg, l, force, now).1.Some? {
      NothingWaits(l);
      if l.ready != [] {
        TakenReady(cfg, h, seqNo, env, l);
      } else {
        TakenPending(cfg, h, seqNo, env, l);
      }
    }
  }

  lemma NothingWaits(l: Lane)
    ensures l.ready == [] && l.pending == [] ==> Records(l) == []
  {
  }

  lemma TakenReady(cfg: Config, h: History, seqNo: nat, env: string, l: Lane)
    requires LaneOK(cfg, h, seqNo, env, [], l) && l.ready != []
    ensures var l' := l.(ready := l.ready[1..], readyBytes := l.readyBytes - TotalBytes(l.ready[0].records));
      Records(l) == l.ready[0].records + Records(l') && BatchOK(cfg, h, l.ready[0], 0) && ShapeOK(cfg, h, l')
  {
    assert l.ready[0] in l.ready;
    hide BatchOK, ChainOK, TotalBytes;
  }

  lemma TakenPending(cfg: Config, h: History, seqNo: nat, env: string, l: Lane)
    requires LaneOK(cfg, h, seqNo, env, [], l) && l.ready == [] && l.pending != []
    ensures var n := BatchEnd(l.pending, 0, 0);
      var l' := l.(pending := l.pending[n..], pendingBytes := l.pendingBytes - TotalBytes(l.pending[..n]));
      && BatchOK(cfg, h, Batch(l.pending[..n], 0), 0) && ShapeOK(cfg, h, l')
      && Records(l) == l.pending[..n] + Records(l')
  {
    hide *;
    PendingFresh(cfg, h, seqNo, env, l);
    FreshBatchOK(cfg, h, l.pending);
    PendingSplit(cfg, h, seqNo, env, l, BatchEnd(l.pending, 0, 0));
  }

  lemma PendingSplit(cfg: Config, h: History, seqNo: nat, env: string, l: Lane, n: nat)
    requires LaneOK(cfg, h, seqNo, env, [], l) && l.ready == [] && n <= |l.pending|
    ensures var l' := l.(pending := l.pending[n..], pendingBytes := l.pendingBytes - TotalBytes(l.pending[..n]));
      ShapeOK(cfg, h, l') && Records(l) == l.pending[..n] + Records(l')
  {
    assert l.pending == l.pending[..n] + l.pending[n..];
    TotalBytesConcat(l.pending[..n], l.pending[n..]);
    hide TotalBytes, BatchOK, ChainOK, PostsOf, ReadyBytes;
    assert forall rec :: rec in l.pending[n..] ==> rec in l.pending;
  }

  lemma PendingFresh(cfg: Config, h: History, seqNo: nat, env: string, l: Lane)
    requires LaneOK(cfg, h, seqNo, env, [], l) && l.ready == []
    ensures Records(l) == l.pending
    ensures forall rec :: rec in l.pending ==> PostsOf(h, rec.seqNo) == 0 && rec.bytes <= MAX_BATCH_BYTES
  {
    hide Increasing, PostsOf, SizeOf, TotalBytes, ReadyBytes;
    assert Records(l) == l.pending == [] + Records(l);
    forall rec | rec in l.pending ensures rec.bytes <= MAX_BATCH_BYTES {
      assert RecordOK(h, seqNo, env, rec);
    }
  }

  lemma BumpedPosts(h: History, records: seq<Record>, q: nat)
    ensures PostsOf(Bumped(h, records), q) == PostsOf(h, q) + if q in Seqs(records) then 1 else 0
  {
  }

  lemma BumpedBatchOK(cfg: Config, h: History, b: Batch)
    requires BatchOK(cfg, h, b, 0)
    ensures BatchOK(cfg, Bumped(h, b.records), b, 1)
    ensures forall rec :: rec in b.records ==> PostsOf(Bumped(h, b.records), rec.seqNo) <= cfg.maxAttempts + 8
  {
    var h' := Bumped(h, b.records);
    var splits: nat :| splits <= 8 && SplitOK(h, b, 0, splits);
    forall rec | rec in b.records ensures PostsOf(h', rec.seqNo) == b.attempts + splits + 1 {
      assert rec.seqNo in Seqs(b.records);
      BumpedPosts(h, b.records, rec.seqNo);
    }
    assert SplitOK(h', b, 1, splits);
  }

  // Records behind a batch in its lane are none of the batch's.
  lemma BehindDiffers(h: History, seqNo: nat, env: string, front: seq<Record>, rest: seq<Record>)
    requires ChainOK(h, seqNo, env, front + rest)
    ensures forall rec :: rec in rest ==> rec.seqNo !in Seqs(front)
    ensures ChainOK(h, seqNo, env, rest)
    ensures forall q :: q in Seqs(front) ==> q in h.owner && h.owner[q] == env && q <= seqNo
  {
    var chain := front + rest;
    forall i | 0 <= i < |rest| ensures rest[i] == chain[|front| + i] && rest[i].seqNo !in Seqs(front) {
      assert rest[i] == chain[|front| + i];
      forall k | 0 <= k < |front| ensures front[k].seqNo < rest[i].seqNo {
        assert front[k] == chain[k];
      }
    }
    forall rec | rec in front ensures RecordOK(h, seqNo, env, rec) {
      assert rec in chain;
    }
  }

  // Posting a batch changes what history says of no other record.
  lemma ShapeFrame(cfg: Config, h: History, h': History, l: Lane)
    requires ShapeOK(cfg, h, l)
    requires forall rec :: rec in Records(l) ==> PostsOf(h', rec.seqNo) == PostsOf(h, rec.seqNo)
    ensures ShapeOK(cfg, h', l)
  {
    forall b | b in l.ready ensures BatchOK(cfg, h', b, 0) {
      assert BatchOK(cfg, h, b, 0);
      var splits: nat :| splits <= 8 && SplitOK(h, b, 0, splits);
      InFlatten(l.ready, b);
      assert SplitOK(h', b, 0, splits);
    }
  }

  lemma TakeOK(cfg: Config, r: Run, env: string, force: bool, now: nat)
    requires Inv(cfg, r) && NoEmptyBatch(r.st.lanes) && r.flight.None?
    ensures Inv(cfg, Apply(cfg, r, Take(env, force, now)))
  {
    TakeNothing(cfg, r, env, force, now);
    if env in r.st.lanes {
      LandedLane(cfg, r, env);
      hide *;
      TakeFromParts(cfg, r.h, r.st.seqNo, env, r.st.lanes[env], force, now);
      var (l', b) := TakeFrom(cfg, r.st.lanes[env], force, now);
      if b.Some? {
        TakenInv(cfg, r, env, l', b.value);
        TakeApplied(cfg, r, env, force, now);
      }
    }
  }

  lemma LandedLane(cfg: Config, r: Run, env: string)
    requires Inv(cfg, r) && r.flight.None? && env in r.st.lanes
    ensures LaneOK(cfg, r.h, r.st.seqNo, env, [], r.st.lanes[env])
  {
    InvParts(cfg, r);
    hide Inv, LaneOK;
    assert LaneOK(cfg, r.h, r.st.seqNo, env, FlyingIn(r.flight, env), r.st.lanes[env]);
  }

  lemma TakeNothing(cfg: Config, r: Run, env: string, force: bool, now: nat)
    requires NoEmptyBatch(r.st.lanes) && r.flight.None?
    ensures env !in r.st.lanes || TakeFrom(cfg, r.st.lanes[env], force, now).1.None? ==>
      Apply(cfg, r, Take(env, force, now)) == r
  {
    hide TakeFrom, NoEmptyBatch;
  }

  lemma TakeApplied(cfg: Config, r: Run, env: string, force: bool, now: nat)
    requires NoEmptyBatch(r.st.lanes) && r.flight.None? && env in r.st.lanes
    requires TakeFrom(cfg, r.st.lanes[env], force, now).1.Some?
    ensures var (l', b) := TakeFrom(cfg, r.st.lanes[env], force, now);
      Apply(cfg, r, Take(env, force, now)) ==
      r.(st := r.st.(lanes := r.st.lanes[env := l']), flight := Some(Flight(env, b.value)),
        h := Bumped(r.h, b.value.records))
  {
    hide TakeFrom;
  }

  lemma TakenInv(cfg: Config, r: Run, env: string, l': Lane, b: Batch)
    requires Inv(cfg, r) && r.flight.None? && env in r.st.lanes
    requires Records(r.st.lanes[env]) == b.records + Records(l')
    requires BatchOK(cfg, r.h, b, 0) && ShapeOK(cfg, r.h, l')
    ensures Inv(cfg,
      r.(st := r.st.(lanes := r.st.lanes[env := l']), flight := Some(Flight(env, b)), h := Bumped(r.h, b.records)))
  {
    var l := r.st.lanes[env];
    assert LaneOK(cfg, r.h, r.st.seqNo, env, [], l);
    assert [] + Records(l) == b.records + Records(l');
    var r' := r.(st := r.st.(lanes := r.st.lanes[env := l']), flight := Some(Flight(env, b)),
      h := Bumped(r.h, b.records));
    TakenConserved(r, r', env, l', b);
    hide *;
    TakenLaneOK(cfg, r.h, r.st.seqNo, env, b, l');
    TakenLanesOK(cfg, r, env, b, l');
    TakenHistoryOK(cfg, r, env, b);
    TakenFlightOK(cfg, r', env, b);
    Assemble(cfg, r');
  }

  lemma TakenConserved(r: Run, r': Run, env: string, l': Lane, b: Batch)
    requires r.flight.None? && env in r.st.lanes && Records(r.st.lanes[env]) == b.records + Records(l')
    requires r'.st == r.st.(lanes := r.st.lanes[env := l']) && r'.flight == Some(Flight(env, b))
    requires Conserved(r) && r'.calls == r.calls && r'.unaccounted == r.unaccounted
    ensures Conserved(r') && Queued(r'.st.lanes) + Flying(r'.flight) == Queued(r.st.lanes) + Flying(r.flight)
  {
    hide Queued, Records;
    QueuedUpdate(r.st.lanes, env, l');
  }

  lemma TakenFlightOK(cfg: Config, r': Run, env: string, b: Batch)
    requires r'.flight == Some(Flight(env, b)) && env in r'.st.lanes && BatchOK(cfg, r'.h, b, 1)
    ensures FlightOK(cfg, r'.h, r'.flight, r'.st.lanes)
  {
  }

  lemma Assemble(cfg: Config, r: Run)
    requires LanesOK(cfg, r.h, r.st.seqNo, r.flight, r.st.lanes) && FlightOK(cfg, r.h, r.flight, r.st.lanes)
    requires HistoryOK(cfg, r.h, r.st.seqNo) && Conserved(r)
    requires Queued(r.st.lanes) + Flying(r.flight) <= cfg.maxBuffer + MAX_BATCH_RECORDS
    ensures Inv(cfg, r)
  {
  }

  lemma TakenLaneOK(cfg: Config, h: History, seqNo: nat, env: string, b: Batch, l': Lane)
    requires ChainOK(h, seqNo, env, b.records + Records(l')) && BatchOK(cfg, h, b, 0) && ShapeOK(cfg, h, l')
    ensures var h' := Bumped(h, b.records);
      && LaneOK(cfg, h', seqNo, env, b.records, l') && BatchOK(cfg, h', b, 1)
      && forall rec :: rec in b.records ==> PostsOf(h', rec.seqNo) <= cfg.maxAttempts + 8
    ensures forall q :: q in Seqs(b.records) ==> q in h.owner && h.owner[q] == env && q <= seqNo
  {
    BehindDiffers(h, seqNo, env, b.records, Records(l'));
    BumpedBatchOK(cfg, h, b);
    ShapeFrame(cfg, h, Bumped(h, b.records), l');
    TakenChain(h, seqNo, env, b.records, Records(l'));
  }

  lemma TakenLanesOK(cfg: Config, r: Run, env: string, b: Batch, l': Lane)
    requires LanesOK(cfg, r.h, r.st.seqNo, None, r.st.lanes)
    requires forall q :: q in Seqs(b.records) ==> q in r.h.owner && r.h.owner[q] == env
    requires LaneOK(cfg, Bumped(r.h, b.records), r.st.seqNo, env, b.records, l')
    ensures LanesOK(cfg, Bumped(r.h, b.records), r.st.seqNo, Some(Flight(env, b)), r.st.lanes[env := l'])
  {
    TakenOthers(cfg, r, env, b);
    hide LaneOK, Bumped;
  }

  lemma TakenChain(h: History, seqNo: nat, env: string, front: seq<Record>, rest: seq<Record>)
    requires ChainOK(h, seqNo, env, front + rest)
    ensures ChainOK(Bumped(h, front), seqNo, env, front + rest)
  {
    forall rec | rec in front + rest ensures RecordOK(Bumped(h, front), seqNo, env, rec) {
      assert RecordOK(h, seqNo, env, rec);
    }
  }

  lemma TakenOthers(cfg: Config, r: Run, env: string, b: Batch)
    requires LanesOK(cfg, r.h, r.st.seqNo, None, r.st.lanes)
    requires forall q :: q in Seqs(b.records) ==> q in r.h.owner && r.h.owner[q] == env
    ensures forall e :: e in r.st.lanes && e != env ==>
      LaneOK(cfg, Bumped(r.h, b.records), r.st.seqNo, e, [], r.st.lanes[e])
  {
    hide LaneOK;
    forall e | e in r.st.lanes && e != env
      ensures LaneOK(cfg, Bumped(r.h, b.records), r.st.seqNo, e, [], r.st.lanes[e])
    {
      LaneFrame(cfg, r.h, Bumped(r.h, b.records), r.st.seqNo, r.st.seqNo, e, [], r.st.lanes[e]);
    }
  }

  lemma TakenHistoryOK(cfg: Config, r: Run, env: string, b: Batch)
    requires HistoryOK(cfg, r.h, r.st.seqNo)
    requires forall q :: q in Seqs(b.records) ==> q <= r.st.seqNo
    requires forall rec :: rec in b.records ==> PostsOf(Bumped(r.h, b.records), rec.seqNo) <= cfg.maxAttempts + 8
    ensures HistoryOK(cfg, Bumped(r.h, b.records), r.st.seqNo)
  {
  }

  /// Reply

  // Once a batch has left, its lane needs no in-flight records.
  lemma LandedLaneOK(cfg: Config, h: History, seqNo: nat, env: string, flying: seq<Record>, l: Lane)
    requires LaneOK(cfg, h, seqNo, env, flying, l)
    ensures LaneOK(cfg, h, seqNo, env, [], l)
  {
    BehindDiffers(h, seqNo, env, flying, Records(l));
    assert [] + Records(l) == Records(l);
  }

  lemma LandedLanesOK(cfg: Config, h: History, seqNo: nat, flight: Option<Flight>, lanes: Lanes)
    requires LanesOK(cfg, h, seqNo, flight, lanes)
    ensures LanesOK(cfg, h, seqNo, None, lanes)
  {
    hide LaneOK;
    forall e | e in lanes ensures LaneOK(cfg, h, seqNo, e, [], lanes[e]) {
      LandedLaneOK(cfg, h, seqNo, e, FlyingIn(flight, e), lanes[e]);
    }
  }

  // A successful POST: the batch's records are settled for good.
  lemma AcceptedLaneOK(cfg: Config, h: History, seqNo: nat, env: string, flying: seq<Record>, settled: set<nat>,
      l: Lane)
    requires LaneOK(cfg, h, seqNo, env, flying, l)
    requires settled == Seqs(flying) || forall q :: q in settled ==> q in h.owner && h.owner[q] != env
    ensures LaneOK(cfg, h.(accepted := h.accepted + settled), seqNo, env, [], l)
  {
    BehindDiffers(h, seqNo, env, flying, Records(l));
    var h' := h.(accepted := h.accepted + settled);
    assert [] + Records(l) == Records(l);
    forall rec | rec in Records(l) ensures RecordOK(h', seqNo, env, rec) {
      assert RecordOK(h, seqNo, env, rec);
    }
    ShapeFrame(cfg, h, h', l);
  }

  lemma AcceptedLanesOK(cfg: Config, h: History, seqNo: nat, flight: Flight, lanes: Lanes, l': Lane)
    requires LanesOK(cfg, h, seqNo, Some(flight), lanes) && flight.env in lanes
    requires l' == lanes[flight.env].(failures := 0, blockedUntil := 0)
    ensures var settled := Seqs(flight.batch.records);
      && LanesOK(cfg, h.(accepted := h.accepted + settled), seqNo, None, lanes[flight.env := l'])
      && forall q :: q in settled ==> q <= seqNo
  {
    var Flight(env, batch) := flight;
    var settled := Seqs(batch.records);
    var h' := h.(accepted := h.accepted + settled);
    assert LaneOK(cfg, h, seqNo, env, batch.records, lanes[env]);
    BehindDiffers(h, seqNo, env, batch.records, Records(lanes[env]));
    hide LaneOK, Seqs, ChainOK;
    forall e | e in lanes ensures LaneOK(cfg, h', seqNo, e, [], lanes[e]) {
      AcceptedLaneOK(cfg, h, seqNo, e, FlyingIn(Some(flight), e), settled, lanes[e]);
    }
    RelabelledLaneOK(cfg, h', seqNo, env, lanes[env], l');
  }

  lemma RelabelledLaneOK(cfg: Config, h: History, seqNo: nat, env: string, l: Lane, l': Lane)
    requires LaneOK(cfg, h, seqNo, env, [], l) && l' == l.(failures := 0, blockedUntil := 0)
    ensures LaneOK(cfg, h, seqNo, env, [], l')
  {
    hide ChainOK, BatchOK;
  }

  lemma PostedOK(cfg: Config, r: Run, outcome: Outcome, now: nat)
    requires Inv(cfg, r) && NoEmptyBatch(r.st.lanes) && r.flight.Some? && r.flight.value.batch.records != []
    requires outcome.Posted?
    ensures Inv(cfg, Apply(cfg, r, Reply(outcome, now)))
  {
    var Flight(env, batch) := r.flight.value;
    var l' := r.st.lanes[env].(failures := 0, blockedUntil := 0);
    AcceptedLanesOK(cfg, r.h, r.st.seqNo, r.flight.value, r.st.lanes, l');
    assert Records(l') == Records(r.st.lanes[env]);
    QueuedUpdate(r.st.lanes, env, l');
    PostedApplied(cfg, r, outcome, now, l');
    hide LaneOK, LanesOK, Queued, BatchOK, Seqs, Records, NoEmptyBatch, Apply;
    Assemble(cfg, Apply(cfg, r, Reply(outcome, now)));
  }

  lemma PostedApplied(cfg: Config, r: Run, outcome: Outcome, now: nat, l': Lane)
    requires NoEmptyBatch(r.st.lanes) && r.flight.Some? && r.flight.value.batch.records != [] && outcome.Posted?
    requires var env := r.flight.value.env;
      env in r.st.lanes && l' == r.st.lanes[env].(failures := 0, blockedUntil := 0)
    ensures var Flight(env, batch) := r.flight.value;
      var stats := r.st.stats.(sent := r.st.stats.sent + outcome.accepted + outcome.duplicates,
                               rejected := r.st.stats.rejected + outcome.rejected);
      Apply(cfg, r, Reply(outcome, now)) == r.(
        st := r.st.(stats := stats, lanes := r.st.lanes[env := l']), flight := None,
        h := r.h.(accepted := r.h.accepted + Seqs(batch.records)),
        unaccounted := r.unaccounted + |batch.records| - outcome.accepted - outcome.duplicates - outcome.rejected)
  {
    hide Seqs;
  }

  lemma SplitHalvesOK(cfg: Config, h: History, b: Batch)
    requires BatchOK(cfg, h, b, 1) && |b.records| > 1
    ensures var halves := SplitBatch(b);
      && BatchOK(cfg, h, halves[0], 0) && BatchOK(cfg, h, halves[1], 0)
      && b.records == halves[0].records + halves[1].records
      && TotalBytes(b.records) == TotalBytes(halves[0].records) + TotalBytes(halves[1].records)
  {
    var halves := SplitBatch(b);
    assert b.records == halves[0].records + halves[1].records;
    TotalBytesConcat(halves[0].records, halves[1].records);
    var splits: nat :| splits <= 8 && SplitOK(h, b, 1, splits);
    assert splits < 8;
    assert Pow2(8 - splits) == 2 * Pow2(8 - (splits + 1));
    assert SplitOK(h, halves[0], 0, splits + 1);
    assert SplitOK(h, halves[1], 0, splits + 1);
  }

  lemma RetriedBatchOK(cfg: Config, h: History, b: Batch)
    requires BatchOK(cfg, h, b, 1) && b.attempts + 1 < cfg.maxAttempts
    ensures BatchOK(cfg, h, b.(attempts := b.attempts + 1), 0)
  {
    var splits: nat :| splits <= 8 && SplitOK(h, b, 1, splits);
    assert SplitOK(h, b.(attempts := b.attempts + 1), 0, splits);
  }

  // Batches put back at the front restore the chain they were taken from.
  lemma ReturnedLaneOK(cfg: Config, h: History, seqNo: nat, env: string, flying: seq<Record>, l: Lane,
      back: seq<Batch>, l': Lane)
    requires LaneOK(cfg, h, seqNo, env, flying, l)
    requires Flatten(back) == flying && forall b :: b in back ==> BatchOK(cfg, h, b, 0)
    requires l'.ready == back + l.ready && l'.readyBytes == l.readyBytes + TotalBytes(flying)
    requires l'.pending == l.pending && l'.pendingBytes == l.pendingBytes
    ensures LaneOK(cfg, h, seqNo, env, [], l') && Records(l') == flying + Records(l)
  {
    FlattenConcat(back, l.ready);
    hide BatchOK, ChainOK, Flatten, ReadyBytes, TotalBytes;
    assert Records(l') == flying + Records(l) == [] + Records(l');
  }

  lemma {:induction false} FlattenConcat(a: seq<Batch>, b: seq<Batch>)
    ensures Flatten(a + b) == Flatten(a) + Flatten(b)
    ensures ReadyBytes(a + b) == TotalBytes(Flatten(a)) + ReadyBytes(b)
  {
    hide TotalBytes;
    if a == [] {
      assert a + b == b;
      NoBytes();
    } else {
      assert (a + b)[1..] == a[1..] + b && (a + b)[0] == a[0];
      FlattenConcat(a[1..], b);
      TotalBytesConcat(a[0].records, Flatten(a[1..]));
      assert a[0].records + Flatten(a[1..]) + Flatten(b) == a[0].records + (Flatten(a[1..]) + Flatten(b));
    }
  }

  lemma NoBytes()
    ensures TotalBytes([]) == 0
  {
  }

  lemma ReturnedInv(cfg: Config, r: Run, r': Run, back: seq<Batch>, l': Lane)
    requires Inv(cfg, r) && r.flight.Some?
    requires var Flight(env, batch) := r.flight.value;
      && Flatten(back) == batch.records && (forall b :: b in back ==> BatchOK(cfg, r.h, b, 0))
      && env in r.st.lanes && var l := r.st.lanes[env];
      && l'.ready == back + l.ready && l'.readyBytes == l.readyBytes + TotalBytes(batch.records)
      && l'.pending == l.pending && l'.pendingBytes == l.pendingBytes
      && r' == r.(st := r.st.(lanes := r.st.lanes[env := l']), flight := None)
    ensures Inv(cfg, r')
  {
    hide *;
    ReturnedLanesOK(cfg, r, back, l');
    LandedInv(cfg, r, r', r.st.lanes[r.flight.value.env := l']);
  }

  lemma LandedInv(cfg: Config, r: Run, r': Run, lanes: Lanes)
    requires Inv(cfg, r) && r.flight.Some?
    requires r' == r.(st := r.st.(lanes := lanes), flight := None)
    requires LanesOK(cfg, r.h, r.st.seqNo, None, lanes)
      && Queued(lanes) == Queued(r.st.lanes) + |r.flight.value.batch.records|
    ensures Inv(cfg, r')
  {
    hide LanesOK, HistoryOK, Queued;
  }

  lemma ReturnedLanesOK(cfg: Config, r: Run, back: seq<Batch>, l': Lane)
    requires Inv(cfg, r) && r.flight.Some? && r.flight.value.env in r.st.lanes
    requires var Flight(env, batch) := r.flight.value; var l := r.st.lanes[env];
      && Flatten(back) == batch.records && (forall b :: b in back ==> BatchOK(cfg, r.h, b, 0))
      && l'.ready == back + l.ready && l'.readyBytes == l.readyBytes + TotalBytes(batch.records)
      && l'.pending == l.pending && l'.pendingBytes == l.pendingBytes
    ensures var lanes := r.st.lanes[r.flight.value.env := l'];
      LanesOK(cfg, r.h, r.st.seqNo, None, lanes) && Queued(lanes) == Queued(r.st.lanes) + |r.flight.value.batch.records|
  {
    InvParts(cfg, r);
    hide Inv, BatchOK, Queued, Records, Flatten, TotalBytes;
    var Flight(env, batch) := r.flight.value;
    assert LaneOK(cfg, r.h, r.st.seqNo, env, batch.records, r.st.lanes[env]) by { hide LaneOK; }
    hide LaneOK, LanesOK;
    ReturnedLaneOK(cfg, r.h, r.st.seqNo, env, batch.records, r.st.lanes[env], back, l');
    LandedLanesOK(cfg, r.h, r.st.seqNo, r.flight, r.st.lanes);
    LandedWith(cfg, r.h, r.st.seqNo, r.st.lanes, env, l');
    QueuedUpdate(r.st.lanes, env, l');
  }

  lemma LandedWith(cfg: Config, h: History, seqNo: nat, lanes: Lanes, env: string, l: Lane)
    requires LanesOK(cfg, h, seqNo, None, lanes) && LaneOK(cfg, h, seqNo, env, [], l)
    ensures LanesOK(cfg, h, seqNo, None, lanes[env := l])
  {
    hide LaneOK;
    LanesWithLane(cfg, h, seqNo, None, lanes, env, l);
  }

  lemma DroppedInv(cfg: Config, r: Run, r': Run)
    requires Inv(cfg, r) && r.flight.Some?
    requires r'.st == r.st.(stats := r'.st.stats) && r'.flight == None && r'.h == r.h
    requires r'.calls == r.calls && r'.unaccounted == r.unaccounted && r'.st.stats.sent == r.st.stats.sent
    requires Dropped(r'.st.stats) == Dropped(r.st.stats) + |r.flight.value.batch.records|
    ensures Inv(cfg, r')
  {
    LandedLanesOK(cfg, r.h, r.st.seqNo, r.flight, r.st.lanes);
    hide LaneOK, LanesOK, Queued, BatchOK;
  }

  lemma ReplyApplied(cfg: Config, r: Run, outcome: Outcome, now: nat)
    requires NoEmptyBatch(r.st.lanes) && r.flight.Some? && r.flight.value.batch.records != [] && outcome.Failed?
    ensures Apply(cfg, r, Reply(outcome, now)) ==
      r.(st := Settled(cfg, r.st, r.flight.value.env, r.flight.value.batch, outcome, now), flight := None)
  {
    hide Settled;
  }

  predicate GivesUp(cfg: Config, batch: Batch, status: int) {
    || (status == 413 && |batch.records| <= 1) || ClientError(status)
    || (!Splits(batch, status) && batch.attempts + 1 >= cfg.maxAttempts)
  }

  lemma FailedOK(cfg: Config, r: Run, outcome: Outcome, now: nat)
    requires Inv(cfg, r) && NoEmptyBatch(r.st.lanes) && r.flight.Some? && r.flight.value.batch.records != []
    requires outcome.Failed?
    ensures Inv(cfg, Apply(cfg, r, Reply(outcome, now)))
  {
    hide *;
    var batch := r.flight.value.batch;
    FlightInv(cfg, r);
    ReplyApplied(cfg, r, outcome, now);
    if Splits(batch, outcome.status) {
      SplitsMany(batch, outcome.status);
      SplitHalvesOK(cfg, r.h, batch);
      FailedSplits(cfg, r, outcome, now);
    } else if GivesUp(cfg, batch, outcome.status) {
      FailedGivesUp(cfg, r, outcome, now);
    } else {
      RetryLeft(cfg, batch, outcome.status);
      RetriedBatchOK(cfg, r.h, batch);
      ReturnRetry(cfg, r, outcome, now);
    }
  }

  lemma FlightInv(cfg: Config, r: Run)
    requires Inv(cfg, r) && r.flight.Some?
    ensures r.flight.value.env in r.st.lanes && BatchOK(cfg, r.h, r.flight.value.batch, 1)
  {
  }

  lemma SplitsMany(batch: Batch, status: int)
    requires Splits(batch, status)
    ensures |batch.records| > 1
  {
  }

  lemma RetryLeft(cfg: Config, batch: Batch, status: int)
    requires !Splits(batch, status) && !GivesUp(cfg, batch, status)
    ensures batch.attempts + 1 < cfg.maxAttempts
  {
  }

  lemma FailedSplits(cfg: Config, r: Run, outcome: Outcome, now: nat)
    requires Inv(cfg, r) && NoEmptyBatch(r.st.lanes) && r.flight.Some? && r.flight.value.batch.records != []
    requires outcome.Failed? && Splits(r.flight.value.batch, outcome.status) && r.flight.value.env in r.st.lanes
    requires var batch := r.flight.value.batch;
      && BatchOK(cfg, r.h, SplitBatch(batch)[0], 0) && BatchOK(cfg, r.h, SplitBatch(batch)[1], 0)
      && batch.records == SplitBatch(batch)[0].records + SplitBatch(batch)[1].records
    ensures Inv(cfg, r.(st := Settled(cfg, r.st, r.flight.value.env, r.flight.value.batch, outcome, now),
      flight := None))
  {
    hide Inv, BatchOK, NoEmptyBatch;
    ReturnSplit(cfg, r, r.(st := Settled(cfg, r.st, r.flight.value.env, r.flight.value.batch, outcome, now),
      flight := None));
  }

  lemma FailedGivesUp(cfg: Config, r: Run, outcome: Outcome, now: nat)
    requires Inv(cfg, r) && NoEmptyBatch(r.st.lanes) && r.flight.Some? && r.flight.value.batch.records != []
    requires outcome.Failed? && GivesUp(cfg, r.flight.value.batch, outcome.status)
    ensures Inv(cfg, r.(st := Settled(cfg, r.st, r.flight.value.env, r.flight.value.batch, outcome, now),
      flight := None))
  {
    hide Inv, NoEmptyBatch, TrimState, Records;
    DroppedInv(cfg, r, r.(st := Settled(cfg, r.st, r.flight.value.env, r.flight.value.batch, outcome, now),
      flight := None));
  }

  lemma ReturnSplit(cfg: Config, r: Run, r': Run)
    requires Inv(cfg, r) && r.flight.Some?
    requires var Flight(env, batch) := r.flight.value;
      && (forall b :: b in SplitBatch(batch) ==> BatchOK(cfg, r.h, b, 0))
      && batch.records == SplitBatch(batch)[0].records + SplitBatch(batch)[1].records
      && env in r.st.lanes && var l := r.st.lanes[env];
      && var l' := l.(ready := SplitBatch(batch) + l.ready, readyBytes := l.readyBytes + TotalBytes(batch.records));
      && r' == r.(st := r.st.(lanes := r.st.lanes[env := l']), flight := None)
    ensures Inv(cfg, r')
  {
    var Flight(env, batch) := r.flight.value;
    var back := SplitBatch(batch);
    FlattenTwo(back[0], back[1]);
    assert back == [back[0], back[1]];
    hide SplitBatch, Inv, BatchOK;
    ReturnedInv(cfg, r, r', back, r'.st.lanes[env]);
  }

  lemma FlattenTwo(a: Batch, b: Batch)
    ensures Flatten([a, b]) == a.records + b.records
  {
    assert [a, b][1..] == [b] && [b][1..] == [];
    assert Flatten([b]) == b.records;
  }

  lemma ReturnRetry(cfg: Config, r: Run, outcome: Outcome, now: nat)
    requires Inv(cfg, r) && NoEmptyBatch(r.st.lanes) && r.flight.Some? && r.flight.value.batch.records != []
    requires r.flight.value.env in r.st.lanes && outcome.Failed?
    requires var batch := r.flight.value.batch;
      && !Splits(batch, outcome.status) && !GivesUp(cfg, batch, outcome.status)
      && BatchOK(cfg, r.h, batch.(attempts := batch.attempts + 1), 0)
    ensures Inv(cfg, r.(st := Settled(cfg, r.st, r.flight.value.env, r.flight.value.batch, outcome, now),
      flight := None))
  {
    hide Inv, LanesOK, HistoryOK, FlightOK, Conserved, BatchOK, Queued, Trimmed, Backoff, Records, TrimState;
    var Flight(env, batch) := r.flight.value;
    var again := batch.(attempts := batch.attempts + 1);
    var l' := PutBack(r.st.lanes[env], batch, outcome.retryAfter, now);
    var r' := r.(st := r.st.(lanes := r.st.lanes[env := l']), flight := None);
    assert Flatten([again]) == batch.records;
    ReturnedInv(cfg, r, r', [again], l');
    InvUsable(cfg, r');
    assert Settled(cfg, r.st, env, batch, outcome, now) == TrimState(cfg, r'.st);
    InvTrims(cfg, r');
  }

  lemma InvTrims(cfg: Config, r: Run)
    requires Inv(cfg, r) && NoEmptyBatch(r.st.lanes)
    ensures Inv(cfg, r.(st := TrimState(cfg, r.st)))
  {
    hide LanesOK, HistoryOK, FlightOK, Conserved, TrimState, Queued;
    TrimStateInv(cfg, r);
  }

  /// Whole runs

  lemma InvUsable(cfg: Config, r: Run)
    requires Inv(cfg, r)
    ensures NoEmptyBatch(r.st.lanes) && (r.flight.Some? ==> r.flight.value.batch.records != [])
  {
    LanesHaveNoEmptyBatch(cfg, r.h, r.st.seqNo, r.flight, r.st.lanes);
  }

  lemma StepOK(cfg: Config, r: Run, ev: Event)
    requires Inv(cfg, r)
    ensures NoEmptyBatch(r.st.lanes) && (r.flight.Some? ==> r.flight.value.batch.records != [])
    ensures Inv(cfg, Apply(cfg, r, ev))
  {
    InvUsable(cfg, r);
    match ev
    case Enqueue(env, body) => EnqueueOK(cfg, r, env, body);
    case Take(env, force, now) => if r.flight.None? { TakeOK(cfg, r, env, force, now); }
    case Reply(outcome, now) =>
      if r.flight.Some? {
        if outcome.Posted? { PostedOK(cfg, r, outcome, now); } else { FailedOK(cfg, r, outcome, now); }
      }
    case Close =>
      hide LanesOK, BatchOK, HistoryOK, Queued;
  }

  ghost function Exec(cfg: Config, r: Run, events: seq<Event>): (r': Run)
    requires Inv(cfg, r)
    ensures Inv(cfg, r')
    decreases |events|
  {
    if events == [] then r
    else
      StepOK(cfg, r, events[0]);
      Exec(cfg, Apply(cfg, r, events[0]), events[1..])
  }
}
