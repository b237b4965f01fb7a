/**
 The monitoring-log queue of buffer.go as values: lanes, batches, and the
 functions its methods compute.  LogBuffer.dfy holds the mutable buffer,
 LogRuns.dfy what holds over whole runs.
 */
module LogQueue {
  import opened Options
  import CanonicalJson
  import opened Totals

  const MAX_BATCH_RECORDS: nat := 200
  const MAX_BATCH_BYTES: nat := 4_500_000
  const SECOND: nat := 1_000_000_000
  const BACKOFF_MIN: nat := SECOND
  const BACKOFF_MAX: nat := 300 * SECOND

  // What withDefaults leaves: every bound is positive.
  datatype Bounds = Bounds(maxBuffer: nat, maxAttempts: nat, flushSize: nat, flushBytes: nat)

  type Config = b: Bounds |
    b.maxBuffer > 0 && b.maxAttempts > 0 && b.flushSize > 0 && b.flushBytes > 0
    witness Bounds(1, 1, 1, 1)

  datatype Record = Record(body: CanonicalJson.Json, bytes: nat, seqNo: nat)

  datatype Batch = Batch(records: seq<Record>, attempts: nat)

  // Times are nanoseconds; 0 is Go's zero time, earlier than any clock reading.
  datatype Lane = Lane(
    ready: seq<Batch>, readyBytes: int,
    pending: seq<Record>, pendingBytes: int,
    blockedUntil: nat, failures: nat)

  type Lanes = map<string, Lane>

  datatype Stats = Stats(
    sent: int, overflow: nat, tooLarge: nat, rejected: nat,
    clientError: nat, retriesExhausted: nat, afterClose: nat)

  datatype State = State(lanes: Lanes, stats: Stats, seqNo: nat, closed: bool)

  const EMPTY_LANE := Lane([], 0, [], 0, 0, 0)
  const INITIAL := State(map[], Stats(0, 0, 0, 0, 0, 0, 0), 0, false)

  // How a POST came back: a decoded 2xx, or an error with its HTTP status (0
  // when no response arrived or its body did not decode) and retry-after time.
  datatype Outcome =
    | Posted(accepted: int, duplicates: int, rejected: nat)
    | Failed(status: int, retryAfter: int)

  /// Contents

  function TotalBytes(records: seq<Record>): nat {
    if records == [] then 0 else records[0].bytes + TotalBytes(records[1..])
  }

  function Flatten(ready: seq<Batch>): seq<Record> {
    if ready == [] then [] else ready[0].records + Flatten(ready[1..])
  }

  // Everything a lane holds, in the order it will be sent.
  function Records(l: Lane): seq<Record> {
    Flatten(l.ready) + l.pending
  }

  function LaneOf(lanes: Lanes, env: string): Lane {
    if env in lanes then lanes[env] else EMPTY_LANE
  }

  function Counts(lanes: Lanes): map<string, nat> {
    map env | env in lanes :: |Records(lanes[env])|
  }

  // How many records wait, over all lanes.
  ghost function Queued(lanes: Lanes): nat {
    Total(Counts(lanes))
  }

  /// Dropping the oldest

  // A lane without its first record; an emptied batch goes with it.
  function DropHead(l: Lane): Lane
    requires Records(l) != []
    requires forall b :: b in l.ready ==> b.records != []
  {
    if l.ready != [] then
      var b := l.ready[0];
      var rest := b.(records := b.records[1..]);
      l.(ready := if rest.records == [] then l.ready[1..] else [rest] + l.ready[1..],
         readyBytes := l.readyBytes - b.records[0].bytes)
    else
      l.(pending := l.pending[1..], pendingBytes := l.pendingBytes - l.pending[0].bytes)
  }

  predicate NoEmptyBatch(lanes: Lanes) {
    forall env :: env in lanes ==> forall b :: b in lanes[env].ready ==> b.records != []
  }

  ghost predicate IsOldest(lanes: Lanes, env: string) {
    && env in lanes && Records(lanes[env]) != []
    && forall e :: e in lanes && Records(lanes[e]) != [] ==> Records(lanes[env])[0].seqNo <= Records(lanes[e])[0].seqNo
  }

  ghost function Oldest(lanes: Lanes): (env: string)
    requires Queued(lanes) > 0
    ensures IsOldest(lanes, env)
  {
    OldestExists(lanes);
    var env :| IsOldest(lanes, env);
    env
  }

  // The queue bound: while more than `limit` records wait, the lane whose first
  // record was enqueued first loses it.
  ghost function Trimmed(lanes: Lanes, limit: nat): (r: Lanes)
    requires NoEmptyBatch(lanes)
    ensures r.Keys == lanes.Keys && NoEmptyBatch(r)
    decreases Queued(lanes)
  {
    if Queued(lanes) <= limit then lanes
    else
      var env := Oldest(lanes);
      DropHeadShrinks(lanes, env);
      Trimmed(lanes[env := DropHead(lanes[env])], limit)
  }

  /// Steps

  function SizeOf(body: CanonicalJson.Json): nat {
    CanonicalJson.Size(body)
  }

  ghost function Enqueued(cfg: Config, st: State, env: string, body: CanonicalJson.Json): State
    requires NoEmptyBatch(st.lanes)
  {
    var size := SizeOf(body);
    if st.closed then st.(stats := st.stats.(afterClose := st.stats.afterClose + 1))
    else if size > MAX_BATCH_BYTES then st.(stats := st.stats.(tooLarge := st.stats.tooLarge + 1))
    else
      var l := LaneOf(st.lanes, env);
      TrimState(cfg, st.(lanes := st.lanes[env := WithNew(l, body, st.seqNo + 1)], seqNo := st.seqNo + 1))
  }

  // The lane with a record appended.
  function WithNew(l: Lane, body: CanonicalJson.Json, q: nat): Lane {
    l.(pending := l.pending + [Record(body, SizeOf(body), q)], pendingBytes := l.pendingBytes + SizeOf(body))
  }

  ghost function TrimState(cfg: Config, st: State): State
    requires NoEmptyBatch(st.lanes)
  {
    var lanes := Trimmed(st.lanes, cfg.maxBuffer);
    QueuedTrimmed(st.lanes, cfg.maxBuffer);
    st.(lanes := lanes, stats := st.stats.(overflow := st.stats.overflow + (Queued(st.lanes) - Queued(lanes))))
  }

  // How many pending records the next batch takes, `n` of `total` bytes being in
  // it already.
  function BatchEnd(pending: seq<Record>, n: nat, total: nat): (m: nat)
    requires n <= |pending|
    ensures n <= m <= |pending|
    decreases |pending| - n
  {
    if n < |pending| && n < MAX_BATCH_RECORDS && (n == 0 || total + pending[n].bytes <= MAX_BATCH_BYTES)
    then BatchEnd(pending, n + 1, total + pending[n].bytes)
    else n
  }

  // A lane after a batch was taken from it, and that batch.
  function TakeFrom(cfg: Config, l: Lane, force: bool, now: nat): (Lane, Option<Batch>) {
    if Records(l) == [] || l.blockedUntil > now then (l, None)
    else if l.ready != [] then
      (l.(ready := l.ready[1..], readyBytes := l.readyBytes - TotalBytes(l.ready[0].records)), Some(l.ready[0]))
    else if !force && |l.pending| < cfg.flushSize && l.pendingBytes < cfg.flushBytes then (l, None)
    else
      var n := BatchEnd(l.pending, 0, 0);
      (l.(pending := l.pending[n..], pendingBytes := l.pendingBytes - TotalBytes(l.pending[..n])),
       Some(Batch(l.pending[..n], 0)))
  }

  function Taken(cfg: Config, st: State, env: string, force: bool, now: nat): (State, Option<Batch>) {
    if env !in st.lanes then (st, None)
    else
      var (l, b) := TakeFrom(cfg, st.lanes[env], force, now);
      (if b.None? then st else st.(lanes := st.lanes[env := l]), b)
  }

  function Pow2(n: nat): (p: nat)
    ensures p > 0
  {
    if n == 0 then 1 else 2 * Pow2(n - 1)
  }

  function Min(a: int, b: int): int {
    if a < b then a else b
  }

  // `base` doubled for each attempt after the first, up to `max`.
  function Doubled(base: nat, max: nat, attempt: int): nat {
    Min(max, base * Pow2(if attempt < 1 then 0 else attempt - 1))
  }

  function Backoff(attempt: nat): nat {
    Doubled(BACKOFF_MIN, BACKOFF_MAX, attempt)
  }

  predicate Splits(batch: Batch, status: int) {
    status == 413 && |batch.records| > 1
  }

  predicate ClientError(status: int) {
    400 <= status < 500 && status != 413 && status != 429
  }

  function SplitBatch(batch: Batch): seq<Batch> {
    var half := |batch.records| / 2;
    [batch.(records := batch.records[..half]), batch.(records := batch.records[half..])]
  }

  ghost function Settled(cfg: Config, st: State, env: string, batch: Batch, reply: Outcome, now: nat): State
    requires NoEmptyBatch(st.lanes) && batch.records != []
  {
    var n := |batch.records|;
    var l := LaneOf(st.lanes, env);
    match reply
    case Posted(accepted, duplicates, rejected) =>
      var stats := st.stats.(sent := st.stats.sent + accepted + duplicates, rejected := st.stats.rejected + rejected);
      if env in st.lanes then st.(stats := stats, lanes := st.lanes[env := l.(failures := 0, blockedUntil := 0)])
      else st.(stats := stats)
    case Failed(status, retryAfter) =>
      if Splits(batch, status) then
        st.(lanes := st.lanes[env := l.(ready := SplitBatch(batch) + l.ready,
                                        readyBytes := l.readyBytes + TotalBytes(batch.records))])
      else if status == 413 then st.(stats := st.stats.(tooLarge := st.stats.tooLarge + n))
      else if ClientError(status) then st.(stats := st.stats.(clientError := st.stats.clientError + n))
      else if batch.attempts + 1 >= cfg.maxAttempts then
        st.(stats := st.stats.(retriesExhausted := st.stats.retriesExhausted + n))
      else
        TrimState(cfg, st.(lanes := st.lanes[env := PutBack(l, batch, retryAfter, now)]))
  }

  // The lane with a batch put back to be sent again.
  function PutBack(l: Lane, batch: Batch, retryAfter: int, now: nat): Lane {
    l.(failures := l.failures + 1,
       blockedUntil := now + if retryAfter > 0 then retryAfter else Backoff(batch.attempts + 1),
       ready := [batch.(attempts := batch.attempts + 1)] + l.ready,
       readyBytes := l.readyBytes + TotalBytes(batch.records))
  }

  /// Counting lemmas

  lemma QueuedUpdate(lanes: Lanes, env: string, l: Lane)
    ensures Queued(lanes[env := l]) == Queued(lanes) - |Records(LaneOf(lanes, env))| + |Records(l)|
  {
    hide Records;
    assert Counts(lanes[env := l]) == Counts(lanes)[env := |Records(l)|];
    TotalUpdate(Counts(lanes), env, |Records(l)|);
    EmptyLaneHoldsNothing();
  }

  lemma EmptyLaneHoldsNothing()
    ensures Records(EMPTY_LANE) == []
  {
  }

  lemma DropHeadRecords(l: Lane)
    requires Records(l) != [] && forall b :: b in l.ready ==> b.records != []
    ensures Records(DropHead(l)) == Records(l)[1..]
    ensures forall b :: b in DropHead(l).ready ==> b.records != []
  {
    if l.ready != [] {
      var b := l.ready[0];
      assert b in l.ready;
      var rest := b.(records := b.records[1..]);
      if rest.records == [] {
        assert b.records == [b.records[0]];
      } else {
        assert ([rest] + l.ready[1..])[1..] == l.ready[1..];
      }
      assert Flatten(DropHead(l).ready) == Flatten(l.ready)[1..];
    } else {
      assert Flatten(l.ready) == [];
    }
  }

  lemma DropHeadShrinks(lanes: Lanes, env: string)
    requires NoEmptyBatch(lanes) && env in lanes && Records(lanes[env]) != []
    ensures var after := lanes[env := DropHead(lanes[env])];
      Queued(after) == Queued(lanes) - 1 && NoEmptyBatch(after) && after.Keys == lanes.Keys
  {
    DropHeadRecords(lanes[env]);
    QueuedUpdate(lanes, env, DropHead(lanes[env]));
  }

  lemma {:induction false} OldestAmong(keys: set<string>, lanes: Lanes) returns (env: string)
    requires keys <= lanes.Keys && exists e :: e in keys && Records(lanes[e]) != []
    ensures env in keys && Records(lanes[env]) != []
    ensures forall e :: e in keys && Records(lanes[e]) != [] ==>
      Records(lanes[env])[0].seqNo <= Records(lanes[e])[0].seqNo
  {
    var x :| x in keys && Records(lanes[x]) != [];
    env := x;
    if exists e :: e in keys - {x} && Records(lanes[e]) != [] {
      var y := OldestAmong(keys - {x}, lanes);
      if Records(lanes[y])[0].seqNo < Records(lanes[x])[0].seqNo { env := y; }
    }
  }

  lemma OldestExists(lanes: Lanes)
    requires Queued(lanes) > 0
    ensures exists env :: IsOldest(lanes, env)
  {
    TotalPositive(Counts(lanes));
    var env := OldestAmong(lanes.Keys, lanes);
    assert IsOldest(lanes, env);
  }

  lemma {:induction false} QueuedTrimmed(lanes: Lanes, limit: nat)
    requires NoEmptyBatch(lanes)
    ensures Queued(Trimmed(lanes, limit)) == Min(Queued(lanes), limit)
    decreases Queued(lanes)
  {
    if Queued(lanes) > limit {
      var env := Oldest(lanes);
      DropHeadShrinks(lanes, env);
      QueuedTrimmed(lanes[env := DropHead(lanes[env])], limit);
    }
  }

  lemma TrimmedNext(lanes: Lanes, limit: nat)
    requires NoEmptyBatch(lanes) && Queued(lanes) > limit
    ensures var env := Oldest(lanes);
      && NoEmptyBatch(lanes[env := DropHead(lanes[env])])
      && Trimmed(lanes, limit) == Trimmed(lanes[env := DropHead(lanes[env])], limit)
  {
    DropHeadShrinks(lanes, Oldest(lanes));
    hide Records, DropHead, Queued;
  }

  lemma TrimmedDone(lanes: Lanes, limit: nat)
    requires NoEmptyBatch(lanes) && Queued(lanes) <= limit
    ensures Trimmed(lanes, limit) == lanes
  {
  }
}
