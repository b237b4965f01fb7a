/**
 What each step of the buffer comes to at any moment of any run, in plain
 numbers (buffer.go).
 */
module LogMeaning {
  import opened Options
  import opened LogQueue
  import opened LogRuns
  import opened LogTheorems
  import CanonicalJson

  // What the step from a moment of a run leads to.
  ghost function Next(cfg: Config, events: seq<Event>, ev: Event): Run {
    InvUsable(cfg, After(cfg, events));
    Apply(cfg, After(cfg, events), ev)
  }

  /// Replies

  lemma FlightAt(cfg: Config, events: seq<Event>)
    requires After(cfg, events).flight.Some?
    ensures var r := After(cfg, events);
      && NoEmptyBatch(r.st.lanes) && r.flight.value.batch.records != [] && r.flight.value.env in r.st.lanes
  {
    hide After, Inv;
    var r := After(cfg, events);
    InvUsable(cfg, r);
    FlightInv(cfg, r);
  }

  lemma ReplySettles(cfg: Config, events: seq<Event>, reply: Outcome, now: nat)
    requires After(cfg, events).flight.Some?
    ensures var r := After(cfg, events); var Flight(env, batch) := r.flight.value;
      && NoEmptyBatch(r.st.lanes) && batch.records != [] && env in r.st.lanes
      && Next(cfg, events, Reply(reply, now)).st == Settled(cfg, r.st, env, batch, reply, now)
      && Next(cfg, events, Reply(reply, now)).flight == None
  {
    hide After, Settled, NoEmptyBatch;
    FlightAt(cfg, events);
  }

  // Seconds to wait when the server names no time: doubled for each attempt
  // before, five minutes from the tenth on.
  function WaitSeconds(attempts: nat): nat {
    if attempts < 9 then [1, 2, 4, 8, 16, 32, 64, 128, 256][attempts] else 300
  }

  lemma BackoffIs(attempts: nat)
    ensures Backoff(attempts + 1) == WaitSeconds(attempts) * 1_000_000_000
  {
    assert Pow2(0) == 1 && Pow2(1) == 2 && Pow2(2) == 4 && Pow2(3) == 8 && Pow2(4) == 16;
    assert Pow2(5) == 32 && Pow2(6) == 64 && Pow2(7) == 128 && Pow2(8) == 256 && Pow2(9) == 512;
    hide Pow2;
    if attempts >= 9 { PowersGrow(9, attempts); }
  }

  lemma {:induction false} PowersGrow(m: nat, n: nat)
    requires m <= n
    ensures Pow2(m) <= Pow2(n)
    decreases n - m
  {
    if m < n { PowersGrow(m, n - 1); }
  }

  // The lanes less what overflows, and that counted: all else stays.
  ghost predicate Trims(cfg: Config, before: State, waiting: Lanes, after: State) {
    && NoEmptyBatch(waiting) && after.lanes == Trimmed(waiting, cfg.maxBuffer)
    && after.stats == before.stats.(overflow := after.stats.overflow)
    && after.stats.overflow == before.stats.overflow + (Queued(waiting) - Queued(after.lanes))
    && after.closed == before.closed
  }

  lemma TrimStateTrims(cfg: Config, before: State, st: State)
    requires NoEmptyBatch(st.lanes) && st.stats == before.stats && st.closed == before.closed
    ensures Trims(cfg, before, st.lanes, TrimState(cfg, st)) && TrimState(cfg, st).seqNo == st.seqNo
  {
    hide NoEmptyBatch, Trimmed, Queued;
  }

  // A lane with a batch in front of it, waiting until then.
  function Again(l: Lane, batch: Batch, until: nat): Lane {
    Lane([Batch(batch.records, batch.attempts + 1)] + l.ready, l.readyBytes + TotalBytes(batch.records),
         l.pending, l.pendingBytes, until, l.failures + 1)
  }

  // A failure that is retried while attempts are left (no answer, a status below
  // 400 or from 500 on, or 429): the batch goes to the front of its lane with
  // one more attempt, the lane waits, and only what then overflows is lost.
  lemma RetryMeans(cfg: Config, events: seq<Event>, status: int, retryAfter: int, now: nat)
    requires var r := After(cfg, events);
      r.flight.Some? && r.flight.value.batch.attempts + 1 < cfg.maxAttempts
    requires status == 429 || status < 400 || status >= 500
    ensures var r, t := After(cfg, events), Next(cfg, events, Reply(Failed(status, retryAfter), now)).st;
      var Flight(env, batch) := r.flight.value;
      var wait := if retryAfter > 0 then retryAfter else WaitSeconds(batch.attempts) * 1_000_000_000;
      && env in r.st.lanes && t.seqNo == r.st.seqNo
      && Trims(cfg, r.st, r.st.lanes[env := Again(r.st.lanes[env], batch, now + wait)], t)
  {
    hide *;
    ReplySettles(cfg, events, Failed(status, retryAfter), now);
    var r := After(cfg, events);
    var Flight(env, batch) := r.flight.value;
    IsRetried(cfg, batch, status);
    SettledRetry(cfg, r.st, env, batch, status, retryAfter, now);
    PresentLane(r.st.lanes, env);
    PutBackIs(r.st.lanes[env], batch, retryAfter, now);
    var l := PutBack(r.st.lanes[env], batch, retryAfter, now);
    TrimStateTrims(cfg, r.st, r.st.(lanes := r.st.lanes[env := l]));
  }

  lemma PresentLane(lanes: Lanes, env: string)
    ensures env in lanes ==> LaneOf(lanes, env) == lanes[env]
  {
  }

  lemma IsRetried(cfg: Config, batch: Batch, status: int)
    requires batch.attempts + 1 < cfg.maxAttempts && (status == 429 || status < 400 || status >= 500)
    ensures !Splits(batch, status) && !GivesUp(cfg, batch, status)
  {
  }

  lemma PutBackIs(l: Lane, batch: Batch, retryAfter: int, now: nat)
    ensures var wait := if retryAfter > 0 then retryAfter else WaitSeconds(batch.attempts) * 1_000_000_000;
      PutBack(l, batch, retryAfter, now) == Again(l, batch, now + wait)
  {
    hide Backoff, WaitSeconds, TotalBytes;
    BackoffIs(batch.attempts);
  }

  // With no attempt left the batch is dropped, and counted as that.
  lemma ExhaustedMeans(cfg: Config, events: seq<Event>, status: int, retryAfter: int, now: nat)
    requires var r := After(cfg, events);
      r.flight.Some? && r.flight.value.batch.attempts + 1 >= cfg.maxAttempts
    requires status == 429 || status < 400 || status >= 500
    ensures var r, t := After(cfg, events), Next(cfg, events, Reply(Failed(status, retryAfter), now)).st;
      t == r.st.(stats := r.st.stats.(
        retriesExhausted := r.st.stats.retriesExhausted + |r.flight.value.batch.records|))
  {
    hide After, TrimState, NoEmptyBatch, PutBack, TotalBytes, Next;
    ReplySettles(cfg, events, Failed(status, retryAfter), now);
  }

  // Any other 4xx but 413 is never retried.
  lemma ClientErrorMeans(cfg: Config, events: seq<Event>, status: int, retryAfter: int, now: nat)
    requires After(cfg, events).flight.Some? && 400 <= status <= 499 && status != 413 && status != 429
    ensures var r, t := After(cfg, events), Next(cfg, events, Reply(Failed(status, retryAfter), now)).st;
      t == r.st.(stats := r.st.stats.(clientError := r.st.stats.clientError + |r.flight.value.batch.records|))
  {
    hide After, TrimState, NoEmptyBatch, PutBack, TotalBytes, Next;
    ReplySettles(cfg, events, Failed(status, retryAfter), now);
  }

  // 413 drops a single record, and halves any larger batch, whose halves go to
  // the front with the attempts they had; the lane does not wait.
  lemma TooLargeMeans(cfg: Config, events: seq<Event>, retryAfter: int, now: nat)
    requires After(cfg, events).flight.Some?
    ensures var r, t := After(cfg, events), Next(cfg, events, Reply(Failed(413, retryAfter), now)).st;
      var Flight(env, batch) := r.flight.value; var n := |batch.records|;
      && env in r.st.lanes
      && if n == 1 then t == r.st.(stats := r.st.stats.(tooLarge := r.st.stats.tooLarge + 1))
         else
           var l := r.st.lanes[env];
           var halves := [Batch(batch.records[..n / 2], batch.attempts), Batch(batch.records[n / 2..], batch.attempts)];
           t == r.st.(lanes := r.st.lanes[env := Lane(
             halves + l.ready, l.readyBytes + TotalBytes(batch.records), l.pending, l.pendingBytes,
             l.blockedUntil, l.failures)])
  {
    hide After, TrimState, NoEmptyBatch, PutBack, TotalBytes, Next;
    ReplySettles(cfg, events, Failed(413, retryAfter), now);
  }

  // A 2xx counts what was accepted or known already as sent and what was
  // refused as rejected, ends the waiting of the lane, and keeps all else.
  lemma PostedMeans(cfg: Config, events: seq<Event>, accepted: int, duplicates: int, rejected: nat, now: nat)
    requires After(cfg, events).flight.Some?
    ensures var r, t := After(cfg, events), Next(cfg, events, Reply(Posted(accepted, duplicates, rejected), now)).st;
      var env, s := r.flight.value.env, r.st.stats;
      && env in r.st.lanes
      && var l := r.st.lanes[env];
      t == State(
        r.st.lanes[env := Lane(l.ready, l.readyBytes, l.pending, l.pendingBytes, 0, 0)],
        Stats(s.sent + accepted + duplicates, s.overflow, s.tooLarge, s.rejected + rejected, s.clientError,
              s.retriesExhausted, s.afterClose),
        r.st.seqNo, r.st.closed)
  {
    hide After, TrimState, NoEmptyBatch, PutBack, TotalBytes, Next;
    ReplySettles(cfg, events, Posted(accepted, duplicates, rejected), now);
  }

  /// Enqueueing and closing

  // A lane with a record behind it.
  function Behind(l: Lane, body: CanonicalJson.Json, seqNo: nat): Lane {
    var size := |CanonicalJson.Encode(body)|;
    Lane(l.ready, l.readyBytes, l.pending + [Record(body, size, seqNo)], l.pendingBytes + size, l.blockedUntil,
      l.failures)
  }

  // A closed buffer only counts the record, and any buffer one that is too
  // large; else it waits at the end of its lane under the next number.
  lemma EnqueueMeans(cfg: Config, events: seq<Event>, env: string, body: CanonicalJson.Json)
    ensures var r, t := After(cfg, events), Next(cfg, events, Enqueue(env, body)).st;
      if r.st.closed then t == r.st.(stats := r.st.stats.(afterClose := r.st.stats.afterClose + 1))
      else if |CanonicalJson.Encode(body)| > 4_500_000 then
        t == r.st.(stats := r.st.stats.(tooLarge := r.st.stats.tooLarge + 1))
      else
        var l := if env in r.st.lanes then r.st.lanes[env] else Lane([], 0, [], 0, 0, 0);
        && Trims(cfg, r.st, r.st.lanes[env := Behind(l, body, r.st.seqNo + 1)], t)
        && t.seqNo == r.st.seqNo + 1
  {
    var r := After(cfg, events);
    hide After, Inv, Trimmed, Queued, Records, CanonicalJson.Encode, Trims, TrimState, NoEmptyBatch;
    InvUsable(cfg, r);
    if !r.st.closed && SizeOf(body) <= MAX_BATCH_BYTES {
      var l := LaneOf(r.st.lanes, env);
      NewLane(r.st.lanes, env, body, r.st.seqNo + 1);
      TrimStateTrims(cfg, r.st, r.st.(lanes := r.st.lanes[env := WithNew(l, body, r.st.seqNo + 1)],
                                      seqNo := r.st.seqNo + 1));
    }
  }

  lemma NewLane(lanes: Lanes, env: string, body: CanonicalJson.Json, seqNo: nat)
    requires NoEmptyBatch(lanes)
    ensures NoEmptyBatch(lanes[env := WithNew(LaneOf(lanes, env), body, seqNo)])
    ensures WithNew(LaneOf(lanes, env), body, seqNo) == Behind(LaneOf(lanes, env), body, seqNo)
  {
    hide CanonicalJson.Encode;
  }

  lemma CloseMeans(cfg: Config, events: seq<Event>)
    ensures Next(cfg, events, Close) == After(cfg, events).(st := After(cfg, events).st.(closed := true))
  {
    hide After;
  }

  /// Taking a batch

  // When a take finds something: there is a record, the lane waits for nothing,
  // and a batch is ready, or the take is forced, or enough records or bytes wait.
  predicate Due(cfg: Config, l: Lane, force: bool, now: nat) {
    && (l.ready != [] || l.pending != []) && l.blockedUntil <= now
    && (l.ready != [] || force || |l.pending| >= cfg.flushSize || l.pendingBytes >= cfg.flushBytes)
  }

  // The longest front of the records within 200 records and 4,500,000 bytes,
  // but at least one record.
  ghost predicate LongestFront(pending: seq<Record>, n: nat) {
    && 1 <= n <= |pending| && n <= 200 && (n > 1 ==> TotalBytes(pending[..n]) <= 4_500_000)
    && (n == |pending| || n == 200 || TotalBytes(pending[..n + 1]) > 4_500_000)
  }

  lemma TakeMeans(cfg: Config, events: seq<Event>, env: string, force: bool, now: nat)
    requires After(cfg, events).flight.None?
    ensures var r, t := After(cfg, events), Next(cfg, events, Take(env, force, now));
      if env !in r.st.lanes || !Due(cfg, r.st.lanes[env], force, now) then t == r
      else
        var l := r.st.lanes[env];
        && t.flight.Some? && t.flight.value.env == env
        && t.st == r.st.(lanes := r.st.lanes[env := t.st.lanes[env]]) && env in t.st.lanes
        && t.st.lanes[env].blockedUntil == l.blockedUntil && t.st.lanes[env].failures == l.failures
        && if l.ready != [] then
             t.flight.value.batch == l.ready[0] && t.st.lanes[env].ready == l.ready[1..]
             && t.st.lanes[env].pending == l.pending
           else
             var n := |t.flight.value.batch.records|;
             && LongestFront(l.pending, n) && t.flight.value.batch == Batch(l.pending[..n], 0)
             && t.st.lanes[env].ready == [] && t.st.lanes[env].pending == l.pending[n..]
  {
    hide After, Inv, TotalBytes, BatchEnd, Bumped;
    var r := After(cfg, events);
    InvUsable(cfg, r);
    if env in r.st.lanes {
      var l := r.st.lanes[env];
      SomethingThere(r.st.lanes, env);
      if Due(cfg, l, force, now) && l.ready == [] {
        hide LongestFront;
        FrontIsLongest(l.pending);
      }
      hide Records, NoEmptyBatch;
    }
  }

  lemma SomethingThere(lanes: Lanes, env: string)
    requires NoEmptyBatch(lanes) && env in lanes
    ensures Records(lanes[env]) == [] <==> lanes[env].ready == [] && lanes[env].pending == []
  {
    var l := lanes[env];
    if l.ready != [] {
      assert l.ready[0].records != [];
    }
  }

  lemma FrontIsLongest(pending: seq<Record>)
    requires pending != []
    ensures var n := BatchEnd(pending, 0, 0); LongestFront(pending, n) && |pending[..n]| == n
  {
    FrontFrom(pending, 0, 0);
  }

  lemma {:induction false} FrontFrom(pending: seq<Record>, n: nat, total: nat)
    requires pending != [] && n <= |pending| && n <= 200 && total == TotalBytes(pending[..n])
    requires n > 1 ==> total <= 4_500_000
    ensures LongestFront(pending, BatchEnd(pending, n, total))
    decreases |pending| - n
  {
    hide TotalBytes;
    if n < |pending| {
      assert pending[..n + 1] == pending[..n] + [pending[n]];
      LastBytes(pending, n);
      if n < 200 && (n == 0 || total + pending[n].bytes <= 4_500_000) {
        FrontFrom(pending, n + 1, total + pending[n].bytes);
      }
    }
    if n == 0 { NoBytes(pending); }
  }

  lemma NoBytes(pending: seq<Record>)
    ensures TotalBytes(pending[..0]) == 0
  {
  }

  lemma LastBytes(pending: seq<Record>, n: nat)
    requires n < |pending|
    ensures TotalBytes(pending[..n + 1]) == TotalBytes(pending[..n]) + pending[n].bytes
  {
    assert pending[..n + 1] == pending[..n] + [pending[n]];
    TotalBytesConcat(pending[..n], [pending[n]]);
  }
}
