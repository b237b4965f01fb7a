/**
 The monitoring-log buffer itself (buffer.go).  Its methods run under one lock
 and only one goroutine sends, so the ghost field `run` can follow them as the
 run they are steps of: each method takes the step its contract names.
 */
module LogBuffer {
  import opened Options
  import JsonWriter
  import SortedStrings
  import opened LogQueue
  import opened LogRuns
  import opened LogTheorems
  import CanonicalJson
  import Totals

  class Buffer {
    const cfg: Config
    var lanes: Lanes
    var stats: Stats
    var seqNo: nat
    var closed: bool
    ghost var run: Run

    function View(): State
      reads this
    {
      State(lanes, stats, seqNo, closed)
    }

    ghost predicate Valid()
      reads this
    {
      run.st == View() && Inv(cfg, run)
    }

    constructor (cfg: Config)
      ensures Valid() && this.cfg == cfg && run == START
    {
      hide Inv;
      this.cfg := cfg;
      lanes := map[];
      stats := INITIAL.stats;
      seqNo := 0;
      closed := false;
      run := START;
      new;
      StartOK(cfg);
    }

    method TotalQueued() returns (total: nat)
      ensures total == Queued(lanes)
    {
      hide Records, Totals.Total;
      total := 0;
      var rest := lanes.Keys;
      ghost var left := Counts(lanes);
      while rest != {}
        invariant left.Keys == rest && rest <= lanes.Keys
        invariant forall e :: e in rest ==> left[e] == |Records(lanes[e])|
        invariant total + Totals.Total(left) == Queued(lanes)
        decreases |rest|
      {
        var env :| env in rest;
        Totals.TotalRemove(left, env);
        var n := Count(lanes[env]);
        total := total + n;
        left := left - {env};
        rest := rest - {env};
      }
      assert left == map[];
      TotalOfNone();
    }

    // headSeq: the enqueue number of the lane's oldest record.
    static method HeadSeq(l: Lane) returns (head: Option<nat>)
      ensures head == if Records(l) == [] then None else Some(Records(l)[0].seqNo)
    {
      var i := 0;
      assert l.ready[0..] == l.ready;
      while i < |l.ready|
        invariant i <= |l.ready| && Flatten(l.ready) == Flatten(l.ready[i..])
      {
        assert l.ready[i..][1..] == l.ready[i + 1..];
        if |l.ready[i].records| > 0 {
          return Some(l.ready[i].records[0].seqNo);
        }
        i := i + 1;
      }
      if |l.pending| > 0 {
        return Some(l.pending[0].seqNo);
      }
      return None;
    }

    method OldestLane() returns (pick: Option<string>)
      ensures pick.None? ==> Queued(lanes) == 0
      ensures pick.Some? ==> IsOldest(lanes, pick.value)
    {
      hide Records;
      var names := SortedStrings.SortedKeys(lanes.Keys);
      assert forall e :: e in lanes ==> e in names;
      pick := OldestOf(names);
      if pick.None? {
        Totals.TotalPositive(Counts(lanes));
      }
    }

    method OldestOf(names: seq<string>) returns (pick: Option<string>)
      requires forall k :: 0 <= k < |names| ==> names[k] in lanes
      ensures pick.None? ==> forall e :: e in names ==> Records(lanes[e]) == []
      ensures pick.Some? ==>
        && pick.value in lanes && Records(lanes[pick.value]) != []
        && forall e :: e in names && Records(lanes[e]) != [] ==>
             Records(lanes[pick.value])[0].seqNo <= Records(lanes[e])[0].seqNo
    {
      hide Records;
      pick := None;
      var pickSeq := 0;
      var i := 0;
      while i < |names|
        invariant i <= |names|
        invariant pick.None? ==> forall k :: 0 <= k < i ==> Records(lanes[names[k]]) == []
        invariant pick.Some? ==>
          && pick.value in lanes && Records(lanes[pick.value]) != [] && pickSeq == Records(lanes[pick.value])[0].seqNo
          && forall k :: 0 <= k < i && Records(lanes[names[k]]) != [] ==> pickSeq <= Records(lanes[names[k]])[0].seqNo
      {
        var head := HeadSeq(lanes[names[i]]);
        if head.Some? && (pick.None? || head.value < pickSeq) {
          pick := Some(names[i]);
          pickSeq := head.value;
        }
        i := i + 1;
      }
    }

    // trimToBound.  A lane that holds a record has no empty ready batch, so the
    // branches that would discard one are never taken.
    method TrimToBound(ghost owner: map<nat, string>) returns (dropped: nat)
      requires NoEmptyBatch(lanes) && Ordered(owner, lanes)
      modifies this`lanes, this`stats
      ensures View() == TrimState(cfg, old(View()))
      ensures dropped == stats.overflow - old(stats.overflow)
    {
      hide Records, Ordered, Trimmed, DropHead, Queued;
      var limit := cfg.maxBuffer;
      dropped := 0;
      QueuedTrimmed(lanes, limit);
      var total := TotalQueued();
      while total > limit
        invariant NoEmptyBatch(lanes) && Ordered(owner, lanes) && total == Queued(lanes)
        invariant Trimmed(lanes, limit) == Trimmed(old(lanes), limit)
        invariant dropped + Queued(lanes) == old(Queued(lanes))
        invariant stats == old(stats)
        decreases total
      {
        var pick := OldestLane();
        if pick.None? { break; }
        var env := pick.value;
        OldestUnique(lanes, owner, env);
        TrimmedNext(lanes, limit);
        DropHeadShrinks(lanes, env);
        DropHeadOrdered(lanes, owner, env);
        DropOldest(env);
        dropped := dropped + 1;
        total := TotalQueued();
      }
      QueuedTrimmed(lanes, limit);
      TrimmedDone(lanes, limit);
      stats := stats.(overflow := stats.overflow + dropped);
    }

    method DropOldest(env: string)
      requires env in lanes && Records(lanes[env]) != [] && NoEmptyBatch(lanes)
      modifies this`lanes
      ensures lanes == old(lanes[env := DropHead(lanes[env])])
    {
      var l := lanes[env];
      if |l.ready| > 0 {
        var batch := l.ready[0];
        assert batch in l.ready;
        l := l.(readyBytes := l.readyBytes - batch.records[0].bytes);
        batch := batch.(records := batch.records[1..]);
        if |batch.records| == 0 {
          l := l.(ready := l.ready[1..]);
        } else {
          l := l.(ready := l.ready[0 := batch]);
          assert l.ready == [batch] + lanes[env].ready[1..];
        }
      } else {
        l := l.(pendingBytes := l.pendingBytes - l.pending[0].bytes);
        l := l.(pending := l.pending[1..]);
      }
      lanes := lanes[env := l];
    }

    // enqueue: the error result is ErrClosed.
    method Enqueue(env: string, record: CanonicalJson.Json) returns (errClosed: bool)
      requires Valid()
      modifies this
      ensures Valid() && run == Apply(cfg, old(run), LogRuns.Enqueue(env, record))
      ensures errClosed == old(closed)
    {
      hide Inv, Enqueued;
      StepOK(cfg, run, LogRuns.Enqueue(env, record));
      errClosed := EnqueueLocked(env, record);
      run := Apply(cfg, run, LogRuns.Enqueue(env, record));
    }

    method EnqueueLocked(env: string, record: CanonicalJson.Json) returns (errClosed: bool)
      requires Valid() && NoEmptyBatch(lanes)
      modifies this`lanes, this`stats, this`seqNo
      ensures View() == Enqueued(cfg, old(View()), env, record)
      ensures errClosed == old(closed)
    {
      hide Inv, TrimState, NoEmptyBatch, CanonicalJson.Size;
      var size := JsonWriter.JsonSize(record);
      if closed {
        stats := stats.(afterClose := stats.afterClose + 1);
        return true;
      }
      if size > MAX_BATCH_BYTES {
        stats := stats.(tooLarge := stats.tooLarge + 1);
        return false;
      }
      EnqueuedOrdered(cfg, run, env, record);
      seqNo := seqNo + 1;
      var l := LaneOf(lanes, env);
      l := l.(pending := l.pending + [Record(record, size, seqNo)]);
      l := l.(pendingBytes := l.pendingBytes + size);
      lanes := lanes[env := l];
      var dropped := TrimToBound(run.h.owner[seqNo := env]);
      return false;
    }

    method Close() returns (already: bool)
      requires Valid()
      modifies this
      ensures Valid() && run == Apply(cfg, old(run), LogRuns.Close) && already == old(closed)
    {
      StepOK(cfg, run, LogRuns.Close);
      already := closed;
      run := Apply(cfg, run, LogRuns.Close);
      hide Inv;
      closed := true;
    }

    // takeBatch: what it takes is in flight from then on.
    method TakeBatch(env: string, force: bool, now: nat) returns (taken: Option<Batch>)
      requires Valid() && run.flight.None?
      modifies this
      ensures Valid() && run == Apply(cfg, old(run), Take(env, force, now))
      ensures taken == Taken(cfg, old(View()), env, force, now).1
      ensures run.flight == if taken.Some? then Some(Flight(env, taken.value)) else None
      ensures taken.None? ==> View() == old(View())
    {
      hide Inv, Taken, Bumped, NoEmptyBatch;
      StepOK(cfg, run, Take(env, force, now));
      TakenNothing(cfg, View(), env, force, now);
      taken := TakeBatchLocked(env, force, now);
      run := Apply(cfg, run, Take(env, force, now));
    }

    method TakeBatchLocked(env: string, force: bool, now: nat) returns (taken: Option<Batch>)
      modifies this`lanes
      ensures (View(), taken) == Taken(cfg, old(View()), env, force, now)
    {
      hide BatchEnd, TotalBytes, Records;
      if env !in lanes {
        return None;
      }
      var l := lanes[env];
      var n := Count(l);
      if n == 0 || l.blockedUntil > now {
        return None;
      }
      if |l.ready| > 0 {
        var batch := l.ready[0];
        var bytes := ByteSize(batch);
        l := l.(ready := l.ready[1..]);
        l := l.(readyBytes := l.readyBytes - bytes);
        lanes := lanes[env := l];
        return Some(batch);
      }
      if !force && |l.pending| < cfg.flushSize && l.pendingBytes < cfg.flushBytes {
        return None;
      }
      NothingReady(l);
      var batch, rest := FillBatch(l);
      lanes := lanes[env := rest];
      return Some(batch);
    }

    // The greedy loop of takeBatch.
    static method FillBatch(lane: Lane) returns (batch: Batch, l: Lane)
      requires lane.pending != []
      ensures var n := BatchEnd(lane.pending, 0, 0);
        && batch == Batch(lane.pending[..n], 0) && n > 0
        && l == lane.(pending := lane.pending[n..], pendingBytes := lane.pendingBytes - TotalBytes(lane.pending[..n]))
    {
      l := lane;
      batch := Batch([], 0);
      var total := 0;
      ghost var n := 0;
      while |l.pending| > 0 && |batch.records| < MAX_BATCH_RECORDS
        invariant n <= |lane.pending| && batch == Batch(lane.pending[..n], 0)
        invariant l == lane.(pending := lane.pending[n..], pendingBytes := lane.pendingBytes - total)
        invariant total == TotalBytes(lane.pending[..n])
        invariant BatchEnd(lane.pending, 0, 0) == BatchEnd(lane.pending, n, total)
        decreases |l.pending|
      {
        var next := l.pending[0];
        if |batch.records| > 0 && total + next.bytes > MAX_BATCH_BYTES {
          break;
        }
        assert lane.pending[..n + 1] == lane.pending[..n] + [next];
        TotalBytesConcat(lane.pending[..n], [next]);
        batch := batch.(records := batch.records + [next]);
        total := total + next.bytes;
        l := l.(pendingBytes := l.pendingBytes - next.bytes);
        l := l.(pending := l.pending[1..]);
        n := n + 1;
      }
    }

    // send, once the reply is known, with handleSendError for the failures.
    method Settle(env: string, batch: Batch, reply: Outcome, now: nat)
      requires Valid() && run.flight == Some(Flight(env, batch))
      modifies this
      ensures Valid() && run == Apply(cfg, old(run), Reply(reply, now))
    {
      ghost var before := run;
      hide Inv, Records, Trimmed, BatchOK, TrimState;
      StepOK(cfg, run, Reply(reply, now));
      FlightInv(cfg, run);
      run := Apply(cfg, run, Reply(reply, now));
      match reply {
        case Posted(accepted, duplicates, rejected) =>
          stats := stats.(sent := stats.sent + accepted + duplicates);
          stats := stats.(rejected := stats.rejected + rejected);
          if env in lanes {
            var l := lanes[env].(failures := 0);
            lanes := lanes[env := l.(blockedUntil := 0)];
          }
        case Failed(status, retryAfter) =>
          HandleSendError(env, batch, status, retryAfter, now, before);
      }
    }

    method HandleSendError(env: string, batch: Batch, status: int, retryAfter: int, now: nat, ghost before: Run)
      requires NoEmptyBatch(lanes) && batch.records != []
      requires before.st == View() && before.flight == Some(Flight(env, batch)) && Inv(cfg, before)
      modifies this`lanes, this`stats
      ensures View() == Settled(cfg, old(View()), env, batch, Failed(status, retryAfter), now)
    {
      hide Inv, Records, Trimmed;
      var bytes := ByteSize(batch);
      if status == 413 && |batch.records| > 1 {
        var half := |batch.records| / 2;
        var l := LaneOf(lanes, env);
        l := l.(ready := [Batch(batch.records[..half], batch.attempts), Batch(batch.records[half..], batch.attempts)]
          + l.ready);
        l := l.(readyBytes := l.readyBytes + bytes);
        lanes := lanes[env := l];
        return;
      }
      if status == 413 {
        stats := stats.(tooLarge := stats.tooLarge + |batch.records|);
        return;
      }
      if status >= 400 && status < 500 && status != 429 {
        stats := stats.(clientError := stats.clientError + |batch.records|);
        return;
      }
      var again := batch.(attempts := batch.attempts + 1);
      if again.attempts >= cfg.maxAttempts {
        stats := stats.(retriesExhausted := stats.retriesExhausted + |batch.records|);
        return;
      }
      Retry(env, batch, again, bytes, status, retryAfter, now, before);
    }

    method Retry(env: string, batch: Batch, again: Batch, bytes: nat, status: int, retryAfter: int, now: nat,
        ghost before: Run)
      requires NoEmptyBatch(lanes) && batch.records != [] && bytes == TotalBytes(batch.records)
      requires again == batch.(attempts := batch.attempts + 1)
      requires !Splits(batch, status) && !GivesUp(cfg, batch, status)
      requires before.st == View() && before.flight == Some(Flight(env, batch)) && Inv(cfg, before)
      modifies this`lanes, this`stats
      ensures View() == Settled(cfg, old(View()), env, batch, Failed(status, retryAfter), now)
    {
      hide Inv, Records, Trimmed, Settled, TrimState, Doubled;
      SettledRetry(cfg, View(), env, batch, status, retryAfter, now);
      var l := LaneOf(lanes, env);
      l := l.(failures := l.failures + 1);
      var delay := retryAfter;
      if delay <= 0 {
        delay := BackoffDelay(BACKOFF_MIN, BACKOFF_MAX, again.attempts);
      }
      l := l.(blockedUntil := now + delay);
      l := l.(ready := [again] + l.ready);
      l := l.(readyBytes := l.readyBytes + bytes);
      lanes := lanes[env := l];
      hide NoEmptyBatch;
      RetriedOrdered(cfg, before, lanes, l);
      var dropped := TrimToBound(before.h.owner);
    }
  }

  lemma NothingReady(l: Lane)
    requires l.ready == []
    ensures Records(l) == l.pending
  {
  }

  lemma TakenNothing(cfg: Config, st: State, env: string, force: bool, now: nat)
    ensures var (st', b) := Taken(cfg, st, env, force, now); b.None? ==> st' == st
  {
  }

  lemma TotalOfNone()
    ensures Totals.Total(map[]) == 0
  {
  }

  method Count(l: Lane) returns (n: nat)
    ensures n == |Records(l)|
  {
    n := |l.pending|;
    var i := 0;
    assert l.ready[0..] == l.ready;
    while i < |l.ready|
      invariant i <= |l.ready| && n + |Flatten(l.ready[i..])| == |Records(l)|
    {
      assert l.ready[i..][1..] == l.ready[i + 1..];
      n := n + |l.ready[i].records|;
      i := i + 1;
    }
  }

  method ByteSize(batch: Batch) returns (total: nat)
    ensures total == TotalBytes(batch.records)
  {
    total := 0;
    var i := 0;
    assert batch.records[0..] == batch.records;
    while i < |batch.records|
      invariant i <= |batch.records| && total + TotalBytes(batch.records[i..]) == TotalBytes(batch.records)
    {
      assert batch.records[i..][1..] == batch.records[i + 1..];
      total := total + batch.records[i].bytes;
      i := i + 1;
    }
  }

  method BackoffDelay(base: nat, max: nat, attempt: int) returns (d: nat)
    ensures d == Doubled(base, max, attempt)
  {
    var tries := if attempt < 1 then 1 else attempt;
    d := base;
    var i := 1;
    while i < tries
      invariant 1 <= i <= tries && d == base * Pow2(i - 1) && (i == 1 || d < max)
    {
      Pow2Grows(base, i, tries - 1);
      d := d * 2;
      if d >= max { return max; }
      i := i + 1;
    }
    if d > max { return max; }
  }

  lemma {:induction false} Pow2Grows(base: nat, a: nat, b: nat)
    requires 1 <= a <= b
    ensures base * Pow2(a) == 2 * (base * Pow2(a - 1)) && base * Pow2(a) <= base * Pow2(b)
    decreases b - a
  {
    assert Pow2(a) == 2 * Pow2(a - 1);
    if a < b {
      Pow2Grows(base, a, b - 1);
      assert base * Pow2(b) == base * (2 * Pow2(b - 1)) == 2 * (base * Pow2(b - 1));
    }
  }

  lemma OldestUnique(lanes: Lanes, owner: map<nat, string>, env: string)
    requires Ordered(owner, lanes) && IsOldest(lanes, env) && Queued(lanes) > 0
    ensures Oldest(lanes) == env
  {
    hide Queued;
    var a, b := Records(lanes[env]), Records(lanes[Oldest(lanes)]);
    assert a[0] in a && b[0] in b;
  }
}
