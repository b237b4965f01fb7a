/** Draining the monitoring-log buffer comes to an end (buffer.go). */
module LogDrain {
  import opened Totals
  import opened LogQueue
  import opened LogRuns
  import opened LogTheorems
  import opened LogBuffer
  import SortedStrings

  // How much a batch can still cost: at most so many POSTs until it is settled,
  // split down to single records, or out of attempts.
  function BatchWeight(cfg: Config, b: Batch): nat {
    if b.records == [] || b.attempts >= cfg.maxAttempts then 0
    else
      MulNonNegative(2 * |b.records| - 1, cfg.maxAttempts - b.attempts);
      (2 * |b.records| - 1) * (cfg.maxAttempts - b.attempts)
  }

  lemma {:induction false} MulNonNegative(a: nat, b: nat)
    ensures a * b >= 0
  {
    if a > 0 {
      MulNonNegative(a - 1, b);
      assert a * b == (a - 1) * b + b;
    }
  }

  function ReadyWeight(cfg: Config, ready: seq<Batch>): nat {
    if ready == [] then 0 else BatchWeight(cfg, ready[0]) + ReadyWeight(cfg, ready[1..])
  }

  function Weight(cfg: Config, l: Lane): nat {
    MulNonNegative(2 * cfg.maxAttempts, |l.pending|);
    ReadyWeight(cfg, l.ready) + 2 * cfg.maxAttempts * |l.pending|
  }

  function Weights(cfg: Config, lanes: Lanes): map<string, nat> {
    map env | env in lanes :: Weight(cfg, lanes[env])
  }

  ghost function Potential(cfg: Config, lanes: Lanes): nat {
    Total(Weights(cfg, lanes))
  }

  lemma PotentialUpdate(cfg: Config, lanes: Lanes, env: string, l: Lane)
    requires env in lanes
    ensures Potential(cfg, lanes[env := l]) == Potential(cfg, lanes) - Weight(cfg, lanes[env]) + Weight(cfg, l)
  {
    hide Weight, Total;
    assert Weights(cfg, lanes[env := l]) == Weights(cfg, lanes)[env := Weight(cfg, l)];
    TotalUpdate(Weights(cfg, lanes), env, Weight(cfg, l));
  }

  lemma MulMonotone(a: nat, b: nat, c: nat)
    requires a <= b
    ensures a * c <= b * c
  {
    MulNonNegative(b - a, c);
    assert b * c == a * c + (b - a) * c;
  }

  lemma DropHeadWeight(cfg: Config, l: Lane)
    requires Records(l) != [] && forall b :: b in l.ready ==> b.records != []
    ensures Weight(cfg, DropHead(l)) <= Weight(cfg, l)
  {
    if l.ready != [] {
      var b := l.ready[0];
      assert b in l.ready;
      var rest := b.(records := b.records[1..]);
      if rest.records != [] {
        if b.attempts < cfg.maxAttempts {
          MulMonotone(2 * |rest.records| - 1, 2 * |b.records| - 1, cfg.maxAttempts - b.attempts);
        }
        assert ([rest] + l.ready[1..])[1..] == l.ready[1..];
      }
    } else {
      MulMonotone(|l.pending[1..]|, |l.pending|, 2 * cfg.maxAttempts);
    }
  }

  lemma {:induction false} TrimmedPotential(cfg: Config, lanes: Lanes, limit: nat)
    requires NoEmptyBatch(lanes)
    ensures Potential(cfg, Trimmed(lanes, limit)) <= Potential(cfg, lanes)
    decreases Queued(lanes)
  {
    if Queued(lanes) > limit {
      var env := Oldest(lanes);
      DropHeadShrinks(lanes, env);
      DropHeadWeight(cfg, lanes[env]);
      PotentialUpdate(cfg, lanes, env, DropHead(lanes[env]));
      hide Records, DropHead, Weight;
      TrimmedPotential(cfg, lanes[env := DropHead(lanes[env])], limit);
    }
  }

  // Taking a batch moves at least its weight out of the lane.
  lemma TakeWeight(cfg: Config, l: Lane, force: bool, now: nat)
    ensures var (l', b) := TakeFrom(cfg, l, force, now);
      b.Some? ==> Weight(cfg, l) >= Weight(cfg, l') + BatchWeight(cfg, b.value)
  {
    var (l', b) := TakeFrom(cfg, l, force, now);
    if b.Some? && l.ready == [] {
      var n := |b.value.records|;
      assert |l'.pending| + n == |l.pending|;
      assert 2 * cfg.maxAttempts * |l.pending| == 2 * cfg.maxAttempts * |l'.pending| + 2 * n * cfg.maxAttempts;
      if n > 0 { MulMonotone(2 * n - 1, 2 * n, cfg.maxAttempts); }
    }
  }

  lemma SplitWeight(cfg: Config, b: Batch)
    requires |b.records| > 1 && b.attempts < cfg.maxAttempts
    ensures var halves := SplitBatch(b);
      BatchWeight(cfg, halves[0]) + BatchWeight(cfg, halves[1]) < BatchWeight(cfg, b)
  {
    var n, h, k := |b.records|, |b.records| / 2, cfg.maxAttempts - b.attempts;
    assert (2 * h - 1) * k + (2 * (n - h) - 1) * k == (2 * n - 2) * k;
    assert (2 * n - 1) * k == (2 * n - 2) * k + k;
  }

  lemma RetryWeight(cfg: Config, b: Batch)
    requires b.records != [] && b.attempts + 1 < cfg.maxAttempts
    ensures BatchWeight(cfg, b.(attempts := b.attempts + 1)) < BatchWeight(cfg, b)
  {
    var n, k := |b.records|, cfg.maxAttempts - b.attempts;
    assert (2 * n - 1) * k == (2 * n - 1) * (k - 1) + (2 * n - 1);
  }

  lemma WeightPositive(cfg: Config, b: Batch)
    requires b.records != [] && b.attempts < cfg.maxAttempts
    ensures BatchWeight(cfg, b) > 0
  {
    MulMonotone(1, 2 * |b.records| - 1, cfg.maxAttempts - b.attempts);
  }

  lemma SettleWeight(cfg: Config, st: State, env: string, batch: Batch, reply: Outcome, now: nat)
    requires NoEmptyBatch(st.lanes) && env in st.lanes && batch.records != [] && batch.attempts < cfg.maxAttempts
    ensures Potential(cfg, Settled(cfg, st, env, batch, reply, now).lanes)
      < Potential(cfg, st.lanes) + BatchWeight(cfg, batch)
  {
    WeightPositive(cfg, batch);
    hide BatchWeight, Potential, Trimmed, TrimState, Records, TotalBytes, SplitBatch, Backoff, NoEmptyBatch;
    match reply
    case Posted(_, _, _) =>
      var l := st.lanes[env];
      PotentialUpdate(cfg, st.lanes, env, l.(failures := 0, blockedUntil := 0));
    case Failed(status, retryAfter) =>
      if Splits(batch, status) {
        SettleSplitWeight(cfg, st.lanes, env, batch);
      } else if !GivesUp(cfg, batch, status) {
        hide Settled;
        SettleRetryWeight(cfg, st, env, batch, status, retryAfter, now);
      }
  }

  lemma SettleSplitWeight(cfg: Config, lanes: Lanes, env: string, batch: Batch)
    requires env in lanes && |batch.records| > 1 && batch.attempts < cfg.maxAttempts
    ensures var l := lanes[env];
      var l' := l.(ready := SplitBatch(batch) + l.ready, readyBytes := l.readyBytes + TotalBytes(batch.records));
      Potential(cfg, lanes[env := l']) < Potential(cfg, lanes) + BatchWeight(cfg, batch)
  {
    SplitWeight(cfg, batch);
    var halves, l := SplitBatch(batch), lanes[env];
    var l' := l.(ready := halves + l.ready, readyBytes := l.readyBytes + TotalBytes(batch.records));
    ReadyWeightTwo(cfg, halves[0], halves[1], l.ready);
    assert halves + l.ready == [halves[0], halves[1]] + l.ready;
    hide BatchWeight, ReadyWeight, SplitBatch, Potential, TotalBytes;
    PotentialUpdate(cfg, lanes, env, l');
  }

  lemma ReadyWeightTwo(cfg: Config, a: Batch, b: Batch, rest: seq<Batch>)
    ensures ReadyWeight(cfg, [a, b] + rest) == BatchWeight(cfg, a) + BatchWeight(cfg, b) + ReadyWeight(cfg, rest)
  {
    hide BatchWeight;
    assert ([a, b] + rest)[1..] == [b] + rest && ([b] + rest)[1..] == rest;
  }

  lemma SettleRetryWeight(cfg: Config, st: State, env: string, batch: Batch, status: int, retryAfter: int, now: nat)
    requires NoEmptyBatch(st.lanes) && env in st.lanes && batch.records != []
    requires !Splits(batch, status) && !GivesUp(cfg, batch, status)
    ensures Potential(cfg, Settled(cfg, st, env, batch, Failed(status, retryAfter), now).lanes)
      < Potential(cfg, st.lanes) + BatchWeight(cfg, batch)
  {
    hide Settled, Backoff, BatchWeight, Potential, Records, Trimmed;
    SettledRetry(cfg, st, env, batch, status, retryAfter, now);
    RetryWeight(cfg, batch);
    var again := batch.(attempts := batch.attempts + 1);
    var l := st.lanes[env];
    var l' := PutBack(l, batch, retryAfter, now);
    PotentialUpdate(cfg, st.lanes, env, l');
    assert ([again] + l.ready)[1..] == l.ready;
    TrimmedPotential(cfg, st.lanes[env := l'], cfg.maxBuffer);
  }

  // Taking a batch and settling it, whatever the reply, costs at least one.
  lemma PostWeight(cfg: Config, r: Run, env: string, now: nat, reply: Outcome, later: nat)
    requires Inv(cfg, r) && r.flight.None? && NoEmptyBatch(r.st.lanes) && env in r.st.lanes
    requires var r1 := Apply(cfg, r, Take(env, true, now));
      r1.flight.Some? && Inv(cfg, r1) && NoEmptyBatch(r1.st.lanes) && r1.flight.value.batch.records != []
    ensures var r1 := Apply(cfg, r, Take(env, true, now));
      Potential(cfg, Apply(cfg, r1, Reply(reply, later)).st.lanes) < Potential(cfg, r.st.lanes)
  {
    hide *;
    var r1 := Apply(cfg, r, Take(env, true, now));
    FlightInv(cfg, r1);
    AttemptsLeft(cfg, r1.h, r1.flight.value.batch);
    TakePotential(cfg, r, env, now);
    SettleWeight(cfg, r1.st, r1.flight.value.env, r1.flight.value.batch, reply, later);
    ReplyState(cfg, r1, reply, later);
  }

  lemma AttemptsLeft(cfg: Config, h: History, b: Batch)
    requires BatchOK(cfg, h, b, 1)
    ensures b.attempts < cfg.maxAttempts
  {
  }

  lemma ReplyState(cfg: Config, r: Run, reply: Outcome, now: nat)
    requires NoEmptyBatch(r.st.lanes) && r.flight.Some? && r.flight.value.batch.records != []
    ensures Apply(cfg, r, Reply(reply, now)).st
      == Settled(cfg, r.st, r.flight.value.env, r.flight.value.batch, reply, now)
  {
    hide Settled;
  }

  lemma TakePotential(cfg: Config, r: Run, env: string, now: nat)
    requires r.flight.None? && NoEmptyBatch(r.st.lanes) && env in r.st.lanes
    requires Apply(cfg, r, Take(env, true, now)).flight.Some?
    ensures var r1 := Apply(cfg, r, Take(env, true, now));
      Potential(cfg, r1.st.lanes) + BatchWeight(cfg, r1.flight.value.batch) <= Potential(cfg, r.st.lanes)
  {
    hide TakeFrom, Weight, BatchWeight, Potential, Bumped, NoEmptyBatch;
    var l := r.st.lanes[env];
    TakeWeight(cfg, l, true, now);
    PotentialUpdate(cfg, r.st.lanes, env, TakeFrom(cfg, l, true, now).0);
  }

  // A lane a drain may leave behind: nothing in it, or still blocked at one of
  // the clock readings from..to.
  ghost predicate Done(l: Lane, clock: nat -> nat, from: nat, to: nat) {
    Records(l) == [] || exists t :: from <= t < to && l.blockedUntil > clock(t)
  }

  // drain, for any sequence of replies and any clock, nothing being enqueued
  // meanwhile.  It ends, after at most as many POSTs as the queue has weight,
  // and leaves records only in lanes found blocked in its last pass.
  method Drain(buf: Buffer, replies: nat -> Outcome, clock: nat -> nat)
    returns (posts: nat, lastPass: nat, ticks: nat, queued: nat)
    requires buf.Valid() && buf.run.flight.None?
    modifies buf
    ensures buf.Valid() && buf.run.flight.None? && buf.run.calls == old(buf.run.calls) && buf.closed == old(buf.closed)
    ensures posts + Potential(buf.cfg, buf.lanes) <= old(Potential(buf.cfg, buf.lanes))
    ensures forall env :: env in buf.lanes ==> Done(buf.lanes[env], clock, lastPass, ticks)
    ensures queued == Queued(buf.lanes)
  {
    hide Inv, Potential, Done, Apply;
    posts, lastPass, ticks := 0, 0, 0;
    while true
      invariant buf.Valid() && buf.run.flight.None?
      invariant buf.run.calls == old(buf.run.calls) && buf.closed == old(buf.closed)
      invariant posts + Potential(buf.cfg, buf.lanes) <= old(Potential(buf.cfg, buf.lanes))
      decreases Potential(buf.cfg, buf.lanes)
    {
      lastPass := ticks;
      ghost var weight := Potential(buf.cfg, buf.lanes);
      var sent;
      posts, ticks, sent := Pass(buf, replies, clock, posts, ticks);
      if !sent { break; }
    }
    queued := buf.TotalQueued();
  }

  // close, given the time it asks for: nothing is accepted from then on, and
  // what the final flush leaves waits in lanes it found blocked.  A second call
  // does nothing.
  method Shut(buf: Buffer, replies: nat -> Outcome, clock: nat -> nat)
    returns (already: bool, posts: nat, lastPass: nat, ticks: nat)
    requires buf.Valid() && buf.run.flight.None?
    modifies buf
    ensures buf.Valid() && buf.closed && already == old(buf.closed)
    ensures posts + Potential(buf.cfg, buf.lanes) <= old(Potential(buf.cfg, buf.lanes))
    ensures if already then posts == 0 && buf.lanes == old(buf.lanes)
      else forall env :: env in buf.lanes ==> Done(buf.lanes[env], clock, lastPass, ticks)
  {
    hide Inv, Potential, Done;
    posts, lastPass, ticks := 0, 0, 0;
    already := buf.Close();
    if !already {
      var queued;
      posts, lastPass, ticks, queued := Drain(buf, replies, clock);
    }
  }

  // One round over the lanes.
  method Pass(buf: Buffer, replies: nat -> Outcome, clock: nat -> nat, posts0: nat, ticks0: nat)
    returns (posts: nat, ticks: nat, sent: bool)
    requires buf.Valid() && buf.run.flight.None?
    modifies buf
    ensures buf.Valid() && buf.run.flight.None? && buf.run.calls == old(buf.run.calls) && buf.closed == old(buf.closed)
    ensures posts + Potential(buf.cfg, buf.lanes) <= posts0 + old(Potential(buf.cfg, buf.lanes))
    ensures sent ==> posts > posts0
    ensures !sent ==> posts == posts0 && forall env :: env in buf.lanes ==> Done(buf.lanes[env], clock, ticks0, ticks)
  {
    hide Inv, Potential, Apply;
    posts, ticks, sent := posts0, ticks0, false;
    var names := SortedStrings.SortedKeys(buf.lanes.Keys);
    var i := 0;
    while i < |names|
      invariant i <= |names|
      invariant buf.Valid() && buf.run.flight.None?
      invariant buf.run.calls == old(buf.run.calls) && buf.closed == old(buf.closed)
      invariant posts + Potential(buf.cfg, buf.lanes) <= posts0 + old(Potential(buf.cfg, buf.lanes))
      invariant ticks >= ticks0 && posts >= posts0 && (sent ==> posts > posts0)
      invariant !sent ==> posts == posts0 && buf.lanes == old(buf.lanes)
      invariant !sent ==> forall k :: 0 <= k < i ==> Done(buf.lanes[names[k]], clock, ticks0, ticks)
    {
      var took := SendOne(buf, names[i], clock(ticks), replies(posts), clock(ticks + 1));
      if took {
        sent := true;
        posts := posts + 1;
        ticks := ticks + 2;
      } else {
        if !sent { StillDone(buf.lanes, names, i, clock, ticks0, ticks); }
        ticks := ticks + 1;
      }
      i := i + 1;
    }
    if !sent {
      forall env | env in buf.lanes ensures Done(buf.lanes[env], clock, ticks0, ticks) {
        assert env in names;
      }
    }
  }

  lemma StillDone(lanes: Lanes, names: seq<string>, i: nat, clock: nat -> nat, from: nat, to: nat)
    requires i < |names| && from <= to && forall k :: 0 <= k < |names| ==> names[k] in lanes
    requires forall k :: 0 <= k < i ==> Done(lanes[names[k]], clock, from, to)
    requires Records(lanes[names[i]]) == [] || lanes[names[i]].blockedUntil > clock(to)
    ensures forall k :: 0 <= k < i + 1 ==> Done(lanes[names[k]], clock, from, to + 1)
  {
    hide Records;
  }

  // Takes a lane's next batch, posts it and settles the reply.
  method SendOne(buf: Buffer, env: string, now: nat, reply: Outcome, later: nat) returns (took: bool)
    requires buf.Valid() && buf.run.flight.None?
    modifies buf
    ensures buf.Valid() && buf.run.flight.None? && buf.run.calls == old(buf.run.calls) && buf.closed == old(buf.closed)
    ensures took ==> Potential(buf.cfg, buf.lanes) < old(Potential(buf.cfg, buf.lanes))
    ensures !took ==> buf.lanes == old(buf.lanes)
    ensures !took && env in buf.lanes ==> Records(buf.lanes[env]) == [] || buf.lanes[env].blockedUntil > now
  {
    hide Inv, Potential, Apply;
    ghost var before := buf.run;
    InvUsable(buf.cfg, before);
    var taken := buf.TakeBatch(env, true, now);
    CallsKept(buf.cfg, before, Take(env, true, now));
    if taken.None? {
      return false;
    }
    ghost var during := buf.run;
    InvUsable(buf.cfg, during);
    buf.Settle(env, taken.value, reply, later);
    CallsKept(buf.cfg, during, Reply(reply, later));
    assert env in before.st.lanes by { TookFromLane(buf.cfg, before, env, now); }
    PostWeight(buf.cfg, before, env, now, reply, later);
    return true;
  }

  lemma TookFromLane(cfg: Config, r: Run, env: string, now: nat)
    requires NoEmptyBatch(r.st.lanes) && r.flight.None? && Apply(cfg, r, Take(env, true, now)).flight.Some?
    ensures env in r.st.lanes
  {
  }

  lemma CallsKept(cfg: Config, r: Run, ev: Event)
    requires NoEmptyBatch(r.st.lanes) && (r.flight.Some? ==> r.flight.value.batch.records != [])
    requires !ev.Enqueue?
    ensures Apply(cfg, r, ev).calls == r.calls
    ensures ev.Reply? ==> Apply(cfg, r, ev).flight.None?
    ensures !ev.Close? ==> Apply(cfg, r, ev).st.closed == r.st.closed
  {
    if ev.Take? {
      TakenKeepsClosed(cfg, r.st, ev.env, ev.force, ev.now);
    }
    if ev.Reply? && r.flight.Some? {
      SettledKeepsClosed(cfg, r.st, r.flight.value.env, r.flight.value.batch, ev.outcome, ev.now);
    }
    hide Settled, Taken;
  }

  lemma TakenKeepsClosed(cfg: Config, st: State, env: string, force: bool, now: nat)
    ensures Taken(cfg, st, env, force, now).0.closed == st.closed
  {
    hide TakeFrom;
  }

  lemma SettledKeepsClosed(cfg: Config, st: State, env: string, batch: Batch, outcome: Outcome, now: nat)
    requires NoEmptyBatch(st.lanes) && batch.records != []
    ensures Settled(cfg, st, env, batch, outcome, now).closed == st.closed
  {
    hide Trimmed, Backoff, TotalBytes;
  }
}
