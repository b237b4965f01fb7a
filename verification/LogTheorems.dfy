/** What holds in every run of the monitoring-log buffer (buffer.go). */
module LogTheorems {
  import opened Options
  import JsonSizes
  import opened LogQueue
  import opened LogRuns
  import CanonicalJson

  // The state after any sequence of events from the empty buffer.
  ghost function After(cfg: Config, events: seq<Event>): (r: Run)
    ensures Inv(cfg, r)
  {
    StartOK(cfg);
    Exec(cfg, START, events)
  }

  lemma StartOK(cfg: Config)
    ensures Inv(cfg, START)
  {
    hide *;
    StartLanes(cfg);
    StartHistory(cfg);
    StartConserved();
    InvHolds(cfg, START);
  }

  lemma InvHolds(cfg: Config, r: Run)
    requires LanesOK(cfg, r.h, r.st.seqNo, r.flight, r.st.lanes) && FlightOK(cfg, r.h, r.flight, r.st.lanes)
    requires HistoryOK(cfg, r.h, r.st.seqNo) && Conserved(r) && Queued(r.st.lanes) + Flying(r.flight) == 0
    ensures Inv(cfg, r)
  {
    hide LanesOK, FlightOK, HistoryOK, Conserved, Queued, Flying;
  }

  lemma StartLanes(cfg: Config)
    ensures LanesOK(cfg, START.h, START.st.seqNo, START.flight, START.st.lanes)
    ensures FlightOK(cfg, START.h, START.flight, START.st.lanes)
  {
    hide LaneOK, BatchOK;
  }

  lemma StartHistory(cfg: Config)
    ensures HistoryOK(cfg, START.h, START.st.seqNo)
  {
  }

  lemma StartConserved()
    ensures Conserved(START) && Queued(START.st.lanes) + Flying(START.flight) == 0
  {
    hide Queued, Flying, Dropped, Conserved;
    NothingQueued();
    NothingCounted();
    Balanced(START);
  }

  lemma NothingCounted()
    ensures Dropped(START.st.stats) == 0 && Flying(START.flight) == 0
  {
  }

  lemma Balanced(r: Run)
    requires Queued(r.st.lanes) == 0 && Flying(r.flight) == 0 && Dropped(r.st.stats) == 0
    requires r.calls == 0 && r.unaccounted == 0 && r.st.stats.sent == 0
    ensures Conserved(r)
  {
    hide Queued, Flying, Dropped;
  }

  lemma NothingQueued()
    ensures Queued(map[]) == 0
  {
    hide Records;
    assert Counts(map[]) == map[];
  }

  function EnqueueCalls(events: seq<Event>): nat {
    if events == [] then 0 else (if events[0].Enqueue? then 1 else 0) + EnqueueCalls(events[1..])
  }

  lemma {:induction false} CallsCounted(cfg: Config, r: Run, events: seq<Event>)
    requires Inv(cfg, r)
    ensures Exec(cfg, r, events).calls == r.calls + EnqueueCalls(events)
    decreases |events|
  {
    hide Inv, Apply;
    if events != [] {
      StepOK(cfg, r, events[0]);
      CallCounted(cfg, r, events[0]);
      CallsCounted(cfg, Apply(cfg, r, events[0]), events[1..]);
    }
  }

  lemma CallCounted(cfg: Config, r: Run, ev: Event)
    requires NoEmptyBatch(r.st.lanes) && (r.flight.Some? ==> r.flight.value.batch.records != [])
    ensures Apply(cfg, r, ev).calls == r.calls + if ev.Enqueue? then 1 else 0
  {
    hide Enqueued, Taken, Settled;
  }

  // Nothing is lost or counted twice: every enqueue call is a record that
  // waits, is in flight, was sent, or was dropped for one counted reason.  The
  // sum is off by exactly the records that successful replies left unmentioned.
  lemma Conservation(cfg: Config, events: seq<Event>)
    ensures var r := After(cfg, events);
      EnqueueCalls(events) ==
        Queued(r.st.lanes) + Flying(r.flight) + r.st.stats.sent + Dropped(r.st.stats) + r.unaccounted
  {
    var r := After(cfg, events);
    CallsAfter(cfg, events);
    InvConserved(cfg, r);
    hide *;
  }

  lemma CallsAfter(cfg: Config, events: seq<Event>)
    ensures After(cfg, events).calls == EnqueueCalls(events)
  {
    hide Exec, Inv;
    StartOK(cfg);
    CallsCounted(cfg, START, events);
  }

  lemma InvConserved(cfg: Config, r: Run)
    requires Inv(cfg, r)
    ensures r.calls == Queued(r.st.lanes) + Flying(r.flight) + r.st.stats.sent + Dropped(r.st.stats) + r.unaccounted
  {
    hide Queued, LanesOK, FlightOK, HistoryOK;
  }

  // Every successful reply names each record of its batch once.
  ghost predicate RepliesAccount(cfg: Config, r: Run, events: seq<Event>)
    requires Inv(cfg, r)
    decreases |events|
  {
    events == [] || (
      StepOK(cfg, r, events[0]);
      && (events[0].Reply? && events[0].outcome.Posted? && r.flight.Some? ==>
            var o := events[0].outcome; o.accepted + o.duplicates + o.rejected == |r.flight.value.batch.records|)
      && RepliesAccount(cfg, Apply(cfg, r, events[0]), events[1..]))
  }

  lemma {:induction false} AllAccounted(cfg: Config, r: Run, events: seq<Event>)
    requires Inv(cfg, r) && RepliesAccount(cfg, r, events)
    ensures Exec(cfg, r, events).unaccounted == r.unaccounted
    decreases |events|
  {
    if events != [] {
      StepOK(cfg, r, events[0]);
      AllAccounted(cfg, Apply(cfg, r, events[0]), events[1..]);
    }
  }

  lemma ConservationExact(cfg: Config, events: seq<Event>)
    requires Inv(cfg, START) && RepliesAccount(cfg, START, events)
    ensures var r := After(cfg, events);
      EnqueueCalls(events) == Queued(r.st.lanes) + Flying(r.flight) + r.st.stats.sent + Dropped(r.st.stats)
  {
    hide Exec, Queued, Inv, RepliesAccount;
    Conservation(cfg, events);
    AllAccounted(cfg, START, events);
  }

  // No record takes part in more than maxAttempts + 8 POSTs.
  lemma PostBound(cfg: Config, events: seq<Event>, q: nat)
    ensures PostsOf(After(cfg, events).h, q) <= cfg.maxAttempts + 8
  {
    var r := After(cfg, events);
    assert HistoryOK(cfg, r.h, r.st.seqNo);
  }

  // The queue and the batch in flight together never exceed the bound by more
  // than one batch, at any moment of any run.
  lemma QueueBound(cfg: Config, events: seq<Event>)
    ensures var r := After(cfg, events);
      && Queued(r.st.lanes) + Flying(r.flight) <= cfg.maxBuffer + MAX_BATCH_RECORDS
      && Flying(r.flight) <= MAX_BATCH_RECORDS
  {
    var r := After(cfg, events);
    if r.flight.Some? { FlyingAtMost(cfg, r.h, r.flight.value.batch, 1); }
  }

  // Records leave an environment in the order they were enqueued: what is in
  // flight precedes what is ready, which precedes what is pending; no record
  // waits twice, no ready batch is empty, and the byte counters are exact.
  lemma LaneOrder(cfg: Config, events: seq<Event>, env: string)
    requires env in After(cfg, events).st.lanes
    ensures var r := After(cfg, events);
      var l := r.st.lanes[env];
      && Increasing(FlyingIn(r.flight, env) + Flatten(l.ready) + l.pending)
      && (forall b :: b in l.ready ==> 0 < |b.records| <= MAX_BATCH_RECORDS && b.attempts < cfg.maxAttempts)
      && l.readyBytes == TotalBytes(Flatten(l.ready)) && l.pendingBytes == TotalBytes(l.pending)
  {
    var r := After(cfg, events);
    hide After, Queued, FlightOK, HistoryOK, Conserved;
    LaneInOrder(cfg, r.h, r.st.seqNo, env, FlyingIn(r.flight, env), r.st.lanes[env]);
  }

  lemma LaneInOrder(cfg: Config, h: History, seqNo: nat, env: string, flying: seq<Record>, l: Lane)
    requires LaneOK(cfg, h, seqNo, env, flying, l)
    ensures Increasing(flying + Flatten(l.ready) + l.pending)
    ensures forall b :: b in l.ready ==> 0 < |b.records| <= MAX_BATCH_RECORDS && b.attempts < cfg.maxAttempts
    ensures l.readyBytes == TotalBytes(Flatten(l.ready)) && l.pendingBytes == TotalBytes(l.pending)
  {
    assert flying + Flatten(l.ready) + l.pending == flying + Records(l);
    forall b | b in l.ready ensures 0 < |b.records| <= MAX_BATCH_RECORDS && b.attempts < cfg.maxAttempts {
      assert BatchOK(cfg, h, b, 0);
    }
    FlattenConcat(l.ready, []);
    assert l.ready + [] == l.ready && Flatten([]) == [];
  }

  /// An accepted record is never posted again

  lemma StepKeepsAccepted(cfg: Config, r: Run, ev: Event, q: nat)
    requires Inv(cfg, r) && q in r.h.accepted
    requires NoEmptyBatch(r.st.lanes) && (r.flight.Some? ==> r.flight.value.batch.records != [])
    ensures var r' := Apply(cfg, r, ev);
      q in r'.h.accepted && PostsOf(r'.h, q) == PostsOf(r.h, q)
  {
    match ev
    case Take(env, force, now) => TakeKeepsAccepted(cfg, r, env, force, now, q);
    case Reply(_, _) => hide Settled, Inv;
    case Enqueue(_, _) => hide Enqueued, Inv;
    case Close => hide Inv;
  }

  lemma TakeKeepsAccepted(cfg: Config, r: Run, env: string, force: bool, now: nat, q: nat)
    requires Inv(cfg, r) && q in r.h.accepted
    requires NoEmptyBatch(r.st.lanes) && (r.flight.Some? ==> r.flight.value.batch.records != [])
    ensures var r' := Apply(cfg, r, Take(env, force, now));
      q in r'.h.accepted && PostsOf(r'.h, q) == PostsOf(r.h, q)
  {
    hide Inv, LaneOK, HistoryOK, NoEmptyBatch, TakeFrom, Records, PostsOf, Bumped, Seqs;
    InvParts(cfg, r);
    if r.flight.None? && env in r.st.lanes {
      var l := r.st.lanes[env];
      var b := TakeFrom(cfg, l, force, now).1;
      assert LaneOK(cfg, r.h, r.st.seqNo, env, [], l);
      if b.Some? {
        TakenNotAccepted(cfg, r.h, r.st.seqNo, env, l, force, now, q);
        BumpedPosts(r.h, b.value.records, q);
        BumpedAccepts(r.h, b.value.records);
      }
    }
  }

  lemma TakenNotAccepted(
    cfg: Config, h: History, seqNo: nat, env: string, l: Lane, force: bool, now: nat, q: nat)
    requires LaneOK(cfg, h, seqNo, env, [], l) && q in h.accepted && TakeFrom(cfg, l, force, now).1.Some?
    ensures q !in Seqs(TakeFrom(cfg, l, force, now).1.value.records)
  {
    hide BatchOK, ShapeOK, TakeFrom, Records;
    TakeFromParts(cfg, h, seqNo, env, l, force, now);
    forall rec | rec in TakeFrom(cfg, l, force, now).1.value.records ensures rec.seqNo != q {
      assert rec in [] + Records(l);
      assert RecordOK(h, seqNo, env, rec);
    }
  }

  lemma BumpedAccepts(h: History, records: seq<Record>)
    ensures Bumped(h, records).accepted == h.accepted
  {
    hide Seqs, PostsOf;
  }

  lemma {:induction false} RunKeepsAccepted(cfg: Config, r: Run, events: seq<Event>, q: nat)
    requires Inv(cfg, r) && q in r.h.accepted
    ensures var r' := Exec(cfg, r, events);
      q in r'.h.accepted && PostsOf(r'.h, q) == PostsOf(r.h, q)
    decreases |events|
  {
    if events != [] {
      StepOK(cfg, r, events[0]);
      StepKeepsAccepted(cfg, r, events[0], q);
      RunKeepsAccepted(cfg, Apply(cfg, r, events[0]), events[1..], q);
    }
  }

  lemma {:induction false} ExecConcat(cfg: Config, r: Run, a: seq<Event>, b: seq<Event>)
    requires Inv(cfg, r)
    ensures Exec(cfg, r, a + b) == Exec(cfg, Exec(cfg, r, a), b)
    decreases |a|
  {
    if a == [] {
      assert a + b == b;
    } else {
      assert (a + b)[1..] == a[1..] + b;
      StepOK(cfg, r, a[0]);
      ExecConcat(cfg, Apply(cfg, r, a[0]), a[1..], b);
    }
  }

  // When the POST of a batch returns without error, none of its records takes
  // part in another POST, whatever follows.
  lemma NeverResent(cfg: Config, before: seq<Event>, outcome: Outcome, now: nat, later: seq<Event>, q: nat)
    requires var r := After(cfg, before);
      outcome.Posted? && r.flight.Some? && q in Seqs(r.flight.value.batch.records)
    ensures PostsOf(After(cfg, before + [Reply(outcome, now)] + later).h, q) == PostsOf(After(cfg, before).h, q)
  {
    var r, ev := After(cfg, before), Reply(outcome, now);
    hide Exec, Inv;
    StepOK(cfg, r, ev);
    PostedIsAccepted(cfg, r, outcome, now, q);
    RunKeepsAccepted(cfg, Apply(cfg, r, ev), later, q);
    ExecFirst(cfg, r, ev, later);
    StartOK(cfg);
    ExecConcat(cfg, START, before, [ev] + later);
    assert before + [ev] + later == before + ([ev] + later);
  }

  lemma ExecFirst(cfg: Config, r: Run, ev: Event, later: seq<Event>)
    requires NoEmptyBatch(r.st.lanes) && (r.flight.Some? ==> r.flight.value.batch.records != [])
    requires Inv(cfg, r) && Inv(cfg, Apply(cfg, r, ev))
    ensures Exec(cfg, r, [ev] + later) == Exec(cfg, Apply(cfg, r, ev), later)
  {
    assert ([ev] + later)[1..] == later;
    hide Inv, Apply;
  }

  lemma PostedIsAccepted(cfg: Config, r: Run, outcome: Outcome, now: nat, q: nat)
    requires NoEmptyBatch(r.st.lanes) && r.flight.Some? && r.flight.value.batch.records != []
    requires outcome.Posted? && q in Seqs(r.flight.value.batch.records)
    ensures var r' := Apply(cfg, r, Reply(outcome, now)); q in r'.h.accepted && r'.h.posts == r.h.posts
  {
    hide Settled;
  }

  /// The bodies that are posted

  function Bodies(records: seq<Record>): seq<CanonicalJson.Json> {
    if records == [] then [] else [records[0].body] + Bodies(records[1..])
  }

  lemma {:induction false} BodiesSize(records: seq<Record>)
    requires forall rec :: rec in records ==> rec.bytes == SizeOf(rec.body)
    ensures JsonSizes.SumSizes(Bodies(records)) == TotalBytes(records) + |records|
  {
    if records != [] {
      BodiesSize(records[1..]);
      assert Bodies(records)[1..] == Bodies(records[1..]);
    }
  }

  // The endpoint takes 5 MB and 200 records: every body ever posted is within
  // both, and is exactly the records, a comma or bracket each, and ten bytes.
  lemma PostedBodySize(cfg: Config, events: seq<Event>)
    requires After(cfg, events).flight.Some?
    ensures var records := After(cfg, events).flight.value.batch.records;
      var body := JsonSizes.Envelope(Bodies(records));
      && 0 < |records| <= MAX_BATCH_RECORDS
      && CanonicalJson.Size(body) == TotalBytes(records) + |records| + 10 < 5_000_000
  {
    var r := After(cfg, events);
    var Flight(env, batch) := r.flight.value;
    assert BatchOK(cfg, r.h, batch, 1);
    assert LaneOK(cfg, r.h, r.st.seqNo, env, batch.records, r.st.lanes[env]);
    var chain := batch.records + Records(r.st.lanes[env]);
    forall rec | rec in batch.records ensures rec.bytes == SizeOf(rec.body) {
      assert rec in chain;
      assert RecordOK(r.h, r.st.seqNo, env, rec);
    }
    BodiesSize(batch.records);
    JsonSizes.EnvelopeSize(Bodies(batch.records));
  }

  /// Drop-oldest across environments

  ghost predicate Ordered(owner: map<nat, string>, lanes: Lanes) {
    forall env :: env in lanes ==>
      && Increasing(Records(lanes[env]))
      && forall rec :: rec in Records(lanes[env]) ==> rec.seqNo in owner && owner[rec.seqNo] == env
  }

  ghost predicate IsSuffix(a: seq<Record>, b: seq<Record>) {
    |a| <= |b| && a == b[|b| - |a|..]
  }

  // rec waited in env and waits no more.
  ghost predicate Lost(lanes: Lanes, lanes': Lanes, env: string, rec: Record) {
    env in lanes && env in lanes' && rec in Records(lanes[env]) && rec !in Records(lanes'[env])
  }

  lemma HeadIsOldest(lanes: Lanes, owner: map<nat, string>, env: string, e: string, rec: Record)
    requires Ordered(owner, lanes) && IsOldest(lanes, env) && e in lanes && rec in Records(lanes[e])
    requires e != env || rec in Records(lanes[env])[1..]
    ensures Records(lanes[env])[0].seqNo < rec.seqNo
  {
    hide Records;
    LaneIncreasing(lanes, owner, e);
    if e == env {
      BehindFirst(Records(lanes[env]), rec);
    } else {
      HeadsDiffer(lanes, owner, env, e, rec);
    }
  }

  lemma LaneIncreasing(lanes: Lanes, owner: map<nat, string>, e: string)
    requires Ordered(owner, lanes) && e in lanes
    ensures Increasing(Records(lanes[e]))
  {
    hide Records;
  }

  // The heads of two lanes are different records, so the oldest one is older.
  lemma HeadsDiffer(lanes: Lanes, owner: map<nat, string>, env: string, e: string, rec: Record)
    requires Ordered(owner, lanes) && IsOldest(lanes, env) && e in lanes && rec in Records(lanes[e]) && e != env
    ensures Records(lanes[env])[0].seqNo < rec.seqNo
  {
    hide Records, Increasing;
    var head, first := Records(lanes[env])[0], Records(lanes[e])[0];
    assert head in Records(lanes[env]) && first in Records(lanes[e]);
    LaneIncreasing(lanes, owner, e);
    FirstIsLeast(Records(lanes[e]), rec);
    assert owner[head.seqNo] == env && owner[first.seqNo] == e;
  }

  lemma FirstIsLeast(chain: seq<Record>, rec: Record)
    requires Increasing(chain) && rec in chain
    ensures chain[0].seqNo <= rec.seqNo
  {
    var i :| 0 <= i < |chain| && chain[i] == rec;
    assert i > 0 ==> chain[0].seqNo < chain[i].seqNo;
  }

  lemma BehindFirst(chain: seq<Record>, rec: Record)
    requires Increasing(chain) && chain != [] && rec in chain[1..]
    ensures chain[0].seqNo < rec.seqNo
  {
    var i :| 0 <= i < |chain[1..]| && chain[1..][i] == rec;
    assert chain[i + 1] == rec;
  }

  lemma DropHeadOrdered(lanes: Lanes, owner: map<nat, string>, env: string)
    requires Ordered(owner, lanes) && NoEmptyBatch(lanes) && env in lanes && Records(lanes[env]) != []
    ensures Ordered(owner, lanes[env := DropHead(lanes[env])])
  {
    DropHeadRecords(lanes[env]);
    hide DropHead;
  }

  // Trimming keeps exactly the newest `limit` records over all environments:
  // each lane keeps a suffix, the kept number is the limit when there was more,
  // and every lost record was enqueued before every kept one.
  lemma {:induction false} TrimmedKeepsNewest(lanes: Lanes, limit: nat, owner: map<nat, string>)
    requires NoEmptyBatch(lanes) && Ordered(owner, lanes)
    ensures var kept := Trimmed(lanes, limit);
      && Queued(kept) == Min(Queued(lanes), limit)
      && Newest(lanes, kept)
    decreases Queued(lanes)
  {
    hide Records, DropHead, Newest, Ordered, Queued, IsOldest, Trimmed;
    QueuedTrimmed(lanes, limit);
    if Queued(lanes) <= limit {
      TrimmedDone(lanes, limit);
      NothingLost(lanes);
    } else {
      var env := Oldest(lanes);
      OldestHolds(lanes, env);
      DropHeadShrinks(lanes, env);
      DropHeadOrdered(lanes, owner, env);
      TrimmedNext(lanes, limit);
      hide NoEmptyBatch;
      var next := lanes[env := DropHead(lanes[env])];
      TrimmedKeepsNewest(next, limit, owner);
      DropHeadOf(lanes, env);
      TrimmedStep(lanes, owner, env, next, Trimmed(next, limit));
    }
  }

  lemma DropHeadOf(lanes: Lanes, env: string)
    requires NoEmptyBatch(lanes) && env in lanes && Records(lanes[env]) != []
    ensures Records(DropHead(lanes[env])) == Records(lanes[env])[1..]
  {
    hide Records, DropHead;
    DropHeadRecords(lanes[env]);
  }

  // What TrimmedKeepsNewest says of the lanes kept.
  ghost predicate Newest(lanes: Lanes, kept: Lanes) {
    && kept.Keys == lanes.Keys
    && (forall env :: env in lanes ==> IsSuffix(Records(kept[env]), Records(lanes[env])))
    && (forall env, gone, e, rec :: LostBefore(lanes, kept, env, gone, e, rec))
  }

  // If `gone` was lost from env and rec is kept in e, `gone` was enqueued first.
  ghost predicate LostBefore(lanes: Lanes, kept: Lanes, env: string, gone: Record, e: string, rec: Record) {
    Lost(lanes, kept, env, gone) && e in kept && rec in Records(kept[e]) ==> gone.seqNo < rec.seqNo
  }

  lemma TrimmedStep(lanes: Lanes, owner: map<nat, string>, env: string, next: Lanes, kept: Lanes)
    requires Ordered(owner, lanes) && IsOldest(lanes, env) && next.Keys == lanes.Keys
    requires Records(next[env]) == Records(lanes[env])[1..]
    requires forall e :: e in lanes && e != env ==> next[e] == lanes[e]
    requires Newest(next, kept)
    ensures Newest(lanes, kept)
  {
    OldestHolds(lanes, env);
    hide Records, Ordered, LostBefore, IsSuffix, IsOldest;
    forall e | e in lanes ensures IsSuffix(Records(kept[e]), Records(lanes[e])) {
      SuffixOn(lanes, env, next, kept, e);
    }
    forall e0, gone, e, rec ensures LostBefore(lanes, kept, e0, gone, e, rec) {
      if e in kept {
        assert LostBefore(next, kept, e0, gone, e, rec);
        TrimmedPair(lanes, owner, env, next, kept, e0, gone, e, rec);
      } else {
        NotKept(lanes, kept, e0, gone, e, rec);
      }
    }
  }

  lemma OldestHolds(lanes: Lanes, env: string)
    requires IsOldest(lanes, env)
    ensures env in lanes && Records(lanes[env]) != []
  {
    hide Records;
  }

  // A suffix of what is left is a suffix of what was there.
  lemma SuffixOn(lanes: Lanes, env: string, next: Lanes, kept: Lanes, e: string)
    requires env in lanes && e in lanes && e in next && e in kept && env in next && Records(lanes[env]) != []
    requires Records(next[env]) == Records(lanes[env])[1..] && (e != env ==> next[e] == lanes[e])
    requires IsSuffix(Records(kept[e]), Records(next[e]))
    ensures IsSuffix(Records(kept[e]), Records(lanes[e]))
  {
    hide Records;
  }

  lemma NotKept(lanes: Lanes, kept: Lanes, e0: string, gone: Record, e: string, rec: Record)
    requires e !in kept
    ensures LostBefore(lanes, kept, e0, gone, e, rec)
  {
  }

  lemma TrimmedPair(lanes: Lanes, owner: map<nat, string>, env: string, next: Lanes, kept: Lanes, e0: string,
      gone: Record, e: string, rec: Record)
    requires Ordered(owner, lanes) && IsOldest(lanes, env) && env in lanes && next.Keys == lanes.Keys == kept.Keys
    requires Records(lanes[env]) != []
    requires Records(next[env]) == Records(lanes[env])[1..]
    requires forall e :: e in lanes && e != env ==> next[e] == lanes[e]
    requires LostBefore(next, kept, e0, gone, e, rec) && e in kept && IsSuffix(Records(kept[e]), Records(next[e]))
    ensures LostBefore(lanes, kept, e0, gone, e, rec)
  {
    hide Records, Ordered, IsSuffix, IsOldest, Lost;
    if Lost(lanes, kept, e0, gone) && rec in Records(kept[e]) {
      KeptWaits(kept, next, lanes, env, e, rec);
      if e0 == env && gone == Records(lanes[env])[0] {
        HeadIsOldest(lanes, owner, env, e, rec);
      } else {
        NotHead(lanes, next, kept, env, e0, gone);
      }
    }
  }

  lemma NothingLost(lanes: Lanes)
    ensures Newest(lanes, lanes)
  {
    hide Records;
  }

  lemma NotHead(lanes: Lanes, next: Lanes, kept: Lanes, env: string, e0: string, gone: Record)
    requires env in lanes && Records(lanes[env]) != [] && next.Keys == lanes.Keys
    requires Records(next[env]) == Records(lanes[env])[1..] && (e0 != env ==> e0 !in lanes || next[e0] == lanes[e0])
    requires Lost(lanes, kept, e0, gone) && (e0 == env ==> gone != Records(lanes[env])[0])
    ensures Lost(next, kept, e0, gone)
  {
    hide Records;
  }

  lemma KeptWaits(kept: Lanes, next: Lanes, lanes: Lanes, env: string, e: string, rec: Record)
    requires e in kept && e in next && e in lanes && env in lanes && Records(lanes[env]) != []
    requires IsSuffix(Records(kept[e]), Records(next[e])) && rec in Records(kept[e])
    requires Records(next[e]) == if e == env then Records(lanes[env])[1..] else Records(lanes[e])
    ensures rec in Records(lanes[e]) && (e != env || rec in Records(lanes[env])[1..])
  {
    hide Records;
  }

  lemma LanesAreOrdered(cfg: Config, h: History, seqNo: nat, flight: Option<Flight>, lanes: Lanes)
    requires LanesOK(cfg, h, seqNo, flight, lanes)
    ensures Ordered(h.owner, lanes)
  {
    forall env | env in lanes ensures LaneOrdered(h.owner, env, lanes[env]) {
      var flying, rest := FlyingIn(flight, env), Records(lanes[env]);
      assert LaneOK(cfg, h, seqNo, env, flying, lanes[env]);
      BehindDiffers(h, seqNo, env, flying, rest);
      forall rec | rec in rest ensures rec.seqNo in h.owner && h.owner[rec.seqNo] == env {
        assert RecordOK(h, seqNo, env, rec);
      }
    }
  }

  ghost predicate LaneOrdered(owner: map<nat, string>, env: string, l: Lane) {
    && Increasing(Records(l))
    && forall rec :: rec in Records(l) ==> rec.seqNo in owner && owner[rec.seqNo] == env
  }

  lemma EnqueuedOrdered(cfg: Config, r: Run, env: string, body: CanonicalJson.Json)
    requires Inv(cfg, r) && SizeOf(body) <= MAX_BATCH_BYTES
    ensures var q := r.st.seqNo + 1;
      var lanes := r.st.lanes[env := WithNew(LaneOf(r.st.lanes, env), body, q)];
      NoEmptyBatch(lanes) && Ordered(r.h.owner[q := env], lanes)
  {
    var q := r.st.seqNo + 1;
    var lanes := r.st.lanes[env := WithNew(LaneOf(r.st.lanes, env), body, q)];
    var h := r.h.(owner := r.h.owner[q := env]);
    AddedLanesOK(cfg, r, env, body);
    hide LaneOK, Inv;
    LanesHaveNoEmptyBatch(cfg, h, q, r.flight, lanes);
    LanesAreOrdered(cfg, h, q, r.flight, lanes);
  }

  lemma RetriedOrdered(cfg: Config, r: Run, lanes: Lanes, l': Lane)
    requires Inv(cfg, r) && r.flight.Some?
    requires var Flight(env, batch) := r.flight.value;
      && batch.attempts + 1 < cfg.maxAttempts && lanes == r.st.lanes[env := l']
      && var l := LaneOf(r.st.lanes, env);
      && l'.ready == [batch.(attempts := batch.attempts + 1)] + l.ready
      && l'.readyBytes == l.readyBytes + TotalBytes(batch.records)
      && l'.pending == l.pending && l'.pendingBytes == l.pendingBytes
    ensures NoEmptyBatch(lanes) && Ordered(r.h.owner, lanes)
  {
    var Flight(env, batch) := r.flight.value;
    FlightInv(cfg, r);
    RetriedBatchOK(cfg, r.h, batch);
    var again := batch.(attempts := batch.attempts + 1);
    var r' := r.(st := r.st.(lanes := lanes), flight := None);
    assert Flatten([again]) == batch.records;
    hide LaneOK, BatchOK, Records, Queued;
    ReturnedInv(cfg, r, r', [again], l');
    LanesHaveNoEmptyBatch(cfg, r'.h, r'.st.seqNo, r'.flight, lanes);
    LanesAreOrdered(cfg, r'.h, r'.st.seqNo, r'.flight, lanes);
  }

  lemma SettledRetry(cfg: Config, st: State, env: string, batch: Batch, status: int, retryAfter: int, now: nat)
    requires NoEmptyBatch(st.lanes) && batch.records != []
    requires !Splits(batch, status) && !GivesUp(cfg, batch, status)
    ensures var l' := PutBack(LaneOf(st.lanes, env), batch, retryAfter, now);
      && NoEmptyBatch(st.lanes[env := l'])
      && Settled(cfg, st, env, batch, Failed(status, retryAfter), now)
        == TrimState(cfg, st.(lanes := st.lanes[env := l']))
  {
    hide TrimState, Backoff, TotalBytes;
  }

  lemma AddedQueued(lanes: Lanes, env: string, body: CanonicalJson.Json, q: nat)
    ensures Queued(lanes[env := WithNew(LaneOf(lanes, env), body, q)]) == Queued(lanes) + 1
  {
    var l := LaneOf(lanes, env);
    assert Records(WithNew(l, body, q)) == Records(l) + [Record(body, SizeOf(body), q)] by { hide Flatten; }
    QueuedUpdate(lanes, env, WithNew(l, body, q));
  }

  lemma EnqueuedTrims(cfg: Config, r: Run, env: string, body: CanonicalJson.Json)
    requires NoEmptyBatch(r.st.lanes) && (r.flight.Some? ==> r.flight.value.batch.records != [])
    requires !r.st.closed && SizeOf(body) <= MAX_BATCH_BYTES
    ensures var lanes := r.st.lanes[env := WithNew(LaneOf(r.st.lanes, env), body, r.st.seqNo + 1)];
      NoEmptyBatch(lanes) && Apply(cfg, r, Enqueue(env, body)).st.lanes == Trimmed(lanes, cfg.maxBuffer)
  {
    hide Trimmed, Queued, SizeOf;
  }

  // At any moment of any run, a record that is taken in leaves the newest of
  // what waited and itself, over all environments.
  lemma EnqueueKeepsNewest(cfg: Config, events: seq<Event>, env: string, body: CanonicalJson.Json)
    requires !After(cfg, events).st.closed && SizeOf(body) <= MAX_BATCH_BYTES
    ensures var r, r' := After(cfg, events), After(cfg, events + [Enqueue(env, body)]);
      && Newest(r.st.lanes[env := WithNew(LaneOf(r.st.lanes, env), body, r.st.seqNo + 1)], r'.st.lanes)
      && Queued(r'.st.lanes) == Min(Queued(r.st.lanes) + 1, cfg.maxBuffer)
  {
    hide *;
    var r := After(cfg, events);
    var q := r.st.seqNo + 1;
    OneMore(cfg, events, Enqueue(env, body));
    EnqueuedOrdered(cfg, r, env, body);
    AddedQueued(r.st.lanes, env, body, q);
    EnqueuedTrims(cfg, r, env, body);
    TrimmedKeepsNewest(r.st.lanes[env := WithNew(LaneOf(r.st.lanes, env), body, q)], cfg.maxBuffer,
      r.h.owner[q := env]);
  }

  lemma OneMore(cfg: Config, events: seq<Event>, ev: Event)
    ensures var r := After(cfg, events);
      && NoEmptyBatch(r.st.lanes) && (r.flight.Some? ==> r.flight.value.batch.records != [])
      && After(cfg, events + [ev]) == Apply(cfg, r, ev)
  {
    hide Inv, Apply, Exec;
    StartOK(cfg);
    var r := After(cfg, events);
    StepOK(cfg, r, ev);
    ExecConcat(cfg, START, events, [ev]);
    assert [ev] + [] == [ev];
    ExecFirst(cfg, r, ev, []);
    ExecNothing(cfg, Apply(cfg, r, ev));
  }

  lemma ExecNothing(cfg: Config, r: Run)
    requires Inv(cfg, r)
    ensures Exec(cfg, r, []) == r
  {
  }

  // A reply that makes the batch be sent again.
  predicate Retries(cfg: Config, batch: Batch, status: int) {
    !Splits(batch, status) && !GivesUp(cfg, batch, status)
  }

  lemma PutBackQueued(lanes: Lanes, env: string, batch: Batch, retryAfter: int, now: nat)
    requires env in lanes
    ensures Queued(lanes[env := PutBack(lanes[env], batch, retryAfter, now)]) == Queued(lanes) + |batch.records|
  {
    var l := PutBack(lanes[env], batch, retryAfter, now);
    assert l.ready[1..] == lanes[env].ready;
    QueuedUpdate(lanes, env, l);
    hide TotalBytes, Backoff, Queued;
  }

  lemma RetryTrims(cfg: Config, r: Run, status: int, retryAfter: int, now: nat)
    requires NoEmptyBatch(r.st.lanes) && r.flight.Some? && r.flight.value.batch.records != []
    requires r.flight.value.env in r.st.lanes && Retries(cfg, r.flight.value.batch, status)
    ensures var Flight(env, batch) := r.flight.value;
      var lanes := r.st.lanes[env := PutBack(r.st.lanes[env], batch, retryAfter, now)];
      NoEmptyBatch(lanes) && Apply(cfg, r, Reply(Failed(status, retryAfter), now)).st.lanes
        == Trimmed(lanes, cfg.maxBuffer)
  {
    hide Trimmed, Queued, TotalBytes, Backoff, Settled, GivesUp, Splits;
    SettledRetry(cfg, r.st, r.flight.value.env, r.flight.value.batch, status, retryAfter, now);
  }

  // So does a batch that comes back to be sent again.
  lemma RetryKeepsNewest(cfg: Config, events: seq<Event>, status: int, retryAfter: int, now: nat)
    requires var f := After(cfg, events).flight; f.Some? && Retries(cfg, f.value.batch, status)
    ensures var r, r' := After(cfg, events), After(cfg, events + [Reply(Failed(status, retryAfter), now)]);
      var Flight(env, batch) := r.flight.value;
      && env in r.st.lanes
      && Newest(r.st.lanes[env := PutBack(r.st.lanes[env], batch, retryAfter, now)], r'.st.lanes)
      && Queued(r'.st.lanes) == Min(Queued(r.st.lanes) + |batch.records|, cfg.maxBuffer)
  {
    var r := After(cfg, events);
    var Flight(env, batch) := r.flight.value;
    FlightInv(cfg, r);
    OneMore(cfg, events, Reply(Failed(status, retryAfter), now));
    PutBackOrdered(cfg, r, status, retryAfter, now);
    hide *;
    PutBackQueued(r.st.lanes, env, batch, retryAfter, now);
    RetryTrims(cfg, r, status, retryAfter, now);
    TrimmedKeepsNewest(r.st.lanes[env := PutBack(r.st.lanes[env], batch, retryAfter, now)], cfg.maxBuffer, r.h.owner);
  }

  lemma PutBackOrdered(cfg: Config, r: Run, status: int, retryAfter: int, now: nat)
    requires Inv(cfg, r) && r.flight.Some? && Retries(cfg, r.flight.value.batch, status)
    ensures r.flight.value.env in r.st.lanes
    ensures var Flight(env, batch) := r.flight.value;
      var lanes := r.st.lanes[env := PutBack(r.st.lanes[env], batch, retryAfter, now)];
      NoEmptyBatch(lanes) && Ordered(r.h.owner, lanes)
  {
    hide Inv, TotalBytes, Backoff, Ordered, NoEmptyBatch, BatchOK, Splits;
    FlightInv(cfg, r);
    var Flight(env, batch) := r.flight.value;
    var l := PutBack(r.st.lanes[env], batch, retryAfter, now);
    RetriedOrdered(cfg, r, r.st.lanes[env := l], l);
  }
}
