/**
 Where posted records come from (buffer.go): whatever the buffer drops, splits
 and retries, it posts what was enqueued, for the environment it was enqueued for.
 */
module LogOrigins {
  import opened Utf8
  import opened LogQueue
  import opened LogRuns
  import opened LogTheorems
  import CanonicalJson
  import JsonCollisions
  import JsonSizes
  import JsonValidity

  // What the calls of a run handed in.
  type Calls = set<(string, CanonicalJson.Json)>

  function CallOf(ev: Event): Calls {
    if ev.Enqueue? then {(ev.env, ev.body)} else {}
  }

  function CallsOf(events: seq<Event>): Calls {
    if events == [] then {} else CallOf(events[0]) + CallsOf(events[1..])
  }

  ghost predicate From(records: seq<Record>, env: string, calls: Calls) {
    forall rec :: rec in records ==> (env, rec.body) in calls
  }

  ghost predicate LanesFrom(lanes: Lanes, calls: Calls) {
    forall env :: env in lanes ==> From(Records(lanes[env]), env, calls)
  }

  ghost predicate RunFrom(r: Run, calls: Calls) {
    && LanesFrom(r.st.lanes, calls)
    && (r.flight.Some? ==> From(r.flight.value.batch.records, r.flight.value.env, calls))
  }

  lemma FromPart(records: seq<Record>, more: seq<Record>, env: string, calls: Calls)
    requires From(more, env, calls) && forall rec :: rec in records ==> rec in more
    ensures From(records, env, calls)
  {
  }

  lemma FromBoth(a: seq<Record>, b: seq<Record>, env: string, calls: Calls)
    ensures From(a + b, env, calls) <==> From(a, env, calls) && From(b, env, calls)
  {
    assert forall rec :: rec in a ==> rec in a + b;
    assert forall rec :: rec in b ==> rec in a + b;
  }

  lemma LanesWith(lanes: Lanes, env: string, l: Lane, calls: Calls)
    requires LanesFrom(lanes, calls) && From(Records(l), env, calls)
    ensures LanesFrom(lanes[env := l], calls)
  {
    hide Records, From;
  }

  lemma LaneFrom(lanes: Lanes, env: string, calls: Calls)
    requires LanesFrom(lanes, calls)
    ensures From(Records(LaneOf(lanes, env)), env, calls)
  {
    EmptyLaneHoldsNothing();
    hide Records;
  }

  lemma {:induction false} TrimmedFrom(lanes: Lanes, limit: nat, calls: Calls)
    requires NoEmptyBatch(lanes) && LanesFrom(lanes, calls)
    ensures LanesFrom(Trimmed(lanes, limit), calls)
    decreases Queued(lanes)
  {
    hide LanesFrom, Records, DropHead, From;
    if Queued(lanes) > limit {
      var env := Oldest(lanes);
      DropHeadShrinks(lanes, env);
      DroppedFrom(lanes, env, calls);
      TrimmedFrom(lanes[env := DropHead(lanes[env])], limit, calls);
    }
  }

  lemma DroppedFrom(lanes: Lanes, env: string, calls: Calls)
    requires NoEmptyBatch(lanes) && env in lanes && Records(lanes[env]) != [] && LanesFrom(lanes, calls)
    ensures LanesFrom(lanes[env := DropHead(lanes[env])], calls)
  {
    hide Records, DropHead;
    DropHeadRecords(lanes[env]);
    FromPart(Records(DropHead(lanes[env])), Records(lanes[env]), env, calls);
    LanesWith(lanes, env, DropHead(lanes[env]), calls);
  }

  lemma TrimStateFrom(cfg: Config, st: State, calls: Calls)
    requires NoEmptyBatch(st.lanes) && LanesFrom(st.lanes, calls)
    ensures LanesFrom(TrimState(cfg, st).lanes, calls)
  {
    hide LanesFrom, Trimmed;
    TrimmedFrom(st.lanes, cfg.maxBuffer, calls);
  }

  lemma EnqueuedFrom(cfg: Config, st: State, env: string, body: CanonicalJson.Json, calls: Calls)
    requires NoEmptyBatch(st.lanes) && LanesFrom(st.lanes, calls) && (env, body) in calls
    ensures LanesFrom(Enqueued(cfg, st, env, body).lanes, calls)
  {
    hide TrimState, LanesFrom, Records, From, WithNew;
    if !st.closed && SizeOf(body) <= MAX_BATCH_BYTES {
      var l := LaneOf(st.lanes, env);
      LaneFrom(st.lanes, env, calls);
      NewFrom(l, env, body, st.seqNo + 1, calls);
      LanesWith(st.lanes, env, WithNew(l, body, st.seqNo + 1), calls);
      NewNotEmpty(st.lanes, env, body, st.seqNo + 1);
      var lanes := st.lanes[env := WithNew(l, body, st.seqNo + 1)];
      TrimStateFrom(cfg, st.(lanes := lanes, seqNo := st.seqNo + 1), calls);
    }
  }

  lemma NewFrom(l: Lane, env: string, body: CanonicalJson.Json, q: nat, calls: Calls)
    requires From(Records(l), env, calls) && (env, body) in calls
    ensures From(Records(WithNew(l, body, q)), env, calls)
  {
    var rec := Record(body, SizeOf(body), q);
    assert Records(WithNew(l, body, q)) == Records(l) + [rec] by { hide Flatten, SizeOf; }
    hide Records, SizeOf;
  }

  lemma NewNotEmpty(lanes: Lanes, env: string, body: CanonicalJson.Json, q: nat)
    requires NoEmptyBatch(lanes)
    ensures NoEmptyBatch(lanes[env := WithNew(LaneOf(lanes, env), body, q)])
  {
    hide SizeOf;
  }

  lemma TakenFrom(cfg: Config, l: Lane, env: string, force: bool, now: nat, calls: Calls)
    requires From(Records(l), env, calls)
    ensures var (l', b) := TakeFrom(cfg, l, force, now);
      From(Records(l'), env, calls) && (b.Some? ==> From(b.value.records, env, calls))
  {
    hide From, BatchEnd, TotalBytes, Flatten;
    FromBoth(Flatten(l.ready), l.pending, env, calls);
    if l.ready != [] {
      FirstReady(l.ready);
      FromBoth(l.ready[0].records, Flatten(l.ready[1..]), env, calls);
      FromBoth(Flatten(l.ready[1..]), l.pending, env, calls);
    } else {
      var n := BatchEnd(l.pending, 0, 0);
      FromPart(l.pending[..n], l.pending, env, calls);
      FromPart(l.pending[n..], l.pending, env, calls);
      FromBoth(Flatten(l.ready), l.pending[n..], env, calls);
    }
  }

  lemma FirstReady(ready: seq<Batch>)
    requires ready != []
    ensures Flatten(ready) == ready[0].records + Flatten(ready[1..])
  {
  }

  lemma BackFrom(l: Lane, back: seq<Batch>, records: seq<Record>, l': Lane, env: string, calls: Calls)
    requires From(Records(l), env, calls) && From(records, env, calls)
    requires l'.ready == back + l.ready && l'.pending == l.pending && Flatten(back) == records
    ensures From(Records(l'), env, calls)
  {
    hide From, Flatten;
    FlattenConcat(back, l.ready);
    FromBoth(Flatten(l.ready), l.pending, env, calls);
    FromBoth(records, Flatten(l.ready), env, calls);
    FromBoth(Flatten(l'.ready), l.pending, env, calls);
  }

  lemma SettledFrom(cfg: Config, st: State, env: string, batch: Batch, reply: Outcome, now: nat, calls: Calls)
    requires NoEmptyBatch(st.lanes) && batch.records != []
    requires LanesFrom(st.lanes, calls) && From(batch.records, env, calls)
    ensures LanesFrom(Settled(cfg, st, env, batch, reply, now).lanes, calls)
  {
    hide TrimState, LanesFrom, Records, From, PutBack, SplitBatch, TotalBytes;
    var l := LaneOf(st.lanes, env);
    LaneFrom(st.lanes, env, calls);
    match reply
    case Posted(_, _, _) =>
      var l' := l.(failures := 0, blockedUntil := 0);
      assert Records(l') == Records(l) by { SameRecords(l, l'); }
      LanesWith(st.lanes, env, l', calls);
    case Failed(status, retryAfter) =>
      if Splits(batch, status) {
        var l' := l.(ready := SplitBatch(batch) + l.ready, readyBytes := l.readyBytes + TotalBytes(batch.records));
        SplitFlat(batch);
        BackFrom(l, SplitBatch(batch), batch.records, l', env, calls);
        LanesWith(st.lanes, env, l', calls);
      } else if !GivesUp(cfg, batch, status) {
        SettledRetry(cfg, st, env, batch, status, retryAfter, now);
        PutBackFrom(l, batch, retryAfter, now, env, calls);
        LanesWith(st.lanes, env, PutBack(l, batch, retryAfter, now), calls);
        TrimStateFrom(cfg, st.(lanes := st.lanes[env := PutBack(l, batch, retryAfter, now)]), calls);
      }
  }

  lemma SameRecords(l: Lane, l': Lane)
    requires l'.ready == l.ready && l'.pending == l.pending
    ensures Records(l') == Records(l)
  {
  }

  lemma SplitFlat(batch: Batch)
    ensures Flatten(SplitBatch(batch)) == batch.records
  {
    var back := SplitBatch(batch);
    FlattenTwo(back[0], back[1]);
    assert back == [back[0], back[1]];
  }

  lemma PutBackFrom(l: Lane, batch: Batch, retryAfter: int, now: nat, env: string, calls: Calls)
    requires From(Records(l), env, calls) && From(batch.records, env, calls)
    ensures From(Records(PutBack(l, batch, retryAfter, now)), env, calls)
  {
    hide Records, From, Backoff, TotalBytes;
    var again := batch.(attempts := batch.attempts + 1);
    assert Flatten([again]) == batch.records by { assert [again][1..] == []; }
    BackFrom(l, [again], batch.records, PutBack(l, batch, retryAfter, now), env, calls);
  }

  lemma StepFrom(cfg: Config, r: Run, ev: Event, calls: Calls)
    requires NoEmptyBatch(r.st.lanes) && (r.flight.Some? ==> r.flight.value.batch.records != [])
    requires RunFrom(r, calls) && CallOf(ev) <= calls
    ensures RunFrom(Apply(cfg, r, ev), calls)
  {
    hide NoEmptyBatch, LanesFrom, From, Enqueued, TakeFrom, Settled, Bumped, SizeOf, Records, Seqs;
    match ev
    case Enqueue(env, body) => EnqueuedFrom(cfg, r.st, env, body, calls);
    case Take(env, force, now) =>
      if r.flight.None? && env in r.st.lanes {
        LaneFrom(r.st.lanes, env, calls);
        TakenFrom(cfg, r.st.lanes[env], env, force, now, calls);
        LanesWith(r.st.lanes, env, TakeFrom(cfg, r.st.lanes[env], force, now).0, calls);
      }
    case Reply(outcome, now) =>
      if r.flight.Some? {
        SettledFrom(cfg, r.st, r.flight.value.env, r.flight.value.batch, outcome, now, calls);
      }
    case Close =>
  }

  lemma {:induction false} ExecFrom(cfg: Config, r: Run, events: seq<Event>, calls: Calls)
    requires Inv(cfg, r) && RunFrom(r, calls) && CallsOf(events) <= calls
    ensures RunFrom(Exec(cfg, r, events), calls)
    decreases |events|
  {
    hide Inv, Apply, RunFrom, NoEmptyBatch;
    if events != [] {
      StepOK(cfg, r, events[0]);
      InvUsable(cfg, r);
      StepFrom(cfg, r, events[0], calls);
      ExecFrom(cfg, Apply(cfg, r, events[0]), events[1..], calls);
    }
  }

  // Every record queued or in flight was handed in by a call for that very
  // environment, with that very body.
  lemma PostedWasEnqueued(cfg: Config, events: seq<Event>)
    ensures RunFrom(After(cfg, events), CallsOf(events))
  {
    hide Inv, Exec, CallsOf;
    assert RunFrom(START, CallsOf(events));
    StartOK(cfg);
    ExecFrom(cfg, START, events, CallsOf(events));
  }

  // So the body of every POST of every run is valid UTF-8, whatever bytes the
  // strings handed in hold.
  lemma PostedBodyIsValid(cfg: Config, events: seq<Event>)
    requires forall ev :: ev in events && ev.Enqueue? ==> JsonCollisions.Numeric(ev.body)
    requires After(cfg, events).flight.Some?
    ensures var records := After(cfg, events).flight.value.batch.records;
      Valid(CanonicalJson.Encode(JsonSizes.Envelope(Bodies(records))))
  {
    hide After, Valid, CanonicalJson.Encode, JsonCollisions.Numeric;
    PostedWasEnqueued(cfg, events);
    var Flight(env, batch) := After(cfg, events).flight.value;
    forall rec | rec in batch.records ensures JsonCollisions.Numeric(rec.body) {
      CallMade(events, env, rec.body);
    }
    BodiesNumeric(batch.records);
    JsonValidity.BodyIsValid(Bodies(batch.records));
  }

  lemma {:induction false} CallMade(events: seq<Event>, env: string, body: CanonicalJson.Json)
    requires (env, body) in CallsOf(events)
    ensures exists ev :: ev in events && ev.Enqueue? && ev.body == body
  {
    if (env, body) in CallOf(events[0]) {
      assert events[0] in events;
    } else {
      CallMade(events[1..], env, body);
    }
  }

  lemma {:induction false} BodiesNumeric(records: seq<Record>)
    requires forall rec :: rec in records ==> JsonCollisions.Numeric(rec.body)
    ensures forall i :: 0 <= i < |Bodies(records)| ==> JsonCollisions.Numeric(Bodies(records)[i])
  {
    hide JsonCollisions.Numeric;
    if records != [] {
      assert records[0] in records;
      BodiesNumeric(records[1..]);
    }
  }
}
