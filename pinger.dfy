/**
 * The per-target worker: the ping-type gate at spawn, the metadata parse per
 * configuration version, the hand-off of a pending update, the debounced state
 * write followed by the probe record, and the self-correcting sleep.
 *
 * Clocks, the deadline timer and the store's success are inputs of each step.
 * The store is the append-only sequence of the writes it accepted.
 */
module Pinger {
  import opened Wrappers
  import opened Db
  import opened Http

  const HttpPingType: Text := [0x48, 0x54, 0x54, 0x50]  // "HTTP"

  /** `serde_json::from_str::<HttpMetadata>`: text to JSON (a library), then the derived mapping. */
  function ParseMetadata(parseJson: Text -> Option<Json>, blob: Text): (r: Option<HttpMetadata>)
    ensures parseJson(blob).None? ==> r.None?
    ensures r.Some? <==> parseJson(blob).Some? && parseJson(blob).value.JObject? && FieldsWellTyped(parseJson(blob).value.fields)
  {
    match parseJson(blob)
    case None => None
    case Some(v) => MetadataFromJson(v)
  }

  /** A blob holding the JSON of some metadata parses back to exactly that metadata. */
  lemma {:induction false} StoredMetadataIsRead(parseJson: Text -> Option<Json>, blob: Text, m: HttpMetadata)
    requires parseJson(blob) == Some(MetadataToJson(m))
    ensures ParseMetadata(parseJson, blob) == Some(m)
  {
    MetadataJsonRoundTrip(m);
  }

  /** What `tokio::time::timeout(interval, http::ping(..))` yields. */
  datatype ProbeOutcome =
    | Answered(response: PingResponse)   // Ok(Ok(response))
    | ProbeFailed                        // Ok(Err(_)): a validation or transport error
    | DeadlineElapsed                    // Err(Elapsed)

  /**
   * The outcome of one probe, given the library behaviour, the transport and the
   * timer. The timer wins only over a request that was sent: `timeout` polls
   * `ping` before its timer, and a request that fails validation returns its
   * error on that first poll, before `ping` ever waits.
   */
  function ExpectedOutcome(meta: HttpMetadata, env: HttpEnv, transport: Transport, deadlineElapsed: bool): (o: ProbeOutcome)
    ensures o.DeadlineElapsed? <==> deadlineElapsed && RequestValid(meta, env)
    ensures !RequestValid(meta, env) ==> o == ProbeFailed
    ensures !deadlineElapsed ==> (o.Answered? <==> ExpectedResponse(meta, env, transport).Some?)
    ensures o.Answered? ==> Some(o.response) == ExpectedResponse(meta, env, transport)
  {
    if deadlineElapsed && RequestValid(meta, env) then DeadlineElapsed
    else match ExpectedResponse(meta, env, transport)
      case Some(r) => Answered(r)
      case None => ProbeFailed
  }

  /** The state `http_ping_wrapper` assigns to `current_state` for an outcome. */
  function ObservedState(o: ProbeOutcome): (s: TargetState)
    ensures s != TargetState.Unknown
    ensures s == TargetState.Up <==> o.Answered? && o.response.Up?
    ensures s == TargetState.Timeout <==> o.DeadlineElapsed? || (o.Answered? && o.response.Timeout?)
  {
    match o
    case Answered(r) => if r.Up? then TargetState.Up else if r.Down? then TargetState.Down else TargetState.Timeout
    case ProbeFailed => TargetState.Down
    case DeadlineElapsed => TargetState.Timeout
  }

  /** The state `http_ping_wrapper` passes to `update_target_state`: on `Up` it is `Down`. */
  function PersistedState(o: ProbeOutcome): (s: TargetState)
    ensures s == TargetState.Down || s == TargetState.Timeout
    ensures ObservedState(o) != TargetState.Up ==> s == ObservedState(o)
    ensures ObservedState(o) == TargetState.Up ==> s == TargetState.Down
  {
    match o
    case Answered(r) => if r.Timeout? then TargetState.Timeout else TargetState.Down
    case ProbeFailed => TargetState.Down
    case DeadlineElapsed => TargetState.Timeout
  }

  /** The `inser_http_ping` call that follows an outcome. */
  function ProbeRecord(id: Uuid, now: Timestamp, o: ProbeOutcome): (w: StoreWrite)
    ensures w.PingInsert? && w.pingTargetId == id && w.pingTimestamp == now
    ensures w.pingState <==> ObservedState(o) == TargetState.Up
    ensures w.pingResTime.Some? <==> o.Answered? && !o.response.Timeout?
    ensures w.pingHttpStatus.Some? <==> o.Answered? && !o.response.Timeout?
    ensures w.pingResTime.Some? ==> I64AsU64(w.pingResTime.value) == o.response.responseTime
    ensures w.pingHttpStatus.Some? ==> I16AsU16(w.pingHttpStatus.value) == o.response.status
  {
    if o.Answered? && !o.response.Timeout? then
      InsertHttpPing(id, now, o.response.Up?, Some(o.response.responseTime), Some(o.response.status))
    else
      InsertHttpPing(id, now, false, None, None)
  }

  function StateWriteCount(ws: seq<StoreWrite>): nat {
    if ws == [] then 0 else (if ws[0].StateUpdate? then 1 else 0) + StateWriteCount(ws[1..])
  }

  function RecordCount(ws: seq<StoreWrite>): nat {
    if ws == [] then 0 else (if ws[0].PingInsert? then 1 else 0) + RecordCount(ws[1..])
  }

  lemma PairCounts(update: StoreWrite, record: StoreWrite)
    requires update.StateUpdate? && record.PingInsert?
    ensures StateWriteCount([update, record]) == 1 && RecordCount([update, record]) == 1
  {
    assert [update, record][1..] == [record] && [record][1..] == [];
    assert StateWriteCount([record]) == 0 && RecordCount([record]) == 1;
  }

  /** The new `current_state`, the writes the store accepted, and whether the call returned `Ok`. */
  datatype WrapperStep = WrapperStep(state: I8, persisted: seq<StoreWrite>, ok: bool)

  /**
   * `http_ping_wrapper`: the state is written only when the classification
   * differs from `current`, which is updated before the write is attempted;
   * the probe record follows, unless the state write failed.
   */
  function PingWrapper(id: Uuid, current: I8, o: ProbeOutcome, now: Timestamp, stateWriteOk: bool, insertOk: bool): (s: WrapperStep)
    ensures s.state == Encode(ObservedState(o))
    ensures StateWriteCount(s.persisted) == (if current != s.state && stateWriteOk then 1 else 0)
    ensures StateWriteCount(s.persisted) == 1 ==> s.persisted[0] == UpdateTargetState(id, PersistedState(o))
    ensures RecordCount(s.persisted) == (if (current == s.state || stateWriteOk) && insertOk then 1 else 0)
    ensures RecordCount(s.persisted) == 1 ==> s.persisted[|s.persisted| - 1] == ProbeRecord(id, now, o)
    ensures |s.persisted| == StateWriteCount(s.persisted) + RecordCount(s.persisted)
    ensures s.ok <==> (current == s.state || stateWriteOk) && insertOk
  {
    var next := Encode(ObservedState(o));
    var update, record := UpdateTargetState(id, PersistedState(o)), ProbeRecord(id, now, o);
    if current != next then
      if !stateWriteOk then WrapperStep(next, [], false)
      else if !insertOk then WrapperStep(next, [update], false)
      else PairCounts(update, record); WrapperStep(next, [update, record], true)
    else if !insertOk then WrapperStep(next, [], false)
    else WrapperStep(next, [record], true)
  }

  /** As written, a transition to `Up` stores `Down` (encoded 2), not `Up` (1). */
  lemma {:induction false} UpIsPersistedAsDown(id: Uuid, current: I8, t: U64, c: U16, now: Timestamp)
    requires current != Encode(TargetState.Up)
    ensures PingWrapper(id, current, Answered(PingResponse.Up(t, c)), now, true, true).persisted
      == [StateUpdate(2, id), InsertHttpPing(id, now, true, Some(t), Some(c))]
  {
    var o := Answered(PingResponse.Up(t, c));
    assert PersistedState(o) == TargetState.Down;
    assert ProbeRecord(id, now, o) == InsertHttpPing(id, now, true, Some(t), Some(c));
  }

  /**
   * `current_state` is updated before the state write: when that write fails,
   * nothing is recorded, and the next probe with the same classification does not
   * write the state again.
   */
  lemma {:induction false} FailedStateWriteIsNotRetried(id: Uuid, current: I8, o: ProbeOutcome, o': ProbeOutcome,
                                                        now: Timestamp, now': Timestamp, insertOk: bool)
    requires current != Encode(ObservedState(o))
    requires ObservedState(o') == ObservedState(o)
    ensures PingWrapper(id, current, o, now, false, insertOk).persisted == []
    ensures !PingWrapper(id, current, o, now, false, insertOk).ok
    ensures StateWriteCount(PingWrapper(id, PingWrapper(id, current, o, now, false, insertOk).state, o', now', true, true).persisted) == 0
  {
  }

  // ---------------------------------------------------------------------------
  // Debouncing over a run of probes

  datatype Probe = Probe(outcome: ProbeOutcome, at: Timestamp)

  /** The writes of consecutive probes when the store accepts every write. */
  function Replay(id: Uuid, current: I8, probes: seq<Probe>): seq<StoreWrite>
    decreases |probes|
  {
    if probes == [] then []
    else
      var s := PingWrapper(id, current, probes[0].outcome, probes[0].at, true, true);
      s.persisted + Replay(id, s.state, probes[1..])
  }

  /** How many probes classify differently from the state before them. */
  function Transitions(current: I8, probes: seq<Probe>): nat
    decreases |probes|
  {
    if probes == [] then 0
    else
      var next := Encode(ObservedState(probes[0].outcome));
      (if next != current then 1 else 0) + Transitions(next, probes[1..])
  }

  lemma {:induction false} CountsAppend(a: seq<StoreWrite>, b: seq<StoreWrite>)
    ensures StateWriteCount(a + b) == StateWriteCount(a) + StateWriteCount(b)
    ensures RecordCount(a + b) == RecordCount(a) + RecordCount(b)
  {
    if a == [] {
      assert a + b == b;
    } else {
      assert (a + b)[0] == a[0] && (a + b)[1..] == a[1..] + b;
      CountsAppend(a[1..], b);
    }
  }

  /** One state write per change of classification, one probe record per probe. */
  lemma {:induction false} ReplayWritesOncePerTransition(id: Uuid, current: I8, probes: seq<Probe>)
    ensures StateWriteCount(Replay(id, current, probes)) == Transitions(current, probes)
    ensures RecordCount(Replay(id, current, probes)) == |probes|
    decreases |probes|
  {
    if probes != [] {
      var s := PingWrapper(id, current, probes[0].outcome, probes[0].at, true, true);
      ReplayWritesOncePerTransition(id, s.state, probes[1..]);
      CountsAppend(s.persisted, Replay(id, s.state, probes[1..]));
    }
  }

  lemma {:induction false} SteadyTransitions(current: I8, probes: seq<Probe>, s: TargetState)
    requires forall i | 0 <= i < |probes| :: ObservedState(probes[i].outcome) == s
    ensures Transitions(current, probes) == (if probes != [] && current != Encode(s) then 1 else 0)
    decreases |probes|
  {
    if probes != [] {
      SteadyTransitions(Encode(s), probes[1..], s);
    }
  }

  /** Probes that all classify the same write the state at most once, and only the first time. */
  lemma {:induction false} RepeatedOutcomeWritesStateAtMostOnce(id: Uuid, current: I8, probes: seq<Probe>, s: TargetState)
    requires forall i | 0 <= i < |probes| :: ObservedState(probes[i].outcome) == s
    ensures StateWriteCount(Replay(id, current, probes)) == (if probes != [] && current != Encode(s) then 1 else 0)
    ensures RecordCount(Replay(id, current, probes)) == |probes|
  {
    ReplayWritesOncePerTransition(id, current, probes);
    SteadyTransitions(current, probes, s);
  }

  /**
   * A target starting `Unknown` that answers 200 and then 500 with range
   * [200, 299]: four facts, in order; the first state write stores `Down`.
   */
  lemma {:induction false} UpThenDownScenario(id: Uuid, t0: Timestamp, t1: Timestamp, l0: U64, l1: U64)
    ensures Replay(id, Encode(TargetState.Unknown),
                   [Probe(Answered(Classify(200, 200, 299, l0 as int % 0x8000_0000_0000_0000)), t0),
                    Probe(Answered(Classify(500, 200, 299, l1 as int % 0x8000_0000_0000_0000)), t1)])
      == [StateUpdate(2, id), ProbeRecord(id, t0, Answered(PingResponse.Up(l0 % 0x8000_0000_0000_0000, 200))),
          StateUpdate(2, id), ProbeRecord(id, t1, Answered(PingResponse.Down(l1 % 0x8000_0000_0000_0000, 500)))]
  {
    var p0 := Probe(Answered(Classify(200, 200, 299, l0 as int % 0x8000_0000_0000_0000)), t0);
    var p1 := Probe(Answered(Classify(500, 200, 299, l1 as int % 0x8000_0000_0000_0000)), t1);
    var s0 := PingWrapper(id, Encode(TargetState.Unknown), p0.outcome, t0, true, true);
    var s1 := PingWrapper(id, s0.state, p1.outcome, t1, true, true);
    assert s0.state == 1 && s0.persisted == [StateUpdate(2, id), ProbeRecord(id, t0, p0.outcome)];
    assert s1.persisted == [StateUpdate(2, id), ProbeRecord(id, t1, p1.outcome)];
    assert p0.outcome == Answered(PingResponse.Up(l0 % 0x8000_0000_0000_0000, 200));
    assert p1.outcome == Answered(PingResponse.Down(l1 % 0x8000_0000_0000_0000, 500));
    assert [p0, p1][1..] == [p1];
    assert Replay(id, s1.state, []) == [];
    assert Replay(id, Encode(TargetState.Unknown), [p0, p1]) == s0.persisted + Replay(id, s0.state, [p1]);
    assert Replay(id, s0.state, [p1]) == s1.persisted + Replay(id, s1.state, []);
  }

  // ---------------------------------------------------------------------------
  // Cadence

  /** `now as u64 - ping_start`, both read from the clock as `i64` milliseconds. */
  function PingDuration(startMs: I64, endMs: I64): (d: U64)
    requires I64AsU64(startMs) <= I64AsU64(endMs)
    ensures (d - (endMs - startMs)) % 0x1_0000_0000_0000_0000 == 0
    ensures 0 <= startMs <= endMs ==> d == endMs - startMs
  {
    I64AsU64(endMs) - I64AsU64(startMs)
  }

  /** `u64::saturating_sub`: the difference, or zero where it would go below zero. */
  function SaturatingSub(a: U64, b: U64): (d: U64)
    ensures d <= a
    ensures a >= b ==> d + b == a
    ensures a <= b ==> d == 0
  {
    if a >= b then a - b else 0
  }

  /**
   * The sleep after a probe: none when the probe took the whole interval or
   * more, otherwise the rest of the interval, so that probe plus sleep span
   * exactly one interval whenever the probe fits in it.
   */
  function SleepMillis(interval: I32, durationMs: U64): (ms: U64)
    requires 0 <= interval
    ensures ms <= interval * 1000
    ensures durationMs + ms == (if durationMs >= interval * 1000 then durationMs else interval * 1000)
  {
    var period := I64AsU64(interval) * 1000;
    if durationMs >= period then 0 else SaturatingSub(period, durationMs)
  }

  /** Interval 5 s: a 2 s probe sleeps 3000 ms, a 6 s probe does not sleep. */
  lemma {:induction false} SleepExamples()
    ensures SleepMillis(5, 2000) == 3000
    ensures SleepMillis(5, 6000) == 0
  {
  }

  // ---------------------------------------------------------------------------
  // The worker

  datatype WorkerError = InvalidPingType(pingType: Text) | InvalidMetadata

  datatype WorkerStatus = Running | Ended(error: WorkerError)

  /**
   * The task `ping(target, update_channel)`. `inbox` is the capacity-1 update
   * channel; `store` holds the writes the store accepted from this worker.
   */
  class Worker {
    const id: Uuid
    const parseJson: Text -> Option<Json>
    const env: HttpEnv
    var target: TargetRow
    var currentState: I8
    var metadata: Option<HttpMetadata>  // None: to be parsed before the next probe
    var inbox: Option<TargetRow>
    var store: seq<StoreWrite>
    var status: WorkerStatus

    /** The parsed metadata is that of the active target, and every write is about `id`. */
    ghost predicate Valid()
      reads this
    {
      && (metadata.Some? ==> metadata == ParseMetadata(parseJson, target.metadata))
      && (forall i | 0 <= i < |store| :: store[i].Target() == id)
    }

    /** Spawning: the ping type is checked once, here; only "HTTP" starts the loop. */
    constructor Spawn(row: TargetRow, parseJson: Text -> Option<Json>, env: HttpEnv)
      ensures Valid()
      ensures id == row.id && this.parseJson == parseJson && this.env == env
      ensures target == row && currentState == row.state
      ensures metadata.None? && inbox.None? && store == []
      ensures status == if row.pingType == HttpPingType then Running else Ended(InvalidPingType(row.pingType))
    {
      id := row.id;
      this.parseJson := parseJson;
      this.env := env;
      target := row;
      currentState := row.state;
      metadata := None;
      inbox := None;
      store := [];
      status := if row.pingType == HttpPingType then Running else Ended(InvalidPingType(row.pingType));
    }

    /** The head of the outer loop: unparseable metadata ends the worker. */
    method LoadMetadata()
      requires Valid() && status.Running? && metadata.None?
      modifies this`metadata, this`status
      ensures Valid()
      ensures metadata == ParseMetadata(parseJson, target.metadata)
      ensures status == if metadata.None? then Ended(InvalidMetadata) else Running
    {
      metadata := ParseMetadata(parseJson, target.metadata);
      if metadata.None? {
        status := Ended(InvalidMetadata);
      }
    }

    /**
     * The reconciler's `send`: it fails once the worker has ended (the channel is
     * closed); it can only complete when the slot is empty.
     */
    method Offer(row: TargetRow) returns (accepted: bool)
      requires inbox.None?
      modifies this`inbox
      ensures accepted <==> status.Running?
      ensures inbox == if accepted then Some(row) else None
    {
      accepted := status.Running?;
      if accepted {
        inbox := Some(row);
      }
    }

    /** `http_ping_wrapper` on `current_state` and the store. */
    method ApplyOutcome(o: ProbeOutcome, now: Timestamp, stateWriteOk: bool, insertOk: bool) returns (ok: bool)
      requires Valid()
      modifies this`currentState, this`store
      ensures Valid()
      ensures var s := PingWrapper(id, old(currentState), o, now, stateWriteOk, insertOk);
        currentState == s.state && store == old(store) + s.persisted && ok == s.ok
    {
      var next := Encode(ObservedState(o));
      if currentState != next {
        currentState := next;
        if !stateWriteOk {
          return false;
        }
        store := store + [UpdateTargetState(id, PersistedState(o))];
      }
      if !insertOk {
        return false;
      }
      store := store + [ProbeRecord(id, now, o)];
      ok := true;
    }

    /**
     * One turn of the inner loop. A pending update replaces the target, resets
     * `current_state` to the row's state and leaves the metadata to be parsed
     * again; otherwise the target is probed (as HTTP, whatever its ping type now
     * is), the outcome applied, and the sleep computed. Errors do not end the loop.
     */
    method Iterate(transport: Transport, deadlineElapsed: bool, now: Timestamp, stateWriteOk: bool, insertOk: bool,
                   startMs: I64, endMs: I64)
      returns (sleepMs: Option<U64>)
      requires Valid() && status.Running? && metadata.Some?
      requires inbox.None? ==> 0 <= target.interval && I64AsU64(startMs) <= I64AsU64(endMs)
      modifies this`target, this`currentState, this`metadata, this`inbox, this`store
      ensures Valid() && inbox.None?
      ensures old(inbox).Some? ==>
        && target == old(inbox).value && currentState == target.state && metadata.None?
        && store == old(store) && sleepMs.None?
      ensures old(inbox).None? ==>
        var o := ExpectedOutcome(old(metadata).value, env, transport, deadlineElapsed);
        var s := PingWrapper(id, old(currentState), o, now, stateWriteOk, insertOk);
        && target == old(target) && metadata == old(metadata)
        && currentState == s.state && store == old(store) + s.persisted
        && sleepMs == Some(SleepMillis(target.interval, PingDuration(startMs, endMs)))
    {
      if inbox.Some? {
        target := inbox.value;
        currentState := target.state;
        inbox := None;
        metadata := None;
        return None;
      }
      var r, sent := Ping(target.address, metadata.value, env, transport);
      var o := if deadlineElapsed && sent.Some? then DeadlineElapsed else if r.Success? then Answered(r.value) else ProbeFailed;
      var ok := ApplyOutcome(o, now, stateWriteOk, insertOk);
      sleepMs := Some(SleepMillis(target.interval, PingDuration(startMs, endMs)));
    }
  }
}
