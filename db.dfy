/**
 * The store boundary of the prober: the integer widths of the columns, the
 * `TargetState` encoding, the row read from the `target` table and the two
 * statements the workers execute against the store. The store itself (sessions,
 * prepared statements, paging) is abstract: a write is represented by the row of
 * values it binds.
 */
module Db {
  import opened Wrappers

  newtype byte = x: int | 0 <= x < 0x100

  type Bytes = seq<byte>

  /** A Rust `String`, represented by its UTF-8 bytes. */
  type Text = Bytes

  /** A UUID; `Uuid::as_bytes` yields its 16 bytes. */
  type Uuid = b: Bytes | |b| == 16 witness [0, 0, 0, 0, 0, 0, 0, 0, 0, 0, 0, 0, 0, 0, 0, 0]

  type I8 = x: int | -0x80 <= x < 0x80
  type I16 = x: int | -0x8000 <= x < 0x8000
  type I32 = x: int | -0x8000_0000 <= x < 0x8000_0000
  type I64 = x: int | -0x8000_0000_0000_0000 <= x < 0x8000_0000_0000_0000
  type U16 = x: int | 0 <= x < 0x1_0000
  type U64 = x: int | 0 <= x < 0x1_0000_0000_0000_0000

  /** `chrono::Utc::now()`, in milliseconds since the epoch. */
  type Timestamp = int

  // Rust's `as` between integers of the same width keeps the bits: the result is
  // the one value of the target type that is congruent to the operand.

  function U16AsI16(v: U16): (r: I16)
    ensures (r - v) % 0x1_0000 == 0
  {
    if v < 0x8000 then v else v - 0x1_0000
  }

  function I16AsU16(v: I16): (r: U16)
    ensures (r - v) % 0x1_0000 == 0
  {
    if v >= 0 then v else v + 0x1_0000
  }

  function U64AsI64(v: U64): (r: I64)
    ensures (r - v) % 0x1_0000_0000_0000_0000 == 0
  {
    if v < 0x8000_0000_0000_0000 then v else v - 0x1_0000_0000_0000_0000
  }

  /** `as u64` on an `i64`, or on a narrower signed integer (sign extension). */
  function I64AsU64(v: I64): (r: U64)
    ensures (r - v) % 0x1_0000_0000_0000_0000 == 0
  {
    if v >= 0 then v else v + 0x1_0000_0000_0000_0000
  }

  /** Storing an unsigned value in a signed column of the same width loses nothing. */
  lemma {:induction false} SignedColumnsAreLossless(s: U16, t: U64)
    ensures I16AsU16(U16AsI16(s)) == s
    ensures I64AsU64(U64AsI64(t)) == t
    ensures s < 0x8000 ==> U16AsI16(s) == s
    ensures t < 0x8000_0000_0000_0000 ==> U64AsI64(t) == t
  {
  }

  /** `TargetState`, a `#[repr(i8)]` enum. */
  datatype TargetState = Unknown | Up | Down | Timeout

  /** `state as i8`: the discriminant. */
  function Encode(s: TargetState): (v: I8)
    ensures 0 <= v <= 3
  {
    match s
    case Unknown => 0
    case Up => 1
    case Down => 2
    case Timeout => 3
  }

  /** The state a stored `i8` stands for, if any. */
  function Decode(v: I8): (r: Option<TargetState>)
    ensures r.Some? <==> 0 <= v <= 3
    ensures r.Some? ==> Encode(r.value) == v
  {
    if v == 0 then Some(Unknown)
    else if v == 1 then Some(Up)
    else if v == 2 then Some(Down)
    else if v == 3 then Some(Timeout)
    else None
  }

  /** Distinct states are stored as distinct integers, and every one decodes back. */
  lemma EncodeIsInjective(s: TargetState, t: TargetState)
    ensures Encode(s) == Encode(t) ==> s == t
    ensures Decode(Encode(s)) == Some(s)
  {
  }

  /** One row of `SELECT target_id, ..., target_metadata FROM target`. */
  datatype TargetRow = TargetRow(
    id: Uuid,
    enabled: bool,
    name: Text,
    address: Text,
    pingType: Text,
    interval: I32,
    state: I8,
    metadata: Text)

  /** The values a write binds: `UPDATE target SET target_state = ? WHERE target_id = ?`
    * or `INSERT INTO ping (ping_target_id, ping_timestamp, ping_state, ping_res_time,
    * ping_http_status)`. */
  datatype StoreWrite =
    | StateUpdate(targetState: I8, targetId: Uuid)
    | PingInsert(
        pingTargetId: Uuid,
        pingTimestamp: Timestamp,
        pingState: bool,
        pingResTime: Option<I64>,
        pingHttpStatus: Option<I16>)
  {
    /** The target the write is about. */
    function Target(): Uuid {
      if StateUpdate? then targetId else pingTargetId
    }
  }

  /** `update_target_state(id, state)`. */
  function UpdateTargetState(id: Uuid, state: TargetState): (w: StoreWrite)
    ensures w.StateUpdate? && w.targetId == id
    ensures Decode(w.targetState) == Some(state)
  {
    StateUpdate(Encode(state), id)
  }

  /** `inser_http_ping(id, up, response_time, status)` executed at time `now`. */
  function InsertHttpPing(id: Uuid, now: Timestamp, up: bool, responseTime: Option<U64>, status: Option<U16>): (w: StoreWrite)
    ensures w.PingInsert? && w.pingTargetId == id && w.pingTimestamp == now && w.pingState == up
    ensures w.pingResTime.Some? <==> responseTime.Some?
    ensures w.pingHttpStatus.Some? <==> status.Some?
    ensures responseTime.Some? ==> I64AsU64(w.pingResTime.value) == responseTime.value
    ensures status.Some? ==> I16AsU16(w.pingHttpStatus.value) == status.value
  {
    PingInsert(
      id, now, up,
      match responseTime case None => None case Some(v) => Some(U64AsI64(v)),
      match status case None => None case Some(v) => Some(U16AsI16(v)))
  }
}
