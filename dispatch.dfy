/**
 * The reconciler: the fingerprint of a target row, and one cycle of the
 * synchronisation loop that diffs the rows read from the store against the
 * cache of running workers, spawning, updating and aborting workers.
 *
 * Workers, channels and abort handles are represented by the events the cycle
 * emits; CRC32 is the parameter `crc`; the result of the enumeration is an input.
 */
module Dispatch {
  import opened Db

  // ---------------------------------------------------------------------------
  // Fingerprint

  /** `i8::to_le_bytes`. */
  function I8LeBytes(v: I8): (b: Bytes)
    ensures |b| == 1
  {
    [(if v >= 0 then v else v + 0x100) as byte]
  }

  function I8FromLeBytes(b: Bytes): I8
    requires |b| == 1
  {
    if b[0] < 0x80 then b[0] as int else b[0] as int - 0x100
  }

  /** `i32::to_le_bytes`: two's complement, least significant byte first. */
  function I32LeBytes(v: I32): (b: Bytes)
    ensures |b| == 4
  {
    var u := if v >= 0 then v else v + 0x1_0000_0000;
    var u1 := u / 0x100;
    var u2 := u1 / 0x100;
    [(u % 0x100) as byte, (u1 % 0x100) as byte, (u2 % 0x100) as byte, (u2 / 0x100) as byte]
  }

  function I32FromLeBytes(b: Bytes): I32
    requires |b| == 4
  {
    var u := b[0] as int + 0x100 * (b[1] as int + 0x100 * (b[2] as int + 0x100 * b[3] as int));
    if u < 0x8000_0000 then u else u - 0x1_0000_0000
  }

  /** The fixed-width fields are encoded losslessly. */
  lemma {:induction false} LeBytesRoundTrip(s: I8, v: I32)
    ensures I8FromLeBytes(I8LeBytes(s)) == s
    ensures I32FromLeBytes(I32LeBytes(v)) == v
  {
    var u := if v >= 0 then v else v + 0x1_0000_0000;
    var u1 := u / 0x100;
    var u2 := u1 / 0x100;
    var b := I32LeBytes(v);
    assert u2 == b[2] as int + 0x100 * b[3] as int;
    assert u1 == b[1] as int + 0x100 * u2;
    assert u == b[0] as int + 0x100 * u1;
  }

  /** The byte strings fed to the digest, in the order of the `update` calls. */
  function Parts(row: TargetRow): (ps: seq<Bytes>)
    ensures |ps| == 7
    ensures |ps[0]| == 16 && |ps[1]| == 1 && |ps[5]| == 4
  {
    [row.id, I8LeBytes(row.state), row.name, row.address, row.pingType, I32LeBytes(row.interval), row.metadata]
  }

  function Flatten(ps: seq<Bytes>): Bytes {
    if ps == [] then [] else ps[0] + Flatten(ps[1..])
  }

  function FingerprintInput(row: TargetRow): Bytes {
    Flatten(Parts(row))
  }

  /** `TargetIterObject::hash`: CRC32 of the fields fed one after another, without separators. */
  function Fingerprint(crc: Bytes -> U64, row: TargetRow): (h: U64)
    ensures h == crc(row.id + I8LeBytes(row.state) + row.name + row.address + row.pingType
                     + I32LeBytes(row.interval) + row.metadata)
  {
    FingerprintFeedsFieldsInOrder(row);
    crc(FingerprintInput(row))
  }

  lemma {:induction false} FingerprintFeedsFieldsInOrder(row: TargetRow)
    ensures FingerprintInput(row) == row.id + I8LeBytes(row.state) + row.name + row.address + row.pingType
                                     + I32LeBytes(row.interval) + row.metadata
  {
    var ps := Parts(row);
    calc {
      Flatten(ps);
      ps[0] + Flatten(ps[1..]);
      ps[0] + (ps[1] + Flatten(ps[2..]));
      ps[0] + (ps[1] + (ps[2] + Flatten(ps[3..])));
      ps[0] + (ps[1] + (ps[2] + (ps[3] + Flatten(ps[4..]))));
      ps[0] + (ps[1] + (ps[2] + (ps[3] + (ps[4] + Flatten(ps[5..])))));
      ps[0] + (ps[1] + (ps[2] + (ps[3] + (ps[4] + (ps[5] + Flatten(ps[6..]))))));
      { assert ps[6..][1..] == []; }
      ps[0] + (ps[1] + (ps[2] + (ps[3] + (ps[4] + (ps[5] + (ps[6] + []))))));
    }
  }

  /** The fields that enter the fingerprint; `enabled` is not one of them. */
  datatype Field = Id | State | Name | Address | PingType | Interval | Metadata

  function Position(f: Field): (k: nat)
    ensures k < 7
  {
    match f
    case Id => 0
    case State => 1
    case Name => 2
    case Address => 3
    case PingType => 4
    case Interval => 5
    case Metadata => 6
  }

  /** `r` and `r'` differ in field `f` and agree on every other hashed field. */
  predicate OnlyFieldDiffers(r: TargetRow, r': TargetRow, f: Field) {
    && (r.id == r'.id <==> f != Id)
    && (r.state == r'.state <==> f != State)
    && (r.name == r'.name <==> f != Name)
    && (r.address == r'.address <==> f != Address)
    && (r.pingType == r'.pingType <==> f != PingType)
    && (r.interval == r'.interval <==> f != Interval)
    && (r.metadata == r'.metadata <==> f != Metadata)
  }

  /** Rows that agree on every hashed field have the same fingerprint, whatever `enabled` is. */
  lemma {:induction false} EnabledIsNotHashed(crc: Bytes -> U64, r: TargetRow, r': TargetRow)
    requires r.(enabled := r'.enabled) == r'
    ensures Fingerprint(crc, r) == Fingerprint(crc, r')
  {
  }

  lemma {:induction false} FlattenAppend(a: seq<Bytes>, b: seq<Bytes>)
    ensures Flatten(a + b) == Flatten(a) + Flatten(b)
    decreases |a|
  {
    if a == [] {
      assert a + b == b;
    } else {
      assert (a + b)[0] == a[0] && (a + b)[1..] == a[1..] + b;
      FlattenAppend(a[1..], b);
    }
  }

  /** Byte strings that differ in one position of the sequence flatten differently. */
  lemma {:induction false} FlattenDistinguishesOnePart(ps: seq<Bytes>, qs: seq<Bytes>, k: nat)
    requires |ps| == |qs| && k < |ps|
    requires forall i | 0 <= i < |ps| && i != k :: ps[i] == qs[i]
    requires ps[k] != qs[k]
    ensures Flatten(ps) != Flatten(qs)
  {
    assert ps == ps[..k] + [ps[k]] + ps[k + 1..];
    assert qs == qs[..k] + [qs[k]] + qs[k + 1..];
    assert ps[..k] == qs[..k] && ps[k + 1..] == qs[k + 1..];
    FlattenAppend(ps[..k] + [ps[k]], ps[k + 1..]);
    FlattenAppend(ps[..k], [ps[k]]);
    FlattenAppend(qs[..k] + [qs[k]], qs[k + 1..]);
    FlattenAppend(qs[..k], [qs[k]]);
    var pre, post := Flatten(ps[..k]), Flatten(ps[k + 1..]);
    assert Flatten([ps[k]]) == ps[k] + Flatten([]) == ps[k];
    assert Flatten([qs[k]]) == qs[k] + Flatten([]) == qs[k];
    assert Flatten(ps) == pre + ps[k] + post && Flatten(qs) == pre + qs[k] + post;
    if |ps[k]| == |qs[k]| {
      var j :| 0 <= j < |ps[k]| && ps[k][j] != qs[k][j];
      assert Flatten(ps)[|pre| + j] == ps[k][j];
      assert Flatten(qs)[|pre| + j] == qs[k][j];
    }
  }

  /** A change to any single hashed field changes the bytes fed to the digest. */
  lemma {:induction false} OneFieldChangeIsSeen(r: TargetRow, r': TargetRow, f: Field)
    requires OnlyFieldDiffers(r, r', f)
    ensures FingerprintInput(r) != FingerprintInput(r')
  {
    LeBytesRoundTrip(r.state, r.interval);
    LeBytesRoundTrip(r'.state, r'.interval);
    var k := Position(f);
    forall i | 0 <= i < 7 && i != k
      ensures Parts(r)[i] == Parts(r')[i]
    {
    }
    FlattenDistinguishesOnePart(Parts(r), Parts(r'), k);
  }

  /**
   * The fields are concatenated without lengths or separators: moving a byte
   * from the end of the name to the start of the address leaves the digest input,
   * and so the fingerprint, unchanged.
   */
  lemma {:induction false} FieldBoundaryCollision(crc: Bytes -> U64, r: TargetRow)
    requires r.name == [1, 2] && r.address == [3]
    ensures Fingerprint(crc, r) == Fingerprint(crc, r.(name := [1], address := [2, 3]))
  {
    var r' := r.(name := [1], address := [2, 3]);
    assert Parts(r) == [r.id, I8LeBytes(r.state)] + [[1, 2], [3]] + Parts(r)[4..];
    assert Parts(r') == [r.id, I8LeBytes(r.state)] + [[1], [2, 3]] + Parts(r)[4..];
    FlattenAppend([r.id, I8LeBytes(r.state)] + [[1, 2], [3]], Parts(r)[4..]);
    FlattenAppend([r.id, I8LeBytes(r.state)], [[1, 2], [3]]);
    FlattenAppend([r.id, I8LeBytes(r.state)] + [[1], [2, 3]], Parts(r)[4..]);
    FlattenAppend([r.id, I8LeBytes(r.state)], [[1], [2, 3]]);
    assert Flatten([[1, 2], [3]]) == [1, 2, 3] == Flatten([[1], [2, 3]]) by {
      assert Flatten([[3]]) == [3] && Flatten([[2, 3]]) == [2, 3];
    }
  }

  // ---------------------------------------------------------------------------
  // One cycle as functions of the cache and the rows read

  /** A cache entry; the update channel and abort handle are the worker itself. */
  datatype Entry = Entry(checksum: U64, syncCounter: nat)

  /** What the cycle does to workers: spawn one, send one an updated row, abort one. */
  datatype Event =
    | Spawn(id: Uuid, row: TargetRow)
    | Send(id: Uuid, row: TargetRow)
    | Abort(id: Uuid)

  /** The result of `target_iter` and of pulling rows from it. */
  datatype Snapshot =
    | Complete(rows: seq<TargetRow>)      // the stream ended with Ok(None)
    | FailedAt(prefix: seq<TargetRow>)    // a row fetch failed after `prefix`
    | ConnectFailed                       // the query itself failed

  function RowsRead(s: Snapshot): seq<TargetRow> {
    match s
    case Complete(rows) => rows
    case FailedAt(prefix) => prefix
    case ConnectFailed => []
  }

  datatype Pass = Pass(cache: map<Uuid, Entry>, events: seq<Event>)

  /**
   * One row of the inner loop: disabled rows are skipped; an unknown id is
   * spawned; a known id whose fingerprint changed is sent the row; every
   * enabled id ends with the row's fingerprint and the current counter.
   */
  function VisitRow(crc: Bytes -> U64, counter: nat, cache: map<Uuid, Entry>, row: TargetRow): (p: Pass)
    ensures !row.enabled ==> p == Pass(cache, [])
    ensures row.enabled ==> p.cache == cache[row.id := Entry(Fingerprint(crc, row), counter)]
    ensures row.enabled ==> (p.events == [] <==> row.id in cache && cache[row.id].checksum == Fingerprint(crc, row))
    ensures p.events == [] || p.events == [if row.id in cache then Send(row.id, row) else Spawn(row.id, row)]
  {
    if !row.enabled then Pass(cache, [])
    else
      var h := Fingerprint(crc, row);
      if row.id in cache then
        if h != cache[row.id].checksum then Pass(cache[row.id := Entry(h, counter)], [Send(row.id, row)])
        else Pass(cache[row.id := cache[row.id].(syncCounter := counter)], [])
      else Pass(cache[row.id := Entry(h, counter)], [Spawn(row.id, row)])
  }

  /** The inner loop over the rows read, in order. */
  function Scan(crc: Bytes -> U64, counter: nat, cache: map<Uuid, Entry>, rows: seq<TargetRow>): (p: Pass)
    ensures |p.events| <= |rows|
    ensures cache.Keys <= p.cache.Keys
    decreases |rows|
  {
    if rows == [] then Pass(cache, [])
    else
      var p := Scan(crc, counter, cache, rows[..|rows| - 1]);
      var q := VisitRow(crc, counter, p.cache, rows[|rows| - 1]);
      Pass(q.cache, p.events + q.events)
  }

  /** The entries the `retain` keeps. */
  function Sweep(cache: map<Uuid, Entry>, counter: nat): (kept: map<Uuid, Entry>)
    ensures kept.Keys !! Stale(cache, counter) && kept.Keys + Stale(cache, counter) == cache.Keys
    ensures forall id | id in kept :: kept[id] == cache[id] && kept[id].syncCounter == counter
  {
    map id | id in cache && cache[id].syncCounter == counter :: cache[id]
  }

  /** The entries the `retain` drops, aborting their workers. */
  function Stale(cache: map<Uuid, Entry>, counter: nat): (s: set<Uuid>)
    ensures s <= cache.Keys
    ensures forall id | id in s :: cache[id].syncCounter != counter
  {
    set id | id in cache && cache[id].syncCounter != counter
  }

  function EnabledIds(rows: seq<TargetRow>): set<Uuid> {
    set i | 0 <= i < |rows| && rows[i].enabled :: rows[i].id
  }

  /** Ids of enabled rows that have an entry whose checksum differs from the row's fingerprint. */
  function ChangedIds(crc: Bytes -> U64, cache: map<Uuid, Entry>, rows: seq<TargetRow>): set<Uuid> {
    set i | 0 <= i < |rows| && rows[i].enabled && rows[i].id in cache && cache[rows[i].id].checksum != Fingerprint(crc, rows[i])
      :: rows[i].id
  }

  function EnabledRows(rows: seq<TargetRow>): seq<TargetRow>
    decreases |rows|
  {
    if rows == [] then []
    else EnabledRows(rows[..|rows| - 1]) + (if rows[|rows| - 1].enabled then [rows[|rows| - 1]] else [])
  }

  predicate UniqueIds(rows: seq<TargetRow>) {
    forall i, j | 0 <= i < j < |rows| :: rows[i].id != rows[j].id
  }

  predicate AllBefore(cache: map<Uuid, Entry>, counter: nat) {
    forall id | id in cache :: cache[id].syncCounter < counter
  }

  function SpawnCount(events: seq<Event>, id: Uuid): nat {
    if events == [] then 0 else (if events[0].Spawn? && events[0].id == id then 1 else 0) + SpawnCount(events[1..], id)
  }

  function SendCount(events: seq<Event>, id: Uuid): nat {
    if events == [] then 0 else (if events[0].Send? && events[0].id == id then 1 else 0) + SendCount(events[1..], id)
  }

  /** `events` aborts each id of `ids` exactly once and does nothing else. */
  ghost predicate AbortsExactly(events: seq<Event>, ids: set<Uuid>) {
    && |events| == |ids|
    && (forall i | 0 <= i < |events| :: events[i].Abort? && events[i].id in ids)
    && (forall id | id in ids :: exists i :: 0 <= i < |events| && events[i] == Abort(id))
  }

  // ---------------------------------------------------------------------------
  // Properties of one cycle

  lemma {:induction false} EnabledIdsSnoc(rows: seq<TargetRow>, row: TargetRow)
    ensures EnabledIds(rows + [row]) == EnabledIds(rows) + (if row.enabled then {row.id} else {})
  {
    var rs := rows + [row];
    forall id | id in EnabledIds(rs)
      ensures id in EnabledIds(rows) + (if row.enabled then {row.id} else {})
    {
      var i :| 0 <= i < |rs| && rs[i].enabled && rs[i].id == id;
      if i < |rows| {
        assert rows[i] == rs[i];
      }
    }
    forall id | id in EnabledIds(rows)
      ensures id in EnabledIds(rs)
    {
      var i :| 0 <= i < |rows| && rows[i].enabled && rows[i].id == id;
      assert rs[i] == rows[i];
    }
    if row.enabled {
      assert rs[|rows|] == row;
    }
  }

  lemma {:induction false} ChangedIdsSnoc(crc: Bytes -> U64, cache: map<Uuid, Entry>, rows: seq<TargetRow>, row: TargetRow)
    ensures ChangedIds(crc, cache, rows + [row])
      == ChangedIds(crc, cache, rows)
         + (if row.enabled && row.id in cache && cache[row.id].checksum != Fingerprint(crc, row) then {row.id} else {})
  {
    var rs := rows + [row];
    forall id | id in ChangedIds(crc, cache, rs)
      ensures id in ChangedIds(crc, cache, rows) || id == row.id
    {
      var i :| 0 <= i < |rs| && rs[i].enabled && rs[i].id in cache && cache[rs[i].id].checksum != Fingerprint(crc, rs[i]) && rs[i].id == id;
      if i < |rows| {
        assert rows[i] == rs[i];
      }
    }
    forall id | id in ChangedIds(crc, cache, rows)
      ensures id in ChangedIds(crc, cache, rs)
    {
      var i :| 0 <= i < |rows| && rows[i].enabled && rows[i].id in cache && cache[rows[i].id].checksum != Fingerprint(crc, rows[i]) && rows[i].id == id;
      assert rs[i] == rows[i];
    }
    if row.enabled && row.id in cache && cache[row.id].checksum != Fingerprint(crc, row) {
      assert rs[|rows|] == row;
    }
  }

  /**
   * After the inner loop, the cache holds the old ids plus the enabled ids read;
   * those carry the current counter, and the other entries are untouched.
   */
  lemma {:induction false} ScanKeys(crc: Bytes -> U64, counter: nat, cache: map<Uuid, Entry>, rows: seq<TargetRow>)
    ensures Scan(crc, counter, cache, rows).cache.Keys == cache.Keys + EnabledIds(rows)
    ensures forall id | id in EnabledIds(rows) :: Scan(crc, counter, cache, rows).cache[id].syncCounter == counter
    ensures forall id | id in cache && id !in EnabledIds(rows) :: Scan(crc, counter, cache, rows).cache[id] == cache[id]
    decreases |rows|
  {
    if rows == [] {
      assert EnabledIds(rows) == {};
    } else {
      var init, last := rows[..|rows| - 1], rows[|rows| - 1];
      assert init + [last] == rows;
      ScanKeys(crc, counter, cache, init);
      EnabledIdsSnoc(init, last);
    }
  }

  /** With distinct ids, every enabled row read leaves its own fingerprint in the cache. */
  lemma {:induction false} ScanEntries(crc: Bytes -> U64, counter: nat, cache: map<Uuid, Entry>, rows: seq<TargetRow>)
    requires UniqueIds(rows)
    ensures forall i | 0 <= i < |rows| && rows[i].enabled ::
      rows[i].id in Scan(crc, counter, cache, rows).cache
      && Scan(crc, counter, cache, rows).cache[rows[i].id] == Entry(Fingerprint(crc, rows[i]), counter)
    decreases |rows|
  {
    if rows != [] {
      var init, last := rows[..|rows| - 1], rows[|rows| - 1];
      ScanEntries(crc, counter, cache, init);
      forall i | 0 <= i < |rows| && rows[i].enabled
        ensures rows[i].id in Scan(crc, counter, cache, rows).cache
        ensures Scan(crc, counter, cache, rows).cache[rows[i].id] == Entry(Fingerprint(crc, rows[i]), counter)
      {
        if i < |init| {
          assert init[i] == rows[i] && rows[i].id != last.id;
        }
      }
    }
  }

  lemma {:induction false} CountsAppend(a: seq<Event>, b: seq<Event>, id: Uuid)
    ensures SpawnCount(a + b, id) == SpawnCount(a, id) + SpawnCount(b, id)
    ensures SendCount(a + b, id) == SendCount(a, id) + SendCount(b, id)
    decreases |a|
  {
    if a == [] {
      assert a + b == b;
    } else {
      assert (a + b)[0] == a[0] && (a + b)[1..] == a[1..] + b;
      CountsAppend(a[1..], b, id);
    }
  }

  /**
   * With distinct ids, the inner loop spawns exactly once for every new enabled
   * id, sends exactly once to every known id whose fingerprint changed, and emits
   * nothing else; each event carries the enabled row it was emitted for.
   */
  lemma {:induction false} ScanEvents(crc: Bytes -> U64, counter: nat, cache: map<Uuid, Entry>, rows: seq<TargetRow>)
    requires UniqueIds(rows)
    ensures var p := Scan(crc, counter, cache, rows);
      && (forall id :: SpawnCount(p.events, id) == if id in EnabledIds(rows) && id !in cache then 1 else 0)
      && (forall id :: SendCount(p.events, id) == if id in ChangedIds(crc, cache, rows) then 1 else 0)
    decreases |rows|
  {
    if rows == [] {
      assert EnabledIds(rows) == {} && ChangedIds(crc, cache, rows) == {};
    } else {
      var init, last := rows[..|rows| - 1], rows[|rows| - 1];
      assert init + [last] == rows;
      ScanEvents(crc, counter, cache, init);
      ScanKeys(crc, counter, cache, init);
      EnabledIdsSnoc(init, last);
      ChangedIdsSnoc(crc, cache, init, last);
      var p := Scan(crc, counter, cache, init);
      var q := VisitRow(crc, counter, p.cache, last);
      assert last.id !in EnabledIds(init) by {
        assert forall i | 0 <= i < |init| :: init[i].id == rows[i].id != last.id;
      }
      assert last.id in p.cache <==> last.id in cache;
      assert last.id in cache ==> p.cache[last.id] == cache[last.id];
      forall id
        ensures SpawnCount(p.events + q.events, id) == if id in EnabledIds(rows) && id !in cache then 1 else 0
        ensures SendCount(p.events + q.events, id) == if id in ChangedIds(crc, cache, rows) then 1 else 0
      {
        CountsAppend(p.events, q.events, id);
        VisitCounts(crc, counter, p.cache, last, id);
      }
    }
  }

  /** One row spawns a new id or sends to a known id whose fingerprint changed, and nothing else. */
  lemma VisitCounts(crc: Bytes -> U64, counter: nat, cache: map<Uuid, Entry>, row: TargetRow, id: Uuid)
    ensures SpawnCount(VisitRow(crc, counter, cache, row).events, id)
      == if row.enabled && row.id !in cache && id == row.id then 1 else 0
    ensures SendCount(VisitRow(crc, counter, cache, row).events, id)
      == if row.enabled && row.id in cache && cache[row.id].checksum != Fingerprint(crc, row) && id == row.id then 1 else 0
  {
    var q := VisitRow(crc, counter, cache, row);
    if q.events != [] {
      assert q.events[1..] == [];
    }
  }

  /** Each event spawns or updates the worker of an enabled row of `rows`, and names that row's id. */
  predicate EventsFromRows(events: seq<Event>, rows: seq<TargetRow>) {
    forall i | 0 <= i < |events| :: !events[i].Abort? && events[i].row in rows && events[i].row.enabled && events[i].row.id == events[i].id
  }

  /** The inner loop only spawns and sends, and only for enabled rows it read. */
  lemma {:induction false} ScanEventShapes(crc: Bytes -> U64, counter: nat, cache: map<Uuid, Entry>, rows: seq<TargetRow>)
    ensures EventsFromRows(Scan(crc, counter, cache, rows).events, rows)
    decreases |rows|
  {
    if rows != [] {
      var init, last := rows[..|rows| - 1], rows[|rows| - 1];
      ScanEventShapes(crc, counter, cache, init);
      var p := Scan(crc, counter, cache, init);
      var q := VisitRow(crc, counter, p.cache, last);
      forall i | 0 <= i < |p.events + q.events|
        ensures var e := (p.events + q.events)[i]; !e.Abort? && e.row in rows && e.row.enabled && e.row.id == e.id
      {
        if i < |p.events| {
          var e := p.events[i];
          assert (p.events + q.events)[i] == e;
          assert e.row in init;
        }
      }
    }
  }

  lemma ScanStep(crc: Bytes -> U64, counter: nat, cache: map<Uuid, Entry>, rows: seq<TargetRow>, i: nat)
    requires i < |rows|
    ensures var p := Scan(crc, counter, cache, rows[..i]);
      var q := VisitRow(crc, counter, p.cache, rows[i]);
      Scan(crc, counter, cache, rows[..i + 1]) == Pass(q.cache, p.events + q.events)
  {
    assert rows[..i + 1][..i] == rows[..i];
  }

  /** A cycle that reads the rows of `snapshot`: the surviving ids are exactly the enabled ids read. */
  lemma {:induction false} CycleKeys(crc: Bytes -> U64, counter: nat, cache: map<Uuid, Entry>, snapshot: Snapshot)
    requires AllBefore(cache, counter)
    ensures var scanned := Scan(crc, counter, cache, RowsRead(snapshot)).cache;
      && Sweep(scanned, counter).Keys == EnabledIds(RowsRead(snapshot))
      && Stale(scanned, counter) == cache.Keys - EnabledIds(RowsRead(snapshot))
  {
    ScanKeys(crc, counter, cache, RowsRead(snapshot));
  }

  /** When the query fails, every worker is aborted and the cache is emptied. */
  lemma {:induction false} ConnectFailedTearsDownAll(crc: Bytes -> U64, counter: nat, cache: map<Uuid, Entry>)
    requires AllBefore(cache, counter)
    ensures Scan(crc, counter, cache, RowsRead(ConnectFailed)) == Pass(cache, [])
    ensures Sweep(cache, counter) == map[]
    ensures Stale(cache, counter) == cache.Keys
  {
    CycleKeys(crc, counter, cache, ConnectFailed);
    assert EnabledIds([]) == {};
  }

  /** Disabled rows change nothing: the inner loop over the enabled rows alone is the same. */
  lemma {:induction false} DisabledRowsIgnored(crc: Bytes -> U64, counter: nat, cache: map<Uuid, Entry>, rows: seq<TargetRow>)
    ensures Scan(crc, counter, cache, EnabledRows(rows)) == Scan(crc, counter, cache, rows)
    decreases |rows|
  {
    if rows != [] {
      var init, last := rows[..|rows| - 1], rows[|rows| - 1];
      DisabledRowsIgnored(crc, counter, cache, init);
      if last.enabled {
        var er := EnabledRows(init) + [last];
        assert er[..|er| - 1] == EnabledRows(init);
      } else {
        assert EnabledRows(rows) == EnabledRows(init);
      }
    }
  }

  lemma FirstEventIsCounted(events: seq<Event>)
    requires events != [] && !events[0].Abort?
    ensures SpawnCount(events, events[0].id) > 0 || SendCount(events, events[0].id) > 0
  {
  }

  /** A pass over rows that are all known with their current fingerprints emits nothing. */
  lemma {:induction false} KnownRowsAreQuiet(crc: Bytes -> U64, counter: nat, cache: map<Uuid, Entry>, rows: seq<TargetRow>)
    requires UniqueIds(rows)
    requires forall i | 0 <= i < |rows| && rows[i].enabled ::
      rows[i].id in cache && cache[rows[i].id].checksum == Fingerprint(crc, rows[i])
    ensures Scan(crc, counter, cache, rows).events == []
  {
    var p := Scan(crc, counter, cache, rows);
    ScanEvents(crc, counter, cache, rows);
    ScanEventShapes(crc, counter, cache, rows);
    assert EnabledIds(rows) <= cache.Keys;
    assert ChangedIds(crc, cache, rows) == {};
    if p.events != [] {
      FirstEventIsCounted(p.events);
    }
  }

  /**
   * Two consecutive cycles over the same rows with distinct ids: the second one
   * spawns, sends and aborts nothing, and keeps the same ids. An update whose
   * send failed in the first cycle is therefore not sent again.
   */
  lemma {:induction false} SecondCycleIsQuiet(crc: Bytes -> U64, counter: nat, cache: map<Uuid, Entry>, rows: seq<TargetRow>)
    requires AllBefore(cache, counter) && UniqueIds(rows)
    ensures var first := Sweep(Scan(crc, counter, cache, rows).cache, counter);
      var second := Scan(crc, counter + 1, first, rows);
      && second.events == []
      && Stale(second.cache, counter + 1) == {}
      && Sweep(second.cache, counter + 1).Keys == first.Keys
  {
    var scanned := Scan(crc, counter, cache, rows).cache;
    var first := Sweep(scanned, counter);
    var second := Scan(crc, counter + 1, first, rows);
    CycleKeys(crc, counter, cache, Complete(rows));
    ScanEntries(crc, counter, cache, rows);
    forall i | 0 <= i < |rows| && rows[i].enabled
      ensures rows[i].id in first && first[rows[i].id].checksum == Fingerprint(crc, rows[i])
    {
      assert rows[i].id in EnabledIds(rows);
    }
    KnownRowsAreQuiet(crc, counter + 1, first, rows);
    ScanKeys(crc, counter + 1, first, rows);
  }

  // ---------------------------------------------------------------------------
  // The reconciler

  /** The state `start` keeps across cycles. */
  class Reconciler {
    const crc: Bytes -> U64
    var syncCounter: nat
    var cache: map<Uuid, Entry>
    ghost var log: seq<Event>

    /** Between cycles every entry carries the current counter. */
    ghost predicate Valid()
      reads this
    {
      forall id | id in cache :: cache[id].syncCounter == syncCounter
    }

    constructor(crc: Bytes -> U64)
      ensures Valid() && this.crc == crc
      ensures syncCounter == 0 && cache == map[] && log == []
    {
      this.crc := crc;
      syncCounter := 0;
      cache := map[];
      log := [];
    }

    /**
     * One body of the loop: bump the counter, walk the rows read, then drop and
     * abort every entry the walk did not refresh.
     */
    method Cycle(snapshot: Snapshot)
      requires Valid()
      modifies this`syncCounter, this`cache, this`log
      ensures Valid()
      ensures syncCounter == old(syncCounter) + 1
      ensures var p := Scan(crc, syncCounter, old(cache), RowsRead(snapshot));
        && cache == Sweep(p.cache, syncCounter)
        && |log| == |old(log)| + |p.events| + |Stale(p.cache, syncCounter)|
        && log[..|old(log)| + |p.events|] == old(log) + p.events
        && AbortsExactly(log[|old(log)| + |p.events|..], Stale(p.cache, syncCounter))
    {
      syncCounter := syncCounter + 1;
      ghost var p := Scan(crc, syncCounter, cache, RowsRead(snapshot));
      ScanRows(RowsRead(snapshot));
      ghost var scanned, stale := log, Stale(cache, syncCounter);
      assert stale == Stale(p.cache, syncCounter) && |scanned| == |old(log)| + |p.events|;
      Retain();
      assert |log| == |scanned| + |stale| && log[..|scanned|] == scanned;
      assert log[|scanned|..] == log[|old(log)| + |p.events|..];
    }

    /** The inner loop: visit the rows read, in order. */
    method ScanRows(rows: seq<TargetRow>)
      modifies this`cache, this`log
      ensures var p := Scan(crc, syncCounter, old(cache), rows);
        cache == p.cache && log == old(log) + p.events
    {
      ghost var events: seq<Event> := [];
      var i := 0;
      while i < |rows|
        invariant 0 <= i <= |rows|
        invariant Pass(cache, events) == Scan(crc, syncCounter, old(cache), rows[..i])
        invariant log == old(log) + events
      {
        ScanStep(crc, syncCounter, old(cache), rows, i);
        events := events + VisitRow(crc, syncCounter, cache, rows[i]).events;
        Visit(rows[i]);
        i := i + 1;
      }
      assert rows[..|rows|] == rows;
    }

    /** The body of the inner loop for one row `col`. */
    method Visit(row: TargetRow)
      modifies this`cache, this`log
      ensures var p := VisitRow(crc, syncCounter, old(cache), row);
        cache == p.cache && log == old(log) + p.events
    {
      if row.enabled {
        var checksum := Fingerprint(crc, row);
        if row.id in cache {
          if checksum != cache[row.id].checksum {
            log := log + [Send(row.id, row)];
            cache := cache[row.id := Entry(checksum, syncCounter)];
          } else {
            cache := cache[row.id := cache[row.id].(syncCounter := syncCounter)];
          }
        } else {
          log := log + [Spawn(row.id, row)];
          cache := cache[row.id := Entry(checksum, syncCounter)];
        }
      }
    }

    /** `targets_cache.retain`: drop and abort every entry whose counter is not current. */
    method Retain()
      modifies this`cache, this`log
      ensures Valid()
      ensures cache == Sweep(old(cache), syncCounter)
      ensures |log| == |old(log)| + |Stale(old(cache), syncCounter)|
      ensures log[..|old(log)|] == old(log)
      ensures AbortsExactly(log[|old(log)|..], Stale(old(cache), syncCounter))
    {
      var todo := set id | id in cache && cache[id].syncCounter != syncCounter;
      ghost var stale := todo;
      ghost var removed: set<Uuid> := {};
      while todo != {}
        invariant removed !! todo && removed + todo == stale
        invariant cache == old(cache) - removed
        invariant |log| == |old(log)| + |removed|
        invariant log[..|old(log)|] == old(log)
        invariant AbortsExactly(log[|old(log)|..], removed)
        decreases todo
      {
        var id :| id in todo;
        AbortOne(old(log), log, removed, id);
        RemoveOne(old(cache), removed, id);
        MoveOne(removed, todo, id);
        log := log + [Abort(id)];
        cache := cache - {id};
        removed := removed + {id};
        todo := todo - {id};
      }
      SweepIsDifference(old(cache), syncCounter, removed, todo, stale);
    }
  }

  lemma {:induction false} AbortOne(prefix: seq<Event>, log: seq<Event>, done: set<Uuid>, id: Uuid)
    requires |prefix| <= |log| && log[..|prefix|] == prefix
    requires |log| == |prefix| + |done| && id !in done
    requires AbortsExactly(log[|prefix|..], done)
    ensures (log + [Abort(id)])[..|prefix|] == prefix
    ensures |log + [Abort(id)]| == |prefix| + |done + {id}|
    ensures AbortsExactly((log + [Abort(id)])[|prefix|..], done + {id})
  {
    var evs := log[|prefix|..];
    assert (log + [Abort(id)])[|prefix|..] == evs + [Abort(id)];
    assert (evs + [Abort(id)])[|evs|] == Abort(id);
    forall d | d in done
      ensures exists i :: 0 <= i < |evs + [Abort(id)]| && (evs + [Abort(id)])[i] == Abort(d)
    {
      var i :| 0 <= i < |evs| && evs[i] == Abort(d);
      assert (evs + [Abort(id)])[i] == Abort(d);
    }
  }

  lemma RemoveOne(cache: map<Uuid, Entry>, removed: set<Uuid>, id: Uuid)
    ensures (cache - removed) - {id} == cache - (removed + {id})
  {
  }

  lemma MoveOne(removed: set<Uuid>, todo: set<Uuid>, id: Uuid)
    requires removed !! todo && id in todo
    ensures (removed + {id}) !! (todo - {id})
    ensures (removed + {id}) + (todo - {id}) == removed + todo
    ensures id !in removed
  {
  }

  lemma SweepIsDifference(cache: map<Uuid, Entry>, counter: nat, removed: set<Uuid>, todo: set<Uuid>, stale: set<Uuid>)
    requires stale == Stale(cache, counter) && removed + todo == stale && todo == {}
    ensures removed == Stale(cache, counter)
    ensures cache - removed == Sweep(cache, counter)
  {
    assert removed + todo == removed;
  }
}
