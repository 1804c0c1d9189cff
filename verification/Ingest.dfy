/** The backend's write side (locations/adapter.go, locations/service.go): two
    keyed tables, changed by transactions that a replaying device must not be
    able to confuse.  The keys of location_ingest_keys are (device_id,
    sequence_id), of locations (device_id, recorded_at). */
module Ingest {
  import opened Sequences
  import opened Wire

  type Device = nat
  type Instant = int
  type uint64 = x: int | 0 <= x < 0x1_0000_0000_0000_0000

  datatype Telemetry = Telemetry(
    latitude: real,
    longitude: real,
    altitude: Option<real>,
    speed: Option<real>,
    accuracy: Option<real>,
    batteryVoltage: Option<real>,
    signalStrength: Option<int>)

  datatype Location = Location(device: Device, sequenceId: uint64, recordedAt: Instant, fix: Telemetry)

  type IngestKey = (Device, uint64)
  type RowKey = (Device, Instant)

  function KeyOf(l: Location): IngestKey {
    (l.device, l.sequenceId)
  }

  function PlaceOf(l: Location): RowKey {
    (l.device, l.recordedAt)
  }

  /** A row of either table is its primary key and the remaining columns. */
  datatype Tables = Tables(keys: map<IngestKey, Instant>, rows: map<RowKey, Telemetry>)

  const EMPTY: Tables := Tables(map[], map[])

  // ON CONFLICT DO NOTHING, on both tables.
  function InsertRow(t: Tables, l: Location): Tables {
    if PlaceOf(l) in t.rows then t else t.(rows := t.rows[PlaceOf(l) := l.fix])
  }

  function InsertOne(t: Tables, l: Location): Tables {
    if KeyOf(l) in t.keys then t
    else InsertRow(t.(keys := t.keys[KeyOf(l) := l.recordedAt]), l)
  }

  function InsertAll(t: Tables, items: seq<Location>): Tables {
    if items == [] then t else InsertOne(InsertAll(t, items[..|items| - 1]), items[|items| - 1])
  }

  function Ids(items: seq<Location>): (ids: seq<uint64>)
    ensures |ids| == |items|
  {
    seq(|items|, i requires 0 <= i < |items| => items[i].sequenceId)
  }

  /** sequence_id is a positive bigint: 0 and values over 2^63 - 1 fail. */
  predicate Storable(l: Location) {
    0 < l.sequenceId < 0x8000_0000_0000_0000
  }

  /** How a transaction may go wrong.  A lost commit took effect on the server
      although the client saw an error. */
  datatype Fault = NoFault | BeginFails | StatementFails(index: nat) | CommitFails | CommitLost

  class Adapter {
    var keys: map<IngestKey, Instant>
    var rows: map<RowKey, Telemetry>

    constructor ()
      ensures State() == EMPTY
    {
      keys, rows := map[], map[];
    }

    function State(): Tables
      reads this
    {
      Tables(keys, rows)
    }

    /** POST of a single location: the ingest keys are not consulted. */
    method Insert(l: Location, fault: Fault) returns (ok: bool)
      modifies this
      ensures ok <==> fault.NoFault? || (fault.StatementFails? && fault.index >= 2)
      ensures State() == if ok || fault.CommitLost? then InsertRow(old(State()), l) else old(State())
    {
      if fault.BeginFails? || (fault.StatementFails? && fault.index < 2) || fault.CommitFails? {
        return false;
      }
      if PlaceOf(l) !in rows {
        rows := rows[PlaceOf(l) := l.fix];
      }
      return !fault.CommitLost?;
    }

    /** All or nothing, and a key that is already there is accepted again. */
    method InsertBatch(locations: seq<Location>, fault: Fault) returns (accepted: Option<seq<uint64>>)
      modifies this
      ensures accepted.Some? ==> accepted.value == Ids(locations) && State() == InsertAll(old(State()), locations)
      ensures accepted.None? ==> State() in {old(State()), InsertAll(old(State()), locations)}
      ensures accepted.None? && !fault.CommitLost? ==> State() == old(State())
      ensures fault.NoFault? ==> (accepted.Some? <==> forall i :: 0 <= i < |locations| ==> Storable(locations[i]))
      ensures (exists i :: 0 <= i < |locations| && !Storable(locations[i])) ==> accepted.None? && State() == old(State())
    {
      if fault.BeginFails? {
        return None;
      }
      var txKeys, txRows := keys, rows;
      var ids := [];
      var statements := 0;
      for i := 0 to |locations|
        invariant Tables(txKeys, txRows) == InsertAll(old(State()), locations[..i])
        invariant ids == Ids(locations[..i])
        invariant State() == old(State())
        invariant forall j :: 0 <= j < i ==> Storable(locations[j])
      {
        var loc := locations[i];
        assert locations[..i + 1][..i] == locations[..i];
        if !Storable(loc) || fault == StatementFails(statements) {
          return None;
        }
        statements := statements + 1;
        if KeyOf(loc) in txKeys {
          ids := ids + [loc.sequenceId];
          continue;
        }
        txKeys := txKeys[KeyOf(loc) := loc.recordedAt];
        if fault == StatementFails(statements) {
          return None;
        }
        statements := statements + 1;
        if PlaceOf(loc) !in txRows {
          txRows := txRows[PlaceOf(loc) := loc.fix];
        }
        ids := ids + [loc.sequenceId];
      }
      assert locations[..|locations|] == locations;
      if |locations| > 0 && fault == StatementFails(statements) {
        return None;
      }
      if fault.CommitFails? {
        return None;
      }
      keys, rows := txKeys, txRows;
      return if fault.CommitLost? then None else Some(ids);
    }
  }

  // ---- Replays ----

  lemma {:induction false} InsertAllKeys(t: Tables, items: seq<Location>, k: IngestKey)
    ensures k in InsertAll(t, items).keys <==> k in t.keys || exists i :: 0 <= i < |items| && KeyOf(items[i]) == k
  {
    if items != [] {
      var n := |items| - 1;
      InsertAllKeys(t, items[..n], k);
    }
  }

  predicate FirstOfKey(items: seq<Location>, i: nat)
    requires i < |items|
  {
    forall j :: 0 <= j < i ==> KeyOf(items[j]) != KeyOf(items[i])
  }

  /** The items that come first under their (device, sequence_id). */
  function Deduplicated(items: seq<Location>): seq<Location> {
    if items == [] then []
    else
      var n := |items| - 1;
      Deduplicated(items[..n]) + if FirstOfKey(items, n) then [items[n]] else []
  }

  lemma {:induction false} InsertAllAppend(t: Tables, xs: seq<Location>, ys: seq<Location>)
    ensures InsertAll(t, xs + ys) == InsertAll(InsertAll(t, xs), ys)
  {
    if ys == [] {
      assert xs + ys == xs;
    } else {
      var n := |ys| - 1;
      assert (xs + ys)[..|xs + ys| - 1] == xs + ys[..n];
      InsertAllAppend(t, xs, ys[..n]);
    }
  }

  /** One committed transaction after another. */
  function Committed(t: Tables, batches: seq<seq<Location>>): Tables
    decreases |batches|
  {
    if batches == [] then t else Committed(InsertAll(t, batches[0]), batches[1..])
  }

  lemma {:induction false} GroupingIrrelevant(t: Tables, batches: seq<seq<Location>>)
    ensures Committed(t, batches) == InsertAll(t, Flatten(batches))
    decreases |batches|
  {
    if batches != [] {
      InsertAllAppend(t, batches[0], Flatten(batches[1..]));
      GroupingIrrelevant(InsertAll(t, batches[0]), batches[1..]);
    }
  }

  lemma {:induction false} DeduplicatedSame(t: Tables, items: seq<Location>)
    ensures InsertAll(t, Deduplicated(items)) == InsertAll(t, items)
  {
    hide KeyOf;
    hide InsertAll;
    if items != [] {
      var front, last := items[..|items| - 1], items[|items| - 1];
      assert items == front + [last];
      DeduplicatedSame(t, front);
      InsertAllLast(t, front, last);
      if FirstOfKey(items, |items| - 1) {
        InsertAllLast(t, Deduplicated(front), last);
      } else {
        RepeatedSkipped(t, items);
        assert Deduplicated(front) + [] == Deduplicated(front);
      }
    }
  }

  lemma RepeatedSkipped(t: Tables, items: seq<Location>)
    requires items != [] && !FirstOfKey(items, |items| - 1)
    ensures var n := |items| - 1;
      InsertOne(InsertAll(t, items[..n]), items[n]) == InsertAll(t, items[..n])
  {
    hide KeyOf;
    hide InsertAll;
    var n := |items| - 1;
    var i :| 0 <= i < n && KeyOf(items[i]) == KeyOf(items[n]);
    assert items[..n][i] == items[i];
    InsertAllKeys(t, items[..n], KeyOf(items[n]));
    KnownKeySkipped(InsertAll(t, items[..n]), items[n]);
  }

  lemma KnownKeySkipped(t: Tables, l: Location)
    requires KeyOf(l) in t.keys
    ensures InsertOne(t, l) == t
  {
  }

  lemma InsertAllLast(t: Tables, items: seq<Location>, last: Location)
    ensures InsertAll(t, items + [last]) == InsertOne(InsertAll(t, items), last)
  {
    hide InsertOne;
    assert (items + [last])[..|items|] == items;
  }

  /** However the committed batches regroup, overlap and repeat the items, the
      tables are those of every item inserted once, by first occurrence. */
  lemma ReplayEqualsOnce(t: Tables, batches: seq<seq<Location>>)
    ensures Committed(t, batches) == InsertAll(t, Deduplicated(Flatten(batches)))
  {
    GroupingIrrelevant(t, batches);
    DeduplicatedSame(t, Flatten(batches));
  }

  /** An increasing list of positions picks out the items it names. */
  predicate Picks(at: seq<nat>, items: seq<Location>, picked: seq<Location>) {
    && |at| == |picked|
    && (forall k :: 0 <= k < |at| ==> at[k] < |items| && picked[k] == items[at[k]])
    && (forall k, l :: 0 <= k < l < |at| ==> at[k] < at[l])
  }

  lemma PicksOn(at: seq<nat>, items: seq<Location>, picked: seq<Location>)
    requires items != [] && Picks(at, items[..|items| - 1], picked)
    ensures Picks(at, items, picked) && Picks(at + [|items| - 1], items, picked + [items[|items| - 1]])
    ensures |items| - 1 !in at
  {
  }

  /** Deduplicated keeps exactly the first item of every key, in order. */
  lemma {:induction false} DeduplicatedPositions(items: seq<Location>) returns (at: seq<nat>)
    ensures Picks(at, items, Deduplicated(items))
    ensures forall i :: 0 <= i < |items| ==> (i in at <==> FirstOfKey(items, i))
  {
    hide KeyOf;
    at := [];
    if items != [] {
      var n := |items| - 1;
      at := DeduplicatedPositions(items[..n]);
      PicksOn(at, items, Deduplicated(items[..n]));
      hide Picks;
      forall i | 0 <= i < n
        ensures FirstOfKey(items[..n], i) <==> FirstOfKey(items, i)
      {
        PrefixFirst(items, i);
      }
      if FirstOfKey(items, n) {
        at := at + [n];
      } else {
        assert Deduplicated(items[..n]) + [] == Deduplicated(items[..n]);
      }
    }
  }

  lemma PrefixFirst(items: seq<Location>, i: nat)
    requires i < |items| - 1
    ensures FirstOfKey(items[..|items| - 1], i) <==> FirstOfKey(items, i)
  {
    hide KeyOf;
    assert forall j :: 0 <= j <= i ==> items[..|items| - 1][j] == items[j];
  }

  /** This item is the one that brings its key into the tables. */
  predicate Brings(t: Tables, items: seq<Location>, i: nat)
    requires i < |items|
  {
    FirstOfKey(items, i) && KeyOf(items[i]) !in t.keys
  }

  /** Its place is taken before its turn: by a row that was there, or by an
      earlier item that brings its own key. */
  predicate Taken(t: Tables, items: seq<Location>, i: nat)
    requires i < |items|
  {
    PlaceOf(items[i]) in t.rows
    || exists j :: 0 <= j < i && Brings(t, items, j) && PlaceOf(items[j]) == PlaceOf(items[i])
  }

  /** Where the row at a place comes from. */
  lemma {:induction false} RowSource(t: Tables, items: seq<Location>, p: RowKey)
    requires p in InsertAll(t, items).rows
    ensures (p in t.rows && InsertAll(t, items).rows[p] == t.rows[p])
         || exists j :: 0 <= j < |items| && Brings(t, items, j) && PlaceOf(items[j]) == p
                        && InsertAll(t, items).rows[p] == items[j].fix
  {
    hide KeyOf;
    hide PlaceOf;
    if items != [] {
      var n := |items| - 1;
      var front := InsertAll(t, items[..n]);
      if p in front.rows {
        RowSource(t, items[..n], p);
        if j :| 0 <= j < n && Brings(t, items[..n], j) && PlaceOf(items[..n][j]) == p && front.rows[p] == items[..n][j].fix {
          PrefixFirst(items, j);
          assert items[..n][j] == items[j] && Brings(t, items, j);
        }
      } else {
        InsertAllKeys(t, items[..n], KeyOf(items[n]));
        assert forall j :: 0 <= j < n ==> items[..n][j] == items[j];
        assert Brings(t, items, n);
      }
    }
  }

  /** An item that brings its key has its instant recorded under it and a row at
      its place; the row is its own reading if the place was free, and otherwise
      the one that was there or that of the earlier item. */
  lemma FirstItemWins(t: Tables, items: seq<Location>, i: nat)
    requires i < |items| && Brings(t, items, i)
    ensures var t', l := InsertAll(t, items), items[i];
      && KeyOf(l) in t'.keys && t'.keys[KeyOf(l)] == l.recordedAt && PlaceOf(l) in t'.rows
      && (!Taken(t, items, i) ==> t'.rows[PlaceOf(l)] == l.fix)
      && (Taken(t, items, i) ==>
            || (PlaceOf(l) in t.rows && t'.rows[PlaceOf(l)] == t.rows[PlaceOf(l)])
            || exists j :: 0 <= j < i && Brings(t, items, j) && PlaceOf(items[j]) == PlaceOf(l)
                           && t'.rows[PlaceOf(l)] == items[j].fix)
  {
    hide KeyOf;
    hide PlaceOf;
    var front, l, k := items[..i], items[i], KeyOf(items[i]);
    assert items == front + [l] + items[i + 1..];
    var before := InsertAll(t, front);
    InsertAllKeys(t, front, k);
    assert forall j :: 0 <= j < i ==> front[j] == items[j];
    assert k !in before.keys;
    var after := InsertOne(before, l);
    InsertAllLast(t, front, l);
    InsertAllAppend(t, front + [l], items[i + 1..]);
    InsertAllKeeps(after, items[i + 1..]);
    BringsWithin(t, items, i);
    var p := PlaceOf(l);
    if p in before.rows {
      RowSource(t, front, p);
      if p !in t.rows {
        var j :| 0 <= j < i && Brings(t, front, j) && PlaceOf(front[j]) == p && before.rows[p] == front[j].fix;
        assert Brings(t, items, j);
      }
    } else {
      FreePlace(t, items, i);
    }
  }

  lemma BringsWithin(t: Tables, items: seq<Location>, i: nat)
    requires i <= |items|
    ensures forall j :: 0 <= j < i ==> (Brings(t, items[..i], j) <==> Brings(t, items, j))
  {
    hide KeyOf;
    assert forall j :: 0 <= j < i ==> items[..i][j] == items[j];
  }

  /** A place without a row is one that nothing has taken. */
  lemma {:induction false} FreePlace(t: Tables, items: seq<Location>, i: nat)
    requires i < |items| && PlaceOf(items[i]) !in InsertAll(t, items[..i]).rows
    ensures !Taken(t, items, i)
  {
    hide KeyOf;
    hide PlaceOf;
    var p := PlaceOf(items[i]);
    InsertAllKeeps(t, items[..i]);
    if j :| 0 <= j < i && Brings(t, items, j) && PlaceOf(items[j]) == p {
      RowBrought(t, items[..i], j);
      BringsWithin(t, items, i);
    }
  }

  lemma {:induction false} RowBrought(t: Tables, items: seq<Location>, j: nat)
    requires j < |items|
    ensures Brings(t, items, j) ==> PlaceOf(items[j]) in InsertAll(t, items).rows
  {
    hide KeyOf;
    hide PlaceOf;
    var n := |items| - 1;
    if j < n {
      RowBrought(t, items[..n], j);
      BringsWithin(t, items, n);
    } else {
      InsertAllKeys(t, items[..n], KeyOf(items[n]));
      assert forall i :: 0 <= i < n ==> items[..n][i] == items[i];
    }
  }

  /** The row holds the item's own reading if and only if its place was free,
      unless whoever took it read the very same. */
  lemma OwnRowIff(t: Tables, items: seq<Location>, i: nat)
    requires i < |items| && Brings(t, items, i)
    requires PlaceOf(items[i]) in t.rows ==> t.rows[PlaceOf(items[i])] != items[i].fix
    requires forall j :: 0 <= j < i && PlaceOf(items[j]) == PlaceOf(items[i]) ==> items[j].fix != items[i].fix
    ensures PlaceOf(items[i]) in InsertAll(t, items).rows
    ensures InsertAll(t, items).rows[PlaceOf(items[i])] == items[i].fix <==> !Taken(t, items, i)
  {
    hide InsertAll;
    FirstItemWins(t, items, i);
  }

  /** Entries already there never change. */
  lemma {:induction false} InsertAllKeeps(t: Tables, items: seq<Location>)
    ensures var t' := InsertAll(t, items);
      && (forall k :: k in t.keys ==> k in t'.keys && t'.keys[k] == t.keys[k])
      && (forall p :: p in t.rows ==> p in t'.rows && t'.rows[p] == t.rows[p])
  {
    if items != [] {
      InsertAllKeeps(t, items[..|items| - 1]);
    }
  }

  /** Whatever is under a key was there before or came from an item with it. */
  lemma {:induction false} InsertAllSource(t: Tables, items: seq<Location>, k: IngestKey)
    requires k in InsertAll(t, items).keys
    ensures (k in t.keys && InsertAll(t, items).keys[k] == t.keys[k])
         || exists l :: l in items && KeyOf(l) == k && InsertAll(t, items).keys[k] == l.recordedAt
  {
    hide KeyOf;
    hide PlaceOf;
    if items != [] {
      var n := |items| - 1;
      if k in InsertAll(t, items[..n]).keys {
        InsertAllSource(t, items[..n], k);
      } else {
        assert items[n] in items && KeyOf(items[n]) == k;
      }
    }
  }

  /** Every ingest key has a location row at its (device, recorded_at). */
  predicate Grounded(t: Tables) {
    forall k :: k in t.keys ==> (k.0, t.keys[k]) in t.rows
  }

  lemma {:induction false} GroundedKept(t: Tables, items: seq<Location>, single: Location)
    requires Grounded(t)
    ensures Grounded(InsertAll(t, items)) && Grounded(InsertRow(t, single))
  {
    if items != [] {
      GroundedKept(t, items[..|items| - 1], single);
    }
  }

  /** No two different items share a key or a place. */
  predicate Consistent(items: seq<Location>) {
    forall x, y :: x in items && y in items && (KeyOf(x) == KeyOf(y) || PlaceOf(x) == PlaceOf(y)) ==> x == y
  }

  // The tables hold exactly these items.

  ghost predicate HoldsKeys(t: Tables, items: seq<Location>) {
    && (forall k :: k in t.keys ==> exists x :: x in items && KeyOf(x) == k)
    && (forall x :: x in items ==> KeyOf(x) in t.keys && t.keys[KeyOf(x)] == x.recordedAt)
  }

  ghost predicate HoldsRows(t: Tables, items: seq<Location>) {
    && (forall p :: p in t.rows ==> exists x :: x in items && PlaceOf(x) == p)
    && (forall x :: x in items ==> PlaceOf(x) in t.rows && t.rows[PlaceOf(x)] == x.fix)
  }

  lemma {:induction false} ConsistentTables(items: seq<Location>)
    requires Consistent(items)
    ensures HoldsKeys(InsertAll(EMPTY, items), items) && HoldsRows(InsertAll(EMPTY, items), items)
  {
    if items != [] {
      hide HoldsKeys;
      hide HoldsRows;
      hide InsertOne;
      var n := |items| - 1;
      var front, last := items[..n], items[n];
      assert items == front + [last];
      ConsistentTables(front);
      KeysInserted(InsertAll(EMPTY, front), front, last);
      RowsInserted(InsertAll(EMPTY, front), front, last);
    } else {
      EmptyHeld();
    }
  }

  lemma EmptyHeld()
    ensures HoldsKeys(EMPTY, []) && HoldsRows(EMPTY, [])
  {
  }

  lemma KeysInserted(t: Tables, front: seq<Location>, last: Location)
    requires HoldsKeys(t, front) && Consistent(front + [last])
    ensures HoldsKeys(InsertOne(t, last), front + [last])
  {
    hide KeyOf;
    hide PlaceOf;
    var all := front + [last];
    assert last in all;
    assert forall x :: x in all <==> x in front || x == last;
    if KeyOf(last) in t.keys {
      var x :| x in front && KeyOf(x) == KeyOf(last);
      assert x in all;
    } else {
      var u := InsertOne(t, last);
      forall k | k in u.keys
        ensures exists x :: x in all && KeyOf(x) == k
      {
        if k in t.keys {
          var x :| x in front && KeyOf(x) == k;
          assert x in all;
        }
      }
    }
  }

  lemma KnownOrNew(t: Tables, front: seq<Location>, last: Location)
    requires HoldsKeys(t, front) && Consistent(front + [last])
    ensures KeyOf(last) in t.keys <==> last in front
  {
    hide KeyOf;
    hide PlaceOf;
    if KeyOf(last) in t.keys {
      var x :| x in front && KeyOf(x) == KeyOf(last);
      assert x in front + [last] && last in front + [last];
    }
  }

  lemma PlaceKnownOrNew(t: Tables, front: seq<Location>, last: Location)
    requires HoldsRows(t, front) && Consistent(front + [last])
    ensures PlaceOf(last) in t.rows <==> last in front
  {
    hide KeyOf;
    hide PlaceOf;
    if PlaceOf(last) in t.rows {
      var x :| x in front && PlaceOf(x) == PlaceOf(last);
      assert x in front + [last] && last in front + [last];
    }
  }

  lemma RowsInserted(t: Tables, front: seq<Location>, last: Location)
    requires HoldsKeys(t, front) && HoldsRows(t, front) && Consistent(front + [last])
    ensures HoldsRows(InsertOne(t, last), front + [last])
  {
    KnownOrNew(t, front, last);
    PlaceKnownOrNew(t, front, last);
    hide KeyOf;
    hide PlaceOf;
    hide HoldsKeys;
    hide Consistent;
    var all, u := front + [last], InsertOne(t, last);
    assert forall x :: x in all <==> x in front || x == last;
    forall p | p in u.rows
      ensures exists x :: x in all && PlaceOf(x) == p
    {
      if p in t.rows {
        var x :| x in front && PlaceOf(x) == p;
        assert x in all;
      } else {
        assert last in all;
      }
    }
  }

  /** Delivery order does not matter either: two histories that carry the same
      consistent set of items, in any order and with any repetition, end in the
      same tables. */
  lemma OrderIrrelevant(xs: seq<Location>, ys: seq<Location>)
    requires Consistent(xs) && forall x :: x in xs <==> x in ys
    ensures InsertAll(EMPTY, xs) == InsertAll(EMPTY, ys)
  {
    hide KeyOf;
    hide PlaceOf;
    hide InsertAll;
    hide HoldsKeys;
    hide HoldsRows;
    var t, u := InsertAll(EMPTY, xs), InsertAll(EMPTY, ys);
    ConsistentTables(xs);
    ConsistentTables(ys);
    KeysIncluded(t, u, xs, ys);
    KeysIncluded(u, t, ys, xs);
    RowsIncluded(t, u, xs, ys);
    RowsIncluded(u, t, ys, xs);
    assert t.keys == u.keys && t.rows == u.rows;
  }

  lemma KeysIncluded(t: Tables, u: Tables, xs: seq<Location>, ys: seq<Location>)
    requires HoldsKeys(t, xs) && HoldsKeys(u, ys) && forall x :: x in xs ==> x in ys
    ensures forall k :: k in t.keys ==> k in u.keys && u.keys[k] == t.keys[k]
  {
    hide KeyOf;
    forall k | k in t.keys
      ensures k in u.keys && u.keys[k] == t.keys[k]
    {
      var x :| x in xs && KeyOf(x) == k;
    }
  }

  lemma RowsIncluded(t: Tables, u: Tables, xs: seq<Location>, ys: seq<Location>)
    requires HoldsRows(t, xs) && HoldsRows(u, ys) && forall x :: x in xs ==> x in ys
    ensures forall p :: p in t.rows ==> p in u.rows && u.rows[p] == t.rows[p]
  {
    hide PlaceOf;
    forall p | p in t.rows
      ensures p in u.rows && u.rows[p] == t.rows[p]
    {
      var x :| x in xs && PlaceOf(x) == p;
    }
  }

  // ---- Classification of a batch ----

  datatype Rejection = Rejection(sequenceId: uint64, code: string)

  const MIN_ALTITUDE_METERS: real := -500.0
  const MAX_ALTITUDE_METERS: real := 10000.0
  const MAX_BATTERY_VOLTAGE: real := 6.0
  const MAX_SIGNAL_STRENGTH: int := 31

  function ValidateRanges(l: Telemetry): Option<string> {
    if l.latitude < -90.0 || l.latitude > 90.0 then Some("invalid latitude")
    else if l.longitude < -180.0 || l.longitude > 180.0 then Some("invalid longitude")
    else if l.altitude.Some? && (l.altitude.value < MIN_ALTITUDE_METERS || l.altitude.value > MAX_ALTITUDE_METERS) then Some("invalid altitude")
    else if l.speed.Some? && l.speed.value < 0.0 then Some("invalid speed")
    else if l.accuracy.Some? && l.accuracy.value < 0.0 then Some("invalid accuracy")
    else if l.batteryVoltage.Some? && (l.batteryVoltage.value < 0.0 || l.batteryVoltage.value > MAX_BATTERY_VOLTAGE) then Some("invalid battery voltage")
    else if l.signalStrength.Some? && (l.signalStrength.value < 0 || l.signalStrength.value > MAX_SIGNAL_STRENGTH) then Some("invalid signal strength")
    else None
  }

  function ValidateLocation(l: Location): Option<string> {
    if l.sequenceId == 0 then Some("invalid_sequence_id") else ValidateRanges(l.fix)
  }

  predicate Between(x: Option<real>, low: real, high: real) {
    x.Some? ==> low <= x.value <= high
  }

  predicate NotNegative(x: Option<real>) {
    x.Some? ==> x.value >= 0.0
  }

  /** Every reading lies in its physical range. */
  predicate Plausible(t: Telemetry) {
    && Between(Some(t.latitude), -90.0, 90.0) && Between(Some(t.longitude), -180.0, 180.0)
    && Between(t.altitude, -500.0, 10000.0) && Between(t.batteryVoltage, 0.0, 6.0)
    && NotNegative(t.speed) && NotNegative(t.accuracy)
    && (t.signalStrength.Some? ==> 0 <= t.signalStrength.value <= 31)
  }

  predicate RowsPlausible(t: Tables) {
    forall p :: p in t.rows ==> Plausible(t.rows[p])
  }

  /** No batch, whatever it holds, puts an implausible row into the table. */
  lemma RowsStayPlausible(t: Tables, items: seq<Location>)
    requires RowsPlausible(t)
    ensures RowsPlausible(InsertAll(t, Accepted(items)))
  {
    hide ValidateRanges;
    hide Plausible;
    hide InsertAll;
    hide Accepted;
    hide Brings;
    var to, picked := InsertAll(t, Accepted(items)), Accepted(items);
    AcceptedDistinct(items);
    forall p | p in to.rows
      ensures Plausible(to.rows[p])
    {
      RowSource(t, picked, p);
      if j :| 0 <= j < |picked| && Brings(t, picked, j) && PlaceOf(picked[j]) == p && to.rows[p] == picked[j].fix {
        ValidIsPlausible(picked[j].fix);
      }
    }
  }

  lemma ValidIsPlausible(t: Telemetry)
    ensures ValidateRanges(t) == None <==> Plausible(t)
  {
  }

  /** The first item of its sequence id within the batch. */
  predicate FirstOfId(items: seq<Location>, i: nat)
    requires i < |items|
  {
    forall j :: 0 <= j < i ==> items[j].sequenceId != items[i].sequenceId
  }

  /** Why an item is rejected, if it is. */
  function Verdict(items: seq<Location>, i: nat): Option<string>
    requires i < |items|
  {
    if !FirstOfId(items, i) then Some("duplicate_sequence_id") else ValidateLocation(items[i])
  }

  predicate Accepts(items: seq<Location>, i: nat)
    requires i < |items|
  {
    Verdict(items, i) == None
  }

  function Accepted(items: seq<Location>): seq<Location> {
    if items == [] then []
    else
      var n := |items| - 1;
      Accepted(items[..n]) + if Verdict(items, n) == None then [items[n]] else []
  }

  function Rejected(items: seq<Location>): seq<Rejection> {
    if items == [] then []
    else
      var n := |items| - 1;
      Rejected(items[..n])
      + if Verdict(items, n) == None then [] else [Rejection(items[n].sequenceId, Verdict(items, n).value)]
  }

  datatype BatchResult = BatchResult(accepted: Option<seq<uint64>>, rejected: seq<Rejection>)

  method IngestBatch(writer: Adapter, items: seq<Location>, fault: Fault) returns (result: BatchResult)
    modifies writer
    ensures result.rejected == Rejected(items)
    ensures result.accepted.Some? ==>
      result.accepted.value == Ids(Accepted(items)) && writer.State() == InsertAll(old(writer.State()), Accepted(items))
    ensures result.accepted.None? ==>
      writer.State() in {old(writer.State()), InsertAll(old(writer.State()), Accepted(items))}
    ensures result.accepted.None? && !fault.CommitLost? ==> writer.State() == old(writer.State())
    ensures fault.NoFault? ==> (result.accepted.Some? <==> forall l :: l in Accepted(items) ==> Storable(l))
  {
    var valid, rejected := [], [];
    var seen: set<uint64> := {};
    for i := 0 to |items|
      invariant valid == Accepted(items[..i]) && rejected == Rejected(items[..i])
      invariant forall id :: id in seen <==> exists j :: 0 <= j < i && items[j].sequenceId == id
    {
      var item := items[i];
      assert items[..i + 1][..i] == items[..i];
      assert FirstOfId(items[..i + 1], i) <==> item.sequenceId !in seen;
      if item.sequenceId in seen {
        rejected := rejected + [Rejection(item.sequenceId, "duplicate_sequence_id")];
        continue;
      }
      seen := seen + {item.sequenceId};
      var err := ValidateLocation(item);
      if err.Some? {
        rejected := rejected + [Rejection(item.sequenceId, err.value)];
        continue;
      }
      valid := valid + [item];
    }
    assert items[..|items|] == items;
    var accepted := writer.InsertBatch(valid, fault);
    return BatchResult(accepted, rejected);
  }

  function RejectedIds(rejections: seq<Rejection>): seq<uint64> {
    seq(|rejections|, i requires 0 <= i < |rejections| => rejections[i].sequenceId)
  }

  lemma IdsLast(items: seq<Location>, last: Location)
    ensures Ids(items + [last]) == Ids(items) + [last.sequenceId]
  {
  }

  lemma RejectedIdsLast(rejections: seq<Rejection>, last: Rejection)
    ensures RejectedIds(rejections + [last]) == RejectedIds(rejections) + [last.sequenceId]
  {
  }

  /** Every item is either accepted or rejected, and none is invented. */
  lemma {:induction false} BatchConserved(items: seq<Location>)
    ensures multiset(Ids(Accepted(items))) + multiset(RejectedIds(Rejected(items))) == multiset(Ids(items))
  {
    hide Verdict;
    hide Ids;
    hide RejectedIds;
    if items != [] {
      var n := |items| - 1;
      BatchConserved(items[..n]);
      assert items == items[..n] + [items[n]];
      IdsLast(items[..n], items[n]);
      var a, r := Accepted(items[..n]), Rejected(items[..n]);
      if Verdict(items, n) == None {
        assert r + [] == r;
        IdsLast(a, items[n]);
      } else {
        assert a + [] == a;
        RejectedIdsLast(r, Rejection(items[n].sequenceId, Verdict(items, n).value));
      }
    } else {
      NoIds();
    }
  }

  lemma NoIds()
    ensures Ids([]) == [] && RejectedIds([]) == []
  {
  }

  /** The accepted items are those at an increasing list of positions that holds
      exactly the valid first occurrences. */
  lemma {:induction false} AcceptedPositions(items: seq<Location>) returns (at: seq<nat>)
    ensures Picks(at, items, Accepted(items))
    ensures forall i :: 0 <= i < |items| ==> (i in at <==> Accepts(items, i))
  {
    at := [];
    if items != [] {
      hide Accepts;
      var n := |items| - 1;
      at := AcceptedPositions(items[..n]);
      PicksOn(at, items, Accepted(items[..n]));
      hide Picks;
      forall i | 0 <= i < n ensures Accepts(items[..n], i) <==> Accepts(items, i) {
        PrefixAccepts(items, i);
      }
      if Accepts(items, n) {
        at := at + [n];
      } else {
        assert Accepted(items[..n]) + [] == Accepted(items[..n]);
      }
    }
  }

  /** What an item of a batch is checked for, in order, with the code of the check. */
  function Checks(items: seq<Location>, i: nat): seq<(string, bool)>
    requires i < |items|
  {
    var l := items[i].fix;
    [("duplicate_sequence_id", forall j :: 0 <= j < i ==> items[j].sequenceId != items[i].sequenceId),
     ("invalid_sequence_id", items[i].sequenceId > 0),
     ("invalid latitude", -90.0 <= l.latitude <= 90.0),
     ("invalid longitude", -180.0 <= l.longitude <= 180.0),
     ("invalid altitude", Between(l.altitude, -500.0, 10000.0)),
     ("invalid speed", NotNegative(l.speed)),
     ("invalid accuracy", NotNegative(l.accuracy)),
     ("invalid battery voltage", Between(l.batteryVoltage, 0.0, 6.0)),
     ("invalid signal strength", l.signalStrength.Some? ==> 0 <= l.signalStrength.value <= 31)]
  }

  /** This is the code of the first check that fails. */
  predicate FirstFailure(checks: seq<(string, bool)>, code: string) {
    exists k :: 0 <= k < |checks| && !checks[k].1 && checks[k].0 == code && forall j :: 0 <= j < k ==> checks[j].1
  }

  lemma VerdictIsFirstFailure(items: seq<Location>, i: nat)
    requires i < |items|
    ensures match Verdict(items, i)
      case Some(code) => FirstFailure(Checks(items, i), code)
      case None => forall k :: 0 <= k < |Checks(items, i)| ==> Checks(items, i)[k].1
  {
    var checks := Checks(items, i);
    if Verdict(items, i).Some? {
      var k :=
        if !checks[0].1 then 0 else if !checks[1].1 then 1 else if !checks[2].1 then 2 else if !checks[3].1 then 3
        else if !checks[4].1 then 4 else if !checks[5].1 then 5 else if !checks[6].1 then 6 else if !checks[7].1 then 7 else 8;
      assert !checks[k].1 && checks[k].0 == Verdict(items, i).value && forall j :: 0 <= j < k ==> checks[j].1;
    }
  }

  predicate Fails(items: seq<Location>, i: nat)
    requires i < |items|
  {
    exists k :: 0 <= k < |Checks(items, i)| && !Checks(items, i)[k].1
  }

  /** The item's id, and the code of the first check it fails. */
  predicate Rejects(items: seq<Location>, i: nat, r: Rejection)
    requires i < |items|
  {
    r.sequenceId == items[i].sequenceId && FirstFailure(Checks(items, i), r.code)
  }

  predicate Lists(at: seq<nat>, items: seq<Location>, rejections: seq<Rejection>) {
    && |at| == |rejections|
    && (forall k :: 0 <= k < |at| ==> at[k] < |items| && Rejects(items, at[k], rejections[k]))
    && (forall k, l :: 0 <= k < l < |at| ==> at[k] < at[l])
  }

  lemma ListsOn(at: seq<nat>, items: seq<Location>, rejections: seq<Rejection>, r: Rejection)
    requires items != [] && Lists(at, items[..|items| - 1], rejections)
    ensures Lists(at, items, rejections) && |items| - 1 !in at
    ensures Rejects(items, |items| - 1, r) ==> Lists(at + [|items| - 1], items, rejections + [r])
  {
    hide Rejects;
    forall k | 0 <= k < |at|
      ensures Rejects(items, at[k], rejections[k])
    {
      PrefixRejects(items, at[k]);
    }
  }

  /** The rejections are those of an increasing list of positions that holds exactly
      the items that fail a check, each with the code of the first it fails. */
  lemma {:induction false} RejectedPositions(items: seq<Location>) returns (at: seq<nat>)
    ensures Lists(at, items, Rejected(items))
    ensures forall i :: 0 <= i < |items| ==> (i in at <==> Fails(items, i))
  {
    hide Verdict;
    hide Fails;
    hide Rejects;
    at := [];
    if items != [] {
      hide Lists;
      var n := |items| - 1;
      at := RejectedPositions(items[..n]);
      forall i | 0 <= i < n
        ensures Fails(items[..n], i) == Fails(items, i)
      {
        PrefixRejects(items, i);
      }
      VerdictRejects(items, n);
      var r := Rejection(items[n].sequenceId, if Verdict(items, n).Some? then Verdict(items, n).value else "");
      ListsOn(at, items, Rejected(items[..n]), r);
      if Verdict(items, n).Some? {
        at := at + [n];
      } else {
        assert Rejected(items) == Rejected(items[..n]);
      }
    }
  }

  lemma VerdictRejects(items: seq<Location>, i: nat)
    requires i < |items|
    ensures Verdict(items, i).Some? <==> Fails(items, i)
    ensures Verdict(items, i).Some? ==> Rejects(items, i, Rejection(items[i].sequenceId, Verdict(items, i).value))
  {
    hide Verdict;
    hide Checks;
    VerdictIsFirstFailure(items, i);
  }

  lemma PrefixRejects(items: seq<Location>, i: nat)
    requires i < |items| - 1
    ensures Fails(items[..|items| - 1], i) == Fails(items, i)
    ensures forall r :: Rejects(items[..|items| - 1], i, r) == Rejects(items, i, r)
  {
    PrefixChecks(items, i);
    hide Checks;
    hide FirstFailure;
  }

  lemma PrefixChecks(items: seq<Location>, i: nat)
    requires i < |items| - 1
    ensures Checks(items[..|items| - 1], i) == Checks(items, i)
  {
    assert forall j :: 0 <= j <= i ==> items[..|items| - 1][j] == items[j];
  }

  /** A valid item is stored if and only if its key is free: one whose key is known
      changes nothing, and its id is accepted all the same. */
  lemma StoredIffKeyFree(t: Tables, l: Location)
    requires ValidateLocation(l) == None
    ensures Accepted([l]) == [l] && Ids(Accepted([l])) == [l.sequenceId] && Rejected([l]) == []
    ensures InsertAll(t, Accepted([l])) != t <==> KeyOf(l) !in t.keys
  {
    hide ValidateLocation;
    assert [l][..0] == [];
    assert Accepted([l]) == Accepted([]) + [l];
    InsertAllLast(t, [], l);
    assert [] + [l] == [l];
    if KeyOf(l) !in t.keys {
      InsertAllKeys(t, [l], KeyOf(l));
      assert KeyOf([l][0]) == KeyOf(l);
    }
  }

  lemma PrefixAccepts(items: seq<Location>, i: nat)
    requires i < |items| - 1
    ensures Accepts(items[..|items| - 1], i) <==> Accepts(items, i)
  {
    hide ValidateLocation;
    assert forall j :: 0 <= j <= i ==> items[..|items| - 1][j] == items[j];
  }

  lemma AcceptedDistinct(items: seq<Location>)
    ensures forall k, l :: 0 <= k < l < |Accepted(items)| ==> Accepted(items)[k].sequenceId != Accepted(items)[l].sequenceId
    ensures forall k :: 0 <= k < |Accepted(items)| ==> ValidateLocation(Accepted(items)[k]) == None
  {
    var at := AcceptedPositions(items);
    forall k | 0 <= k < |at| ensures Accepts(items, at[k]) {
      assert at[k] in at;
    }
  }
}
