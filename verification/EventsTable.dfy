/** The gateway's `events` table, shared with the client. SQLite itself is modelled as an
    ordered list of rows under an AUTOINCREMENT key, which is never used twice. */
module EventsTable {
  import opened Base

  /** A row as the gateway writes it; the blob is hexadecimal text. */
  datatype Row = Row(
    rowid: nat, nodeId: string, receivedAt: nat, sigVerified: bool, rssi: int,
    frameType: byte, rawBlob: string, ackedAt: Option<nat>)

  /** A row as the client reads it */
  datatype RawFrame = RawFrame(
    rowid: nat, nodeId: string, receivedAt: nat, eventType: byte, rssi: int, rawBlob: seq<byte>)

  /** `lastId` is the greatest key ever given out. */
  datatype Table = Table(rows: seq<Row>, lastId: nat) {
    predicate Valid() {
      && (forall i, j :: 0 <= i < j < |rows| ==> rows[i].rowid < rows[j].rowid)
      && (forall i :: 0 <= i < |rows| ==> 0 < rows[i].rowid <= lastId)
    }

    predicate Has(rowid: nat) { exists r <- rows :: r.rowid == rowid }

    predicate Acked(rowid: nat) { exists r <- rows :: r.rowid == rowid && r.ackedAt.Some? }
  }

  const EMPTY := Table([], 0)

  // The gateway's side

  function Insert(t: Table, r: Row): Table {
    Table(t.rows + [r.(rowid := t.lastId + 1, ackedAt := None)], t.lastId + 1)
  }

  // The client's side

  function MaxRowid(t: Table): nat { if t.rows == [] then 0 else t.rows[|t.rows| - 1].rowid }

  predicate Deliverable(r: Row) { r.sigVerified && HexDecode(r.rawBlob).Some? }

  function FrameOf(r: Row): RawFrame
    requires Deliverable(r)
  {
    RawFrame(r.rowid, r.nodeId, r.receivedAt, r.frameType, r.rssi, HexDecode(r.rawBlob).value)
  }

  /** `poll_new_frames`: a row whose blob is no hexadecimal text is left out. */
  function Poll(rows: seq<Row>, since: nat): seq<RawFrame> {
    if rows == [] then []
    else
      (if rows[0].rowid > since && Deliverable(rows[0]) then [FrameOf(rows[0])] else []) + Poll(rows[1..], since)
  }

  function Ack(rows: seq<Row>, rowid: nat, at: nat): seq<Row> {
    if rows == [] then []
    else [if rows[0].rowid == rowid then rows[0].(ackedAt := Some(at)) else rows[0]] + Ack(rows[1..], rowid, at)
  }

  function Delete(rows: seq<Row>, rowid: nat): seq<Row> {
    if rows == [] then []
    else (if rows[0].rowid == rowid then [] else [rows[0]]) + Delete(rows[1..], rowid)
  }

  // What the queries mean

  predicate Sorted(rows: seq<Row>) { forall i, j :: 0 <= i < j < |rows| ==> rows[i].rowid < rows[j].rowid }

  predicate FramesSorted(fs: seq<RawFrame>) { forall i, j :: 0 <= i < j < |fs| ==> fs[i].rowid < fs[j].rowid }

  /** A poll finds exactly the deliverable rows above the cursor, in the order of their keys. */
  lemma {:induction false} PollFinds(rows: seq<Row>, since: nat)
    requires Sorted(rows)
    ensures FramesSorted(Poll(rows, since))
    ensures forall f :: f in Poll(rows, since) <==> exists r <- rows :: r.rowid > since && Deliverable(r) && f == FrameOf(r)
  {
    if rows != [] {
      PollFinds(rows[1..], since);
      assert rows == [rows[0]] + rows[1..];
      var rest := Poll(rows[1..], since);
      forall f | f in rest ensures rows[0].rowid < f.rowid {}
    }
  }

  /** A frame of the client has the fields of the row and the bytes that its text stands for. */
  predicate ReadAs(r: Row, f: RawFrame) {
    && f.rowid == r.rowid && f.nodeId == r.nodeId && f.receivedAt == r.receivedAt && f.rssi == r.rssi
    && f.eventType == r.frameType && HexDecode(r.rawBlob) == Some(f.rawBlob)
  }

  /** The same field by field: exactly the verified rows above the cursor whose text decodes */
  lemma PollReads(rows: seq<Row>, since: nat, f: RawFrame)
    requires Sorted(rows)
    ensures f in Poll(rows, since) <==> exists r <- rows :: r.rowid > since && r.sigVerified && ReadAs(r, f)
  {
    PollFinds(rows, since);
    if f in Poll(rows, since) {
      var r :| r in rows && r.rowid > since && Deliverable(r) && f == FrameOf(r);
      assert ReadAs(r, f);
    }
    if r :| r in rows && r.rowid > since && r.sigVerified && ReadAs(r, f) {
      assert Deliverable(r) && f == FrameOf(r);
    }
  }

  lemma {:induction false} AckMarks(rows: seq<Row>, rowid: nat, at: nat)
    ensures |Ack(rows, rowid, at)| == |rows|
    ensures forall i :: 0 <= i < |rows| ==>
              Ack(rows, rowid, at)[i] == if rows[i].rowid == rowid then rows[i].(ackedAt := Some(at)) else rows[i]
  {
    if rows != [] { AckMarks(rows[1..], rowid, at); }
  }

  lemma {:induction false} DeleteRemoves(rows: seq<Row>, rowid: nat)
    requires Sorted(rows)
    ensures Sorted(Delete(rows, rowid))
    ensures forall r :: r in Delete(rows, rowid) <==> r in rows && r.rowid != rowid
  {
    if rows != [] {
      DeleteRemoves(rows[1..], rowid);
      assert rows == [rows[0]] + rows[1..];
      forall r | r in Delete(rows[1..], rowid) ensures rows[0].rowid < r.rowid {}
    }
  }

  lemma InsertKeepsValid(t: Table, r: Row)
    requires t.Valid()
    ensures Insert(t, r).Valid()
  {
  }

  lemma AckKeepsValid(t: Table, rowid: nat, at: nat)
    requires t.Valid()
    ensures t.(rows := Ack(t.rows, rowid, at)).Valid()
  {
    AckMarks(t.rows, rowid, at);
  }

  lemma DeleteKeepsValid(t: Table, rowid: nat)
    requires t.Valid()
    ensures t.(rows := Delete(t.rows, rowid)).Valid()
  {
    DeleteRemoves(t.rows, rowid);
    var rows := Delete(t.rows, rowid);
    forall i | 0 <= i < |rows| ensures rows[i] in t.rows {}
  }

  /** No key comes back after its row has been deleted. */
  lemma KeysAreNotReused(t: Table, rowid: nat, r: Row)
    requires t.Valid() && t.Has(rowid)
    ensures var d := Insert(t.(rows := Delete(t.rows, rowid)), r); !d.Has(rowid) && d.rows[|d.rows| - 1].rowid > rowid
  {
    DeleteRemoves(t.rows, rowid);
  }

  lemma {:induction false} PollAppends(rows: seq<Row>, r: Row, since: nat)
    ensures Poll(rows + [r], since) ==
            Poll(rows, since) + (if r.rowid > since && Deliverable(r) then [FrameOf(r)] else [])
  {
    var last := if r.rowid > since && Deliverable(r) then [FrameOf(r)] else [];
    if rows == [] {
      assert rows + [r] == [r] && Poll([r][1..], since) == [];
      assert Poll([r], since) == last + [];
    } else {
      var head := if rows[0].rowid > since && Deliverable(rows[0]) then [FrameOf(rows[0])] else [];
      PollAppends(rows[1..], r, since);
      assert (rows + [r])[0] == rows[0] && (rows + [r])[1..] == rows[1..] + [r];
      assert Poll(rows + [r], since) == head + Poll(rows[1..] + [r], since);
      Regroup(head, Poll(rows[1..], since), last);
    }
  }

  lemma {:induction false} NothingAbove(rows: seq<Row>, since: nat)
    requires forall r <- rows :: r.rowid <= since
    ensures Poll(rows, since) == []
  {
    if rows != [] { NothingAbove(rows[1..], since); }
  }

  /** A client that starts at the greatest key replays nothing that is in the table. */
  lemma LiveCursorSkipsAll(t: Table)
    requires t.Valid()
    ensures MaxRowid(t) <= t.lastId && Poll(t.rows, MaxRowid(t)) == []
    ensures if t.rows == [] then MaxRowid(t) == 0 else t.Has(MaxRowid(t)) && forall r <- t.rows :: r.rowid <= MaxRowid(t)
  {
    if t.rows != [] { assert t.rows[|t.rows| - 1] in t.rows; }
    NothingAbove(t.rows, MaxRowid(t));
  }

  /** It finds exactly what is inserted next. */
  lemma InsertionIsPolled(t: Table, r: Row)
    requires t.Valid()
    ensures Poll(Insert(t, r).rows, MaxRowid(t)) == if Deliverable(r) then [FrameOf(r).(rowid := t.lastId + 1)] else []
  {
    LiveCursorSkipsAll(t);
    PollAppends(t.rows, r.(rowid := t.lastId + 1, ackedAt := None), MaxRowid(t));
  }
}
