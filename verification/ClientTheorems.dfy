/** What the client promises, over every interleaving of gateway inserts, key presses and
    polls, from any table it is started on. */
module ClientTheorems {
  import opened Base
  import opened ClientCrypto
  import opened EventsTable
  import opened ClientModel

  // The gateway appends

  lemma InsertKeeps(k: Keys, c: Client, start: nat, r: Row)
    requires Inv(k, c, start)
    ensures Inv(k, Step(k, c, GatewayInserts(r)), start)
  {
    InsertKeepsValid(c.table, r);
    var d := Insert(c.table, r);
    forall e <- c.view.events ensures d.Has(e.rowid) && (c.table.Acked(e.rowid) ==> d.Acked(e.rowid)) {
      var row :| row in c.table.rows && row.rowid == e.rowid;
      assert row in d.rows;
      if c.table.Acked(e.rowid) {
        var acked :| acked in c.table.rows && acked.rowid == e.rowid && acked.ackedAt.Some?;
        assert acked in d.rows;
      }
    }
  }

  // Keys

  lemma MovingKeeps(k: Keys, c: Client, start: nat, v: View)
    requires Inv(k, c, start) && v.events == c.view.events && v.errors == c.view.errors && SelectionInv(v)
    ensures Inv(k, c.(view := v), start)
  {
  }

  lemma StoppingKeeps(k: Keys, c: Client, start: nat)
    requires Inv(k, c, start)
    ensures Inv(k, c.(running := false), start)
  {
  }

  lemma AckedRows(t: Table, id: nat, at: nat)
    requires t.Valid()
    ensures var d := t.(rows := Ack(t.rows, id, at));
            && d.Valid() && (t.Has(id) ==> d.Acked(id))
            && (forall n: nat :: t.Has(n) ==> d.Has(n))
            && (forall n: nat :: t.Acked(n) ==> d.Acked(n))
  {
    AckKeepsValid(t, id, at);
    AckMarks(t.rows, id, at);
    var d := t.(rows := Ack(t.rows, id, at));
    forall i | 0 <= i < |t.rows| ensures d.rows[i] in d.rows && d.rows[i].rowid == t.rows[i].rowid {}
  }

  lemma AckSkipsNothing(c: Client, start: nat, id: nat, at: nat)
    requires NothingSkipped(c, start)
    ensures NothingSkipped(c.(table := c.table.(rows := Ack(c.table.rows, id, at))), start)
  {
    AckMarks(c.table.rows, id, at);
    var rows := Ack(c.table.rows, id, at);
    forall r <- rows | start < r.rowid <= c.cursor && Deliverable(r) ensures FrameOf(r) in c.delivered {
      var i :| 0 <= i < |rows| && rows[i] == r;
      assert FrameOf(r) == FrameOf(c.table.rows[i]);
    }
  }

  lemma {:induction false} MarkingOneCounts(es: seq<Entry>, i: nat)
    requires i < |es|
    ensures UnackedCount(es[i := es[i].(acked := true)]) == UnackedCount(es) - (if es[i].acked then 0 else 1)
  {
    var n := |es| - 1;
    var marked := es[i := es[i].(acked := true)];
    if i < n {
      MarkingOneCounts(es[..n], i);
      assert marked[..n] == es[..n][i := es[..n][i].(acked := true)];
    } else {
      assert marked[..n] == es[..n];
    }
  }

  /** An acknowledgement takes one off the count in the header, unless it was given before. */
  lemma AckLowersCount(v: View)
    requires SelectedRowid(v).Some?
    ensures UnackedCount(AckSelected(v).events) ==
            UnackedCount(v.events) - (if v.events[v.selected.value].acked then 0 else 1)
  {
    MarkingOneCounts(v.events, v.selected.value);
  }

  lemma MarkingKeepsAccount(k: Keys, c: Client)
    requires Accounted(k, c) && SelectedRowid(c.view).Some?
    ensures Accounted(k, c.(view := AckSelected(c.view)))
  {
    var v := AckSelected(c.view);
    forall f <- c.delivered | Listed(k, c.view.events, f) ensures Listed(k, v.events, f) {
      var e :| e in c.view.events && Shows(k, e, f);
      var j :| 0 <= j < |v.events| && c.view.events[j] == e;
      assert Shows(k, v.events[j], f);
    }
    forall e <- v.events ensures e.rowid !in c.removed && Sourced(k, c.delivered, e) {
      var j :| 0 <= j < |v.events| && v.events[j] == e;
      var before := c.view.events[j];
      assert Sourced(k, c.delivered, before);
      var f :| f in c.delivered && Shows(k, before, f);
      assert Shows(k, e, f);
    }
  }

  lemma MarkingKeepsList(c: Client)
    requires SelectionInv(c.view) && ListInv(c) && SelectedRowid(c.view).Some?
    ensures SelectionInv(AckSelected(c.view)) && ListInv(c.(view := AckSelected(c.view), running := false))
  {
    var v := AckSelected(c.view);
    forall e <- v.events ensures e.rowid <= c.cursor && c.table.Has(e.rowid) {
      var j :| 0 <= j < |v.events| && v.events[j] == e;
      assert c.view.events[j] in c.view.events;
    }
  }

  lemma MarkingKeeps(k: Keys, c: Client, start: nat)
    requires Inv(k, c, start) && SelectedRowid(c.view).Some?
    ensures Inv(k, c.(view := AckSelected(c.view), running := false), start)
  {
    MarkingKeepsAccount(k, c);
    MarkingKeepsList(c);
  }

  /** Marking the selected entry and its row together */
  lemma AckKeepsList(c: Client, start: nat, at: nat)
    requires CursorInv(c, start) && ListInv(c) && c.running && SelectedRowid(c.view).Some?
    ensures ListInv(Press(c, AckKey(at), true))
  {
    var d := Press(c, AckKey(at), true);
    AckedRows(c.table, SelectedRowid(c.view).value, at);
    forall e <- d.view.events ensures e.rowid <= c.cursor && Stored(e, d.table) {
      var j :| 0 <= j < |d.view.events| && d.view.events[j] == e;
      assert Stored(c.view.events[j], c.table);
    }
  }

  lemma AckKeeps(k: Keys, c: Client, start: nat, at: nat)
    requires Inv(k, c, start) && SelectedRowid(c.view).Some? && c.running
    ensures Inv(k, Press(c, AckKey(at), true), start)
  {
    var id := SelectedRowid(c.view).value;
    MarkingKeepsAccount(k, c);
    AckKeepsList(c, start, at);
    AckKeepsValid(c.table, id, at);
    AckSkipsNothing(c, start, id, at);
  }

  lemma DeletedRows(t: Table, id: nat)
    requires t.Valid()
    ensures var d := t.(rows := Delete(t.rows, id));
            && d.Valid()
            && (forall n: nat :: n != id && t.Has(n) ==> d.Has(n))
            && (forall n: nat :: n != id && t.Acked(n) ==> d.Acked(n))
            && (forall r <- d.rows :: r in t.rows)
  {
    DeleteKeepsValid(t, id);
    DeleteRemoves(t.rows, id);
  }

  /** Removal takes out the one entry with the selected key. */
  lemma RemovalIsExact(v: View)
    requires ListSorted(v.events) && SelectedRowid(v).Some?
    ensures ListSorted(RemoveSelected(v).events) && SelectionInv(RemoveSelected(v))
    ensures forall e :: e in RemoveSelected(v).events <==> e in v.events && e.rowid != SelectedRowid(v).value
  {
    var i := v.selected.value;
    assert v.events == v.events[..i] + [v.events[i]] + v.events[i + 1..];
  }

  lemma RemovalKeepsAccount(k: Keys, c: Client, start: nat)
    requires Accounted(k, c) && CursorInv(c, start) && ListInv(c) && SelectedRowid(c.view).Some?
    ensures Accounted(k, c.(view := RemoveSelected(c.view), removed := c.removed + {SelectedRowid(c.view).value}))
  {
    var v, id := RemoveSelected(c.view), SelectedRowid(c.view).value;
    RemovalIsExact(c.view);
    assert c.view.events[c.view.selected.value] in c.view.events;
    forall f <- c.delivered | f.rowid != id && Listed(k, c.view.events, f) ensures Listed(k, v.events, f) {
      var e :| e in c.view.events && Shows(k, e, f);
      assert e in v.events;
    }
  }

  lemma RemovalKeepsList(c: Client, start: nat)
    requires CursorInv(c, start) && ListInv(c) && c.running && SelectedRowid(c.view).Some?
    ensures ListInv(Press(c, DeleteKey, true)) && SelectionInv(Press(c, DeleteKey, true).view)
  {
    RemovalIsExact(c.view);
    DeletedRows(c.table, SelectedRowid(c.view).value);
    var d := Press(c, DeleteKey, true);
    forall e <- d.view.events ensures e.rowid <= c.cursor && Stored(e, d.table) {
      assert Stored(e, c.table);
    }
  }

  lemma DeleteKeeps(k: Keys, c: Client, start: nat)
    requires Inv(k, c, start) && SelectedRowid(c.view).Some? && c.running
    ensures Inv(k, Press(c, DeleteKey, true), start)
  {
    DeletedRows(c.table, SelectedRowid(c.view).value);
    RemovalKeepsAccount(k, c, start);
    RemovalKeepsList(c, start);
  }

  lemma PressKeeps(k: Keys, c: Client, start: nat, key: Key, ok: bool)
    requires Inv(k, c, start) && c.running
    ensures Inv(k, Press(c, key, ok), start)
  {
    StoppingKeeps(k, c, start);
    match key
    case Down => MovingKeeps(k, c, start, Next(c.view));
    case Up => MovingKeeps(k, c, start, Prev(c.view));
    case AckKey(at) => if SelectedRowid(c.view).Some? { if ok { AckKeeps(k, c, start, at); } else { MarkingKeeps(k, c, start); } }
    case DeleteKey => if SelectedRowid(c.view).Some? && ok { DeleteKeeps(k, c, start); }
    case Toggle => MovingKeeps(k, c, start, c.view.(showErrors := !c.view.showErrors));
    case _ =>
  }

  // Polls

  /** All but `NothingSkipped`, which holds again only when a poll is over */
  predicate Midway(k: Keys, c: Client, start: nat) {
    SelectionInv(c.view) && CursorInv(c, start) && ListInv(c) && Accounted(k, c)
  }

  predicate IsNew(c: Client, f: RawFrame) { c.cursor < f.rowid <= c.table.lastId && c.table.Has(f.rowid) }

  lemma HandlingKeepsList(k: Keys, c: Client, start: nat, f: RawFrame)
    requires Midway(k, c, start) && IsNew(c, f)
    ensures ListInv(Handle(k, c, f)) && SelectionInv(Handle(k, c, f).view) && CursorInv(Handle(k, c, f), start)
  {
    var d := Handle(k, c, f);
    forall e <- d.view.events ensures e in c.view.events || (e.rowid == f.rowid && !e.acked) {}
  }

  lemma HandlingKeepsAccount(k: Keys, c: Client, start: nat, f: RawFrame)
    requires Midway(k, c, start) && IsNew(c, f)
    ensures Accounted(k, Handle(k, c, f))
  {
    var d := Handle(k, c, f);
    forall g <- c.delivered | Listed(k, c.view.events, g) ensures Listed(k, d.view.events, g) {
      var e :| e in c.view.events && Shows(k, e, g);
      assert e in d.view.events;
    }
    forall e <- c.view.events ensures Sourced(k, d.delivered, e) {
      assert Sourced(k, c.delivered, e);
      var g :| g in c.delivered && Shows(k, e, g);
      assert g in d.delivered;
    }
    match Decrypt(k.crypto, k.psk, f.rawBlob, f.eventType)
    case Some(ler) =>
      var e := d.view.events[|c.view.events|];
      assert Shows(k, e, f) && e in d.view.events && f in d.delivered;
    case None => assert f.rowid in d.view.errors;
  }

  lemma HandlingKeeps(k: Keys, c: Client, start: nat, f: RawFrame)
    requires Midway(k, c, start) && IsNew(c, f)
    ensures Midway(k, Handle(k, c, f), start)
  {
    HandlingKeepsList(k, c, start, f);
    HandlingKeepsAccount(k, c, start, f);
  }

  predicate AllNew(c: Client, fs: seq<RawFrame>) { FramesSorted(fs) && forall i :: 0 <= i < |fs| ==> IsNew(c, fs[i]) }

  /** After all frames but the last, the last is still new. */
  lemma LastIsNew(c: Client, d: Client, fs: seq<RawFrame>)
    requires fs != [] && AllNew(c, fs) && d.table == c.table
    requires d.cursor == if |fs| == 1 then c.cursor else fs[|fs| - 2].rowid
    ensures AllNew(c, fs[..|fs| - 1]) && IsNew(d, fs[|fs| - 1])
  {
    assert IsNew(c, fs[|fs| - 1]);
  }

  lemma {:induction false} HandleAllMoves(k: Keys, c: Client, fs: seq<RawFrame>)
    ensures var d := HandleAll(k, c, fs);
            && d.delivered == c.delivered + fs && d.table == c.table && d.running == c.running
            && d.cursor == if fs == [] then c.cursor else fs[|fs| - 1].rowid
  {
    if fs != [] {
      HandleAllMoves(k, c, fs[..|fs| - 1]);
      assert c.delivered + fs[..|fs| - 1] + [fs[|fs| - 1]] == c.delivered + fs;
    }
  }

  lemma {:induction false} HandleAllKeeps(k: Keys, c: Client, start: nat, fs: seq<RawFrame>)
    requires Midway(k, c, start) && AllNew(c, fs)
    ensures Midway(k, HandleAll(k, c, fs), start)
  {
    if fs != [] {
      var most := fs[..|fs| - 1];
      HandleAllMoves(k, c, most);
      LastIsNew(c, HandleAll(k, c, most), fs);
      HandleAllKeeps(k, c, start, most);
      HandlingKeeps(k, HandleAll(k, c, most), start, fs[|fs| - 1]);
    }
  }

  /** Everything a poll finds is new to the client. */
  lemma PolledIsNew(c: Client, start: nat)
    requires CursorInv(c, start)
    ensures AllNew(c, Poll(c.table.rows, c.cursor))
  {
    var fs := Poll(c.table.rows, c.cursor);
    PollFinds(c.table.rows, c.cursor);
    forall i | 0 <= i < |fs| ensures IsNew(c, fs[i]) {
      assert fs[i] in fs;
    }
  }

  lemma NoneIsMissed(c: Client, start: nat, fs: seq<RawFrame>)
    requires CursorInv(c, start) && NothingSkipped(c, start) && fs == Poll(c.table.rows, c.cursor)
    ensures forall r <- c.table.rows :: start < r.rowid && Deliverable(r) ==> FrameOf(r) in c.delivered + fs
  {
    PollFinds(c.table.rows, c.cursor);
    forall r <- c.table.rows | start < r.rowid && Deliverable(r) ensures FrameOf(r) in c.delivered + fs {
      if r.rowid > c.cursor { assert FrameOf(r) in fs; }
    }
  }

  /** A successful poll delivers each deliverable row above the cursor that is not delivered
      yet, once and in the order of the keys, and nothing else. */
  lemma PollDelivers(k: Keys, c: Client, start: nat)
    requires Inv(k, c, start)
    ensures var d := PollNow(k, c, true);
            && Midway(k, d, start) && d.table == c.table && d.delivered == c.delivered + Poll(c.table.rows, c.cursor)
            && forall r <- c.table.rows :: start < r.rowid && Deliverable(r) ==> FrameOf(r) in d.delivered
  {
    var fs := Poll(c.table.rows, c.cursor);
    PolledIsNew(c, start);
    HandleAllKeeps(k, c, start, fs);
    HandleAllMoves(k, c, fs);
    NoneIsMissed(c, start, fs);
  }

  lemma PollKeeps(k: Keys, c: Client, start: nat, ok: bool)
    requires Inv(k, c, start)
    ensures Inv(k, PollNow(k, c, ok), start)
  {
    if ok { PollDelivers(k, c, start); } else { StoppingKeeps(k, c, start); }
  }

  // Runs

  lemma StartInv(k: Keys, t: Table, live: bool)
    requires t.Valid()
    ensures Inv(k, Start(t, live), Start(t, live).cursor)
  {
  }

  lemma {:induction false} RunKeeps(k: Keys, t: Table, live: bool, ops: seq<Op>)
    requires t.Valid()
    ensures Inv(k, Run(k, Start(t, live), ops), Start(t, live).cursor)
  {
    var start := Start(t, live).cursor;
    if ops == [] {
      StartInv(k, t, live);
    } else {
      var c := Run(k, Start(t, live), ops[..|ops| - 1]);
      RunKeeps(k, t, live, ops[..|ops| - 1]);
      match ops[|ops| - 1]
      case GatewayInserts(r) => InsertKeeps(k, c, start, r);
      case Pressed(key, ok) => if c.running { PressKeeps(k, c, start, key, ok); }
      case Polls(ok) => if c.running { PollKeeps(k, c, start, ok); }
    }
  }

  /** Polling delivers each row at most once and in increasing order of the keys, skips no
      deliverable row below the cursor, and hands over nothing from before the start. */
  lemma EachRowIsDeliveredOnce(k: Keys, t: Table, live: bool, ops: seq<Op>)
    requires t.Valid()
    ensures var c, start := Run(k, Start(t, live), ops), Start(t, live).cursor;
            && (forall i, j :: 0 <= i < j < |c.delivered| ==> c.delivered[i].rowid < c.delivered[j].rowid)
            && (forall f <- c.delivered :: start < f.rowid <= c.cursor)
            && (forall r <- c.table.rows :: start < r.rowid <= c.cursor && Deliverable(r) ==> FrameOf(r) in c.delivered)
  {
    RunKeeps(k, t, live, ops);
  }

  /** The first poll after an insertion delivers the row, whatever the run before. */
  lemma NextPollDelivers(k: Keys, t: Table, live: bool, ops: seq<Op>)
    requires t.Valid() && Run(k, Start(t, live), ops).running
    ensures var c := Run(k, Start(t, live), ops); var d := Step(k, c, Polls(true));
            && d.delivered == c.delivered + Poll(c.table.rows, c.cursor)
            && forall r <- d.table.rows :: Start(t, live).cursor < r.rowid && Deliverable(r) ==> FrameOf(r) in d.delivered
  {
    RunKeeps(k, t, live, ops);
    PollDelivers(k, Run(k, Start(t, live), ops), Start(t, live).cursor);
  }

  /** The list and the table stay in step: the selection is none exactly when the list is
      empty and else in range, keys increase, no deleted row is listed, and what is marked
      in the list is acknowledged in the table for as long as the loop runs. */
  lemma ListFollowsTable(k: Keys, t: Table, live: bool, ops: seq<Op>)
    requires t.Valid()
    ensures var c := Run(k, Start(t, live), ops); var v := c.view;
            && (v.selected == None <==> v.events == []) && (v.selected.Some? ==> v.selected.value < |v.events|)
            && (forall i, j :: 0 <= i < j < |v.events| ==> v.events[i].rowid < v.events[j].rowid)
            && (forall e <- v.events :: c.table.Has(e.rowid) && e.rowid !in c.removed)
            && (c.running ==> forall e <- v.events :: e.acked ==> c.table.Acked(e.rowid))
  {
    RunKeeps(k, t, live, ops);
  }

  /** Every delivered frame that decrypts is listed until the operator deletes it, and what
      is listed is what some delivered frame decrypts to. */
  lemma NothingIsLostFromTheList(k: Keys, t: Table, live: bool, ops: seq<Op>, f: RawFrame)
    requires t.Valid() && f in Run(k, Start(t, live), ops).delivered
    ensures var c := Run(k, Start(t, live), ops);
            Decrypt(k.crypto, k.psk, f.rawBlob, f.eventType).Some? && f.rowid !in c.removed <==> Listed(k, c.view.events, f)
  {
    RunKeeps(k, t, live, ops);
  }

  // The two ways to start

  /** By default the first poll delivers the whole backlog: every verified row whose text
      decodes, field by field, once and in the order of the keys, and nothing else. */
  lemma DefaultStartDeliversBacklog(k: Keys, t: Table, f: RawFrame)
    requires t.Valid()
    ensures var d := Step(k, Start(t, false), Polls(true));
            && (f in d.delivered <==> exists r <- t.rows :: r.sigVerified && ReadAs(r, f))
            && FramesSorted(d.delivered)
  {
    FirstPollDelivers(k, t, false);
    PollFinds(t.rows, 0);
    BacklogReads(t, f);
  }

  lemma FirstPollDelivers(k: Keys, t: Table, live: bool)
    requires t.Valid()
    ensures Step(k, Start(t, live), Polls(true)).delivered == Poll(t.rows, if live then MaxRowid(t) else 0)
  {
    FirstDelivery(k, Start(t, live), Poll(t.rows, if live then MaxRowid(t) else 0));
  }

  lemma BacklogReads(t: Table, f: RawFrame)
    requires t.Valid()
    ensures f in Poll(t.rows, 0) <==> exists r <- t.rows :: r.sigVerified && ReadAs(r, f)
  {
    PollReads(t.rows, 0, f);
    if r :| r in t.rows && r.sigVerified && ReadAs(r, f) {
      var i :| 0 <= i < |t.rows| && t.rows[i] == r;
      assert r.rowid > 0;
    }
  }

  /** A client started live shows nothing of the backlog, and then exactly what the gateway
      inserts. */
  lemma LiveStartSkipsBacklog(k: Keys, t: Table, c: Client, r: Row, d: Client)
    requires t.Valid() && c == Step(k, Start(t, true), Polls(true))
    requires d == Step(k, Step(k, c, GatewayInserts(r)), Polls(true))
    ensures c == Start(t, true) && c.delivered == [] && c.view.events == []
    ensures d.delivered ==
              if r.sigVerified && HexDecode(r.rawBlob).Some?
              then [RawFrame(t.lastId + 1, r.nodeId, r.receivedAt, r.frameType, r.rssi, HexDecode(r.rawBlob).value)]
              else []
  {
    LivePollRests(k, t);
    assert c == Start(t, true);
    NextInsertionIsDelivered(k, t, r);
  }

  lemma LivePollRests(k: Keys, t: Table)
    requires t.Valid()
    ensures Step(k, Start(t, true), Polls(true)) == Start(t, true)
  {
    LiveCursorSkipsAll(t);
  }

  lemma NextInsertionIsDelivered(k: Keys, t: Table, r: Row)
    requires t.Valid()
    ensures Step(k, Step(k, Start(t, true), GatewayInserts(r)), Polls(true)).delivered ==
              if Deliverable(r) then [FrameOf(r).(rowid := t.lastId + 1)] else []
  {
    var found := if Deliverable(r) then [FrameOf(r).(rowid := t.lastId + 1)] else [];
    assert Poll(Insert(t, r).rows, MaxRowid(t)) == found by { InsertionIsPolled(t, r); }
    FirstDelivery(k, Start(t, true).(table := Insert(t, r)), found);
  }

  lemma FirstDelivery(k: Keys, c: Client, found: seq<RawFrame>)
    requires c.running && c.delivered == [] && Poll(c.table.rows, c.cursor) == found
    ensures Step(k, c, Polls(true)).delivered == found
  {
    HandleAllMoves(k, c, found);
    assert [] + found == found;
  }

  // One key, one frame

  /** What a key does to a client with the `i`-th of its entries selected */
  lemma KeysDo(c: Client, i: nat, at: nat, ok: bool)
    requires SelectionInv(c.view) && c.view.selected == Some(i)
    ensures var v, n, id := c.view, |c.view.events|, c.view.events[i].rowid;
            && Press(c, Quit, ok) == c.(running := false)
            && Press(c, Other, ok) == c
            && Press(c, Toggle, ok) == c.(view := v.(showErrors := !v.showErrors))
            && Press(c, Down, ok) == c.(view := v.(selected := Some(if i < n - 1 then i + 1 else i)))
            && Press(c, Up, ok) == c.(view := v.(selected := Some(if i > 0 then i - 1 else 0)))
  {
  }

  /** The two keys that also write to the table: a statement that fails ends the loop. */
  lemma WritingKeysDo(c: Client, i: nat, at: nat, ok: bool)
    requires SelectionInv(c.view) && c.view.selected == Some(i)
    ensures var v, n, id := c.view, |c.view.events|, c.view.events[i].rowid;
            var acked := c.(view := v.(events := v.events[i := v.events[i].(acked := true)]));
            && Press(c, AckKey(at), ok) ==
                 (if ok then acked.(table := c.table.(rows := Ack(c.table.rows, id, at))) else acked.(running := false))
            && Press(c, DeleteKey, ok) ==
                 if !ok then c.(running := false)
                 else
                   c.(table := c.table.(rows := Delete(c.table.rows, id)), removed := c.removed + {id},
                      view := v.(events := v.events[..i] + v.events[i + 1..],
                                 selected := if n == 1 then None else Some(if i == n - 1 then n - 2 else i)))
  {
  }

  /** Without an entry only quitting and the error panel do anything. */
  lemma KeysDoNothing(c: Client, key: Key, ok: bool)
    requires SelectionInv(c.view) && c.view.events == []
    ensures Press(c, key, ok) ==
              if key == Quit then c.(running := false)
              else if key == Toggle then c.(view := c.view.(showErrors := !c.view.showErrors)) else c
  {
  }

  /** A polled frame is listed behind the others, or counted among the errors; the first
      entry of an empty list becomes the selected one. */
  lemma FrameIsHandled(k: Keys, c: Client, f: RawFrame)
    requires SelectionInv(c.view)
    ensures var v, d, ler := c.view, Handle(k, c, f), Decrypt(k.crypto, k.psk, f.rawBlob, f.eventType);
            && d.cursor == f.rowid && d.delivered == c.delivered + [f]
            && d.table == c.table && d.running == c.running && d.removed == c.removed
            && d.view == if ler.None? then v.(errors := v.errors + [f.rowid])
                         else v.(events := v.events + [Entry(f.rowid, f.nodeId, f.receivedAt, f.rssi, ler.value, false)],
                                 selected := if v.events == [] then Some(0) else v.selected)
  {
  }

  /** A poll that fails ends the loop, and a loop that has ended takes neither keys nor rows. */
  lemma EndedLoopRests(k: Keys, c: Client, key: Key, ok: bool)
    ensures c.running ==> Step(k, c, Polls(false)) == c.(running := false)
    ensures !c.running ==> Step(k, c, Polls(ok)) == c && Step(k, c, Pressed(key, ok)) == c
  {
  }
}
