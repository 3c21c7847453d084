/** The client as it is written: the view is an object that the loop's turns change. Every
    turn is proved to make steps of ClientModel, so what ClientTheorems shows of all runs
    holds of it. */
module Client {
  import opened Base
  import opened ClientCrypto
  import opened EventsTable
  import opened ClientModel
  import opened ClientTheorems

  class AppState {
    var events: seq<Entry>
    var errors: seq<nat>
    var selected: Option<nat>
    var showErrors: bool

    ghost function Value(): View
      reads this
    {
      View(events, errors, selected, showErrors)
    }

    constructor ()
      ensures Value() == BLANK
    {
      events, errors, selected, showErrors := [], [], None, false;
    }

    method PushEvent(f: RawFrame, ler: ClientLer)
      modifies this
      ensures Value() == ClientModel.PushEvent(old(Value()), f, ler)
    {
      events := events + [Entry(f.rowid, f.nodeId, f.receivedAt, f.rssi, ler, false)];
      if selected.None? {
        selected := Some(0);
      }
    }

    method PushError(rowid: nat)
      modifies this
      ensures Value() == old(Value()).(errors := old(errors) + [rowid])
    {
      errors := errors + [rowid];
    }

    method Next()
      modifies this
      ensures Value() == ClientModel.Next(old(Value()))
    {
      if |events| == 0 {
        return;
      }
      var i := 0;
      if selected.Some? {
        i := selected.value + 1;
        if i > |events| - 1 { i := |events| - 1; }
      }
      selected := Some(i);
    }

    method Prev()
      modifies this
      ensures Value() == ClientModel.Prev(old(Value()))
    {
      if |events| == 0 {
        return;
      }
      var i := 0;
      if selected.Some? && selected.value > 0 { i := selected.value - 1; }
      selected := Some(i);
    }

    method AckSelected()
      modifies this
      ensures Value() == ClientModel.AckSelected(old(Value()))
    {
      if selected.Some? && selected.value < |events| {
        events := events[selected.value := events[selected.value].(acked := true)];
      }
    }

    function SelectedRowid(): (id: Option<nat>)
      reads this
      ensures id == ClientModel.SelectedRowid(Value())
    {
      if selected.Some? && selected.value < |events| then Some(events[selected.value].rowid) else None
    }

    method ToggleErrors()
      modifies this
      ensures Value() == old(Value()).(showErrors := !old(showErrors))
    {
      showErrors := !showErrors;
    }

    /** The removal in the delete branch of the loop; no index is out of bounds there. */
    method RemoveSelected()
      requires SelectionInv(Value()) && events != []
      modifies this
      ensures Value() == ClientModel.RemoveSelected(old(Value()))
    {
      var i := selected.value;
      events := events[..i] + events[i + 1..];
      if |events| == 0 {
        selected := None;
      } else {
        selected := Some(if i < |events| - 1 then i else |events| - 1);
      }
    }
  }

  /** One iteration of the loop: at most one key, with what the gateway inserts meanwhile */
  datatype Turn = Turn(press: Option<Key>, keyOk: bool, inserts: seq<Row>, pollOk: bool)

  function InsertOps(rows: seq<Row>): seq<Op> {
    if rows == [] then [] else InsertOps(rows[..|rows| - 1]) + [GatewayInserts(rows[|rows| - 1])]
  }

  function TurnOps(t: Turn): seq<Op> {
    (if t.press.Some? then [Pressed(t.press.value, t.keyOk)] else []) + InsertOps(t.inserts) + [Polls(t.pollOk)]
  }

  /** A turn handles the key before it polls; what the gateway inserts meanwhile is there to
      be polled. */
  lemma TurnOrder(t: Turn)
    ensures var ops, p := TurnOps(t), if t.press.Some? then 1 else 0;
            && |ops| == p + |t.inserts| + 1 && (t.press.Some? ==> ops[0] == Pressed(t.press.value, t.keyOk))
            && (forall i :: 0 <= i < |t.inserts| ==> ops[p + i] == GatewayInserts(t.inserts[i]))
            && ops[p + |t.inserts|] == Polls(t.pollOk)
  {
    InsertsInOrder(t.inserts);
    var pressed: seq<Op> := if t.press.Some? then [Pressed(t.press.value, t.keyOk)] else [];
    assert TurnOps(t) == pressed + InsertOps(t.inserts) + [Polls(t.pollOk)];
    forall i | 0 <= i < |t.inserts| ensures TurnOps(t)[|pressed| + i] == GatewayInserts(t.inserts[i]) {
      assert (pressed + InsertOps(t.inserts))[|pressed| + i] == InsertOps(t.inserts)[i];
    }
  }

  lemma {:induction false} InsertsInOrder(rows: seq<Row>)
    ensures |InsertOps(rows)| == |rows|
    ensures forall i :: 0 <= i < |rows| ==> InsertOps(rows)[i] == GatewayInserts(rows[i])
  {
    if rows != [] { InsertsInOrder(rows[..|rows| - 1]); }
  }

  lemma {:induction false} RunAppend(k: Keys, c: ClientModel.Client, a: seq<Op>, b: seq<Op>)
    ensures ClientModel.Run(k, c, a + b) == ClientModel.Run(k, ClientModel.Run(k, c, a), b)
  {
    if b == [] {
      assert a + b == a;
    } else {
      assert (a + b)[..|a + b| - 1] == a + b[..|b| - 1];
      RunAppend(k, c, a, b[..|b| - 1]);
    }
  }

  lemma RunOne(k: Keys, c: ClientModel.Client, op: Op)
    ensures ClientModel.Run(k, c, [op]) == ClientModel.Step(k, c, op)
  {
    assert [op][..0] == [];
  }

  lemma RunInsert(k: Keys, c: ClientModel.Client, rows: seq<Row>, i: nat)
    requires i < |rows|
    ensures ClientModel.Run(k, c, InsertOps(rows[..i + 1])) ==
              ClientModel.Step(k, ClientModel.Run(k, c, InsertOps(rows[..i])), GatewayInserts(rows[i]))
  {
    assert rows[..i + 1][..i] == rows[..i];
    var ops := InsertOps(rows[..i]);
    assert (ops + [GatewayInserts(rows[i])])[..|ops|] == ops;
  }

  class Session {
    const keys: Keys
    const app: AppState
    var table: Table
    var lastRowid: nat
    var running: bool
    ghost var delivered: seq<RawFrame>
    ghost var removed: set<nat>

    ghost function Value(): ClientModel.Client
      reads this, app
    {
      ClientModel.Client(table, app.Value(), lastRowid, running, delivered, removed)
    }

    constructor (keys: Keys, t: Table, live: bool)
      ensures fresh(app) && this.keys == keys && Value() == Start(t, live)
    {
      this.keys := keys;
      app := new AppState();
      table, running, delivered, removed := t, true, [], {};
      lastRowid := if live then MaxRowid(t) else 0;
    }

    method Acknowledge(at: nat, dbOk: bool)
      modifies this, app
      ensures Value() == Press(old(Value()), AckKey(at), dbOk)
    {
      var id := app.SelectedRowid();
      if id.Some? {
        app.AckSelected();
        if dbOk {
          table := table.(rows := Ack(table.rows, id.value, at));
        } else {
          running := false;
        }
      }
    }

    method DeleteSelected(dbOk: bool)
      requires SelectionInv(app.Value())
      modifies this, app
      ensures Value() == Press(old(Value()), DeleteKey, dbOk)
    {
      var id := app.SelectedRowid();
      if id.Some? {
        if !dbOk {
          running := false;
          return;
        }
        table := table.(rows := Delete(table.rows, id.value));
        app.RemoveSelected();
        removed := removed + {id.value};
      }
    }

    method HandleKey(key: Key, dbOk: bool)
      requires running && SelectionInv(app.Value())
      modifies this, app
      ensures Value() == ClientModel.Step(keys, old(Value()), Pressed(key, dbOk))
    {
      match key {
        case Quit => running := false;
        case Down => app.Next();
        case Up => app.Prev();
        case Toggle => app.ToggleErrors();
        case AckKey(at) => Acknowledge(at, dbOk);
        case DeleteKey => DeleteSelected(dbOk);
        case Other =>
      }
    }

    method PollFrames(dbOk: bool)
      requires running
      modifies this, app
      ensures Value() == ClientModel.Step(keys, old(Value()), Polls(dbOk))
    {
      if !dbOk {
        running := false;
        return;
      }
      ghost var c := Value();
      var frames := Poll(table.rows, lastRowid);
      for i := 0 to |frames|
        invariant Value() == HandleAll(keys, c, frames[..i])
      {
        var frame := frames[i];
        assert frames[..i + 1][..i] == frames[..i];
        lastRowid := frame.rowid;
        var ler := DecryptLer(keys.crypto, keys.psk, frame.rawBlob, frame.eventType);
        delivered := delivered + [frame];
        match ler {
          case Some(l) => app.PushEvent(frame, l);
          case None => app.PushError(frame.rowid);
        }
      }
      assert frames[..|frames|] == frames;
    }

    /** The gateway's process appends to the shared table. */
    method Meanwhile(inserts: seq<Row>)
      modifies this`table
      ensures Value() == ClientModel.Run(keys, old(Value()), InsertOps(inserts))
    {
      ghost var c := Value();
      for i := 0 to |inserts|
        invariant Value() == ClientModel.Run(keys, c, InsertOps(inserts[..i]))
      {
        RunInsert(keys, c, inserts, i);
        table := Insert(table, inserts[i]);
      }
      assert inserts[..|inserts|] == inserts;
    }

    /** One turn of `run_loop`; it is taken again while `running` holds. */
    method TakeTurn(t: Turn)
      requires running && SelectionInv(app.Value())
      modifies this, app
      ensures Value() == ClientModel.Run(keys, old(Value()), TurnOps(t))
    {
      ghost var c := Value();
      ghost var pressed: seq<Op> := if t.press.Some? then [Pressed(t.press.value, t.keyOk)] else [];
      if t.press.Some? {
        HandleKey(t.press.value, t.keyOk);
        RunOne(keys, c, Pressed(t.press.value, t.keyOk));
      }
      RunAppend(keys, c, pressed, InsertOps(t.inserts));
      Meanwhile(t.inserts);
      RunAppend(keys, c, pressed + InsertOps(t.inserts), [Polls(t.pollOk)]);
      RunOne(keys, Value(), Polls(t.pollOk));
      if running {
        PollFrames(t.pollOk);
      }
    }
  }

  function AllOps(turns: seq<Turn>): seq<Op> {
    if turns == [] then [] else AllOps(turns[..|turns| - 1]) + TurnOps(turns[|turns| - 1])
  }

  /** One more turn: what holds of a run of the model goes on to hold. */
  lemma TurnGoesOn(keys: Keys, t: Table, live: bool, turns: seq<Turn>, n: nat, c: ClientModel.Client, d: ClientModel.Client)
    requires t.Valid() && n < |turns| && c == ClientModel.Run(keys, Start(t, live), AllOps(turns[..n]))
    requires d == ClientModel.Run(keys, c, TurnOps(turns[n]))
    ensures d == ClientModel.Run(keys, Start(t, live), AllOps(turns[..n + 1]))
    ensures Inv(keys, d, Start(t, live).cursor)
  {
    assert turns[..n + 1][..n] == turns[..n];
    RunAppend(keys, Start(t, live), AllOps(turns[..n]), TurnOps(turns[n]));
    RunKeeps(keys, t, live, AllOps(turns[..n + 1]));
  }

  /** The whole loop, up to the turn that ends it: its state is that of the model's run over
      the operations of the turns taken, so the invariants hold of it. */
  method RunLoop(keys: Keys, t: Table, live: bool, turns: seq<Turn>) returns (s: Session, taken: nat)
    requires t.Valid()
    ensures taken <= |turns| && (taken < |turns| ==> !s.running)
    ensures s.Value() == ClientModel.Run(keys, Start(t, live), AllOps(turns[..taken]))
    ensures Inv(keys, s.Value(), Start(t, live).cursor)
  {
    s := new Session(keys, t, live);
    taken := 0;
    RunKeeps(keys, t, live, []);
    while taken < |turns| && s.running
      invariant taken <= |turns| && fresh(s) && fresh(s.app) && s.keys == keys
      invariant s.Value() == ClientModel.Run(keys, Start(t, live), AllOps(turns[..taken]))
      invariant Inv(keys, s.Value(), Start(t, live).cursor)
    {
      ghost var c := s.Value();
      s.TakeTurn(turns[taken]);
      TurnGoesOn(keys, t, live, turns, taken, c, s.Value());
      taken := taken + 1;
    }
  }
}
