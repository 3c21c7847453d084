/** The client as a state machine on values: a list of events with a selection, a cursor,
    and the shared table, which the gateway appends to at any time. */
module ClientModel {
  import opened Base
  import opened NodeCrypto
  import opened ClientCrypto
  import opened EventsTable

  datatype Entry = Entry(rowid: nat, nodeId: string, receivedAt: nat, rssi: int, ler: ClientLer, acked: bool)

  /** `errors` holds the keys of the rows that could not be decrypted. */
  datatype View = View(events: seq<Entry>, errors: seq<nat>, selected: Option<nat>, showErrors: bool)

  const BLANK := View([], [], None, false)

  datatype Keys = Keys(crypto: Crypto, psk: seq<byte>)

  // Operations on the view

  function PushEvent(v: View, f: RawFrame, ler: ClientLer): View {
    v.(events := v.events + [Entry(f.rowid, f.nodeId, f.receivedAt, f.rssi, ler, false)],
       selected := if v.selected.None? then Some(0) else v.selected)
  }

  function Next(v: View): View {
    if v.events == [] then v
    else
      v.(selected := match v.selected
           case Some(i) => Some(if i + 1 < |v.events| - 1 then i + 1 else |v.events| - 1)
           case None => Some(0))
  }

  function Prev(v: View): View {
    if v.events == [] then v
    else v.(selected := match v.selected case Some(i) => Some(if i > 0 then i - 1 else 0) case None => Some(0))
  }

  function SelectedRowid(v: View): Option<nat> {
    match v.selected
    case Some(i) => if i < |v.events| then Some(v.events[i].rowid) else None
    case None => None
  }

  function AckSelected(v: View): View {
    match v.selected
    case Some(i) => if i < |v.events| then v.(events := v.events[i := v.events[i].(acked := true)]) else v
    case None => v
  }

  function UnackedCount(es: seq<Entry>): nat {
    if es == [] then 0 else UnackedCount(es[..|es| - 1]) + (if es[|es| - 1].acked then 0 else 1)
  }

  /** Take the selected entry out and keep the selection in range. */
  function RemoveSelected(v: View): View
    requires SelectedRowid(v).Some?
  {
    var i := v.selected.value;
    var rest := v.events[..i] + v.events[i + 1..];
    v.(events := rest, selected := if rest == [] then None else Some(if i < |rest| - 1 then i else |rest| - 1))
  }

  // The loop

  datatype Key = Quit | Down | Up | Toggle | AckKey(at: nat) | DeleteKey | Other

  /** `delivered` lists the frames handed to the view so far, `removed` the keys of the
      entries the operator has deleted. */
  datatype Client = Client(
    table: Table, view: View, cursor: nat, running: bool, delivered: seq<RawFrame>, removed: set<nat>)

  function Start(t: Table, live: bool): Client {
    Client(t, BLANK, if live then MaxRowid(t) else 0, true, [], {})
  }

  /** A key press; `dbOk` is false where the statement it causes fails, which ends the loop. */
  function Press(c: Client, key: Key, dbOk: bool): Client {
    match key
    case Quit => c.(running := false)
    case Down => c.(view := Next(c.view))
    case Up => c.(view := Prev(c.view))
    case Toggle => c.(view := c.view.(showErrors := !c.view.showErrors))
    case AckKey(at) =>
      (match SelectedRowid(c.view)
       case None => c
       case Some(id) =>
         var marked := c.(view := AckSelected(c.view));
         if dbOk then marked.(table := c.table.(rows := Ack(c.table.rows, id, at))) else marked.(running := false))
    case DeleteKey =>
      (match SelectedRowid(c.view)
       case None => c
       case Some(id) =>
         if dbOk then
           c.(table := c.table.(rows := Delete(c.table.rows, id)), view := RemoveSelected(c.view), removed := c.removed + {id})
         else c.(running := false))
    case Other => c
  }

  function Handle(k: Keys, c: Client, f: RawFrame): Client {
    c.(cursor := f.rowid, delivered := c.delivered + [f],
       view := match Decrypt(k.crypto, k.psk, f.rawBlob, f.eventType)
         case Some(ler) => PushEvent(c.view, f, ler)
         case None => c.view.(errors := c.view.errors + [f.rowid]))
  }

  function HandleAll(k: Keys, c: Client, fs: seq<RawFrame>): Client {
    if fs == [] then c else Handle(k, HandleAll(k, c, fs[..|fs| - 1]), fs[|fs| - 1])
  }

  function PollNow(k: Keys, c: Client, dbOk: bool): Client {
    if dbOk then HandleAll(k, c, Poll(c.table.rows, c.cursor)) else c.(running := false)
  }

  datatype Op = GatewayInserts(row: Row) | Pressed(key: Key, dbOk: bool) | Polls(dbOk: bool)

  function Step(k: Keys, c: Client, op: Op): Client {
    match op
    case GatewayInserts(r) => c.(table := Insert(c.table, r))
    case Pressed(key, ok) => if c.running then Press(c, key, ok) else c
    case Polls(ok) => if c.running then PollNow(k, c, ok) else c
  }

  function Run(k: Keys, c: Client, ops: seq<Op>): Client {
    if ops == [] then c else Step(k, Run(k, c, ops[..|ops| - 1]), ops[|ops| - 1])
  }

  // What every step keeps

  /** Nothing is selected exactly when the list is empty; what is selected is in range. */
  predicate SelectionInv(v: View) {
    if v.events == [] then v.selected == None else v.selected.Some? && v.selected.value < |v.events|
  }

  predicate CursorInv(c: Client, start: nat) {
    && c.table.Valid() && start <= c.cursor <= c.table.lastId
    && FramesSorted(c.delivered)
    && (forall f <- c.delivered :: start < f.rowid <= c.cursor)
  }

  /** Every deliverable row between the start and the cursor has been delivered. */
  predicate NothingSkipped(c: Client, start: nat) {
    forall r <- c.table.rows :: start < r.rowid <= c.cursor && Deliverable(r) ==> FrameOf(r) in c.delivered
  }

  predicate ListSorted(es: seq<Entry>) { forall i, j :: 0 <= i < j < |es| ==> es[i].rowid < es[j].rowid }

  predicate Stored(e: Entry, t: Table) { t.Has(e.rowid) && (e.acked ==> t.Acked(e.rowid)) }

  predicate ListInv(c: Client) {
    && ListSorted(c.view.events)
    && (forall e <- c.view.events :: e.rowid <= c.cursor && c.table.Has(e.rowid))
    && (c.running ==> forall e <- c.view.events :: Stored(e, c.table))
  }

  /** An entry shows this frame. */
  predicate Shows(k: Keys, e: Entry, f: RawFrame) {
    e.rowid == f.rowid && e.nodeId == f.nodeId && e.receivedAt == f.receivedAt && e.rssi == f.rssi &&
    Decrypt(k.crypto, k.psk, f.rawBlob, f.eventType) == Some(e.ler)
  }

  predicate Listed(k: Keys, es: seq<Entry>, f: RawFrame) { exists e <- es :: Shows(k, e, f) }

  predicate Sourced(k: Keys, fs: seq<RawFrame>, e: Entry) { exists f <- fs :: Shows(k, e, f) }

  predicate Failed(k: Keys, v: View, f: RawFrame) {
    Decrypt(k.crypto, k.psk, f.rawBlob, f.eventType).None? && f.rowid in v.errors
  }

  /** A delivered frame has failed to decrypt, or has been deleted, or is listed; and
      nothing else is listed. */
  predicate Accounted(k: Keys, c: Client) {
    && (forall f <- c.delivered :: Failed(k, c.view, f) || f.rowid in c.removed || Listed(k, c.view.events, f))
    && (forall e <- c.view.events :: e.rowid !in c.removed && Sourced(k, c.delivered, e))
    && (forall id <- c.removed :: id <= c.cursor)
  }

  predicate Inv(k: Keys, c: Client, start: nat) {
    SelectionInv(c.view) && CursorInv(c, start) && NothingSkipped(c, start) && ListInv(c) && Accounted(k, c)
  }
}
