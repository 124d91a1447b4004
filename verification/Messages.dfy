/**
 Bounded, resumable delivery from the Apple Messages store: a delta of the rows after a
 cursor, its replay, and the acknowledgement that moves the cursor.

 Cursors and projections stand for their digests.
 */
module Messages {
  import opened Basics
  import opened Tables

  const MAX_DELTA := 100
  const MAX_BODY_CHARS := 4_000
  const MAX_DELTA_BODY_CHARS := 48_000
  const CURSOR_VERSION := 2

  datatype Message = Message(rowid: nat, at: Option<int>, fromMe: bool, body: Option<string>, truncated: bool,
      unavailable: bool, attachment: bool)

  datatype Store = Store(schema: nat, generation: nat, rows: seq<Row>)

  datatype Cursor = Cursor(version: nat, schema: nat, generation: nat, messages: nat, rowid: nat, newest: Option<int>)

  datatype Delta = Delta(cursor: Cursor, complete: bool, messages: seq<Message>, reconciled: bool)

  datatype Error = OutOfRange | StoreChanged | Regressed | PrefixChanged | BoundExceeded | ContentChanged | Stale
      | Unnecessary

  datatype Result<T> = Ok(value: T) | Err(error: Error)

  // ----------------------------------------------------------------------
  // Queries
  // ----------------------------------------------------------------------

  datatype Aggregates = Aggregates(messages: nat, rowid: nat, newest: Option<int>)

  function PrefixAggregates(store: Store, r: nat): Aggregates {
    var rows := Upto(store.rows, r);
    Aggregates(|rows|, MaxRow(rows), Newest(rows))
  }

  function CursorAt(store: Store, r: nat): Result<Cursor> {
    var a := PrefixAggregates(store, r);
    if a.rowid != r then Err(StoreChanged)
    else Ok(Cursor(CURSOR_VERSION, store.schema, store.generation, a.messages, r, a.newest))
  }

  predicate PrefixMatches(store: Store, c: Cursor) {
    PrefixAggregates(store, c.rowid) == Aggregates(c.messages, c.rowid, c.newest)
  }

  // ----------------------------------------------------------------------
  // Bounded messages
  // ----------------------------------------------------------------------

  datatype Batch = Batch(messages: seq<Message>, last: nat, complete: bool)

  function Cut(body: string, allowance: nat): string {
    Take(body, allowance)
  }

  function MessageOf(row: Row, allowance: nat): Message {
    Message(row.rowid, row.at, row.fromMe,
            if row.body.Some? then Some(Cut(row.body.value, allowance)) else None,
            row.body.Some? && |row.body.value| > allowance,
            row.body.None? && row.sealed, row.attachment)
  }

  function Allowance(remaining: nat): nat {
    if remaining < MAX_BODY_CHARS then remaining else MAX_BODY_CHARS
  }

  predicate HasBody(row: Row) {
    row.body.Some? && row.body.value != ""
  }

  function BodySize(m: Message): nat {
    if m.body.Some? then |m.body.value| else 0
  }

  function Bounded(rows: seq<Row>, last: nat, remaining: nat): Batch {
    if rows == [] then Batch([], last, true)
    else if !rows[0].visible then Bounded(rows[1..], rows[0].rowid, remaining)
    else if HasBody(rows[0]) && remaining == 0 then Batch([], last, false)
    else
      var m := MessageOf(rows[0], Allowance(remaining));
      var rest := Bounded(rows[1..], m.rowid, remaining - BodySize(m));
      Batch([m] + rest.messages, rest.last, rest.complete)
  }

  /** The delivery loop: it stops before the first body that no budget is left for. */
  method BoundedMessages(rows: seq<Row>, starting: nat) returns (messages: seq<Message>, last: nat, complete: bool)
    ensures Batch(messages, last, complete) == Bounded(rows, starting, MAX_DELTA_BODY_CHARS)
  {
    messages, last := [], starting;
    var remaining := MAX_DELTA_BODY_CHARS;
    for i := 0 to |rows|
      invariant remaining >= 0
      invariant
        var rest := Bounded(rows[i..], last, remaining);
        Bounded(rows, starting, MAX_DELTA_BODY_CHARS) == Batch(messages + rest.messages, rest.last, rest.complete)
    {
      var row := rows[i];
      assert rows[i..][0] == row && rows[i..][1..] == rows[i + 1..];
      if !row.visible {
        last := row.rowid;
        continue;
      }
      if HasBody(row) && remaining <= 0 {
        return messages, last, false;
      }
      var message := MessageOf(row, Allowance(remaining));
      messages := messages + [message];
      remaining := remaining - BodySize(message);
      last := message.rowid;
    }
    complete := true;
  }

  // ----------------------------------------------------------------------
  // Delta, replay, acknowledgement
  // ----------------------------------------------------------------------

  function Validate(c: Cursor, store: Store): Option<Error> {
    if c.schema != store.schema then Some(StoreChanged)
    else if MaxRow(store.rows) < c.rowid then Some(Regressed)
    else if c.generation != store.generation then Some(StoreChanged)
    else None
  }

  /** A cursor of the first version is rebased when its whole prefix is still there. */
  function Reconcile(c: Cursor, store: Store): Result<(Cursor, bool)> {
    if c.schema != store.schema then Err(StoreChanged)
    else if MaxRow(store.rows) < c.rowid then Err(Regressed)
    else if c.version == CURSOR_VERSION then
      if c.generation != store.generation then Err(StoreChanged) else Ok((c, false))
    else if !PrefixMatches(store, c) then Err(PrefixChanged)
    else Ok((Cursor(CURSOR_VERSION, store.schema, store.generation, c.messages, c.rowid, c.newest), true))
  }

  function DeltaAfter(store: Store, previous: Cursor, limit: nat, reconciled: bool): Result<Delta> {
    if MaxRow(store.rows) == previous.rowid then
      match CursorAt(store, previous.rowid)
      case Err(e) => Err(e)
      case Ok(next) => Ok(Delta(next, true, [], reconciled))
    else
      var rows := Take(Between(store.rows, previous.rowid, None), limit + 1);
      var batch := Bounded(Take(rows, limit), previous.rowid, MAX_DELTA_BODY_CHARS);
      match CursorAt(store, batch.last)
      case Err(e) => Err(e)
      case Ok(next) => Ok(Delta(next, |rows| <= limit && batch.complete, batch.messages, reconciled))
  }

  function Read(store: Store, cursor: Cursor, limit: nat, reconcile: bool): Result<Delta> {
    if !(1 <= limit <= MAX_DELTA) then Err(OutOfRange)
    else if reconcile then
      match Reconcile(cursor, store)
      case Err(e) => Err(e)
      case Ok(rebased) => DeltaAfter(store, rebased.0, limit, rebased.1)
    else
      match Validate(cursor, store)
      case Some(e) => Err(e)
      case None => DeltaAfter(store, cursor, limit, false)
  }

  function Replay(store: Store, previous: Cursor, target: Cursor, complete: bool, limit: nat): Result<Delta> {
    if !(1 <= limit <= MAX_DELTA) then Err(OutOfRange)
    else if Validate(previous, store).Some? then Err(Validate(previous, store).value)
    else if target.schema != store.schema || target.generation != store.generation
            || target.rowid < previous.rowid || target.rowid > MaxRow(store.rows) then Err(PrefixChanged)
    else if !PrefixMatches(store, target) then Err(PrefixChanged)
    else
      var rows := Take(Between(store.rows, previous.rowid, Some(target.rowid)), limit + 1);
      var batch := Bounded(rows, previous.rowid, MAX_DELTA_BODY_CHARS);
      if |rows| > limit || batch.last != target.rowid || !batch.complete then Err(BoundExceeded)
      else Ok(Delta(target, complete, batch.messages, false))
  }

  /** An acknowledgement of one delivery; `previous` and `messages` are held as digests. */
  datatype Token = Token(previous: Cursor, project: nat, fromRow: nat, cursor: Cursor, messages: seq<Message>,
      complete: bool, reconciled: bool)

  function CreateToken(project: nat, previous: Cursor, delta: Delta): Result<Token> {
    if delta.messages == [] then Err(Unnecessary)
    else if delta.cursor.rowid <= previous.rowid then Err(Stale)
    else Ok(Token(previous, project, previous.rowid, delta.cursor, delta.messages, delta.complete, delta.reconciled))
  }

  predicate Covers(current: Cursor, target: Cursor) {
    && current.version == CURSOR_VERSION
    && current.schema == target.schema && current.generation == target.generation
    && current.rowid >= target.rowid
  }

  /** Whether the delivery of a token may be acknowledged: `Ok(true)` when the cursor already
      covers it, `Ok(false)` when its rows were recomputed and are the same. */
  function VerifyToken(t: Token, project: nat, current: Cursor, store: Store): Result<bool> {
    var target := t.cursor;
    var sameStore := target.schema == current.schema && target.generation == current.generation;
    var legacy := t.reconciled && current.version == 1 && target.version == CURSOR_VERSION &&
      target.schema == current.schema;
    if t.project != project then Err(Stale)
    else if Covers(current, target) then Ok(true)
    else if current != t.previous then Err(Stale)
    else if t.fromRow != current.rowid || target.rowid <= current.rowid then Err(Stale)
    else if !sameStore && !legacy then Err(StoreChanged)
    else if target.schema != store.schema || target.generation != store.generation then Err(StoreChanged)
    else if legacy && !PrefixMatches(store, current) then Err(PrefixChanged)
    else if !PrefixMatches(store, target) then Err(PrefixChanged)
    else
      var rows := Take(Between(store.rows, t.fromRow, Some(target.rowid)), MAX_DELTA + 1);
      var batch := Bounded(rows, t.fromRow, MAX_DELTA_BODY_CHARS);
      if batch.last != target.rowid || !batch.complete || batch.messages != t.messages then Err(ContentChanged)
      else Ok(false)
  }
}
