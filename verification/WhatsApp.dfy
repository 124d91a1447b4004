/**
 Bounded retrieval from the local WhatsApp store: new rows first, then a rolling review of
 the old ones.  Fingerprints stand for what they are taken of.
 */
module WhatsApp {
  import opened Basics
  import opened Tables

  const RESCAN_INTERVAL := 86_400
  const LEGACY_INITIAL_RESCAN_WINDOW := 3_600

  type Columns = map<string, string>

  /** Binds the file to the schema it was read under. */
  datatype Generation = Generation(file: nat, columns: Columns)

  datatype Phase = Initial | Rescan | RescanAgain | Steady

  datatype Prefix = Prefix(messages: nat, newest: Option<int>)

  datatype Checkpoint = Checkpoint(
    account: nat,
    generation: Generation,
    schema: Columns,
    phase: Phase,
    due: Option<int>,
    rescan: nat,
    rowid: nat,
    columns: Option<Columns>,
    prefix: Option<Prefix>,
    gap: bool)

  datatype Store = Store(file: nat, columns: Columns, rows: seq<Row>)

  datatype Status = Refused | Failed | Partial | Finished

  datatype Reply = Reply(rows: seq<Row>, checkpoint: Option<Checkpoint>, complete: bool, status: Status)

  // ----------------------------------------------------------------------
  // Schema migrations
  // ----------------------------------------------------------------------

  predicate Additive(previous: Columns, current: Columns) {
    |current| > |previous| && forall name <- previous :: name in current && current[name] == previous[name]
  }

  const ADDED: seq<string> := ["deleted_at", "deletion_reason", "payload_purged_at"]
  const KINDS: seq<string> := ["INTEGER", "TEXT", "INTEGER"]

  /** The documented additions a schema has. */
  function Present(current: Columns, i: nat): seq<string>
    requires i <= |ADDED| && |KINDS| == |ADDED|
    decreases |ADDED| - i
  {
    if i == |ADDED| then []
    else (if ADDED[i] in current && current[ADDED[i]] == KINDS[i] then [ADDED[i]] else []) + Present(current, i + 1)
  }

  function AsSet(names: seq<string>): set<string> {
    set name | name in names
  }

  /** The current columns are the previous ones and one or more documented additions. */
  predicate LegacyAddition(previous: Columns, current: Columns) {
    var removed := current.Keys - previous.Keys;
    removed != {} && removed <= AsSet(Present(current, 0)) && previous == current - removed
  }

  function Power(n: nat): nat {
    if n == 0 then 1 else 2 * Power(n - 1)
  }

  /** The names a bit mask picks. */
  function Picked(names: seq<string>, mask: nat): set<string> {
    if names == [] then {}
    else (if mask % 2 == 1 then {names[0]} else {}) + Picked(names[1..], mask / 2)
  }

  function MaskOf(names: seq<string>, chosen: set<string>): nat {
    if names == [] then 0 else (if names[0] in chosen then 1 else 0) + 2 * MaskOf(names[1..], chosen)
  }

  lemma {:induction false} MaskPicks(names: seq<string>, chosen: set<string>)
    ensures MaskOf(names, chosen) < Power(|names|)
    ensures Picked(names, MaskOf(names, chosen)) == chosen * AsSet(names)
  {
    if names == [] {
    } else {
      MaskPicks(names[1..], chosen);
      assert names == [names[0]] + names[1..];
      assert AsSet(names) == {names[0]} + AsSet(names[1..]);
    }
  }

  lemma {:induction false} PickedWithin(names: seq<string>, mask: nat)
    ensures Picked(names, mask) <= AsSet(names)
    ensures mask == 0 ==> Picked(names, mask) == {}
    ensures 0 < mask < Power(|names|) ==> Picked(names, mask) != {}
  {
    if names != [] { PickedWithin(names[1..], mask / 2); }
  }

  lemma {:induction false} PresentIsCurrent(current: Columns, i: nat)
    requires i <= |ADDED| && |KINDS| == |ADDED|
    ensures AsSet(Present(current, i)) <= current.Keys
    decreases |ADDED| - i
  {
    if i < |ADDED| { PresentIsCurrent(current, i + 1); }
  }

  /** Tries every non-empty selection of the documented additions. */
  method IsLegacyAddition(previous: Columns, current: Columns) returns (found: bool)
    ensures found <==> LegacyAddition(previous, current)
  {
    var present := Present(current, 0);
    PresentIsCurrent(current, 0);
    var mask := 1;
    while mask < Power(|present|)
      invariant mask >= 1
      invariant forall m | 1 <= m < mask && m < Power(|present|) :: previous != current - Picked(present, m)
    {
      PickedWithin(present, mask);
      var removed := Picked(present, mask);
      if previous == current - removed {
        assert current.Keys - previous.Keys == removed;
        return true;
      }
      mask := mask + 1;
    }
    if LegacyAddition(previous, current) {
      var removed := current.Keys - previous.Keys;
      MaskPicks(present, removed);
      assert removed * AsSet(present) == removed;
      PickedWithin(present, MaskOf(present, removed));
      assert false;
    }
    return false;
  }

  // ----------------------------------------------------------------------
  // Reconciling a checkpoint with the store
  // ----------------------------------------------------------------------

  predicate HasRow(rows: seq<Row>, id: nat) {
    exists r <- rows :: r.rowid == id
  }

  function PrefixAt(store: Store, through: nat): Option<Prefix> {
    var rows := Upto(store.rows, through);
    if MaxRow(rows) != through then None else Some(Prefix(|rows|, Newest(rows)))
  }

  function WithPrefix(c: Checkpoint, store: Store): Option<Checkpoint> {
    var prefix := PrefixAt(store, c.rowid);
    if prefix.None? then None else Some(c.(prefix := prefix))
  }

  /** A vanished high-water row restarts delivery from zero; a migration keeps the cursor
      only when it adds columns to the same file and the prefix is still there. */
  function Reconcile(c: Checkpoint, store: Store): Option<Checkpoint> {
    if c.schema == store.columns then
      if c.generation != Generation(store.file, store.columns) || (c.columns.Some? && c.columns.value != store.columns)
      then None
      else
        var kept :=
          if c.rowid > 0 && !HasRow(store.rows, c.rowid)
          then c.(rowid := 0, phase := Initial, rescan := 0, due := None, gap := true)
          else c;
        WithPrefix(kept.(columns := Some(store.columns)), store)
    else if c.generation != Generation(store.file, c.schema) then None
    else if c.columns.None? && !LegacyAddition(c.schema, store.columns) then None
    else if c.columns.Some? && !Additive(c.columns.value, store.columns) then None
    else if c.columns.Some? && (c.prefix.None? || PrefixAt(store, c.rowid) != c.prefix) then None
    else
      WithPrefix(c.(columns := Some(store.columns), generation := Generation(store.file, store.columns),
                    schema := store.columns), store)
  }

  // ----------------------------------------------------------------------
  // One bounded page
  // ----------------------------------------------------------------------

  predicate Rescanning(c: Checkpoint) {
    c.phase.Rescan? || c.phase.RescanAgain?
  }

  predicate Due(c: Checkpoint, now: int) {
    c.due.Some? && c.due.value <= now
  }

  predicate LegacyInitialRescan(c: Checkpoint, now: int) {
    c.phase.Rescan? && c.due.Some? && 0 <= now - c.due.value <= LEGACY_INITIAL_RESCAN_WINDOW
  }

  function Settle(c: Checkpoint, now: int): Checkpoint {
    c.(phase := Steady, due := Some(now + RESCAN_INTERVAL), rescan := 0)
  }

  /** Moves the cursor to the end of a page. */
  function Deliver(c: Checkpoint, store: Store, page: seq<Row>, more: bool, now: int): Option<Reply>
    requires page != []
  {
    var next := c.(rowid := page[|page| - 1].rowid);
    var moved := if !more && c.phase.Initial? then Settle(next, now) else next;
    match WithPrefix(moved, store)
    case None => None
    case Some(checkpoint) =>
      var incomplete := more || Rescanning(checkpoint);
      Some(Reply(page, Some(checkpoint), !incomplete, if incomplete then Partial else Finished))
  }

  /** The next page of rows after the cursor. */
  function NewRows(c: Checkpoint, store: Store, limit: nat, now: int): Option<Reply> {
    var rows := Take(Between(store.rows, c.rowid, None), limit + 1);
    var page := Take(rows, limit);
    if page == [] then None else Deliver(c, store, page, |rows| > limit, now)
  }

  /** The next page of rows between the rescan position and the cursor. */
  function OldRows(c: Checkpoint, store: Store, limit: nat, now: int): Option<Reply> {
    if c.rowid < c.rescan then None
    else
      var rows := Take(Between(store.rows, c.rescan, Some(c.rowid)), limit + 1);
      var page := Take(rows, limit);
      if |rows| > limit && page != [] then
        Some(Reply(page, Some(c.(phase := RescanAgain, rescan := page[|page| - 1].rowid)), false, Partial))
      else Some(Reply(page, Some(Settle(c, now)), true, Finished))
  }

  /** A page from a reconciled checkpoint; `None` is a failed read. */
  function Page(c: Checkpoint, store: Store, recheck: bool, limit: nat, now: int): Option<Reply> {
    var max := MaxRow(store.rows);
    if !c.phase.Steady? && c.rowid > max then Some(Reply([], Some(c), false, Refused))
    else if LegacyInitialRescan(c, now) then Some(Reply([], Some(Settle(c, now)), true, Finished))
    else
      var d := if recheck && c.phase.Steady? then c.(phase := RescanAgain, rescan := 0) else c;
      if d.rowid < max then NewRows(d, store, limit, now)
      else if d.phase.Initial? then Some(Reply([], Some(Settle(d, now)), true, Finished))
      else if Rescanning(d) then OldRows(d, store, limit, now)
      else if Due(d, now) then OldRows(d.(phase := RescanAgain, rescan := 0), store, limit, now)
      else Some(Reply([], Some(d), true, Finished))
  }

  function Beginning(account: nat, store: Store): Checkpoint {
    Checkpoint(account, Generation(store.file, store.columns), store.columns, Initial, None, 0, 0, None, None, false)
  }

  /** One call: a checkpoint of another account or of a changed store is refused and kept;
      a failed read keeps it too. */
  function Sync(account: nat, store: Store, checkpoint: Option<Checkpoint>, recheck: bool, limit: nat, now: int): Reply
    requires 1 <= limit <= 1_000
  {
    if checkpoint.Some? && checkpoint.value.account != account then Reply([], checkpoint, false, Refused)
    else
      var prior := if checkpoint.Some? then checkpoint.value else Beginning(account, store);
      match Reconcile(prior, store)
      case None => Reply([], checkpoint, false, Refused)
      case Some(current) =>
        match Page(current, store, recheck, limit, now)
        case None => Reply([], checkpoint, false, Failed)
        case Some(reply) => if current.gap then reply.(status := Partial) else reply
  }
}
