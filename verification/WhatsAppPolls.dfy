/**
 Polling a WhatsApp store for as long as it is linked: every poll that is not refused moves on,
 and whenever one is complete, every row added since has been delivered.
 */
module WhatsAppPolls {
  import opened Basics
  import opened Tables
  import opened WhatsApp
  import opened WhatsAppRuns

  /** The checkpoint a poll works on, unless it is refused. */
  function Taken(account: nat, store: Store, checkpoint: Option<Checkpoint>): Option<Checkpoint> {
    match checkpoint
    case None => Reconcile(Beginning(account, store), store)
    case Some(c) => if c.account != account then None else Reconcile(c, store)
  }

  /** The rows a checkpoint has not come to yet. */
  function Unread(store: Store, c: Checkpoint): seq<Row> {
    Between(store.rows, c.rowid, None)
  }

  lemma SyncTakes(account: nat, store: Store, checkpoint: Option<Checkpoint>, recheck: bool, limit: nat, now: int)
    requires 1 <= limit <= 1_000
    ensures
      var r, taken := Sync(account, store, checkpoint, recheck, limit, now), Taken(account, store, checkpoint);
      if taken.None? then r == Reply([], checkpoint, false, Refused)
      else
        var page := Page(taken.value, store, recheck, limit, now);
        if page.None? then r == Reply([], checkpoint, false, Failed)
        else
          && r.rows == page.value.rows && r.checkpoint == page.value.checkpoint
          && r.complete == page.value.complete
  {
  }

  lemma PageSays(c: Checkpoint, store: Store, recheck: bool, limit: nat, now: int)
    requires Page(c, store, recheck, limit, now).Some?
    ensures
      var r := Page(c, store, recheck, limit, now).value;
      && (r.status.Finished? <==> r.complete) && !r.status.Failed?
      && (r.status.Refused? ==> r.rows == [] && !r.complete)
  {
  }

  /** What a reply says of itself: finished exactly when it is complete and no row is known to
      have vanished; refused and failed replies deliver nothing and are not complete. */
  lemma ReplySays(account: nat, store: Store, checkpoint: Option<Checkpoint>, recheck: bool, limit: nat, now: int)
    requires 1 <= limit <= 1_000
    ensures
      var r, taken := Sync(account, store, checkpoint, recheck, limit, now), Taken(account, store, checkpoint);
      && (r.status.Finished? <==> r.complete && taken.Some? && !taken.value.gap)
      && (r.status.Refused? || r.status.Failed? ==> r.rows == [] && !r.complete)
      && (taken.None? ==> r.status.Refused? && r.checkpoint == checkpoint)
  {
    var taken := Taken(account, store, checkpoint);
    if taken.Some? && Page(taken.value, store, recheck, limit, now).Some? {
      PageSays(taken.value, store, recheck, limit, now);
    }
  }

  lemma {:induction false} TakenStands(account: nat, store: Store, checkpoint: Option<Checkpoint>)
    requires Ordered(store.rows) && (checkpoint.Some? ==> Orderly(checkpoint.value))
    requires Taken(account, store, checkpoint).Some?
    ensures
      var c := Taken(account, store, checkpoint).value;
      && Orderly(c) && (c.rowid == 0 || HasRow(store.rows, c.rowid)) && c.rowid <= MaxRow(store.rows)
      && (c.rowid == 0 || (checkpoint.Some? && c.rowid == checkpoint.value.rowid))
  {
    var prior := if checkpoint.Some? then checkpoint.value else Beginning(account, store);
    ReconcileKeepsOrRestarts(prior, store);
    RowIsBelowMax(store.rows);
  }

  lemma {:induction false} NewRowsFill(c: Checkpoint, store: Store, limit: nat, now: int)
    requires Ordered(store.rows) && limit > 0 && c.rowid < MaxRow(store.rows)
    ensures
      var r := NewRows(c, store, limit, now);
      && r.Some? && r.value.checkpoint.Some?
      && var d := r.value.checkpoint.value;
         && c.rowid < d.rowid && HasRow(store.rows, d.rowid)
         && (d.phase == c.phase || (c.phase.Initial? && d.phase.Steady?))
         && (d.rescan == c.rescan || (d.phase.Steady? && d.rescan == 0))
         && r.value.rows == Between(store.rows, c.rowid, Some(d.rowid))
         && r.value.rows == Take(Unread(store, c), limit) && r.value.rows != []
         && (r.value.complete <==> |Unread(store, c)| <= limit && !Rescanning(c))
  {
    var d, more := NewRowsMoves(c, store, limit, now);
  }

  // ----------------------------------------------------------------------
  // One poll
  // ----------------------------------------------------------------------

  /** An accepted checkpoint below the largest row id delivers the next stretch of rows, as
      many as the limit allows, and moves its cursor to the last of them; steady or not. */
  lemma {:induction false} PollDelivers(account: nat, store: Store, checkpoint: Option<Checkpoint>, recheck: bool,
      limit: nat, now: int)
    requires Ordered(store.rows) && (checkpoint.Some? ==> Orderly(checkpoint.value)) && 1 <= limit <= 1_000
    requires
      var taken := Taken(account, store, checkpoint);
      taken.Some? && taken.value.rowid < MaxRow(store.rows) && !LegacyInitialRescan(taken.value, now)
    ensures
      var c, r := Taken(account, store, checkpoint).value, Sync(account, store, checkpoint, recheck, limit, now);
      && r.checkpoint.Some? && r.rows != [] && c.rowid < r.checkpoint.value.rowid
      && r.rows == Between(store.rows, c.rowid, Some(r.checkpoint.value.rowid))
      && r.rows == Take(Unread(store, c), limit)
  {
    SyncTakes(account, store, checkpoint, recheck, limit, now);
    TakenStands(account, store, checkpoint);
    var c := Taken(account, store, checkpoint).value;
    var d := if recheck && c.phase.Steady? then c.(phase := RescanAgain, rescan := 0) else c;
    NewRowsFill(d, store, limit, now);
    assert Page(c, store, recheck, limit, now) == NewRows(d, store, limit, now);
  }

  /** What is left for later polls: rows to come to, and rows to review. */
  function Ahead(store: Store, c: Checkpoint): nat {
    if c.rowid < MaxRow(store.rows) then MaxRow(store.rows) - c.rowid else 0
  }

  function Behind(c: Checkpoint): nat {
    if !Rescanning(c) then c.rowid + 1 else if c.rescan < c.rowid then c.rowid - c.rescan else 0
  }

  predicate Nearer(store: Store, d: Checkpoint, c: Checkpoint) {
    Ahead(store, d) < Ahead(store, c) || (Ahead(store, d) == Ahead(store, c) && Behind(d) < Behind(c))
  }

  lemma {:induction false} OldRowsMove(c: Checkpoint, store: Store, limit: nat, now: int)
    requires Ordered(store.rows) && limit > 0 && Orderly(c)
    ensures
      var r := OldRows(c, store, limit, now);
      && r.Some? && r.value.checkpoint.Some?
      && var d := r.value.checkpoint.value;
         && Orderly(d) && d.rowid == c.rowid
         && if r.value.complete then d.phase.Steady? else d.phase.RescanAgain? && c.rescan < d.rescan
  {
    var page, more := PageIsStretch(store.rows, c.rescan, Some(c.rowid), limit);
    OldRowsAre(c, store, limit, now, page, more);
  }

  /** The checkpoint belongs to the store as it is now. */
  predicate Matches(c: Checkpoint, account: nat, store: Store) {
    && c.account == account && c.schema == store.columns && c.columns == Some(store.columns)
    && c.generation == Generation(store.file, store.columns)
  }

  lemma TakenMatches(account: nat, store: Store, checkpoint: Option<Checkpoint>)
    requires Taken(account, store, checkpoint).Some?
    ensures Matches(Taken(account, store, checkpoint).value, account, store)
  {
  }

  lemma {:induction false} MatchingIsTaken(account: nat, store: Store, c: Checkpoint)
    requires Ordered(store.rows) && Matches(c, account, store) && (c.rowid == 0 || HasRow(store.rows, c.rowid))
    ensures Taken(account, store, Some(c)) == Some(c.(prefix := PrefixAt(store, c.rowid)))
  {
    PrefixExists(store, c.rowid);
  }

  /** A first poll is never refused. */
  lemma {:induction false} BeginningIsTaken(account: nat, store: Store)
    requires Ordered(store.rows)
    ensures Taken(account, store, None).Some? && Taken(account, store, None).value.rowid == 0
  {
    PrefixExists(store, 0);
  }

  /** However the rows change, the next poll is not refused while the schema stays. */
  lemma {:induction false} RowsNeverRefuse(account: nat, store: Store, c: Checkpoint, rows: seq<Row>)
    requires Matches(c, account, store) && Ordered(rows)
    ensures Taken(account, store.(rows := rows), Some(c)).Some?
  {
    PrefixExists(store.(rows := rows), if HasRow(rows, c.rowid) then c.rowid else 0);
  }

  /** When columns change under the same rows, the next poll is refused unless columns were only
      added, and otherwise goes on from the same row. */
  lemma {:induction false} RefusedAfterChangeExactly(account: nat, store: Store, c: Checkpoint, columns: Columns)
    requires Matches(c, account, store) && Ordered(store.rows)
    requires c.prefix.Some? && c.prefix == PrefixAt(store, c.rowid)
    ensures
      var taken := Taken(account, store.(columns := columns), Some(c));
      && (taken.Some? <==>
            || columns == store.columns
            || (|columns| > |store.columns|
                && forall n <- store.columns :: n in columns && columns[n] == store.columns[n]))
      && (taken.Some? ==> taken.value.rowid == c.rowid)
  {
    PrefixExists(store, c.rowid);
    assert PrefixAt(store.(columns := columns), c.rowid) == PrefixAt(store, c.rowid);
  }

  /** What every page makes of its checkpoint: it is complete or brings it nearer. */
  predicate MovesOn(c: Checkpoint, account: nat, store: Store, page: Option<Reply>, caughtUp: bool) {
    && page.Some? && page.value.checkpoint.Some?
    && var d := page.value.checkpoint.value;
       && Orderly(d) && Matches(d, account, store) && (d.rowid == 0 || HasRow(store.rows, d.rowid))
       && (page.value.complete || Nearer(store, d, c))
       && (page.value.complete && caughtUp ==> d.rowid == MaxRow(store.rows))
       && (d.rowid == c.rowid || page.value.rows == Between(store.rows, c.rowid, Some(d.rowid)))
  }

  lemma {:induction false} PageMovesOn(c: Checkpoint, account: nat, store: Store, recheck: bool, limit: nat, now: int)
    requires Ordered(store.rows) && limit > 0 && Orderly(c) && Matches(c, account, store)
    requires (c.rowid == 0 || HasRow(store.rows, c.rowid)) && c.rowid <= MaxRow(store.rows)
    ensures MovesOn(c, account, store, Page(c, store, recheck, limit, now), !LegacyInitialRescan(c, now))
  {
    if !LegacyInitialRescan(c, now) {
      var d := if recheck && c.phase.Steady? then c.(phase := RescanAgain, rescan := 0) else c;
      if d.rowid < MaxRow(store.rows) {
        NewRowsMoveOn(d, account, store, limit, now);
        assert Page(c, store, recheck, limit, now) == NewRows(d, store, limit, now);
      } else if !d.phase.Initial? {
        OldRowsMoveOn(if Rescanning(d) then d else d.(phase := RescanAgain, rescan := 0), account, store, limit, now);
      }
    }
  }

  lemma {:induction false} NewRowsMoveOn(c: Checkpoint, account: nat, store: Store, limit: nat, now: int)
    requires Ordered(store.rows) && limit > 0 && Orderly(c) && Matches(c, account, store)
    requires c.rowid < MaxRow(store.rows)
    ensures
      var r := NewRows(c, store, limit, now);
      && r.Some? && r.value.checkpoint.Some?
      && var d := r.value.checkpoint.value;
         && Orderly(d) && Matches(d, account, store) && HasRow(store.rows, d.rowid)
         && Ahead(store, d) < Ahead(store, c) && (r.value.complete ==> d.rowid == MaxRow(store.rows))
         && r.value.rows == Between(store.rows, c.rowid, Some(d.rowid))
  {
    var d, more := NewRowsMoves(c, store, limit, now);
    RowIsBelowMax(store.rows);
  }

  lemma {:induction false} OldRowsMoveOn(c: Checkpoint, account: nat, store: Store, limit: nat, now: int)
    requires Ordered(store.rows) && limit > 0 && Orderly(c) && Matches(c, account, store) && Rescanning(c)
    ensures
      var r := OldRows(c, store, limit, now);
      && r.Some? && r.value.checkpoint.Some?
      && var d := r.value.checkpoint.value;
         && Orderly(d) && Matches(d, account, store) && d.rowid == c.rowid
         && (r.value.complete || Behind(d) < Behind(c))
  {
    OldRowsMove(c, store, limit, now);
  }

  /** A poll that is not refused is complete, or brings the link nearer to a poll that is, and
      the next one is not refused either while the store stays as it is. */
  lemma {:induction false} PollProgresses(account: nat, store: Store, checkpoint: Option<Checkpoint>, recheck: bool,
      limit: nat, now: int)
    requires Ordered(store.rows) && (checkpoint.Some? ==> Orderly(checkpoint.value)) && 1 <= limit <= 1_000
    requires Taken(account, store, checkpoint).Some?
    ensures
      var c, r := Taken(account, store, checkpoint).value, Sync(account, store, checkpoint, recheck, limit, now);
      && r.checkpoint.Some? && Orderly(r.checkpoint.value)
      && Taken(account, store, r.checkpoint).Some?
      && (r.complete || Nearer(store, Taken(account, store, r.checkpoint).value, c))
  {
    SyncTakes(account, store, checkpoint, recheck, limit, now);
    TakenStands(account, store, checkpoint);
    TakenMatches(account, store, checkpoint);
    var c := Taken(account, store, checkpoint).value;
    PageMovesOn(c, account, store, recheck, limit, now);
    var d := Page(c, store, recheck, limit, now).value.checkpoint.value;
    MatchingIsTaken(account, store, d);
  }

  datatype Ask = Ask(recheck: bool, limit: nat, now: int)

  /** The replies of polling a store that does not change until one is complete.  That this
      function terminates is that one is. */
  ghost function QuietPolls(account: nat, store: Store, checkpoint: Option<Checkpoint>, asks: nat -> Ask,
      i: nat): (replies: seq<Reply>)
    requires Ordered(store.rows) && (checkpoint.Some? ==> Orderly(checkpoint.value))
    requires Taken(account, store, checkpoint).Some? && forall n :: 1 <= asks(n).limit <= 1_000
    ensures |replies| > 0 && forall k | 0 <= k < |replies| :: replies[k].complete <==> k == |replies| - 1
    decreases Ahead(store, Taken(account, store, checkpoint).value), Behind(Taken(account, store, checkpoint).value)
  {
    PollProgresses(account, store, checkpoint, asks(i).recheck, asks(i).limit, asks(i).now);
    var r := Sync(account, store, checkpoint, asks(i).recheck, asks(i).limit, asks(i).now);
    if r.complete then [r] else [r] + QuietPolls(account, store, r.checkpoint, asks, i + 1)
  }

  // ----------------------------------------------------------------------
  // Runs that go on
  // ----------------------------------------------------------------------

  /** `live` holds the rows that came in above the cursor and are still there, `seen` those
      delivered since they came in. */
  datatype Watch = Watch(store: Store, checkpoint: Option<Checkpoint>, live: set<nat>, seen: set<nat>)

  function CursorOf(checkpoint: Option<Checkpoint>): nat {
    if checkpoint.Some? then checkpoint.value.rowid else 0
  }

  function Above(ids: set<nat>, cursor: nat): set<nat> {
    set x | x in ids && x > cursor
  }

  function Watched(account: nat, w: Watch, e: Event): Watch
    requires e.Polled? ==> 1 <= e.limit <= 1_000
  {
    match e
    case Added(rows) =>
      Watch(w.store.(rows := w.store.rows + rows), w.checkpoint, w.live + Above(Ids(rows), CursorOf(w.checkpoint)),
            w.seen - Ids(rows))
    case Removed(id) => w.(store := w.store.(rows := Without(w.store.rows, id)), live := w.live - {id})
    case Edited(row) => w.(store := w.store.(rows := WhatsAppRuns.Replaced(w.store.rows, row)))
    case Migrated(columns) => w.(store := w.store.(columns := columns))
    case Polled(recheck, limit, now) =>
      var reply := Sync(account, w.store, w.checkpoint, recheck, limit, now);
      w.(checkpoint := reply.checkpoint, seen := w.seen + Ids(reply.rows))
  }

  /** Every live row the cursor has passed was delivered. */
  ghost predicate Following(w: Watch) {
    && Ordered(w.store.rows) && (w.checkpoint.Some? ==> Orderly(w.checkpoint.value))
    && forall x <- w.live :: HasRow(w.store.rows, x) && (x <= CursorOf(w.checkpoint) ==> x in w.seen)
  }

  ghost predicate Allowed(w: Watch, e: Event) {
    && (e.Polled? ==> 1 <= e.limit <= 1_000)
    && (e.Added? ==> Ordered(w.store.rows + e.rows))
  }

  lemma {:induction false} PollFollows(account: nat, w: Watch, recheck: bool, limit: nat, now: int)
    requires Following(w) && 1 <= limit <= 1_000
    ensures
      var v, r := Watched(account, w, Polled(recheck, limit, now)),
        Sync(account, w.store, w.checkpoint, recheck, limit, now);
      && Following(v)
      && (r.complete ==>
            && Taken(account, w.store, w.checkpoint).Some?
            && (!LegacyInitialRescan(Taken(account, w.store, w.checkpoint).value, now) ==> v.live <= v.seen))
  {
    SyncTakes(account, w.store, w.checkpoint, recheck, limit, now);
    if Taken(account, w.store, w.checkpoint).Some? {
      TakenStands(account, w.store, w.checkpoint);
      TakenMatches(account, w.store, w.checkpoint);
      var c := Taken(account, w.store, w.checkpoint).value;
      PageMovesOn(c, account, w.store, recheck, limit, now);
      var r := Page(c, w.store, recheck, limit, now).value;
      StretchFollows(w, c, r.checkpoint.value, r.rows);
      RowIsBelowMax(w.store.rows);
    }
  }

  lemma {:induction false} StretchFollows(w: Watch, c: Checkpoint, d: Checkpoint, rows: seq<Row>)
    requires Following(w) && (c.rowid == 0 || c.rowid == CursorOf(w.checkpoint))
    requires d.rowid == c.rowid || rows == Between(w.store.rows, c.rowid, Some(d.rowid))
    ensures forall x <- w.live | x <= d.rowid :: x in w.seen + Ids(rows)
  {
    RowIsBelowMax(w.store.rows);
    BetweenSound(w.store.rows, c.rowid, Some(d.rowid));
    forall x | x in w.live && x <= d.rowid ensures x in w.seen + Ids(rows) {
      if x > c.rowid {
        var row :| row in w.store.rows && row.rowid == x;
        assert row in rows;
      }
    }
  }

  lemma {:induction false} ChangeFollows(account: nat, w: Watch, e: Event)
    requires Following(w) && Allowed(w, e) && !e.Polled?
    ensures Following(Watched(account, w, e))
  {
    match e
    case Added(rows) => AddingFollows(account, w, rows);
    case Removed(id) =>
      WithoutHolds(w.store.rows, id);
      forall x | x in w.live - {id} ensures HasRow(Without(w.store.rows, id), x) {
        var r :| r in w.store.rows && r.rowid == x;
        assert r in Without(w.store.rows, id);
      }
    case Edited(row) => EditingFollows(account, w, row);
    case Migrated(_) =>
  }

  lemma {:induction false} AddingFollows(account: nat, w: Watch, rows: seq<Row>)
    requires Following(w) && Ordered(w.store.rows + rows)
    ensures Following(Watched(account, w, Added(rows)))
  {
    MaxRowGrows(w.store.rows, rows);
    RowIsBelowMax(w.store.rows);
    var v := Watched(account, w, Added(rows));
    forall x | x in v.live ensures HasRow(v.store.rows, x) && (x <= CursorOf(w.checkpoint) ==> x in v.seen) {
      if x in w.live {
        var r :| r in w.store.rows && r.rowid == x;
        assert r in v.store.rows;
      } else {
        var r :| r in rows && r.rowid == x;
        assert r in v.store.rows;
      }
    }
  }

  lemma {:induction false} EditingFollows(account: nat, w: Watch, row: Row)
    requires Following(w)
    ensures Following(Watched(account, w, Edited(row)))
  {
    var rows, after := w.store.rows, WhatsAppRuns.Replaced(w.store.rows, row);
    ReplacedHolds(rows, row);
    forall r | r in after ensures r.rowid > 0 {
      var i :| 0 <= i < |after| && after[i] == r;
      assert rows[i] in rows;
    }
    forall x | x in w.live ensures HasRow(after, x) {
      var r :| r in rows && r.rowid == x;
      var i :| 0 <= i < |rows| && rows[i] == r;
      assert after[i] in after;
    }
  }

  function Watching(account: nat, w: Watch, events: seq<Event>): Watch
    requires forall e <- events :: e.Polled? ==> 1 <= e.limit <= 1_000
  {
    if events == [] then w
    else
      assert events[|events| - 1] in events;
      Watched(account, Watching(account, w, events[..|events| - 1]), events[|events| - 1])
  }

  ghost predicate EachAllowed(account: nat, w: Watch, events: seq<Event>)
    requires forall e <- events :: e.Polled? ==> 1 <= e.limit <= 1_000
  {
    events != [] ==>
      && EachAllowed(account, w, events[..|events| - 1])
      && Allowed(Watching(account, w, events[..|events| - 1]), events[|events| - 1])
  }

  lemma {:induction false} WatchingFollows(account: nat, w: Watch, events: seq<Event>)
    requires forall e <- events :: e.Polled? ==> 1 <= e.limit <= 1_000
    requires Following(w) && EachAllowed(account, w, events)
    ensures Following(Watching(account, w, events))
  {
    if events == [] {
    } else {
      var e, before := events[|events| - 1], Watching(account, w, events[..|events| - 1]);
      WatchingFollows(account, w, events[..|events| - 1]);
      if e.Polled? {
        PollFollows(account, before, e.recheck, e.limit, e.now);
      } else {
        ChangeFollows(account, before, e);
      }
    }
  }

  /** For as long as a store is linked, settled or not: whenever a poll is complete, every row
      that was above the cursor when it came in and is still there has been delivered since,
      however rows were added, edited and removed, columns added, rescans begun, and polls
      refused or cut short.  The one exception is the poll at which a checkpoint of the
      first release takes its initial rescan as done. */
  lemma {:induction false} EveryAddedRowIsDelivered(account: nat, store: Store, checkpoint: Option<Checkpoint>,
      events: seq<Event>, recheck: bool, limit: nat, now: int)
    requires Ordered(store.rows) && (checkpoint.Some? ==> Orderly(checkpoint.value)) && 1 <= limit <= 1_000
    requires forall e <- events :: e.Polled? ==> 1 <= e.limit <= 1_000
    requires EachAllowed(account, Watch(store, checkpoint, Above(Ids(store.rows), CursorOf(checkpoint)), {}), events)
    ensures
      var w := Watching(account, Watch(store, checkpoint, Above(Ids(store.rows), CursorOf(checkpoint)), {}), events);
      var v, taken := Watched(account, w, Polled(recheck, limit, now)), Taken(account, w.store, w.checkpoint);
      && v.live <= Ids(v.store.rows)
      && (Sync(account, w.store, w.checkpoint, recheck, limit, now).complete ==>
            taken.Some? && (!LegacyInitialRescan(taken.value, now) ==> v.live <= v.seen))
  {
    var start := Watch(store, checkpoint, Above(Ids(store.rows), CursorOf(checkpoint)), {});
    assert Following(start);
    WatchingFollows(account, start, events);
    var w := Watching(account, start, events);
    PollFollows(account, w, recheck, limit, now);
    forall x | x in w.live ensures x in Ids(w.store.rows) {
      assert HasRow(w.store.rows, x);
    }
  }
}
