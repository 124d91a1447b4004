/**
 Paging through a WhatsApp store that changes between the pages leaves no gaps, and a rescan
 redelivers every row that stays.
 */
module WhatsAppRuns {
  import opened Basics
  import opened Tables
  import opened WhatsApp

  /** Every checkpoint retrieval produces is of this kind. */
  predicate Orderly(c: Checkpoint) {
    c.rescan <= c.rowid
  }

  /** The row ids of a page of some query. */
  predicate Delivers(page: seq<Row>, id: nat) {
    exists r <- page :: r.rowid == id
  }

  /** A page is the whole stretch of its query up to its last row. */
  lemma {:induction false} PageIsStretch(rows: seq<Row>, lo: nat, hi: Option<nat>, limit: nat)
    returns (page: seq<Row>, more: bool)
    requires Ordered(rows) && limit > 0
    ensures page == Take(Take(Between(rows, lo, hi), limit + 1), limit)
    ensures more <==> |Take(Between(rows, lo, hi), limit + 1)| > limit
    ensures more ==> page != []
    ensures page != [] ==> InRange(page[|page| - 1], lo, hi)
    ensures forall x: nat | HasRow(rows, x) && lo < x && (hi.Some? ==> x <= hi.value) ::
      !more || x <= page[|page| - 1].rowid ==> Delivers(page, x)
  {
    var asked := Between(rows, lo, hi);
    page, more := Take(Take(asked, limit + 1), limit), |asked| > limit;
    assert page == Take(asked, limit);
    BetweenSound(rows, lo, hi);
    if page != [] { assert page[|page| - 1] in asked; }
    forall x: nat | HasRow(rows, x) && lo < x && (hi.Some? ==> x <= hi.value)
      ensures !more || x <= page[|page| - 1].rowid ==> Delivers(page, x)
    {
      var r :| r in rows && r.rowid == x;
      assert r in asked;
      if !more || x <= page[|page| - 1].rowid {
        PageReaches(asked, limit, r);
      }
    }
  }

  lemma PageReaches(asked: seq<Row>, limit: nat, r: Row)
    requires Ordered(asked) && r in asked
    requires |asked| <= limit || (limit > 0 && r.rowid <= asked[limit - 1].rowid)
    ensures Delivers(Take(asked, limit), r.rowid)
  {
    var j :| 0 <= j < |asked| && asked[j] == r;
    assert j < |Take(asked, limit)| && Take(asked, limit)[j] == r;
  }

  lemma {:induction false} RowIsBelowMax(rows: seq<Row>)
    requires Ordered(rows)
    ensures forall x: nat | HasRow(rows, x) :: 0 < x <= MaxRow(rows)
    ensures MaxRow(rows) > 0 ==> HasRow(rows, MaxRow(rows))
  {
    MaxRowIs(rows);
    if rows != [] { assert rows[|rows| - 1] in rows; }
  }

  /** A prefix can be described exactly when it ends in a present row, or is empty. */
  lemma {:induction false} PrefixExists(store: Store, r: nat)
    requires Ordered(store.rows)
    ensures PrefixAt(store, r).Some? <==> r == 0 || HasRow(store.rows, r)
  {
    UptoEnds(store.rows, r);
  }

  lemma {:induction false} UptoEnds(rows: seq<Row>, r: nat)
    requires Ordered(rows)
    ensures MaxRow(Upto(rows, r)) == r <==> r == 0 || HasRow(rows, r)
  {
    var prefix := Upto(rows, r);
    BetweenSound(rows, 0, Some(r));
    MaxRowIs(prefix);
    if r == 0 {
      BetweenNone(rows, 0, Some(r));
    } else if HasRow(rows, r) {
      var x :| x in rows && x.rowid == r;
      assert x in prefix && prefix[|prefix| - 1] in prefix;
    } else if prefix != [] {
      assert prefix[|prefix| - 1] in prefix;
      assert prefix[|prefix| - 1] in rows;
    }
  }

  /** Reconciling keeps the cursor, unless its row is gone: then it starts from zero. */
  lemma {:induction false} ReconcileKeepsOrRestarts(c: Checkpoint, store: Store)
    requires Ordered(store.rows) && Orderly(c) && Reconcile(c, store).Some?
    ensures
      var d := Reconcile(c, store).value;
      && Orderly(d) && (d.rowid == 0 || HasRow(store.rows, d.rowid))
      && (if c.schema == store.columns && c.rowid > 0 && !HasRow(store.rows, c.rowid)
          then d.phase.Initial? && d.rowid == 0 && d.gap
          else d.phase == c.phase && d.rowid == c.rowid && d.rescan == c.rescan && d.due == c.due && d.gap == c.gap)
  {
    PrefixExists(store, c.rowid);
  }

  /** A page after `lo` is the rows up to its last one, and reaches the end of the table
      when there were no more. */
  lemma {:induction false} NewPage(rows: seq<Row>, lo: nat, limit: nat) returns (page: seq<Row>, last: nat, more: bool)
    requires Ordered(rows) && limit > 0 && lo < MaxRow(rows)
    ensures page == Take(Take(Between(rows, lo, None), limit + 1), limit)
    ensures more <==> |Take(Between(rows, lo, None), limit + 1)| > limit
    ensures page != [] && last == page[|page| - 1].rowid && lo < last && HasRow(rows, last)
    ensures page == Between(rows, lo, Some(last))
    ensures !more ==> last == MaxRow(rows)
  {
    LastIsMax(rows, lo);
    var asked := Between(rows, lo, None);
    page, more := Take(Take(asked, limit + 1), limit), |asked| > limit;
    var k := |page| - 1;
    assert page == asked[..k + 1];
    last := asked[k].rowid;
    Window(rows, lo, k);
    assert HasRow(rows, last) by {
      BetweenSound(rows, lo, None);
      assert asked[k] in asked;
    }
  }

  /** The checkpoint a page of new rows leaves, but for its description of the prefix. */
  function Moved(c: Checkpoint, rowid: nat, more: bool, now: int): Checkpoint {
    var next := c.(rowid := rowid);
    if !more && c.phase.Initial? then Settle(next, now) else next
  }

  lemma DeliverMoves(c: Checkpoint, store: Store, page: seq<Row>, more: bool, now: int)
    requires page != [] && PrefixAt(store, page[|page| - 1].rowid).Some?
    ensures
      var r := Deliver(c, store, page, more, now);
      var last := page[|page| - 1].rowid;
      && r.Some? && r.value.rows == page
      && r.value.checkpoint == Some(Moved(c, last, more, now).(prefix := PrefixAt(store, last)))
      && (r.value.complete <==> !more && !Rescanning(c))
  {
  }

  lemma NewRowsAre(c: Checkpoint, store: Store, limit: nat, now: int, page: seq<Row>, more: bool)
    requires page == Take(Take(Between(store.rows, c.rowid, None), limit + 1), limit) && page != []
    requires more <==> |Take(Between(store.rows, c.rowid, None), limit + 1)| > limit
    requires PrefixAt(store, page[|page| - 1].rowid).Some?
    ensures
      var r := NewRows(c, store, limit, now);
      var last := page[|page| - 1].rowid;
      && r.Some? && r.value.rows == page
      && r.value.checkpoint == Some(Moved(c, last, more, now).(prefix := PrefixAt(store, last)))
      && (r.value.complete <==> !more && !Rescanning(c))
  {
    assert NewRows(c, store, limit, now) == Deliver(c, store, page, more, now);
    DeliverMoves(c, store, page, more, now);
  }

  lemma {:induction false} NewRowsMoves(c: Checkpoint, store: Store, limit: nat, now: int)
    returns (d: Checkpoint, more: bool)
    requires Ordered(store.rows) && limit > 0 && c.rowid < MaxRow(store.rows)
    ensures c.rowid < d.rowid && HasRow(store.rows, d.rowid) && (!more ==> d.rowid == MaxRow(store.rows))
    ensures d == Moved(c, d.rowid, more, now).(prefix := d.prefix)
    ensures more <==> |Between(store.rows, c.rowid, None)| > limit
    ensures
      var r := NewRows(c, store, limit, now);
      && r.Some? && r.value.checkpoint == Some(d) && (r.value.complete <==> !more && !Rescanning(c))
      && r.value.rows == Between(store.rows, c.rowid, Some(d.rowid))
      && r.value.rows == Take(Between(store.rows, c.rowid, None), limit) && r.value.rows != []
  {
    var page, last;
    page, last, more := NewPage(store.rows, c.rowid, limit);
    PrefixExists(store, last);
    NewRowsAre(c, store, limit, now, page, more);
    d := Moved(c, last, more, now).(prefix := PrefixAt(store, last));
  }

  /** A page of new rows is exactly the rows between the old and the new cursor, and moves
      the cursor; nothing else about the phase changes except that an initial pass with no
      more rows settles. */
  lemma {:induction false} NewRowsLeaveNoGap(c: Checkpoint, store: Store, limit: nat, now: int)
    requires Ordered(store.rows) && limit > 0 && c.rowid < MaxRow(store.rows)
    ensures
      var r := NewRows(c, store, limit, now);
      && r.Some? && r.value.checkpoint.Some?
      && var d := r.value.checkpoint.value;
         && c.rowid < d.rowid
         && r.value.rows == Between(store.rows, c.rowid, Some(d.rowid))
         && (d.phase.Steady? && c.phase.Initial? ==> d.rowid == MaxRow(store.rows) && d.rescan == 0)
         && (!(d.phase.Steady? && c.phase.Initial?) ==> d.phase == c.phase && d.rescan == c.rescan && d.due == c.due)
  {
    var d, more := NewRowsMoves(c, store, limit, now);
  }

  lemma {:induction false} LastIsMax(rows: seq<Row>, lo: nat)
    requires Ordered(rows) && lo < MaxRow(rows)
    ensures
      var asked := Between(rows, lo, None);
      asked != [] && asked[|asked| - 1].rowid == MaxRow(rows)
  {
    var asked := Between(rows, lo, None);
    BetweenSound(rows, lo, None);
    MaxRowIs(rows);
    MaxRowIs(asked);
    assert rows[|rows| - 1] in asked;
    assert asked[|asked| - 1] in rows;
  }

  // ----------------------------------------------------------------------
  // Runs
  // ----------------------------------------------------------------------

  /** `kept` holds the rows present since the start and never removed, `seen` those
      delivered since then; `settled` says a steady checkpoint was reached. */
  datatype World = World(store: Store, checkpoint: Option<Checkpoint>, kept: set<nat>, seen: set<nat>, settled: bool)

  datatype Event =
    | Added(rows: seq<Row>)
    | Removed(id: nat)
    | Edited(row: Row)
    | Migrated(columns: Columns)
    | Polled(recheck: bool, limit: nat, now: int)

  function Without(rows: seq<Row>, id: nat): seq<Row> {
    if rows == [] then [] else (if rows[0].rowid == id then [] else [rows[0]]) + Without(rows[1..], id)
  }

  function Replaced(rows: seq<Row>, row: Row): seq<Row> {
    if rows == [] then [] else [if rows[0].rowid == row.rowid then row else rows[0]] + Replaced(rows[1..], row)
  }

  function Ids(rows: seq<Row>): set<nat> {
    set r | r in rows :: r.rowid
  }

  function After(account: nat, w: World, e: Event): World
    requires e.Polled? ==> 1 <= e.limit <= 1_000
  {
    match e
    case Added(rows) => w.(store := w.store.(rows := w.store.rows + rows))
    case Removed(id) => w.(store := w.store.(rows := Without(w.store.rows, id)), kept := w.kept - {id})
    case Edited(row) => w.(store := w.store.(rows := Replaced(w.store.rows, row)))
    case Migrated(columns) => w.(store := w.store.(columns := columns))
    case Polled(recheck, limit, now) =>
      if w.settled then w
      else
        var reply := Sync(account, w.store, w.checkpoint, recheck, limit, now);
        World(w.store, reply.checkpoint, w.kept, w.seen + Ids(reply.rows),
              reply.checkpoint.Some? && reply.checkpoint.value.phase.Steady?)
  }

  ghost predicate Possible(w: World, e: Event) {
    && (e.Polled? ==> 1 <= e.limit <= 1_000)
    && (e.Added? ==> Ordered(w.store.rows + e.rows))
  }

  lemma {:induction false} WithoutHolds(rows: seq<Row>, id: nat)
    requires Ordered(rows)
    ensures Ordered(Without(rows, id))
    ensures forall r :: r in Without(rows, id) <==> r in rows && r.rowid != id
  {
    if rows == [] {
    } else {
      var rest := Without(rows[1..], id);
      RestIsAbove(rows);
      WithoutHolds(rows[1..], id);
      var first: seq<Row> := if rows[0].rowid == id then [] else [rows[0]];
      var all := first + rest;
      assert Without(rows, id) == all;
      forall i, j | 0 <= i < j < |all| ensures all[i].rowid < all[j].rowid {
        if i < |first| {
          assert all[j] in rest;
        }
      }
    }
  }

  lemma {:induction false} ReplacedHolds(rows: seq<Row>, row: Row)
    ensures |Replaced(rows, row)| == |rows|
    ensures forall i | 0 <= i < |rows| :: Replaced(rows, row)[i].rowid == rows[i].rowid
  {
    if rows != [] { ReplacedHolds(rows[1..], row); }
  }

  /** What the phase promises about a row that has been there since the start. */
  predicate Promised(c: Checkpoint, seen: set<nat>, x: nat) {
    match c.phase
    case Initial => x <= c.rowid ==> x in seen
    case RescanAgain => x <= c.rescan ==> x in seen
    case Steady => x in seen
    case Rescan => false
  }

  ghost predicate Covering(w: World) {
    && Ordered(w.store.rows)
    && (forall x <- w.kept :: HasRow(w.store.rows, x))
    && (w.settled ==> w.checkpoint.Some? && w.checkpoint.value.phase.Steady?)
    && (w.checkpoint.Some? ==>
          && Orderly(w.checkpoint.value)
          && (w.settled || !w.checkpoint.value.phase.Steady?)
          && !w.checkpoint.value.phase.Rescan?
          && forall x <- w.kept :: Promised(w.checkpoint.value, w.seen, x))
  }

  lemma OldRowsAre(c: Checkpoint, store: Store, limit: nat, now: int, page: seq<Row>, more: bool)
    requires Orderly(c) && page == Take(Take(Between(store.rows, c.rescan, Some(c.rowid)), limit + 1), limit)
    requires more <==> |Take(Between(store.rows, c.rescan, Some(c.rowid)), limit + 1)| > limit
    requires more ==> page != []
    ensures
      var r := OldRows(c, store, limit, now);
      && r.Some? && r.value.rows == page
      && r.value.checkpoint ==
         Some(if more then c.(phase := RescanAgain, rescan := page[|page| - 1].rowid) else Settle(c, now))
  {
  }

  lemma {:induction false} OldRowsCover(c: Checkpoint, store: Store, limit: nat, now: int, kept: set<nat>,
      seen: set<nat>)
    requires Ordered(store.rows) && limit > 0 && Orderly(c) && c.phase.RescanAgain? && c.rowid >= MaxRow(store.rows)
    requires forall x <- kept :: HasRow(store.rows, x) && Promised(c, seen, x)
    ensures
      var r := OldRows(c, store, limit, now);
      && r.Some? && r.value.checkpoint.Some?
      && var d := r.value.checkpoint.value;
         && Orderly(d) && (d.phase.RescanAgain? || d.phase.Steady?)
         && forall x <- kept :: Promised(d, seen + Ids(r.value.rows), x)
  {
    var page, more := PageIsStretch(store.rows, c.rescan, Some(c.rowid), limit);
    OldRowsAre(c, store, limit, now, page, more);
    RowIsBelowMax(store.rows);
    var d := OldRows(c, store, limit, now).value.checkpoint.value;
    forall x | x in kept ensures Promised(d, seen + Ids(page), x) {
      assert HasRow(store.rows, x) && Promised(c, seen, x);
      if x > c.rescan && (d.phase.Steady? || x <= d.rescan) {
        assert Delivers(page, x);
      }
    }
  }

  lemma {:induction false} NewRowsCover(c: Checkpoint, store: Store, limit: nat, now: int, kept: set<nat>,
      seen: set<nat>)
    requires Ordered(store.rows) && limit > 0 && Orderly(c) && c.rowid < MaxRow(store.rows)
    requires c.phase.Initial? || c.phase.RescanAgain?
    requires forall x <- kept :: HasRow(store.rows, x) && Promised(c, seen, x)
    ensures
      var r := NewRows(c, store, limit, now);
      && r.Some? && r.value.checkpoint.Some?
      && var d := r.value.checkpoint.value;
         && Orderly(d) && !d.phase.Rescan?
         && forall x <- kept :: Promised(d, seen + Ids(r.value.rows), x)
  {
    RowIsBelowMax(store.rows);
    NewRowsLeaveNoGap(c, store, limit, now);
    var r := NewRows(c, store, limit, now).value;
    var d := r.checkpoint.value;
    BetweenSound(store.rows, c.rowid, Some(d.rowid));
    forall x | x in kept ensures Promised(d, seen + Ids(r.rows), x) {
      assert HasRow(store.rows, x) && Promised(c, seen, x);
      if c.rowid < x <= d.rowid {
        var row :| row in store.rows && row.rowid == x;
        assert row in r.rows;
      }
    }
  }

  lemma {:induction false} PageCovers(c: Checkpoint, store: Store, recheck: bool, limit: nat, now: int, kept: set<nat>,
      seen: set<nat>)
    requires Ordered(store.rows) && limit > 0 && Orderly(c) && (c.rowid == 0 || HasRow(store.rows, c.rowid))
    requires c.phase.Initial? || c.phase.RescanAgain?
    requires forall x <- kept :: HasRow(store.rows, x) && Promised(c, seen, x)
    ensures
      var r := Page(c, store, recheck, limit, now);
      && r.Some? && r.value.checkpoint.Some?
      && var d := r.value.checkpoint.value;
         && Orderly(d) && !d.phase.Rescan?
         && forall x <- kept :: Promised(d, seen + Ids(r.value.rows), x)
  {
    RowIsBelowMax(store.rows);
    if c.rowid < MaxRow(store.rows) {
      NewRowsCover(c, store, limit, now, kept, seen);
      assert Page(c, store, recheck, limit, now) == NewRows(c, store, limit, now);
    } else if c.phase.RescanAgain? {
      OldRowsCover(c, store, limit, now, kept, seen);
      assert Page(c, store, recheck, limit, now) == OldRows(c, store, limit, now);
    }
  }

  lemma {:induction false} PollKeepsCovering(account: nat, w: World, recheck: bool, limit: nat, now: int)
    requires Covering(w) && 1 <= limit <= 1_000
    ensures Covering(After(account, w, Polled(recheck, limit, now)))
  {
    if !w.settled && !(w.checkpoint.Some? && w.checkpoint.value.account != account) {
      var prior := if w.checkpoint.Some? then w.checkpoint.value else Beginning(account, w.store);
      if Reconcile(prior, w.store).Some? {
        RowIsBelowMax(w.store.rows);
        ReconcileKeepsOrRestarts(prior, w.store);
        PageCovers(Reconcile(prior, w.store).value, w.store, recheck, limit, now, w.kept, w.seen);
      }
    }
  }

  lemma {:induction false} ChangeKeepsCovering(account: nat, w: World, e: Event)
    requires Covering(w) && Possible(w, e) && !e.Polled?
    ensures Covering(After(account, w, e))
  {
    match e
    case Added(rows) =>
      forall x | x in w.kept ensures HasRow(w.store.rows + rows, x) {
        assert HasRow(w.store.rows, x);
        var r :| r in w.store.rows && r.rowid == x;
        assert r in w.store.rows + rows;
      }
    case Removed(id) =>
      WithoutHolds(w.store.rows, id);
      forall x | x in w.kept - {id} ensures HasRow(Without(w.store.rows, id), x) {
        assert HasRow(w.store.rows, x);
        var r :| r in w.store.rows && r.rowid == x;
        assert r in Without(w.store.rows, id);
      }
    case Edited(row) =>
      ReplacedHolds(w.store.rows, row);
      var after := Replaced(w.store.rows, row);
      forall r | r in after ensures r.rowid > 0 {
        var i :| 0 <= i < |after| && after[i] == r;
        assert w.store.rows[i] in w.store.rows;
      }
      forall x | x in w.kept ensures HasRow(after, x) {
        assert HasRow(w.store.rows, x);
        var r :| r in w.store.rows && r.rowid == x;
        var i :| 0 <= i < |w.store.rows| && w.store.rows[i] == r;
        assert after[i] in after;
      }
    case Migrated(_) =>
  }

  function Run(account: nat, w: World, events: seq<Event>): World
    requires forall e <- events :: e.Polled? ==> 1 <= e.limit <= 1_000
  {
    if events == [] then w
    else
      assert events[|events| - 1] in events;
      After(account, Run(account, w, events[..|events| - 1]), events[|events| - 1])
  }

  ghost predicate AllPossible(account: nat, w: World, events: seq<Event>)
    requires forall e <- events :: e.Polled? ==> 1 <= e.limit <= 1_000
  {
    events != [] ==>
      && AllPossible(account, w, events[..|events| - 1])
      && Possible(Run(account, w, events[..|events| - 1]), events[|events| - 1])
  }

  lemma {:induction false} RunKeepsCovering(account: nat, w: World, events: seq<Event>)
    requires forall e <- events :: e.Polled? ==> 1 <= e.limit <= 1_000
    requires Covering(w) && AllPossible(account, w, events)
    ensures Covering(Run(account, w, events))
  {
    if events == [] {
    } else {
      var e, before := events[|events| - 1], Run(account, w, events[..|events| - 1]);
      RunKeepsCovering(account, w, events[..|events| - 1]);
      if e.Polled? {
        PollKeepsCovering(account, before, e.recheck, e.limit, e.now);
      } else {
        ChangeKeepsCovering(account, before, e);
      }
    }
  }

  /** From the start of a rescan, or from nothing, until a steady checkpoint is reached:
      every row that stays in the store the whole time is delivered, however rows are added,
      edited or removed, columns are added, and polls are refused or cut short between
      pages. */
  lemma {:induction false} EveryStayingRowIsDelivered(account: nat, store: Store, checkpoint: Option<Checkpoint>,
      events: seq<Event>)
    requires Ordered(store.rows)
    requires checkpoint.Some? ==> checkpoint.value.phase.RescanAgain? && checkpoint.value.rescan == 0
    requires forall e <- events :: e.Polled? ==> 1 <= e.limit <= 1_000
    requires AllPossible(account, World(store, checkpoint, Ids(store.rows), {}, false), events)
    ensures
      var w := Run(account, World(store, checkpoint, Ids(store.rows), {}, false), events);
      && w.kept <= Ids(w.store.rows)
      && (w.settled ==> w.kept <= w.seen)
      && (w.checkpoint.Some? ==> Orderly(w.checkpoint.value))
  {
    var start := World(store, checkpoint, Ids(store.rows), {}, false);
    RowIsBelowMax(store.rows);
    assert Covering(start);
    RunKeepsCovering(account, start, events);
    var w := Run(account, start, events);
    forall x | x in w.kept ensures x in Ids(w.store.rows) {
      assert HasRow(w.store.rows, x);
    }
    if w.settled {
      forall x | x in w.kept ensures x in w.seen {
        assert Promised(w.checkpoint.value, w.seen, x);
      }
    }
  }

  /** A rescan that comes due, or is asked for, begins as a rescan from zero. */
  lemma EnteringRescan(c: Checkpoint, store: Store, recheck: bool, limit: nat, now: int)
    requires c.phase.Steady? && (c.rowid == 0 || HasRow(store.rows, c.rowid)) && Ordered(store.rows)
    requires recheck || (c.due.Some? && c.due.value <= now && c.rowid >= MaxRow(store.rows))
    ensures
      Page(c, store, recheck, limit, now) == Page(c.(phase := RescanAgain, rescan := 0), store, recheck, limit, now)
  {
    RowIsBelowMax(store.rows);
  }

  /** A settled checkpoint with no new rows begins to redeliver its rows with the first of them
      from the moment its rescan is due or when it is asked to, not before; a review that fits
      into one page puts the next one off by the interval. */
  lemma {:induction false} RescanComesDue(c: Checkpoint, store: Store, recheck: bool, limit: nat, now: int)
    requires c.phase.Steady? && c.rowid >= MaxRow(store.rows) && Ordered(store.rows) && limit > 0
    ensures
      var r, past := Page(c, store, recheck, limit, now), Upto(store.rows, c.rowid);
      && r.Some? && r.value.checkpoint.Some?
      && var d := r.value.checkpoint.value;
         if recheck || (c.due.Some? && c.due.value <= now) then
           && r.value.rows == Take(past, limit) && (r.value.complete <==> |past| <= limit)
           && if |past| <= limit then d.phase.Steady? && d.due == Some(now + RESCAN_INTERVAL)
              else d.phase.RescanAgain? && d.rescan == past[limit - 1].rowid
         else r.value.rows == [] && r.value.complete && d == c
  {
    var page, more := PageIsStretch(store.rows, 0, Some(c.rowid), limit);
    OldRowsAre(c.(phase := RescanAgain, rescan := 0), store, limit, now, page, more);
  }

  /** A store that gives a removed high-water row's id to a new message hides it from
      paging: the cursor's row seems to be there, and nothing is delivered. */
  lemma ReusedRowIdIsSkipped(account: nat, file: nat, columns: Columns, row: Row, other: Row, limit: nat, now: int)
    requires row.rowid == other.rowid > 0 && 1 <= limit <= 1_000
    ensures
      var before := Store(file, columns, [row]);
      var first := Sync(account, before, None, false, limit, now);
      var after := before.(rows := Without(before.rows, row.rowid) + [other]);
      var second := Sync(account, after, first.checkpoint, false, limit, now);
      && first.rows == [row] && Ordered(after.rows) && after.rows == [other]
      && second.rows == [] && second.complete && second.checkpoint.Some? && !second.checkpoint.value.gap
  {
    OneRow(row, 0, None);
    assert Without([row], row.rowid) == [];
    assert [] + [other] == [other];
    var before := Store(file, columns, [row]);
    OneRowIsRead(account, before, row, limit, now);
    SameIdIsSkipped(account, before.(rows := [other]), other, Sync(account, before, None, false, limit, now).checkpoint,
      limit, now);
  }

  /** A checkpoint that stands at a row of the store, with its next rescan still to come. */
  predicate StandsAt(c: Checkpoint, account: nat, store: Store, rowid: nat, now: int) {
    && c.account == account && c.generation == Generation(store.file, store.columns)
    && c.schema == store.columns && c.columns == Some(store.columns)
    && c.phase.Steady? && c.rowid == rowid && c.due == Some(now + RESCAN_INTERVAL) && !c.gap
  }

  lemma OneRowIsRead(account: nat, store: Store, row: Row, limit: nat, now: int)
    requires store.rows == [row] && row.rowid > 0 && 1 <= limit <= 1_000
    ensures
      var r := Sync(account, store, None, false, limit, now);
      r.rows == [row] && r.checkpoint.Some? && StandsAt(r.checkpoint.value, account, store, row.rowid, now)
  {
    OneRow(row, 0, None);
    OneRow(row, 0, Some(0));
    OneRow(row, 0, Some(row.rowid));
  }

  lemma SameIdIsSkipped(account: nat, store: Store, other: Row, checkpoint: Option<Checkpoint>, limit: nat, now: int)
    requires store.rows == [other] && other.rowid > 0 && 1 <= limit <= 1_000
    requires checkpoint.Some? && StandsAt(checkpoint.value, account, store, other.rowid, now)
    ensures
      var r := Sync(account, store, checkpoint, false, limit, now);
      r.rows == [] && r.complete && r.checkpoint.Some? && !r.checkpoint.value.gap
  {
    OneRow(other, 0, Some(other.rowid));
    assert other in [other];
  }

  lemma OneRow(row: Row, lo: nat, hi: Option<nat>)
    ensures Between([row], lo, hi) == if InRange(row, lo, hi) then [row] else []
    ensures MaxRow([row]) == row.rowid
  {
    assert [row][1..] == [];
  }
}
