/**
 Replaying a delivery yields it again, and acknowledged deliveries add up to every visible
 row exactly once.
 */
module MessagesRuns {
  import opened Basics
  import opened Tables
  import opened Messages

  // ----------------------------------------------------------------------
  // Stores
  // ----------------------------------------------------------------------

  /** Only rows above every present one are added. */
  predicate Extends(later: Store, earlier: Store) {
    && later.schema == earlier.schema && later.generation == earlier.generation
    && Ordered(later.rows) && earlier.rows <= later.rows
  }

  /** Later rows change nothing up to a row id that was present. */
  lemma {:induction false} ExtensionKeepsPrefix(later: Store, earlier: Store, lo: nat, r: nat)
    requires Extends(later, earlier) && r <= MaxRow(earlier.rows)
    ensures Between(later.rows, lo, Some(r)) == Between(earlier.rows, lo, Some(r))
    ensures PrefixAggregates(later, r) == PrefixAggregates(earlier, r)
    ensures MaxRow(later.rows) >= MaxRow(earlier.rows)
  {
    var more := later.rows[|earlier.rows|..];
    assert later.rows == earlier.rows + more;
    MaxRowGrows(earlier.rows, more);
    BetweenConcat(earlier.rows, more, lo, Some(r));
    BetweenConcat(earlier.rows, more, 0, Some(r));
    BetweenNone(more, lo, Some(r));
    BetweenNone(more, 0, Some(r));
    assert Upto(later.rows, r) == Upto(earlier.rows, r);
  }

  // ----------------------------------------------------------------------
  // Prefix stability
  // ----------------------------------------------------------------------

  /** How many rows a bounded delivery takes. */
  function Consumed(rows: seq<Row>, remaining: nat): (k: nat)
    ensures k <= |rows|
  {
    if rows == [] then 0
    else if !rows[0].visible then 1 + Consumed(rows[1..], remaining)
    else if HasBody(rows[0]) && remaining == 0 then 0
    else 1 + Consumed(rows[1..], remaining - BodySize(MessageOf(rows[0], Allowance(remaining))))
  }

  function RowIds(rows: seq<Row>): seq<nat> {
    if rows == [] then [] else (if rows[0].visible then [rows[0].rowid] else []) + RowIds(rows[1..])
  }

  function MessageIds(messages: seq<Message>): seq<nat> {
    if messages == [] then [] else [messages[0].rowid] + MessageIds(messages[1..])
  }

  /** Stopping at a row and delivering just the rows up to it gives the same messages, the
      same last row and a complete delivery; the messages are exactly its visible rows. */
  lemma PrefixStable(rows: seq<Row>, last: nat, remaining: nat)
    ensures
      var batch, k := Bounded(rows, last, remaining), Consumed(rows, remaining);
      && Bounded(rows[..k], last, remaining) == Batch(batch.messages, batch.last, true)
      && batch.last == (if k == 0 then last else rows[k - 1].rowid)
      && (batch.complete <==> k == |rows|)
      && MessageIds(batch.messages) == RowIds(rows[..k])
  {
    PrefixRepeats(rows, last, remaining);
    BatchIds(rows, last, remaining);
  }

  lemma {:induction false} PrefixRepeats(rows: seq<Row>, last: nat, remaining: nat)
    ensures
      var batch, k := Bounded(rows, last, remaining), Consumed(rows, remaining);
      && Bounded(rows[..k], last, remaining) == Batch(batch.messages, batch.last, true)
      && batch.last == (if k == 0 then last else rows[k - 1].rowid)
      && (batch.complete <==> k == |rows|)
    decreases |rows|
  {
    if rows != [] && (!rows[0].visible || !HasBody(rows[0]) || remaining > 0) {
      var row, rest := rows[0], rows[1..];
      var left := if row.visible then remaining - BodySize(MessageOf(row, Allowance(remaining))) else remaining;
      PrefixRepeats(rest, row.rowid, left);
      assert rows[..Consumed(rest, left) + 1][1..] == rest[..Consumed(rest, left)];
    } else {
      assert rows[..0] == [];
    }
  }

  lemma {:induction false} BatchIds(rows: seq<Row>, last: nat, remaining: nat)
    ensures MessageIds(Bounded(rows, last, remaining).messages) == RowIds(rows[..Consumed(rows, remaining)])
    decreases |rows|
  {
    if rows != [] && (!rows[0].visible || !HasBody(rows[0]) || remaining > 0) {
      var row, rest := rows[0], rows[1..];
      var left := if row.visible then remaining - BodySize(MessageOf(row, Allowance(remaining))) else remaining;
      BatchIds(rest, row.rowid, left);
      assert rows[..Consumed(rest, left) + 1][1..] == rest[..Consumed(rest, left)];
      if row.visible {
        var m, tail := MessageOf(row, Allowance(remaining)), Bounded(rest, row.rowid, left).messages;
        assert ([m] + tail)[1..] == tail;
      }
    } else {
      assert rows[..0] == [];
    }
  }

  function VisibleRows(rows: seq<Row>): seq<Row> {
    if rows == [] then [] else (if rows[0].visible then [rows[0]] else []) + VisibleRows(rows[1..])
  }

  /** What the bodies of the first `i` messages take. */
  function Spent(messages: seq<Message>, i: nat): nat
    requires i <= |messages|
  {
    if i == 0 then 0 else BodySize(messages[0]) + Spent(messages[1..], i - 1)
  }

  /** A message shows its row: its body is the whole text if that fits into what is left and
      into the limit of one message, and otherwise as much of the beginning as does. */
  predicate Shows(m: Message, r: Row, left: nat) {
    && m.rowid == r.rowid && m.at == r.at && m.fromMe == r.fromMe && m.attachment == r.attachment
    && (m.unavailable <==> r.body.None? && r.sealed)
    && if r.body.None? then m.body.None? && !m.truncated
       else
         var text, room := r.body.value, if left < MAX_BODY_CHARS then left else MAX_BODY_CHARS;
         if |text| <= room then m.body == r.body && !m.truncated
         else m.body == Some(text[..room]) && m.truncated
  }

  lemma FirstShows(row: Row, remaining: nat)
    ensures Shows(MessageOf(row, Allowance(remaining)), row, remaining)
  {
  }

  /** The messages of a delivery whose first row is delivered. */
  lemma FirstDelivered(rows: seq<Row>, last: nat, remaining: nat)
    requires rows != [] && rows[0].visible && Bounded(rows, last, remaining).messages != []
    ensures
      var rest, m := rows[1..], MessageOf(rows[0], Allowance(remaining));
      && BodySize(m) <= remaining && Shows(m, rows[0], remaining)
      && Bounded(rows, last, remaining).messages == [m] + Bounded(rest, m.rowid, remaining - BodySize(m)).messages
      && VisibleRows(rows[..Consumed(rows, remaining)]) ==
         [rows[0]] + VisibleRows(rest[..Consumed(rest, remaining - BodySize(m))])
  {
    var rest, left := rows[1..], remaining - BodySize(MessageOf(rows[0], Allowance(remaining)));
    assert rows[..Consumed(rest, left) + 1][1..] == rest[..Consumed(rest, left)];
    FirstShows(rows[0], remaining);
  }

  /** Every delivered message shows its row, within what the messages before it have left. */
  lemma {:induction false} MessagesShowRows(rows: seq<Row>, last: nat, remaining: nat, i: nat)
    requires i < |Bounded(rows, last, remaining).messages|
    ensures
      var messages, shown := Bounded(rows, last, remaining).messages,
        VisibleRows(rows[..Consumed(rows, remaining)]);
      && |shown| == |messages| && Spent(messages, i) <= remaining
      && Shows(messages[i], shown[i], remaining - Spent(messages, i))
    decreases |rows|
  {
    var rest := rows[1..];
    if rows[0].visible {
      FirstDelivered(rows, last, remaining);
      var m := MessageOf(rows[0], Allowance(remaining));
      var left := remaining - BodySize(m);
      var later := Bounded(rest, m.rowid, left).messages;
      assert ([m] + later)[1..] == later;
      VisibleCount(rest, m.rowid, left);
      if i > 0 {
        MessagesShowRows(rest, m.rowid, left, i - 1);
      }
    } else {
      assert rows[..Consumed(rest, remaining) + 1][1..] == rest[..Consumed(rest, remaining)];
      MessagesShowRows(rest, rows[0].rowid, remaining, i);
    }
  }

  lemma {:induction false} VisibleCount(rows: seq<Row>, last: nat, remaining: nat)
    ensures |VisibleRows(rows[..Consumed(rows, remaining)])| == |Bounded(rows, last, remaining).messages|
    decreases |rows|
  {
    if rows != [] && (!rows[0].visible || !HasBody(rows[0]) || remaining > 0) {
      var row, rest := rows[0], rows[1..];
      var left := if row.visible then remaining - BodySize(MessageOf(row, Allowance(remaining))) else remaining;
      VisibleCount(rest, row.rowid, left);
      assert rows[..Consumed(rest, left) + 1][1..] == rest[..Consumed(rest, left)];
    } else {
      assert rows[..0] == [];
    }
  }

  /** A delivery stops short exactly when a text comes up for which nothing is left. */
  lemma {:induction false} StopsWhenSpent(rows: seq<Row>, last: nat, remaining: nat)
    ensures
      var batch, k := Bounded(rows, last, remaining), Consumed(rows, remaining);
      && (batch.complete <==> k == |rows|)
      && (k < |rows| ==>
            && rows[k].visible && rows[k].body.Some? && rows[k].body.value != ""
            && Spent(batch.messages, |batch.messages|) == remaining)
    decreases |rows|
  {
    if rows != [] && (!rows[0].visible || !HasBody(rows[0]) || remaining > 0) {
      var row, rest := rows[0], rows[1..];
      var left := if row.visible then remaining - BodySize(MessageOf(row, Allowance(remaining))) else remaining;
      StopsWhenSpent(rest, row.rowid, left);
      if row.visible {
        var m, tail := MessageOf(row, Allowance(remaining)), Bounded(rest, row.rowid, left).messages;
        assert ([m] + tail)[1..] == tail;
      }
    }
  }

  /** The rows up to the `k`-th after `lo` end with it. */
  lemma {:induction false} PrefixEnds(rows: seq<Row>, lo: nat, k: nat)
    requires Ordered(rows) && k < |Between(rows, lo, None)|
    ensures
      var r := Between(rows, lo, None)[k].rowid;
      lo < r && MaxRow(Upto(rows, r)) == r
  {
    var after := Between(rows, lo, None);
    Window(rows, lo, k);
    var prefix := Upto(rows, after[k].rowid);
    assert prefix[|prefix| - 1] == after[k];
    assert Ordered(prefix) by { BetweenSound(rows, 0, Some(after[k].rowid)); }
    MaxRowIs(prefix);
  }

  lemma {:induction false} RowIsThere(rows: seq<Row>, lo: nat, k: nat)
    requires Ordered(rows) && k < |Between(rows, lo, None)|
    ensures Between(rows, lo, None)[k].rowid <= MaxRow(rows)
  {
    BetweenSound(rows, lo, None);
    MaxRowIs(rows);
    assert Between(rows, lo, None)[k] in Between(rows, lo, None);
  }

  /** The cursor at a present row is always to be had. */
  lemma {:induction false} CursorAtRow(store: Store, lo: nat, k: nat)
    requires Ordered(store.rows) && k < |Between(store.rows, lo, None)|
    ensures
      var r := Between(store.rows, lo, None)[k].rowid;
      && PrefixAggregates(store, r).rowid == r
      && lo < r <= MaxRow(store.rows)
  {
    PrefixEnds(store.rows, lo, k);
    RowIsThere(store.rows, lo, k);
  }

  /** What a delta covers: the first `k` rows after the cursor, all of them when nothing
      stopped it. */
  lemma {:induction false} DeltaCovers(store: Store, previous: Cursor, limit: nat, reconciled: bool)
    returns (k: nat, batch: Batch)
    requires Ordered(store.rows) && 1 <= limit <= MAX_DELTA && previous.rowid < MaxRow(store.rows)
    ensures
      var after := Between(store.rows, previous.rowid, None);
      && 0 < k <= |after| && k <= limit
      && previous.rowid < after[k - 1].rowid <= MaxRow(store.rows)
      && batch == Bounded(after[..k], previous.rowid, MAX_DELTA_BODY_CHARS)
      && batch.complete && batch.last == after[k - 1].rowid
      && CursorAt(store, batch.last).Ok?
      && DeltaAfter(store, previous, limit, reconciled) ==
         Ok(Delta(CursorAt(store, batch.last).value, k == |after|, batch.messages, reconciled))
  {
    var after := Between(store.rows, previous.rowid, None);
    assert after != [] by {
      MaxRowIs(store.rows);
      BetweenSound(store.rows, previous.rowid, None);
      assert store.rows[|store.rows| - 1] in after;
    }
    k, batch := BatchCovers(after, previous.rowid, limit);
    CursorAtRow(store, previous.rowid, k - 1);
    DeltaIs(store, previous, limit, reconciled, k, batch);
  }

  lemma {:induction false} DeltaIs(store: Store, previous: Cursor, limit: nat, reconciled: bool, k: nat, batch: Batch)
    requires previous.rowid != MaxRow(store.rows) && CursorAt(store, batch.last).Ok?
    requires
      var after := Between(store.rows, previous.rowid, None);
      var rows := Take(after, limit + 1);
      var asked := Bounded(Take(rows, limit), previous.rowid, MAX_DELTA_BODY_CHARS);
      && asked.messages == batch.messages && asked.last == batch.last
      && (|rows| <= limit && asked.complete <==> k == |after|)
    ensures DeltaAfter(store, previous, limit, reconciled) ==
      Ok(Delta(CursorAt(store, batch.last).value, k == |Between(store.rows, previous.rowid, None)|, batch.messages,
        reconciled))
  {
  }

  /** The part of the rows that one bounded delivery takes. */
  lemma {:induction false} BatchCovers(after: seq<Row>, start: nat, limit: nat) returns (k: nat, batch: Batch)
    requires after != [] && limit >= 1
    ensures 0 < k <= |after| && k <= limit
    ensures batch == Bounded(after[..k], start, MAX_DELTA_BODY_CHARS)
    ensures batch.complete && batch.last == after[k - 1].rowid
    ensures
      var rows := Take(after, limit + 1);
      var asked := Bounded(Take(rows, limit), start, MAX_DELTA_BODY_CHARS);
      && asked.messages == batch.messages && asked.last == batch.last
      && (|rows| <= limit && asked.complete <==> k == |after|)
  {
    var asked := Take(Take(after, limit + 1), limit);
    assert asked == Take(after, limit);
    k := Consumed(asked, MAX_DELTA_BODY_CHARS);
    PrefixStable(asked, start, MAX_DELTA_BODY_CHARS);
    assert asked[..k] == after[..k];
    batch := Bounded(after[..k], start, MAX_DELTA_BODY_CHARS);
  }

  /** A read that finds later rows moves its cursor forward. */
  lemma ReadAdvances(store: Store, cursor: Cursor, limit: nat)
    requires Ordered(store.rows) && cursor.rowid < MaxRow(store.rows)
    requires Read(store, cursor, limit, false).Ok?
    ensures cursor.rowid < Read(store, cursor, limit, false).value.cursor.rowid <= MaxRow(store.rows)
  {
    var k, batch := DeltaCovers(store, cursor, limit, false);
  }

  /** Replaying a delta, after any rows were added, yields it again. */
  lemma {:induction false} ReplayYieldsTheDelta(earlier: Store, later: Store, cursor: Cursor, limit: nat)
    requires Ordered(earlier.rows) && Extends(later, earlier)
    requires Read(earlier, cursor, limit, false).Ok?
    ensures
      var delta := Read(earlier, cursor, limit, false).value;
      Replay(later, cursor, delta.cursor, delta.complete, limit) == Ok(delta)
  {
    var delta := Read(earlier, cursor, limit, false).value;
    var rows := DeltaRows(earlier, cursor, limit);
    ExtensionKeepsPrefix(later, earlier, cursor.rowid, delta.cursor.rowid);
    ExtensionKeepsPrefix(later, earlier, 0, cursor.rowid);
    ReplayIs(later, cursor, delta, limit, rows);
  }

  /** The rows a delta was made of. */
  lemma {:induction false} DeltaRows(store: Store, cursor: Cursor, limit: nat) returns (rows: seq<Row>)
    requires Ordered(store.rows) && Read(store, cursor, limit, false).Ok?
    ensures
      var delta := Read(store, cursor, limit, false).value;
      && rows == Between(store.rows, cursor.rowid, Some(delta.cursor.rowid)) && |rows| <= limit
      && cursor.rowid <= delta.cursor.rowid <= MaxRow(store.rows)
      && CursorAt(store, delta.cursor.rowid) == Ok(delta.cursor) && !delta.reconciled
      && Bounded(rows, cursor.rowid, MAX_DELTA_BODY_CHARS) == Batch(delta.messages, delta.cursor.rowid, true)
  {
    var delta := Read(store, cursor, limit, false).value;
    if cursor.rowid < MaxRow(store.rows) {
      var k, batch := DeltaCovers(store, cursor, limit, false);
      Window(store.rows, cursor.rowid, k - 1);
      rows := Between(store.rows, cursor.rowid, None)[..k];
    } else {
      MaxRowIs(store.rows);
      BetweenNone(store.rows, cursor.rowid, Some(delta.cursor.rowid));
      rows := [];
    }
  }

  /** What replaying up to a delta's cursor gives, when the rows are those it was made of. */
  lemma {:induction false} ReplayIs(store: Store, cursor: Cursor, delta: Delta, limit: nat, rows: seq<Row>)
    requires 1 <= limit <= MAX_DELTA && Validate(cursor, store).None? && !delta.reconciled
    requires delta.cursor.schema == store.schema && delta.cursor.generation == store.generation
    requires cursor.rowid <= delta.cursor.rowid <= MaxRow(store.rows) && PrefixMatches(store, delta.cursor)
    requires rows == Between(store.rows, cursor.rowid, Some(delta.cursor.rowid)) && |rows| <= limit
    requires Bounded(rows, cursor.rowid, MAX_DELTA_BODY_CHARS) == Batch(delta.messages, delta.cursor.rowid, true)
    ensures Replay(store, cursor, delta.cursor, delta.complete, limit) == Ok(delta)
  {
    assert Take(rows, limit + 1) == rows;
  }

  /** The cursor is of this store and not past its rows. */
  predicate Accepts(store: Store, cursor: Cursor) {
    cursor.schema == store.schema && cursor.generation == store.generation && cursor.rowid <= MaxRow(store.rows)
  }

  lemma {:induction false} DeltaSucceeds(store: Store, previous: Cursor, limit: nat, reconciled: bool)
    requires Ordered(store.rows) && 1 <= limit <= MAX_DELTA && previous.rowid <= MaxRow(store.rows)
    ensures DeltaAfter(store, previous, limit, reconciled).Ok?
  {
    if previous.rowid < MaxRow(store.rows) {
      var k, batch := DeltaCovers(store, previous, limit, reconciled);
    } else {
      MaxRowIs(store.rows);
      if store.rows != [] { BetweenAll(store.rows, 0, Some(previous.rowid)); }
    }
  }

  /** Exactly which reads succeed: those from a cursor of this store that is not past its rows;
      rebasing also takes a cursor of the first version whose whole prefix is as it was. */
  lemma {:induction false} ReadSucceedsExactly(store: Store, cursor: Cursor, limit: nat, reconcile: bool)
    requires Ordered(store.rows)
    ensures Read(store, cursor, limit, reconcile).Ok? <==>
      && 1 <= limit <= MAX_DELTA && cursor.schema == store.schema && cursor.rowid <= MaxRow(store.rows)
      && if reconcile && cursor.version != CURSOR_VERSION then
           var prefix := Upto(store.rows, cursor.rowid);
           |prefix| == cursor.messages && MaxRow(prefix) == cursor.rowid && Newest(prefix) == cursor.newest
         else cursor.generation == store.generation
    ensures
      var r := Read(store, cursor, limit, reconcile);
      r.Ok? ==>
        && Accepts(store, r.value.cursor)
        && (r.value.messages != [] ==> forall project :: CreateToken(project, cursor, r.value).Ok?)
  {
    if 1 <= limit <= MAX_DELTA && cursor.rowid <= MaxRow(store.rows) {
      DeltaSucceeds(store, cursor, limit, reconcile && cursor.version != CURSOR_VERSION);
      RebasedReads(store, cursor, limit, reconcile);
      if cursor.rowid < MaxRow(store.rows) {
        var k, batch := DeltaCovers(store, cursor, limit, reconcile && cursor.version != CURSOR_VERSION);
      }
    }
  }

  /** A delta depends on the cursor only through its row. */
  lemma RebasedReads(store: Store, cursor: Cursor, limit: nat, reconcile: bool)
    requires 1 <= limit <= MAX_DELTA && cursor.rowid <= MaxRow(store.rows)
    ensures
      var r, rebased := Read(store, cursor, limit, reconcile), reconcile && cursor.version != CURSOR_VERSION;
      r.Ok? ==> r == DeltaAfter(store, cursor, limit, rebased)
  {
  }

  /** The rows up to a cursor are as many, and as new, as when it was made. */
  predicate SamePrefix(store: Store, c: Cursor) {
    var prefix := Upto(store.rows, c.rowid);
    |prefix| == c.messages && MaxRow(prefix) == c.rowid && Newest(prefix) == c.newest
  }

  /** A bounded delivery of rows that reaches their target has taken them all. */
  lemma {:induction false} ReachesTarget(rows: seq<Row>, lo: nat, hi: nat, most: nat)
    requires Ordered(rows) && lo < hi && MaxRow(Upto(rows, hi)) == hi
    ensures
      var between := Between(rows, lo, Some(hi));
      && between != [] && between[|between| - 1].rowid == hi
      && (Take(between, most) != between ==> Bounded(Take(between, most), lo, MAX_DELTA_BODY_CHARS).last != hi)
  {
    var prefix, between := Upto(rows, hi), Between(rows, lo, Some(hi));
    BetweenSound(rows, 0, Some(hi));
    BetweenSound(rows, lo, Some(hi));
    MaxRowIs(prefix);
    MaxRowIs(between);
    assert prefix[|prefix| - 1] in prefix;
    assert prefix[|prefix| - 1] in between;
    assert between[|between| - 1] in between;
    PrefixStable(Take(between, most), lo, MAX_DELTA_BODY_CHARS);
  }

  /** Exactly which replays succeed: the stretch between the cursors is of this store, its end is
      as it was, and its rows and their texts fit the bounds. */
  lemma {:induction false} ReplaySucceedsExactly(store: Store, previous: Cursor, target: Cursor, complete: bool,
      limit: nat)
    requires Ordered(store.rows)
    ensures
      var rows := Between(store.rows, previous.rowid, Some(target.rowid));
      Replay(store, previous, target, complete, limit).Ok? <==>
        && 1 <= limit <= MAX_DELTA && Accepts(store, previous) && Accepts(store, target)
        && previous.rowid <= target.rowid && SamePrefix(store, target)
        && |rows| <= limit && Bounded(rows, previous.rowid, MAX_DELTA_BODY_CHARS).complete
  {
    var rows := Between(store.rows, previous.rowid, Some(target.rowid));
    if previous.rowid < target.rowid && SamePrefix(store, target) {
      ReachesTarget(store.rows, previous.rowid, target.rowid, limit + 1);
      PrefixStable(rows, previous.rowid, MAX_DELTA_BODY_CHARS);
    } else if previous.rowid == target.rowid {
      BetweenNone(store.rows, previous.rowid, Some(target.rowid));
    }
  }

  /** A token that is accepted is for the present cursor and this project, and its messages and
      the prefix it ends are as the store has them now. */
  lemma {:induction false} AcceptedTokenMatches(t: Token, project: nat, current: Cursor, store: Store)
    requires Ordered(store.rows) && VerifyToken(t, project, current, store) == Ok(false)
    ensures t.project == project && t.previous == current && current.rowid < t.cursor.rowid
    ensures t.cursor.schema == store.schema && t.cursor.generation == store.generation && SamePrefix(store, t.cursor)
    ensures
      var rows := Between(store.rows, current.rowid, Some(t.cursor.rowid));
      Bounded(rows, current.rowid, MAX_DELTA_BODY_CHARS) == Batch(t.messages, t.cursor.rowid, true)
  {
    ReachesTarget(store.rows, current.rowid, t.cursor.rowid, MAX_DELTA + 1);
  }

  function AllIds(deltas: seq<Delta>): seq<nat> {
    if deltas == [] then [] else MessageIds(deltas[0].messages) + AllIds(deltas[1..])
  }

  /** What one read takes of the rows that are still to come. */
  lemma {:induction false} ReadTakes(store: Store, cursor: Cursor, limit: nat)
    requires Ordered(store.rows) && 1 <= limit <= MAX_DELTA && Accepts(store, cursor)
    ensures
      var r := Read(store, cursor, limit, false);
      && r.Ok? && Accepts(store, r.value.cursor)
      && RowIds(Between(store.rows, cursor.rowid, None)) ==
         MessageIds(r.value.messages) + RowIds(Between(store.rows, r.value.cursor.rowid, None))
      && (r.value.complete ==>
            r.value.cursor.rowid == MaxRow(store.rows) && Between(store.rows, r.value.cursor.rowid, None) == [])
      && (!r.value.complete ==> cursor.rowid < r.value.cursor.rowid)
  {
    ReadSucceedsExactly(store, cursor, limit, false);
    RebasedReads(store, cursor, limit, false);
    MaxRowIs(store.rows);
    BetweenNone(store.rows, MaxRow(store.rows), None);
    if cursor.rowid < MaxRow(store.rows) {
      var k, batch := DeltaCovers(store, cursor, limit, false);
      RowsSplit(store.rows, cursor.rowid, k);
      var after := Between(store.rows, cursor.rowid, None);
      PrefixStable(after[..k], cursor.rowid, MAX_DELTA_BODY_CHARS);
      assert after[..k][..k] == after[..k];
      IdsConcat(after[..k], after[k..]);
      LastIsMaxRow(store.rows, cursor.rowid);
    }
  }

  lemma {:induction false} RowsSplit(rows: seq<Row>, lo: nat, k: nat)
    requires Ordered(rows) && 0 < k <= |Between(rows, lo, None)|
    ensures
      var after := Between(rows, lo, None);
      after == after[..k] + after[k..] && Between(rows, after[k - 1].rowid, None) == after[k..]
  {
    var after := Between(rows, lo, None);
    var d := after[k - 1].rowid;
    Window(rows, lo, k - 1);
    Splits(rows, lo);
    Splits(rows, d);
    assert Upto(rows, lo) + after == (Upto(rows, lo) + after[..k]) + after[k..];
    assert Between(rows, d, None) == rows[|Upto(rows, d)|..];
    assert after[k..] == rows[|Upto(rows, lo)| + k..];
  }

  lemma {:induction false} LastIsMaxRow(rows: seq<Row>, lo: nat)
    requires Ordered(rows) && lo < MaxRow(rows)
    ensures
      var after := Between(rows, lo, None);
      after != [] && after[|after| - 1].rowid == MaxRow(rows)
  {
    var after := Between(rows, lo, None);
    BetweenSound(rows, lo, None);
    MaxRowIs(rows);
    MaxRowIs(after);
    assert rows[|rows| - 1] in after;
    assert after[|after| - 1] in rows;
  }

  /** Reading on from each cursor to the next ends with a complete delta at the last row, and
      delivers the rows after the first cursor that are visible, each once, in row order. */
  ghost function Deltas(store: Store, cursor: Cursor, limit: nat): (deltas: seq<Delta>)
    requires Ordered(store.rows) && 1 <= limit <= MAX_DELTA && Accepts(store, cursor)
    ensures |deltas| > 0 && forall i | 0 <= i < |deltas| :: deltas[i].complete <==> i == |deltas| - 1
    ensures deltas[|deltas| - 1].cursor.rowid == MaxRow(store.rows)
    ensures AllIds(deltas) == RowIds(Between(store.rows, cursor.rowid, None))
    decreases MaxRow(store.rows) - cursor.rowid
  {
    ReadTakes(store, cursor, limit);
    var delta := Read(store, cursor, limit, false).value;
    if delta.complete then
      assert AllIds([delta]) == MessageIds(delta.messages) + [];
      [delta]
    else
      var rest := Deltas(store, delta.cursor, limit);
      assert ([delta] + rest)[1..] == rest;
      [delta] + rest
  }

  /** A token made of a delta is accepted against an unchanged or extended store, until the
      cursor moves; so is one made of a delta whose cursor was first rebased. */
  lemma {:induction false} TokenAccepted(earlier: Store, later: Store, cursor: Cursor, limit: nat, reconcile: bool,
      project: nat)
    requires Ordered(earlier.rows) && Extends(later, earlier) && cursor.version in {1, CURSOR_VERSION}
    requires Read(earlier, cursor, limit, reconcile).Ok?
    requires CreateToken(project, cursor, Read(earlier, cursor, limit, reconcile).value).Ok?
    ensures
      var t := CreateToken(project, cursor, Read(earlier, cursor, limit, reconcile).value).value;
      VerifyToken(t, project, cursor, later) == Ok(false)
  {
    var delta := Read(earlier, cursor, limit, reconcile).value;
    assert cursor.rowid < MaxRow(earlier.rows);
    if reconcile {
      var rebased := Reconcile(cursor, earlier).value.0;
      ReplayYieldsTheDelta(earlier, later, rebased, limit);
      ExtensionKeepsPrefix(later, earlier, 0, cursor.rowid);
    } else {
      ReplayYieldsTheDelta(earlier, later, cursor, limit);
    }
  }

  // ----------------------------------------------------------------------
  // Runs
  // ----------------------------------------------------------------------

  /** The store, the durable cursor, and the messages acknowledged so far. */
  datatype Desk = Desk(store: Store, cursor: Cursor, delivered: seq<Message>)

  datatype Event =
    | Added(rows: seq<Row>)
    | Acknowledged(project: nat, token: Token)
    | Skipped(target: Cursor, limit: nat)

  /** An acknowledged delivery moves the cursor to its target.  A delivery without messages
      needs no token: its replay is enough. */
  function After(project: nat, d: Desk, e: Event): Desk {
    match e
    case Added(rows) => d.(store := d.store.(rows := d.store.rows + rows))
    case Acknowledged(_, t) =>
      if VerifyToken(t, project, d.cursor, d.store) == Ok(false)
      then Desk(d.store, t.cursor, d.delivered + t.messages) else d
    case Skipped(target, limit) =>
      var replayed := Replay(d.store, d.cursor, target, true, limit);
      if replayed.Ok? && replayed.value.messages == [] then d.(cursor := target) else d
  }

  function Run(project: nat, d: Desk, events: seq<Event>): Desk {
    if events == [] then d else After(project, Run(project, d, events[..|events| - 1]), events[|events| - 1])
  }

  /** Rows are only ever added above the present ones. */
  predicate AppendOnly(project: nat, d: Desk, events: seq<Event>) {
    events != [] ==>
      AppendOnly(project, d, events[..|events| - 1]) && Ordered(Run(project, d, events).store.rows)
  }

  /** Since cursor position `start`, exactly the visible rows up to the cursor have been
      acknowledged, in row order. */
  predicate Exactly(start: nat, d: Desk) {
    && Ordered(d.store.rows)
    && start <= d.cursor.rowid <= MaxRow(d.store.rows)
    && MessageIds(d.delivered) == RowIds(Between(d.store.rows, start, Some(d.cursor.rowid)))
  }

  lemma {:induction false} IdsConcat(a: seq<Row>, b: seq<Row>)
    ensures RowIds(a + b) == RowIds(a) + RowIds(b)
  {
    if a == [] {
      assert a + b == b;
    } else {
      var s := a + b;
      assert s[0] == a[0] && s[1..] == a[1..] + b;
      IdsConcat(a[1..], b);
    }
  }

  lemma {:induction false} MessageIdsConcat(a: seq<Message>, b: seq<Message>)
    ensures MessageIds(a + b) == MessageIds(a) + MessageIds(b)
  {
    if a == [] {
      assert a + b == b;
    } else {
      var s := a + b;
      assert s[0] == a[0] && s[1..] == a[1..] + b;
      MessageIdsConcat(a[1..], b);
    }
  }

  lemma LastIsBelow(rows: seq<Row>, n: nat)
    requires Ordered(rows) && n < |rows|
    ensures n > 0 ==> rows[n - 1].rowid < rows[n].rowid
    ensures rows[n] in rows
  {
  }

  /** Moving the cursor from where it is to `target` over rows that were delivered whole. */
  lemma {:induction false} Advance(start: nat, d: Desk, target: Cursor, messages: seq<Message>, bound: nat)
    requires Exactly(start, d) && d.cursor.rowid <= target.rowid && PrefixMatches(d.store, target)
    requires
      var rows := Take(Between(d.store.rows, d.cursor.rowid, Some(target.rowid)), bound);
      Bounded(rows, d.cursor.rowid, MAX_DELTA_BODY_CHARS) == Batch(messages, target.rowid, true)
    ensures Exactly(start, Desk(d.store, target, d.delivered + messages))
  {
    var rows := Between(d.store.rows, d.cursor.rowid, Some(target.rowid));
    BetweenSound(d.store.rows, d.cursor.rowid, Some(target.rowid));
    TakenWhole(rows, bound, d.cursor.rowid, target.rowid, messages);
    BetweenSplits(d.store.rows, start, d.cursor.rowid, target.rowid);
    IdsConcat(Between(d.store.rows, start, Some(d.cursor.rowid)), rows);
    MessageIdsConcat(d.delivered, messages);
    TargetIsThere(d.store, target);
  }

  /** A complete delivery that ends at the last row id asked for took every row. */
  lemma {:induction false} TakenWhole(rows: seq<Row>, bound: nat, lo: nat, target: nat, messages: seq<Message>)
    requires Ordered(rows) && forall r <- rows :: lo < r.rowid <= target
    requires Bounded(Take(rows, bound), lo, MAX_DELTA_BODY_CHARS) == Batch(messages, target, true)
    ensures MessageIds(messages) == RowIds(rows)
  {
    var taken := Take(rows, bound);
    PrefixStable(taken, lo, MAX_DELTA_BODY_CHARS);
    assert taken[..|taken|] == taken;
    assert taken == rows by {
      if |taken| < |rows| {
        LastIsBelow(rows, |taken|);
      }
    }
  }

  lemma {:induction false} TargetIsThere(store: Store, target: Cursor)
    requires Ordered(store.rows) && PrefixMatches(store, target)
    ensures target.rowid <= MaxRow(store.rows)
  {
    var prefix := Upto(store.rows, target.rowid);
    BetweenSound(store.rows, 0, Some(target.rowid));
    MaxRowIs(prefix);
    MaxRowIs(store.rows);
    if prefix != [] { assert prefix[|prefix| - 1] in store.rows; }
  }

  lemma {:induction false} StepKeepsExactly(project: nat, start: nat, d: Desk, e: Event)
    requires Exactly(start, d) && Ordered(After(project, d, e).store.rows)
    ensures Exactly(start, After(project, d, e))
    ensures d.cursor.rowid <= After(project, d, e).cursor.rowid
  {
    match e
    case Added(rows) =>
      ExtensionKeepsPrefix(After(project, d, e).store, d.store, start, d.cursor.rowid);
    case Acknowledged(_, t) =>
      if VerifyToken(t, project, d.cursor, d.store) == Ok(false) {
        Advance(start, d, t.cursor, t.messages, MAX_DELTA + 1);
      }
    case Skipped(target, limit) =>
      var replayed := Replay(d.store, d.cursor, target, true, limit);
      if replayed.Ok? && replayed.value.messages == [] {
        Advance(start, d, target, [], limit + 1);
        assert d.delivered + [] == d.delivered;
      }
  }

  /** Over any run of additions, acknowledgements of any tokens at any time, and skipped
      empty deliveries: the cursor never moves back, and what was acknowledged is exactly
      the visible rows up to the cursor, each once, in row order. */
  lemma {:induction false} DeliveredExactlyOnce(project: nat, start: nat, d: Desk, events: seq<Event>)
    requires Exactly(start, d) && AppendOnly(project, d, events)
    ensures Exactly(start, Run(project, d, events))
    ensures d.cursor.rowid <= Run(project, d, events).cursor.rowid
  {
    if events == [] {
    } else {
      var init := events[..|events| - 1];
      DeliveredExactlyOnce(project, start, d, init);
      StepKeepsExactly(project, start, Run(project, d, init), events[|events| - 1]);
    }
  }

  /** Deliveries carry cursors of the current version, as every read makes them. */
  predicate Made(e: Event) {
    && (e.Acknowledged? ==> e.token.cursor.version == CURSOR_VERSION)
    && (e.Skipped? ==> e.target.version == CURSOR_VERSION)
  }

  predicate AtHome(d: Desk) {
    d.cursor.version == CURSOR_VERSION && d.cursor.schema == d.store.schema && d.cursor.generation == d.store.generation
  }

  lemma StepStaysAtHome(project: nat, d: Desk, e: Event)
    requires AtHome(d) && Made(e)
    ensures AtHome(After(project, d, e))
    ensures After(project, d, e).store.schema == d.store.schema
    ensures After(project, d, e).store.generation == d.store.generation
  {
  }

  lemma {:induction false} StaysAtHome(project: nat, d: Desk, events: seq<Event>)
    requires AtHome(d) && forall e <- events :: Made(e)
    ensures AtHome(Run(project, d, events))
    ensures Run(project, d, events).store.schema == d.store.schema
    ensures Run(project, d, events).store.generation == d.store.generation
  {
    if events == [] {
    } else {
      var last := events[|events| - 1];
      assert Made(last);
      StaysAtHome(project, d, events[..|events| - 1]);
      StepStaysAtHome(project, Run(project, d, events[..|events| - 1]), last);
    }
  }

  /** Acknowledging a delivery a second time, at any later point of the run, changes
      nothing. */
  lemma {:induction false} RepeatIsNoOp(project: nat, start: nat, d: Desk, t: Token, events: seq<Event>)
    requires Exactly(start, d) && Made(Acknowledged(project, t)) && forall e <- events :: Made(e)
    requires VerifyToken(t, project, d.cursor, d.store) == Ok(false)
    requires AppendOnly(project, After(project, d, Acknowledged(project, t)), events)
    ensures
      var later := Run(project, After(project, d, Acknowledged(project, t)), events);
      && VerifyToken(t, project, later.cursor, later.store) == Ok(true)
      && After(project, later, Acknowledged(project, t)) == later
  {
    var acknowledged := After(project, d, Acknowledged(project, t));
    StepKeepsExactly(project, start, d, Acknowledged(project, t));
    DeliveredExactlyOnce(project, start, acknowledged, events);
    StaysAtHome(project, acknowledged, events);
  }
}
