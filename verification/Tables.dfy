/**
 Tables of a local message store, ordered by row id, and the queries made of them.
 */
module Tables {
  import opened Basics

  /** A row.  `visible` leaves out what a store keeps for other reasons than its content;
      `body` is what was extracted from its text, `sealed` that it carried a body in another
      form. */
  datatype Row = Row(rowid: nat, at: Option<int>, fromMe: bool, visible: bool, body: Option<string>, sealed: bool,
      attachment: bool)

  predicate Ordered(rows: seq<Row>) {
    && (forall r <- rows :: r.rowid > 0)
    && forall i, j | 0 <= i < j < |rows| :: rows[i].rowid < rows[j].rowid
  }

  predicate InRange(row: Row, lo: nat, hi: Option<nat>) {
    lo < row.rowid && (hi.Some? ==> row.rowid <= hi.value)
  }

  /** Rows after `lo`, up to `hi` if given. */
  function Between(rows: seq<Row>, lo: nat, hi: Option<nat>): seq<Row> {
    if rows == [] then []
    else (if InRange(rows[0], lo, hi) then [rows[0]] else []) + Between(rows[1..], lo, hi)
  }

  /** Row ids start above zero. */
  function Upto(rows: seq<Row>, r: nat): seq<Row> {
    Between(rows, 0, Some(r))
  }

  function MaxRow(rows: seq<Row>): nat {
    if rows == [] then 0
    else var rest := MaxRow(rows[1..]); if rows[0].rowid > rest then rows[0].rowid else rest
  }

  function Newest(rows: seq<Row>): Option<int> {
    if rows == [] then None
    else
      var rest := Newest(rows[1..]);
      if rows[0].at.None? then rest
      else if rest.None? || rest.value < rows[0].at.value then rows[0].at else rest
  }

  lemma {:induction false} BetweenSound(rows: seq<Row>, lo: nat, hi: Option<nat>)
    requires Ordered(rows)
    ensures Ordered(Between(rows, lo, hi))
    ensures forall r :: r in Between(rows, lo, hi) <==> r in rows && InRange(r, lo, hi)
  {
    if rows == [] {
    } else {
      var rest := Between(rows[1..], lo, hi);
      RestIsAbove(rows);
      BetweenSound(rows[1..], lo, hi);
      var first := if InRange(rows[0], lo, hi) then [rows[0]] else [];
      var all := first + rest;
      assert Between(rows, lo, hi) == all;
      forall i, j | 0 <= i < j < |all| ensures all[i].rowid < all[j].rowid {
        if i < |first| {
          assert all[j] == rest[j - |first|];
          assert rest[j - |first|] in rest;
        } else {
          assert all[i] == rest[i - |first|] && all[j] == rest[j - |first|];
        }
      }
    }
  }

  lemma RestIsAbove(rows: seq<Row>)
    requires Ordered(rows) && rows != []
    ensures Ordered(rows[1..])
    ensures forall r <- rows[1..] :: rows[0].rowid < r.rowid
    ensures forall r :: r in rows <==> r == rows[0] || r in rows[1..]
  {
    assert rows == [rows[0]] + rows[1..];
  }

  lemma {:induction false} BetweenConcat(a: seq<Row>, b: seq<Row>, lo: nat, hi: Option<nat>)
    ensures Between(a + b, lo, hi) == Between(a, lo, hi) + Between(b, lo, hi)
  {
    if a == [] {
      assert a + b == b;
    } else {
      var first := if InRange(a[0], lo, hi) then [a[0]] else [];
      BetweenFirst(a[0], a[1..], lo, hi);
      BetweenFirst(a[0], a[1..] + b, lo, hi);
      assert a == [a[0]] + a[1..] && a + b == [a[0]] + (a[1..] + b);
      BetweenConcat(a[1..], b, lo, hi);
      Regroup(first, Between(a[1..], lo, hi), Between(b, lo, hi));
    }
  }

  lemma BetweenFirst(row: Row, rest: seq<Row>, lo: nat, hi: Option<nat>)
    ensures Between([row] + rest, lo, hi) == (if InRange(row, lo, hi) then [row] else []) + Between(rest, lo, hi)
  {
    assert ([row] + rest)[1..] == rest;
  }

  lemma {:induction false} BetweenNone(rows: seq<Row>, lo: nat, hi: Option<nat>)
    requires forall r <- rows :: !InRange(r, lo, hi)
    ensures Between(rows, lo, hi) == []
  {
    if rows != [] { BetweenNone(rows[1..], lo, hi); }
  }

  lemma {:induction false} BetweenAll(rows: seq<Row>, lo: nat, hi: Option<nat>)
    requires forall r <- rows :: InRange(r, lo, hi)
    ensures Between(rows, lo, hi) == rows
  {
    if rows != [] { BetweenAll(rows[1..], lo, hi); }
  }

  lemma {:induction false} MaxRowIs(rows: seq<Row>)
    requires Ordered(rows)
    ensures MaxRow(rows) == if rows == [] then 0 else rows[|rows| - 1].rowid
    ensures forall r <- rows :: r.rowid <= MaxRow(rows)
  {
    if |rows| > 1 { MaxRowIs(rows[1..]); }
  }

  /** An ordered table falls into the rows up to a row id and those after it. */
  lemma {:induction false} Splits(rows: seq<Row>, r: nat)
    requires Ordered(rows)
    ensures rows == Upto(rows, r) + Between(rows, r, None)
  {
    if rows == [] {
    } else {
      if rows[0].rowid <= r {
        Splits(rows[1..], r);
      } else {
        BetweenNone(rows, 0, Some(r));
        BetweenAll(rows, r, None);
      }
    }
  }

  /** The same, of a table whose rows all lie above `lo`. */
  lemma {:induction false} FirstRows(after: seq<Row>, lo: nat, k: nat)
    requires Ordered(after) && k < |after| && forall r <- after :: r.rowid > lo
    ensures Between(after, lo, Some(after[k].rowid)) == after[..k + 1]
  {
    var r := after[k].rowid;
    var head, tail := after[..k + 1], after[k + 1..];
    assert after == head + tail;
    BetweenConcat(head, tail, lo, Some(r));
    FirstRowsWithin(after, lo, k);
    BetweenAll(head, lo, Some(r));
    LastRowsBeyond(after, lo, k);
    BetweenNone(tail, lo, Some(r));
    assert head + [] == head;
  }

  lemma FirstRowsWithin(after: seq<Row>, lo: nat, k: nat)
    requires Ordered(after) && k < |after| && forall r <- after :: r.rowid > lo
    ensures forall row <- after[..k + 1] :: InRange(row, lo, Some(after[k].rowid))
  {
    forall row | row in after[..k + 1] ensures InRange(row, lo, Some(after[k].rowid)) {
      var i :| 0 <= i <= k && after[i] == row;
      assert after[i] in after;
    }
  }

  lemma LastRowsBeyond(after: seq<Row>, lo: nat, k: nat)
    requires Ordered(after) && k < |after|
    ensures forall row <- after[k + 1..] :: !InRange(row, lo, Some(after[k].rowid))
  {
    forall row | row in after[k + 1..] ensures !InRange(row, lo, Some(after[k].rowid)) {
      var i :| k < i < |after| && after[i] == row;
    }
  }

  /** The rows between two row ids are the first of those after the lower one. */
  lemma {:induction false} Window(rows: seq<Row>, lo: nat, k: nat)
    requires Ordered(rows) && k < |Between(rows, lo, None)|
    ensures
      var after := Between(rows, lo, None);
      && lo < after[k].rowid
      && Between(rows, lo, Some(after[k].rowid)) == after[..k + 1]
      && Upto(rows, after[k].rowid) == Upto(rows, lo) + after[..k + 1]
  {
    var before, after := Upto(rows, lo), Between(rows, lo, None);
    var r := after[k].rowid;
    BetweenSound(rows, lo, None);
    BetweenSound(rows, 0, Some(lo));
    assert after[k] in after;
    Splits(rows, lo);
    BetweenConcat(before, after, lo, Some(r));
    BetweenConcat(before, after, 0, Some(r));
    BetweenNone(before, lo, Some(r));
    BetweenAll(before, 0, Some(r));
    FirstRows(after, lo, k);
    FirstRows(after, 0, k);
  }

  lemma {:induction false} MaxRowGrows(rows: seq<Row>, more: seq<Row>)
    requires Ordered(rows + more)
    ensures Ordered(rows) && MaxRow(rows) <= MaxRow(rows + more)
    ensures forall r <- more :: r.rowid > MaxRow(rows)
  {
    var all := rows + more;
    forall r | r in rows ensures r.rowid > 0 { assert r in all; }
    forall i, j | 0 <= i < j < |rows| ensures rows[i].rowid < rows[j].rowid {
      assert all[i] == rows[i] && all[j] == rows[j];
    }
    MaxRowIs(rows);
    MaxRowIs(all);
    forall r | r in more ensures r.rowid > MaxRow(rows) {
      var j :| 0 <= j < |more| && more[j] == r;
      assert all[|rows| + j] == r;
      assert r in all;
      if rows != [] { assert all[|rows| - 1].rowid < all[|rows| + j].rowid; }
    }
    if rows != [] { assert all[|rows| - 1] in all; }
  }

  lemma {:induction false} BetweenSplits(rows: seq<Row>, a: nat, b: nat, c: nat)
    requires Ordered(rows) && a <= b <= c
    ensures Between(rows, a, Some(c)) == Between(rows, a, Some(b)) + Between(rows, b, Some(c))
  {
    var lower, upper := Upto(rows, b), Between(rows, b, None);
    Splits(rows, b);
    BetweenSound(rows, 0, Some(b));
    BetweenSound(rows, b, None);
    PartsSplit(lower, upper, a, b, c);
  }

  lemma {:induction false} PartsSplit(lower: seq<Row>, upper: seq<Row>, a: nat, b: nat, c: nat)
    requires a <= b <= c && (forall r <- lower :: r.rowid <= b) && (forall r <- upper :: r.rowid > b)
    ensures
      Between(lower + upper, a, Some(c)) == Between(lower + upper, a, Some(b)) + Between(lower + upper, b, Some(c))
  {
    BetweenConcat(lower, upper, a, Some(c));
    BetweenConcat(lower, upper, a, Some(b));
    BetweenConcat(lower, upper, b, Some(c));
    BetweenNone(upper, a, Some(b));
    BetweenNone(lower, b, Some(c));
    SameAbove(upper, a, b, c);
    SameBelow(lower, a, b, c);
    assert Between(lower + upper, a, Some(b)) == Between(lower, a, Some(b));
    assert Between(lower + upper, b, Some(c)) == Between(upper, b, Some(c));
  }

  lemma {:induction false} SameAbove(rows: seq<Row>, a: nat, b: nat, c: nat)
    requires a <= b && forall r <- rows :: r.rowid > b
    ensures Between(rows, a, Some(c)) == Between(rows, b, Some(c))
  {
    if rows != [] { SameAbove(rows[1..], a, b, c); }
  }

  lemma {:induction false} SameBelow(rows: seq<Row>, a: nat, b: nat, c: nat)
    requires b <= c && forall r <- rows :: r.rowid <= b
    ensures Between(rows, a, Some(c)) == Between(rows, a, Some(b))
  {
    if rows != [] { SameBelow(rows[1..], a, b, c); }
  }
}
