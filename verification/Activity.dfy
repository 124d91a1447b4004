/**
 Structural session activity: complete lines of explicitly selected files are scanned under
 a byte and an item cap, and the cursors move only when an acquisition is acknowledged.
 */
module Activity {
  import opened Basics

  const MAX_SCAN_BYTES := 1_048_576
  const NEWLINE: byte := 10

  type Id = nat

  /** A file and what identifies it on its device. */
  datatype File = File(binding: nat, content: Bytes)

  datatype Cursor = Cursor(binding: nat, offset: nat)

  type Cursors = map<Id, Cursor>

  datatype Selected = Selected(file: Id, start: nat)

  datatype Item = Item(kind: nat, file: Id, at: nat)

  /** The kind of structural event a line reports, if any. */
  type Parser = Bytes -> Option<nat>

  // ----------------------------------------------------------------------
  // Lines and their events
  // ----------------------------------------------------------------------

  /** Where the line that starts at `at` ends, newline included; past the end of the content
      when it is not complete. */
  function LineEnd(content: Bytes, at: nat): (end: nat)
    requires at <= |content|
    ensures at < end <= |content| + 1
    decreases |content| - at
  {
    if at == |content| then |content| + 1
    else if content[at] == NEWLINE then at + 1
    else LineEnd(content, at + 1)
  }

  lemma {:induction false} LineEndIs(content: Bytes, at: nat)
    requires at <= |content|
    ensures LineEnd(content, at) <= |content| ==> content[LineEnd(content, at) - 1] == NEWLINE
    ensures forall i | at <= i < LineEnd(content, at) - 1 :: content[i] != NEWLINE
    decreases |content| - at
  {
    if at < |content| && content[at] != NEWLINE { LineEndIs(content, at + 1); }
  }

  function Event(parse: Parser, file: Id, line: Bytes, at: nat): seq<Item> {
    if parse(line).Some? then [Item(parse(line).value, file, at)] else []
  }

  /** The structural events of the complete lines between two offsets. */
  function Events(parse: Parser, file: Id, content: Bytes, lo: nat, hi: nat): seq<Item>
    requires lo <= hi <= |content|
    decreases hi - lo
  {
    var end := LineEnd(content, lo);
    if end > hi then [] else Event(parse, file, content[lo..end], lo) + Events(parse, file, content, end, hi)
  }

  /** Whole lines lie between two offsets: the upper is the lower, or just after a newline. */
  predicate Whole(content: Bytes, lo: nat, hi: nat) {
    lo <= hi <= |content| && (hi == lo || content[hi - 1] == NEWLINE)
  }

  lemma {:induction false} EventsSplit(parse: Parser, file: Id, content: Bytes, lo: nat, mid: nat, hi: nat)
    requires Whole(content, lo, mid) && mid <= hi <= |content|
    ensures Events(parse, file, content, lo, hi) ==
            Events(parse, file, content, lo, mid) + Events(parse, file, content, mid, hi)
    decreases mid - lo
  {
    if lo < mid {
      LineEndIs(content, lo);
      var end := LineEnd(content, lo);
      EventsSplit(parse, file, content, end, mid, hi);
      Regroup(Event(parse, file, content[lo..end], lo), Events(parse, file, content, end, mid),
              Events(parse, file, content, mid, hi));
    }
  }

  lemma {:induction false} LineEndGrows(content: Bytes, more: Bytes, at: nat)
    requires at <= |content|
    ensures LineEnd(content, at) <= |content| ==> LineEnd(content + more, at) == LineEnd(content, at)
    ensures LineEnd(content, at) > |content| ==> LineEnd(content + more, at) > |content|
    decreases |content| - at
  {
    if at < |content| && content[at] != NEWLINE { LineEndGrows(content, more, at + 1); }
  }

  /** Appending to a file changes none of the events already in it. */
  lemma {:induction false} EventsGrow(parse: Parser, file: Id, content: Bytes, more: Bytes, lo: nat, hi: nat)
    requires lo <= hi <= |content|
    ensures Events(parse, file, content + more, lo, hi) == Events(parse, file, content, lo, hi)
    decreases hi - lo
  {
    LineEndGrows(content, more, lo);
    var end := LineEnd(content, lo);
    if end <= hi {
      assert (content + more)[lo..end] == content[lo..end];
      EventsGrow(parse, file, content, more, end, hi);
    }
  }

  // ----------------------------------------------------------------------
  // Scanning one file
  // ----------------------------------------------------------------------

  /** Where reading a line of at most `size` bytes stops. */
  function ReadEnd(content: Bytes, at: nat, size: nat): (end: nat)
    requires at <= |content|
    ensures at <= end <= |content| && end - at <= size
  {
    var line := LineEnd(content, at);
    var whole := if line > |content| then |content| else line;
    if whole <= at + size then whole else at + size
  }

  lemma ReadEndIs(content: Bytes, at: nat, size: nat)
    requires at <= |content|
    ensures
      var end := ReadEnd(content, at, size);
      end > at && content[end - 1] == NEWLINE <==>
      LineEnd(content, at) <= |content| && LineEnd(content, at) <= at + size
    ensures LineEnd(content, at) <= |content| && LineEnd(content, at) <= at + size ==>
      ReadEnd(content, at, size) == LineEnd(content, at)
  {
    LineEndIs(content, at);
  }

  /** The line at an offset is complete and ends no more than `n` bytes on. */
  predicate LineWithin(content: Bytes, at: nat, n: int)
    requires at <= |content|
  {
    LineEnd(content, at) <= |content| && LineEnd(content, at) <= at + n
  }

  /** Scans complete lines from an offset until the bytes or the room for items run out.  A
      single line longer than the byte cap fails the whole acquisition. */
  method Scan(parse: Parser, file: Id, content: Bytes, start: nat, room: nat)
    returns (failed: bool, items: seq<Item>, offset: nat)
    requires start <= |content|
    ensures failed <==> room > 0 && |content| - start > MAX_SCAN_BYTES && !LineWithin(content, start, MAX_SCAN_BYTES)
    ensures !failed ==>
      && Whole(content, start, offset) && offset - start <= MAX_SCAN_BYTES
      && items == Events(parse, file, content, start, offset) && |items| <= room
      && (|items| < room ==> !LineWithin(content, offset, MAX_SCAN_BYTES - (offset - start)))
  {
    items, offset := [], start;
    var scanned := 0;
    while scanned < MAX_SCAN_BYTES && |items| < room
      invariant scanned == offset - start <= MAX_SCAN_BYTES && Whole(content, start, offset)
      invariant items == Events(parse, file, content, start, offset) && |items| <= room
      invariant scanned > 0 ==> LineWithin(content, start, MAX_SCAN_BYTES)
      decreases MAX_SCAN_BYTES - scanned
    {
      var end := ReadEnd(content, offset, MAX_SCAN_BYTES - scanned + 1);
      ReadEndIs(content, offset, MAX_SCAN_BYTES - scanned + 1);
      if end - offset > MAX_SCAN_BYTES {
        return true, [], start;
      }
      if end == offset || content[end - 1] != NEWLINE || (end - offset) + scanned > MAX_SCAN_BYTES {
        return false, items, offset;
      }
      EventsSplit(parse, file, content, start, offset, end);
      OneLine(parse, file, content, offset);
      items := items + Event(parse, file, content[offset..end], offset);
      scanned := scanned + (end - offset);
      offset := end;
    }
    failed := false;
  }

  lemma OneLine(parse: Parser, file: Id, content: Bytes, at: nat)
    requires at <= |content| && LineEnd(content, at) <= |content|
    ensures Events(parse, file, content, at, LineEnd(content, at)) ==
      Event(parse, file, content[at..LineEnd(content, at)], at)
  {
    var end := LineEnd(content, at);
    assert Events(parse, file, content, end, end) == [];
  }

  // ----------------------------------------------------------------------
  // Acquisitions
  // ----------------------------------------------------------------------

  /** An acquisition that waits for its acknowledgement; its token is the digest of the
      cursors it would write. */
  datatype Acquisition = Acquisition(before: Cursors, after: Cursors, items: seq<Item>)

  function ItemsOf(items: seq<Item>, file: Id): seq<Item> {
    if items == [] then []
    else ItemsOf(items[..|items| - 1], file) + if items[|items| - 1].file == file then [items[|items| - 1]] else []
  }

  lemma {:induction false} ItemsOfConcat(a: seq<Item>, b: seq<Item>, file: Id)
    ensures ItemsOf(a + b, file) == ItemsOf(a, file) + ItemsOf(b, file)
  {
    if b == [] {
      assert a + b == a;
    } else {
      ItemsOfConcat(a, b[..|b| - 1], file);
      assert (a + b)[..|a + b| - 1] == a + b[..|b| - 1];
    }
  }

  lemma EventIsOf(parse: Parser, file: Id, line: Bytes, at: nat, other: Id)
    ensures
      ItemsOf(Event(parse, file, line, at), other) == if other == file then Event(parse, file, line, at) else []
  {
    var event := Event(parse, file, line, at);
    if event != [] {
      assert event[..0] == [];
    }
  }

  lemma {:induction false} EventsAreOf(parse: Parser, file: Id, content: Bytes, lo: nat, hi: nat, other: Id)
    requires lo <= hi <= |content|
    ensures
      ItemsOf(Events(parse, file, content, lo, hi), other) ==
      if other == file then Events(parse, file, content, lo, hi) else []
    decreases hi - lo
  {
    var end := LineEnd(content, lo);
    if end <= hi {
      EventIsOf(parse, file, content[lo..end], lo, other);
      EventsAreOf(parse, file, content, end, hi, other);
      ItemsOfConcat(Event(parse, file, content[lo..end], lo), Events(parse, file, content, end, hi), other);
    }
  }

  function From(cursors: Cursors, s: Selected): nat {
    if s.file in cursors then cursors[s.file].offset else s.start
  }

  /** What an acquisition says of one selected file: its cursor stands at the end of whole
      lines, and its items are exactly the events of the bytes it passes. */
  predicate Covers(parse: Parser, files: map<Id, File>, a: Acquisition, s: Selected) {
    if s.file !in a.after then ItemsOf(a.items, s.file) == [] && s.file !in a.before
    else if s.file in a.before && a.after[s.file] == a.before[s.file] && ItemsOf(a.items, s.file) == [] then true
    else
      && s.file in files && a.after[s.file].binding == files[s.file].binding
      && (s.file in a.before ==> a.before[s.file].binding == files[s.file].binding)
      && var content := files[s.file].content;
         && Whole(content, From(a.before, s), a.after[s.file].offset)
         && ItemsOf(a.items, s.file) == Events(parse, s.file, content, From(a.before, s), a.after[s.file].offset)
  }

  predicate DistinctFiles(selection: seq<Selected>) {
    forall i, j | 0 <= i < j < |selection| :: selection[i].file != selection[j].file
  }

  predicate Among(file: Id, selection: seq<Selected>) {
    exists s <- selection :: s.file == file
  }

  /** An acquisition covers these selected files, and says nothing of others. */
  ghost predicate Acquired(parse: Parser, files: map<Id, File>, selection: seq<Selected>, a: Acquisition) {
    && (forall s <- selection :: Covers(parse, files, a, s))
    && (forall f: Id | !Among(f, selection) ::
          ItemsOf(a.items, f) == [] && (f in a.after <==> f in a.before)
          && (f in a.before ==> a.after[f] == a.before[f]))
  }

  /** The acquisition with one more scanned file. */
  function Scanned(a: Acquisition, file: Id, binding: nat, offset: nat, found: seq<Item>): Acquisition {
    a.(after := a.after[file := Cursor(binding, offset)], items := a.items + found)
  }

  lemma {:induction false} AcquiredNext(parse: Parser, files: map<Id, File>, done: seq<Selected>, a: Acquisition,
      s: Selected, offset: nat, found: seq<Item>)
    requires Acquired(parse, files, done, a) && !Among(s.file, done)
    requires s.file in files && Whole(files[s.file].content, From(a.before, s), offset)
    requires s.file in a.before ==> a.before[s.file].binding == files[s.file].binding
    requires found == Events(parse, s.file, files[s.file].content, From(a.before, s), offset)
    ensures Acquired(parse, files, done + [s], Scanned(a, s.file, files[s.file].binding, offset, found))
  {
    var b := Scanned(a, s.file, files[s.file].binding, offset, found);
    var content, start := files[s.file].content, From(a.before, s);
    forall f: Id ensures ItemsOf(b.items, f) == ItemsOf(a.items, f) + if f == s.file then found else [] {
      ItemsOfConcat(a.items, found, f);
      EventsAreOf(parse, s.file, content, start, offset, f);
    }
    assert ItemsOf(a.items, s.file) == [];
    forall t | t in done ensures Covers(parse, files, b, t) {
      assert Covers(parse, files, a, t) && Among(t.file, done);
    }
    forall f: Id | !Among(f, done + [s]) ensures !Among(f, done) && f != s.file {
      assert s in done + [s];
    }
  }

  lemma NotAmongEarlier(selection: seq<Selected>, i: nat)
    requires DistinctFiles(selection) && i < |selection|
    ensures !Among(selection[i].file, selection[..i])
  {
  }

  lemma ExhaustedNext(files: map<Id, File>, done: seq<Selected>, a: Acquisition, s: Selected, offset: nat,
      found: seq<Item>)
    requires !Among(s.file, done) && s.file in files && From(a.before, s) <= offset <= |files[s.file].content|
    ensures
      var b := Scanned(a, s.file, files[s.file].binding, offset, found);
      && (!LineWithin(files[s.file].content, offset, MAX_SCAN_BYTES - (offset - From(a.before, s))) ==>
        Exhausted(files, b, s))
      && (forall t <- done | Exhausted(files, a, t) :: Exhausted(files, b, t))
  {
    forall t | t in done ensures t.file != s.file {
      assert Among(t.file, done);
    }
  }

  /** A file that was not reached is covered by doing nothing. */
  lemma UnreachedIsCovered(parse: Parser, files: map<Id, File>, done: seq<Selected>, a: Acquisition,
      selection: seq<Selected>)
    requires Acquired(parse, files, done, a) && done <= selection && DistinctFiles(selection)
    ensures Acquired(parse, files, selection, a)
  {
    forall s | s in selection ensures Covers(parse, files, a, s) {
      if s !in done {
        assert !Among(s.file, done);
      }
    }
    forall f: Id | Among(f, done) ensures Among(f, selection) {
      var s :| s in done && s.file == f;
      assert s in selection;
    }
  }

  /** The file cannot be scanned from its cursor: it is another one, shorter, or its next
      line is too long. */
  predicate Unusable(cursors: Cursors, s: Selected, file: File) {
    || (s.file in cursors && cursors[s.file].binding != file.binding)
    || From(cursors, s) > |file.content|
    || (|file.content| - From(cursors, s) > MAX_SCAN_BYTES &&
      !LineWithin(file.content, From(cursors, s), MAX_SCAN_BYTES))
  }

  /** Nothing more can be had of a file: its next line is incomplete or over the byte cap. */
  predicate Exhausted(files: map<Id, File>, a: Acquisition, s: Selected) {
    && s.file in files && s.file in a.after
    && From(a.before, s) <= a.after[s.file].offset <= |files[s.file].content|
    && !LineWithin(files[s.file].content, a.after[s.file].offset,
                   MAX_SCAN_BYTES - (a.after[s.file].offset - From(a.before, s)))
  }

  class CodexActivity {
    const parse: Parser
    var cursors: Cursors
    var pending: Option<Acquisition>

    constructor (parse: Parser)
      ensures this.parse == parse && cursors == map[] && pending == None
    {
      this.parse := parse;
      cursors, pending := map[], None;
    }

    /** Scans the selected files in order, each from its cursor, until there are enough
        items.  A file that was replaced or cut short fails everything; cursors stay. */
    method Acquire(files: map<Id, File>, selection: seq<Selected>, limit: nat) returns (failed: bool, items: seq<Item>)
      requires forall s <- selection :: s.file in files
      requires DistinctFiles(selection)
      modifies this
      ensures cursors == old(cursors)
      ensures failed ==>
        && pending == old(pending)
        && (!(1 <= |selection| <= 16) || exists s <- selection :: Unusable(cursors, s, files[s.file]))
      ensures !failed ==>
        && 1 <= |selection| <= 16 && pending.Some?
        && pending.value.before == cursors && pending.value.items == items
        && (limit > 0 ==> |items| <= limit)
        && Acquired(parse, files, selection, pending.value)
        && (|items| < limit ==> forall s <- selection :: Exhausted(files, pending.value, s))
    {
      items := [];
      if !(1 <= |selection| <= 16) { return true, []; }
      var next, reached;
      failed, next, items, reached := ScanAll(files, selection, limit);
      if failed { return true, []; }
      pending := Some(Acquisition(cursors, next, items));
      UnreachedIsCovered(parse, files, selection[..reached], pending.value, selection);
    }

    /** What holds of the files scanned so far. */
    ghost predicate Through(files: map<Id, File>, done: seq<Selected>, next: Cursors, items: seq<Item>, limit: nat)
      reads this
    {
      && Acquired(parse, files, done, Acquisition(cursors, next, items))
      && (limit > 0 || done == [] ==> |items| <= limit)
      && (|items| < limit ==> forall s <- done :: Exhausted(files, Acquisition(cursors, next, items), s))
    }

    /** The files are scanned until there are enough items; `reached` of them were. */
    method ScanAll(files: map<Id, File>, selection: seq<Selected>, limit: nat)
      returns (failed: bool, next: Cursors, items: seq<Item>, reached: nat)
      requires DistinctFiles(selection) && selection != [] && forall s <- selection :: s.file in files
      ensures failed ==> exists s <- selection :: Unusable(cursors, s, files[s.file])
      ensures !failed ==>
        && 0 < reached <= |selection| && (|items| < limit ==> reached == |selection|)
        && Through(files, selection[..reached], next, items, limit)
    {
      next, items, reached, failed := cursors, [], 0, false;
      while reached < |selection|
        invariant reached <= |selection| && !failed && Through(files, selection[..reached], next, items, limit)
      {
        var s := selection[reached];
        assert s in selection;
        NotAmongEarlier(selection, reached);
        failed, next, items := ScanOne(files, selection[..reached], s, next, items, limit);
        if failed { return; }
        assert selection[..reached + 1] == selection[..reached] + [s];
        reached := reached + 1;
        if |items| >= limit { break; }
      }
    }

    method ScanOne(files: map<Id, File>, ghost done: seq<Selected>, s: Selected, next0: Cursors, items0: seq<Item>,
        limit: nat)
      returns (failed: bool, next: Cursors, items: seq<Item>)
      requires Through(files, done, next0, items0, limit) && !Among(s.file, done) && s.file in files
      ensures failed ==> Unusable(cursors, s, files[s.file])
      ensures !failed ==> Through(files, done + [s], next, items, limit)
    {
      next, items := next0, items0;
      ghost var a := Acquisition(cursors, next, items);
      var found, offset;
      failed, found, offset := ScanSelected(s, files[s.file], if |items| < limit then limit - |items| else 0);
      if failed { return; }
      AcquiredNext(parse, files, done, a, s, offset, found);
      ExhaustedNext(files, done, a, s, offset, found);
      next := next[s.file := Cursor(files[s.file].binding, offset)];
      items := items + found;
    }

    /** Scans one selected file, unless it is not the one its cursor belongs to, or is
        shorter than that. */
    method ScanSelected(s: Selected, file: File, room: nat) returns (failed: bool, found: seq<Item>, offset: nat)
      ensures failed ==> Unusable(cursors, s, file)
      ensures !failed ==>
        && (s.file in cursors ==> cursors[s.file].binding == file.binding)
        && Whole(file.content, From(cursors, s), offset)
        && found == Events(parse, s.file, file.content, From(cursors, s), offset) && |found| <= room
        && (|found| < room ==> !LineWithin(file.content, offset, MAX_SCAN_BYTES - (offset - From(cursors, s))))
    {
      var start := From(cursors, s);
      if (s.file in cursors && cursors[s.file].binding != file.binding) || start > |file.content| {
        return true, [], 0;
      }
      failed, found, offset := Scan(parse, s.file, file.content, start, room);
    }

    /** Moves the cursors, if the acquisition is the active one and they have not moved
        since it was made. */
    method Acknowledge(token: Cursors) returns (accepted: bool)
      modifies this
      ensures accepted <==>
        old(pending).Some? && old(pending).value.after == token && old(pending).value.before == old(cursors)
      ensures accepted ==> cursors == token && pending == None
      ensures !accepted ==> cursors == old(cursors) && pending == old(pending)
    {
      if pending.None? || pending.value.after != token { return false; }
      if cursors != pending.value.before { return false; }
      cursors := pending.value.after;
      pending := None;
      return true;
    }
  }
}
