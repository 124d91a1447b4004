/**
 A listing spread over time, followed by the change log from an anchor taken before it,
 leaves the corpus with the files as they are at the final cursor.
 */
module DriveRuns {
  import opened Basics
  import opened DriveSync

  // ----------------------------------------------------------------------
  // The provider's log
  // ----------------------------------------------------------------------

  /** A file's new state; the log may report it without the file's metadata. */
  datatype Event = Event(file: Id, state: FileState, bare: bool)
  {
    /** Reading the event says what the document should be. */
    predicate Speaks() {
      bare || !state.Plain?
    }

    function Says(): Trace {
      match state
      case Gone => Nothing
      case _ => if bare then Blank else if state.Text? then Version(state.version) else Nothing
    }
  }

  type Log = seq<Event>

  /** What the corpus can have heard of a file: nothing it keeps, a change without metadata,
      or a version of its text. */
  datatype Trace = Nothing | Blank | Version(version: nat)

  /** The state of a file after the first `n` events. */
  function At(log: Log, n: nat, f: Id): FileState
    requires n <= |log|
  {
    if n == 0 then Gone else if log[n - 1].file == f then log[n - 1].state else At(log, n - 1, f)
  }

  /** What the last event that says something of a file says. */
  function Kept(log: Log, n: nat, f: Id): Trace
    requires n <= |log|
  {
    if n == 0 then Nothing
    else if log[n - 1].file == f && log[n - 1].Speaks() then log[n - 1].Says()
    else Kept(log, n - 1, f)
  }

  /** A file without text of which the corpus was last told otherwise, or nothing clear: it
      turned plain after it had text, or its last change came without metadata. */
  predicate Lingers(log: Log, n: nat, f: Id)
    requires n <= |log|
  {
    !At(log, n, f).Text? && Kept(log, n, f) != Nothing
  }

  predicate Touched(log: Log, lo: nat, hi: nat, f: Id)
    requires hi <= |log|
  {
    exists i | lo <= i < hi :: log[i].file == f
  }

  predicate Settled(log: Log, lo: nat, hi: nat, f: Id)
    requires hi <= |log|
  {
    exists i | lo <= i < hi :: log[i].file == f && log[i].Speaks()
  }

  lemma {:induction false} Prefix(log: Log, e: Event, n: nat, f: Id)
    requires n <= |log|
    ensures At(log + [e], n, f) == At(log, n, f) && Kept(log + [e], n, f) == Kept(log, n, f)
  {
    if n > 0 { Prefix(log, e, n - 1, f); }
  }

  lemma {:induction false} Untouched(log: Log, lo: nat, hi: nat, f: Id)
    requires lo <= hi <= |log|
    ensures !Touched(log, lo, hi, f) ==> At(log, hi, f) == At(log, lo, f)
    ensures !Settled(log, lo, hi, f) ==> Kept(log, hi, f) == Kept(log, lo, f)
    ensures Touched(log, lo, hi, f) && !Settled(log, lo, hi, f) ==> At(log, hi, f).Plain?
    decreases hi - lo
  {
    if lo < hi { Untouched(log, lo, hi - 1, f); }
  }

  /** Of a file with text, the corpus was last told its version, or a change without
      metadata. */
  lemma {:induction false} KeptIsAt(log: Log, n: nat, f: Id)
    requires n <= |log|
    ensures At(log, n, f).Text? ==> Kept(log, n, f) in {Blank, Version(At(log, n, f).version)}
    ensures At(log, n, f).Gone? ==> Kept(log, n, f) == Nothing
  {
    if n > 0 { KeptIsAt(log, n - 1, f); }
  }

  // ----------------------------------------------------------------------
  // Documents
  // ----------------------------------------------------------------------

  type Documents = map<Id, Note>

  function Apply(documents: Documents, d: Delivery): Documents {
    match d
    case Delete(f) => documents - {f}
    case Upsert(f, note) => documents[f := note]
  }

  function ApplyAll(documents: Documents, ds: seq<Delivery>): Documents {
    if ds == [] then documents else Apply(ApplyAll(documents, ds[..|ds| - 1]), ds[|ds| - 1])
  }

  lemma {:induction false} ApplyConcat(documents: Documents, a: seq<Delivery>, b: seq<Delivery>)
    ensures ApplyAll(documents, a + b) == ApplyAll(ApplyAll(documents, a), b)
  {
    if b == [] {
      assert a + b == a;
    } else {
      ApplyConcat(documents, a, b[..|b| - 1]);
      assert (a + b)[..|a + b| - 1] == a + b[..|b| - 1];
    }
  }

  /** What an entry delivers changes no other file's document, and its own only if the
      entry is not of a plain file. */
  lemma EntryApplies(documents: Documents, e: Entry, f: Id)
    requires e.Removed? || e.Bare? || (e.Shown? && !e.state.Gone?)
    ensures
      var after := ApplyAll(documents, EntryDelivery(e));
      && (e.file != f || (e.Shown? && e.state.Plain?) ==>
            (f in after <==> f in documents) && (f in after ==> after[f] == documents[f]))
      && (e.file == f && e.Shown? && e.state.Text? ==> f in after && after[f].version == Some(e.state.version))
      && (e.file == f && e.Bare? ==> f in after && after[f] == Note(None, true))
      && (e.file == f && (e.Removed? || (e.Shown? && e.state.Trashed?)) ==> f !in after)
  {
    var ds := EntryDelivery(e);
    if |ds| == 1 {
      assert ds[..0] == [];
      assert ApplyAll(documents, ds) == Apply(documents, ds[0]);
    }
  }

  /** The document of a file is what the corpus was told last. */
  predicate Follows(documents: Documents, f: Id, t: Trace) {
    match t
    case Nothing => f !in documents
    case Blank => f in documents && documents[f] == Note(None, true)
    case Version(v) => f in documents && documents[f].version == Some(v)
  }

  /** A file with text has a document of that version, or a note of the gap; another has
      none. */
  predicate Agrees(documents: Documents, f: Id, s: FileState) {
    if s.Text? then f in documents && documents[f].version in {Some(s.version), None} else f !in documents
  }

  /** At cursor `n`: every live file with text has its document, and another file has one
      only if it lingers. */
  ghost predicate Faithful(documents: Documents, log: Log, n: nat)
    requires n <= |log|
  {
    FaithfulBut(documents, log, n, {})
  }

  /** The same, but for documents of some files of which nothing was heard for long. */
  ghost predicate FaithfulBut(documents: Documents, log: Log, n: nat, relics: set<Id>)
    requires n <= |log|
  {
    && (forall f | At(log, n, f).Text? :: Agrees(documents, f, At(log, n, f)))
    && (forall f <- documents :: Kept(log, n, f) != Nothing || f in relics)
    && (forall f <- relics :: f in documents && Kept(log, n, f) == Nothing)
  }

  /** A document, text or gap note, for exactly the live files with text. */
  ghost predicate Exact(documents: Documents, log: Log, n: nat)
    requires n <= |log|
  {
    forall f :: Agrees(documents, f, At(log, n, f))
  }

  /** Files with a document of which the corpus would have been told nothing it keeps. */
  function Relics(documents: Documents, log: Log, a: nat): set<Id>
    requires a <= |log|
  {
    set f | f in documents && Kept(log, a, f) == Nothing
  }

  // ----------------------------------------------------------------------
  // Runs
  // ----------------------------------------------------------------------

  /** `shown` holds the files the current listing pass has shown so far.  `relics` holds the
      files that had a document when the latest listing took its anchor, although by then the
      log said nothing it keeps of them, and of which nothing has been delivered since. */
  datatype World = World(log: Log, drive: Drive, documents: Documents, shown: set<Id>, relics: set<Id>)

  const START := World([], FRESH, map[], {}, {})

  /** The checkpoint a round works on. */
  function Working(d: Drive): Drive {
    if NeedsBootstrap(d) then FRESH.(fullScan := true) else d
  }

  /** Whether a round takes an anchor and begins a listing. */
  predicate StartsListing(d: Drive) {
    !d.done && d.phase.Unset? && d.cursor.None?
  }

  datatype Step =
    | Happens(event: Event)
    | Reads(start: Fetched<Option<Token>>, page: Fetched<Page>)
    | NextRound

  function FilesOf(entries: seq<Entry>): set<Id> {
    set e | e in entries :: e.file
  }

  /** Where the current pass over the change log stands. */
  function Reached(d: Drive): nat
    requires d.anchor.Some?
  {
    if d.changes.Some? then d.changes.value else d.anchor.value
  }

  /** The entry shows its file as it was at some time since position `a`. */
  ghost predicate ShownSince(log: Log, a: nat, e: Entry)
    requires a <= |log|
  {
    e.Shown? && !e.state.Gone? && exists t | a <= t <= |log| :: At(log, t, e.file) == e.state
  }

  /** A listing shows files as they were at some time since the anchor.  By its last page it
      has shown every file that did not change since then. */
  ghost predicate HonestListing(log: Log, a: nat, shown: set<Id>, page: Page)
    requires a <= |log|
  {
    && (forall e <- page.entries :: ShownSince(log, a, e))
    && (page.continuation.None? ==>
          forall f | !Touched(log, a, |log|, f) && !At(log, a, f).Gone? :: f in shown + FilesOf(page.entries))
  }

  predicate Reports(e: Entry, v: Event) {
    && e.file == v.file
    && if v.state.Gone? then e.Removed? else if v.bare then e.Bare? else e.Shown? && e.state == v.state
  }

  /** A page of changes reports a stretch of the log in order; its continuation is where it
      stops, and a page without one that gives a cursor reaches the end of the log. */
  predicate HonestChanges(log: Log, p: nat, page: Page) {
    && p + |page.entries| <= |log|
    && (forall i | 0 <= i < |page.entries| :: Reports(page.entries[i], log[p + i]))
    && (page.continuation.Some? ==> page.continuation.value == p + |page.entries|)
    && (page.continuation.None? && page.cursor.Some? ==>
          page.cursor.value == |log| && p + |page.entries| == |log|)
  }

  /** What the provider may answer in the current state. */
  ghost predicate Honest(w: World, start: Fetched<Option<Token>>, page: Fetched<Page>) {
    var d := Working(w.drive);
    && (StartsListing(d) && start.Got? && start.value.Some? ==> start.value.value == |w.log|)
    && (page.Got? && d.phase.Files? && d.anchor.Some? && d.anchor.value <= |w.log| ==>
          HonestListing(w.log, d.anchor.value, if d.continuation.None? then {} else w.shown, page.value))
    && (page.Got? && StartsListing(d) ==> HonestListing(w.log, |w.log|, {}, page.value))
    && (page.Got? && d.phase.Changes? && d.anchor.Some? ==> HonestChanges(w.log, Reached(d), page.value))
    && (page.Got? && d.phase.Unset? && d.cursor.Some? ==> HonestChanges(w.log, d.cursor.value, page.value))
  }

  function Told(ds: seq<Delivery>): set<Id> {
    set d | d in ds :: d.file
  }

  function After(w: World, s: Step): World {
    match s
    case Happens(e) => w.(log := w.log + [e])
    case NextRound => if w.drive.done && !NeedsBootstrap(w.drive) then w.(drive := Restored(w.drive)) else w
    case Reads(start, page) =>
      var d, turn := Working(w.drive), Round(w.drive, start, page);
      var anchors := StartsListing(d) && start.Got? && start.value.Some?;
      var listed := !turn.failed && (anchors || (!d.done && d.phase.Files?));
      World(w.log, turn.drive, ApplyAll(w.documents, turn.deliveries),
            if listed && page.Got? then
              (if d.continuation.None? then {} else w.shown) + FilesOf(page.value.entries)
            else w.shown,
            (if anchors then Relics(w.documents, w.log, |w.log|) else w.relics) - Told(turn.deliveries))
  }

  ghost predicate Allowed(w: World, s: Step) {
    s.Reads? ==> Honest(w, s.start, s.page)
  }

  // ----------------------------------------------------------------------
  // What every step keeps
  // ----------------------------------------------------------------------

  /** Documents not settled since the anchor, but for relics, are of files of which the
      corpus was told before it; relics are not. */
  ghost predicate Grounded(documents: Documents, log: Log, a: nat, relics: set<Id>)
    requires a <= |log|
  {
    && (forall f | f in documents && !Settled(log, a, |log|, f) && f !in relics :: Kept(log, a, f) != Nothing)
    && (forall f <- relics :: f in documents && Kept(log, a, f) == Nothing)
  }

  /** No relic is settled between the anchor and position `p`. */
  ghost predicate Unheard(log: Log, a: nat, p: nat, relics: set<Id>)
    requires a <= p <= |log|
  {
    forall f <- relics :: !Settled(log, a, p, f)
  }

  /** A file with text that has not changed since the anchor has its document. */
  predicate Covered(documents: Documents, log: Log, a: nat, f: Id)
    requires a <= |log|
  {
    !Touched(log, a, |log|, f) && At(log, a, f).Text? ==> Agrees(documents, f, At(log, a, f))
  }

  ghost predicate AllCovered(documents: Documents, log: Log, a: nat)
    requires a <= |log|
  {
    forall f :: Covered(documents, log, a, f)
  }

  /** Files settled between the anchor and position `p` have the document of that state. */
  ghost predicate CaughtUp(documents: Documents, log: Log, a: nat, p: nat)
    requires a <= p <= |log|
  {
    forall f | Settled(log, a, p, f) :: Follows(documents, f, Kept(log, p, f))
  }

  ghost predicate Listing(w: World) {
    var d := w.drive;
    && d.phase.Files? && d.anchor.Some? && d.anchor.value <= |w.log| && d.captured && d.changes.None?
    && Grounded(w.documents, w.log, d.anchor.value, w.relics)
    && (d.continuation.Some? ==> forall f <- w.shown :: Covered(w.documents, w.log, d.anchor.value, f))
  }

  /** A stretch of the log, read up to position `p`. */
  ghost predicate ReadUpTo(documents: Documents, log: Log, a: nat, p: nat, relics: set<Id>) {
    && a <= p <= |log|
    && Grounded(documents, log, a, relics) && Unheard(log, a, p, relics)
    && CaughtUp(documents, log, a, p) && AllCovered(documents, log, a)
  }

  ghost predicate CatchingUp(w: World) {
    var d := w.drive;
    && d.phase.Changes? && d.anchor.Some? && d.captured && d.continuation.None?
    && ReadUpTo(w.documents, w.log, d.anchor.value, Reached(d), w.relics)
  }

  ghost predicate Standing(w: World) {
    var d := w.drive;
    && d.captured && d.cursor.Some? && d.cursor.value <= |w.log| && d.changes.None? && d.continuation.None?
    && FaithfulBut(w.documents, w.log, d.cursor.value, w.relics)
  }

  ghost predicate Sound(w: World) {
    var d := w.drive;
    if NeedsBootstrap(d) then true
    else if d.done then Standing(w)
    else if d.phase.Unset? then
      if d.cursor.Some? then Standing(w)
      else !d.captured && d.continuation.None? && d.changes.None?
    else if d.phase.Files? then Listing(w)
    else CatchingUp(w)
  }

  lemma {:induction false} GrowsFaithfully(w: World, e: Event, n: nat)
    requires n <= |w.log|
    ensures FaithfulBut(w.documents, w.log, n, w.relics) ==> FaithfulBut(w.documents, w.log + [e], n, w.relics)
  {
    forall f { Prefix(w.log, e, n, f); }
  }

  lemma {:induction false} GrowsInPhase(documents: Documents, log: Log, e: Event, a: nat, p: nat, relics: set<Id>)
    requires a <= p <= |log|
    ensures Grounded(documents, log, a, relics) ==> Grounded(documents, log + [e], a, relics)
    ensures Unheard(log, a, p, relics) ==> Unheard(log + [e], a, p, relics)
    ensures CaughtUp(documents, log, a, p) ==> CaughtUp(documents, log + [e], a, p)
    ensures forall f | Covered(documents, log, a, f) :: Covered(documents, log + [e], a, f)
  {
    var grown := log + [e];
    forall f
      ensures At(grown, a, f) == At(log, a, f) && Kept(grown, a, f) == Kept(log, a, f) &&
        Kept(grown, p, f) == Kept(log, p, f)
      ensures Settled(log, a, |log|, f) ==> Settled(grown, a, |grown|, f)
      ensures Touched(log, a, |log|, f) ==> Touched(grown, a, |grown|, f)
      ensures Settled(grown, a, p, f) ==> Settled(log, a, p, f)
    {
      Prefix(log, e, a, f);
      Prefix(log, e, p, f);
      if Settled(log, a, |log|, f) {
        var i :| a <= i < |log| && log[i].file == f && log[i].Speaks();
        assert grown[i] == log[i];
      }
      if Touched(log, a, |log|, f) {
        var i :| a <= i < |log| && log[i].file == f;
        assert grown[i] == log[i];
      }
      if Settled(grown, a, p, f) {
        var i :| a <= i < p && grown[i].file == f && grown[i].Speaks();
        assert grown[i] == log[i];
      }
    }
  }

  lemma {:induction false} HappeningKeepsSound(w: World, e: Event)
    requires Sound(w)
    ensures Sound(After(w, Happens(e)))
  {
    var d := w.drive;
    if d.cursor.Some? && d.cursor.value <= |w.log| {
      GrowsFaithfully(w, e, d.cursor.value);
    }
    if d.anchor.Some? && d.anchor.value <= |w.log| {
      GrowsInPhase(w.documents, w.log, e, d.anchor.value, d.anchor.value, w.relics);
      if d.anchor.value <= Reached(d) <= |w.log| {
        GrowsInPhase(w.documents, w.log, e, d.anchor.value, Reached(d), w.relics);
      }
    }
  }

  lemma ToldConcat(relics: set<Id>, a: seq<Delivery>, b: seq<Delivery>)
    ensures relics - Told(a) - Told(b) == relics - Told(a + b)
  {
    assert Told(a + b) == Told(a) + Told(b) by {
      forall d ensures d in a + b <==> d in a || d in b {}
    }
  }

  /** What a page of entries has been made into so far: documents and remaining relics. */
  type Progress = (Documents, set<Id>, nat) -> bool

  /** What holds of each entry's deliveries in turn holds of the page's. */
  lemma {:induction false} PageFolds(documents: Documents, relics: set<Id>, entries: seq<Entry>, holds: Progress,
      n: nat)
    requires n <= |entries| && holds(documents, relics, 0)
    requires forall i, ds, rs | 0 <= i < n && holds(ds, rs, i) ::
      holds(ApplyAll(ds, EntryDelivery(entries[i])), rs - Told(EntryDelivery(entries[i])), i + 1)
    ensures
      var ds := Deliveries(entries[..n]);
      holds(ApplyAll(documents, ds), relics - Told(ds), n)
  {
    if n == 0 {
      assert relics - Told([]) == relics;
    } else {
      PageFolds(documents, relics, entries, holds, n - 1);
      var init, e := Deliveries(entries[..n - 1]), EntryDelivery(entries[n - 1]);
      DeliveriesNext(entries, n - 1);
      assert Deliveries(entries[..n]) == init + e;
      assert holds(ApplyAll(documents, init), relics - Told(init), n - 1);
      ApplyConcat(documents, init, e);
      ToldConcat(relics, init, e);
    }
  }

  /** A listed page, read entry by entry. */
  ghost predicate ListedSoFar(
    before: Documents, log: Log, a: nat, entries: seq<Entry>, documents: Documents, relics: set<Id>, i: nat)
    requires a <= |log|
  {
    && i <= |entries| && Grounded(documents, log, a, relics)
    && forall f | f in FilesOf(entries[..i]) || Covered(before, log, a, f) :: Covered(documents, log, a, f)
  }

  lemma {:induction false} ListedPage(documents: Documents, log: Log, a: nat, relics: set<Id>, entries: seq<Entry>)
    requires a <= |log| && Grounded(documents, log, a, relics)
    requires forall e <- entries :: ShownSince(log, a, e)
    ensures
      var ds := Deliveries(entries);
      var after := ApplyAll(documents, ds);
      && Grounded(after, log, a, relics - Told(ds))
      && forall f | f in FilesOf(entries) || Covered(documents, log, a, f) :: Covered(after, log, a, f)
  {
    var holds: Progress := (ds, rs, i) => ListedSoFar(documents, log, a, entries, ds, rs, i);
    forall i, ds, rs | 0 <= i < |entries| && holds(ds, rs, i)
      ensures holds(ApplyAll(ds, EntryDelivery(entries[i])), rs - Told(EntryDelivery(entries[i])), i + 1)
    {
      ListedEntry(ds, log, a, rs, entries[i]);
      FilesGrow(entries, i);
    }
    PageFolds(documents, relics, entries, holds, |entries|);
    assert entries[..|entries|] == entries;
  }

  lemma FilesGrow(entries: seq<Entry>, i: nat)
    requires i < |entries|
    ensures FilesOf(entries[..i + 1]) == FilesOf(entries[..i]) + {entries[i].file}
  {
    assert entries[..i + 1] == entries[..i] + [entries[i]];
    assert forall g :: g in entries[..i + 1] <==> g in entries[..i] || g == entries[i];
    assert entries[i] in entries[..i + 1];
  }

  lemma {:induction false} ListedEntry(documents: Documents, log: Log, a: nat, relics: set<Id>, e: Entry)
    requires a <= |log| && Grounded(documents, log, a, relics)
    requires ShownSince(log, a, e)
    ensures Grounded(ApplyAll(documents, EntryDelivery(e)), log, a, relics - Told(EntryDelivery(e)))
    ensures Covered(ApplyAll(documents, EntryDelivery(e)), log, a, e.file)
    ensures forall f | Covered(documents, log, a, f) :: Covered(ApplyAll(documents, EntryDelivery(e)), log, a, f)
  {
    var ds := EntryDelivery(e);
    var after := ApplyAll(documents, ds);
    EntryTells(e);
    var t :| a <= t <= |log| && At(log, t, e.file) == e.state;
    Untouched(log, a, t, e.file);
    KeptIsAt(log, t, e.file);
    SubSpan(log, a, t, e.file);
    forall f | f in after && !Settled(log, a, |log|, f) && f !in relics - Told(ds) ensures Kept(log, a, f) != Nothing {
      EntryApplies(documents, e, f);
    }
    forall f | f in relics - Told(ds) ensures f in after {
      EntryApplies(documents, e, f);
    }
    forall f | f == e.file || Covered(documents, log, a, f) ensures Covered(after, log, a, f) {
      EntryApplies(documents, e, f);
    }
  }

  /** An entry delivers something of its file unless it shows it plain. */
  lemma EntryTells(e: Entry)
    requires e.Removed? || e.Bare? || (e.Shown? && !e.state.Gone?)
    ensures Told(EntryDelivery(e)) == if e.Shown? && e.state.Plain? then {} else {e.file}
  {
    var ds := EntryDelivery(e);
    if |ds| == 1 {
      assert ds[0] in ds;
    }
  }

  lemma SubSpan(log: Log, a: nat, t: nat, f: Id)
    requires a <= t <= |log|
    ensures Touched(log, a, t, f) ==> Touched(log, a, |log|, f)
    ensures Settled(log, a, t, f) ==> Settled(log, a, |log|, f)
  {
  }

  lemma {:induction false} ChangedEntry(documents: Documents, log: Log, a: nat, p: nat, relics: set<Id>, e: Entry)
    requires p < |log| && Reports(e, log[p]) && ReadUpTo(documents, log, a, p, relics)
    ensures ReadUpTo(ApplyAll(documents, EntryDelivery(e)), log, a, p + 1, relics - Told(EntryDelivery(e)))
  {
    var after, left := ApplyAll(documents, EntryDelivery(e)), relics - Told(EntryDelivery(e));
    EntryTells(e);
    assert log[p].Speaks() ==> Settled(log, a, |log|, e.file);
    forall f | f in after && !Settled(log, a, |log|, f) && f !in left ensures Kept(log, a, f) != Nothing {
      EntryApplies(documents, e, f);
    }
    forall f | f in left ensures f in after {
      EntryApplies(documents, e, f);
    }
    assert Touched(log, a, |log|, e.file) by { assert log[p].file == e.file; }
    forall f ensures Covered(after, log, a, f) {
      EntryApplies(documents, e, f);
      assert Covered(documents, log, a, f);
    }
    EntryCatchesUp(documents, log, a, p, e);
    var q := p + 1;
    forall f | f in left ensures !Settled(log, a, q, f) {
      assert !Settled(log, a, p, f);
    }
  }

  /** A page of changes, read entry by entry. */
  lemma {:induction false} ChangedPage(
    documents: Documents, log: Log, a: nat, p: nat, relics: set<Id>, entries: seq<Entry>)
    requires p + |entries| <= |log| && ReadUpTo(documents, log, a, p, relics)
    requires forall i | 0 <= i < |entries| :: Reports(entries[i], log[p + i])
    ensures
      var ds := Deliveries(entries);
      ReadUpTo(ApplyAll(documents, ds), log, a, p + |entries|, relics - Told(ds))
  {
    assert entries[..|entries|] == entries;
    ChangedUpTo(documents, log, a, p, relics, entries, |entries|);
  }

  lemma {:induction false} ChangedUpTo(
    documents: Documents, log: Log, a: nat, p: nat, relics: set<Id>, entries: seq<Entry>, n: nat)
    requires n <= |entries| && p + |entries| <= |log| && ReadUpTo(documents, log, a, p, relics)
    requires forall i | 0 <= i < |entries| :: Reports(entries[i], log[p + i])
    ensures
      var ds := Deliveries(entries[..n]);
      ReadUpTo(ApplyAll(documents, ds), log, a, p + n, relics - Told(ds))
  {
    if n == 0 {
      assert relics - Told([]) == relics;
    } else {
      var init, e := Deliveries(entries[..n - 1]), EntryDelivery(entries[n - 1]);
      ChangedUpTo(documents, log, a, p, relics, entries, n - 1);
      ChangedEntry(ApplyAll(documents, init), log, a, p + n - 1, relics - Told(init), entries[n - 1]);
      DeliveriesNext(entries, n - 1);
      ApplyConcat(documents, init, e);
      ToldConcat(relics, init, e);
    }
  }

  lemma {:induction false} EntryCatchesUp(documents: Documents, log: Log, a: nat, p: nat, e: Entry)
    requires a <= p < |log| && Reports(e, log[p]) && CaughtUp(documents, log, a, p)
    ensures CaughtUp(ApplyAll(documents, EntryDelivery(e)), log, a, p + 1)
  {
    var q := p + 1;
    forall f | Settled(log, a, q, f) ensures Follows(ApplyAll(documents, EntryDelivery(e)), f, Kept(log, q, f)) {
      EntryApplies(documents, e, f);
      var i :| a <= i < q && log[i].file == f && log[i].Speaks();
      if i < p {
        assert Settled(log, a, p, f);
      }
    }
  }

  /** Having read the whole log from the anchor, the documents are faithful at its end, but
      for relics. */
  lemma {:induction false} CaughtUpIsFaithful(documents: Documents, log: Log, a: nat, relics: set<Id>)
    requires ReadUpTo(documents, log, a, |log|, relics)
    ensures FaithfulBut(documents, log, |log|, relics)
  {
    forall f
      ensures At(log, |log|, f).Text? ==> Agrees(documents, f, At(log, |log|, f))
      ensures f in documents ==> Kept(log, |log|, f) != Nothing || f in relics
      ensures f in relics ==> f in documents && Kept(log, |log|, f) == Nothing
    {
      Untouched(log, a, |log|, f);
      KeptIsAt(log, |log|, f);
      assert Covered(documents, log, a, f);
      if Settled(log, a, |log|, f) {
        assert Follows(documents, f, Kept(log, |log|, f));
      }
    }
  }

  /** Standing at a cursor is a place to read the log on from. */
  lemma {:induction false} FaithfulIsCaughtUp(documents: Documents, log: Log, a: nat, relics: set<Id>)
    requires a <= |log| && FaithfulBut(documents, log, a, relics)
    ensures ReadUpTo(documents, log, a, a, relics)
  {
  }

  /** The log can always be read again from the anchor. */
  lemma {:induction false} ReadAgain(documents: Documents, log: Log, a: nat, p: nat, relics: set<Id>)
    requires ReadUpTo(documents, log, a, p, relics)
    ensures ReadUpTo(documents, log, a, a, relics)
  {
  }

  lemma {:induction false} FilesTurnKeepsSound(w: World, d: Drive, page: Fetched<Page>, shown: set<Id>, relics: set<Id>)
    requires Listing(World(w.log, d, w.documents, shown, relics)) && !NeedsBootstrap(d) && !d.done
    requires page.Got? ==> HonestListing(w.log, d.anchor.value, shown, page.value)
    requires d.continuation.None? ==> shown == {}
    ensures
      var turn := FilesTurn(d, page);
      Sound(World(w.log, turn.drive, ApplyAll(w.documents, turn.deliveries),
                  if page.Got? then shown + FilesOf(page.value.entries) else shown, relics - Told(turn.deliveries)))
  {
    if page.Lost? {
      assert relics - Told([]) == relics;
    } else {
      var a := d.anchor.value;
      ListedPage(w.documents, w.log, a, relics, page.value.entries);
      var after := ApplyAll(w.documents, Deliveries(page.value.entries));
      if page.value.continuation.None? {
        forall f ensures Covered(after, w.log, a, f) {
          if !Touched(w.log, a, |w.log|, f) && At(w.log, a, f).Text? {
            assert f in shown + FilesOf(page.value.entries);
          }
        }
      }
    }
  }

  /** Where a page of changes that was read leads. */
  lemma {:induction false} ChangesLead(w: World, d: Drive, page: Page, after: Documents, left: set<Id>)
    requires !NeedsBootstrap(d) && !d.done && d.phase.Changes? && d.anchor.Some? && d.captured && d.continuation.None?
    requires HonestChanges(w.log, Reached(d), page) && Consistent(page.entries)
    requires ReadUpTo(after, w.log, d.anchor.value, Reached(d) + |page.entries|, left)
    ensures Sound(w.(drive := ChangesTurn(d, Got(page)).drive, documents := after, relics := left))
  {
    var a, q := d.anchor.value, Reached(d) + |page.entries|;
    if page.continuation.Some? {
      assert CatchingUp(w.(drive := d.(changes := Some(q)), documents := after, relics := left));
    } else if page.cursor.Some? {
      CaughtUpIsFaithful(after, w.log, a, left);
    } else {
      ReadAgain(after, w.log, a, q, left);
      assert CatchingUp(w.(drive := d.(changes := None), documents := after, relics := left));
    }
  }

  lemma {:induction false} ChangesReadKeepsSound(w: World, d: Drive, page: Page)
    requires CatchingUp(w.(drive := d)) && !NeedsBootstrap(d) && !d.done
    requires HonestChanges(w.log, Reached(d), page) && Consistent(page.entries)
    ensures
      var turn := ChangesTurn(d, Got(page));
      Sound(w.(drive := turn.drive, documents := ApplyAll(w.documents, turn.deliveries),
               relics := w.relics - Told(turn.deliveries)))
  {
    var ds := Deliveries(page.entries);
    ChangedPage(w.documents, w.log, d.anchor.value, Reached(d), w.relics, page.entries);
    ChangesLead(w, d, page, ApplyAll(w.documents, ds), w.relics - Told(ds));
  }

  lemma {:induction false} ChangesTurnKeepsSound(w: World, d: Drive, page: Fetched<Page>)
    requires CatchingUp(w.(drive := d)) && !NeedsBootstrap(d) && !d.done
    requires page.Got? ==> HonestChanges(w.log, Reached(d), page.value)
    ensures
      var turn := ChangesTurn(d, page);
      Sound(w.(drive := turn.drive, documents := ApplyAll(w.documents, turn.deliveries),
               relics := w.relics - Told(turn.deliveries)))
  {
    if page.Got? && Consistent(page.value.entries) {
      ChangesReadKeepsSound(w, d, page.value);
    } else {
      assert ApplyAll(w.documents, []) == w.documents && w.relics - Told([]) == w.relics;
      ReadAgain(w.documents, w.log, d.anchor.value, Reached(d), w.relics);
      assert CatchingUp(w.(drive := Cleared(d)));
    }
  }

  /** Taking the anchor at the end of the log: every document is grounded or a relic. */
  lemma {:induction false} AnchorGrounds(documents: Documents, log: Log)
    ensures Grounded(documents, log, |log|, Relics(documents, log, |log|))
  {
  }

  lemma {:induction false} ReadingKeepsSound(w: World, start: Fetched<Option<Token>>, page: Fetched<Page>)
    requires Sound(w) && Honest(w, start, page)
    ensures Sound(After(w, Reads(start, page)))
  {
    var d := Working(w.drive);
    assert ApplyAll(w.documents, []) == w.documents && w.relics - Told([]) == w.relics;
    if d.done {
    } else if d.phase.Files? {
      FilesTurnKeepsSound(w, d, page, if d.continuation.None? then {} else w.shown, w.relics);
    } else if d.phase.Changes? {
      ChangesTurnKeepsSound(w, d, page);
    } else if d.cursor.Some? {
      FaithfulIsCaughtUp(w.documents, w.log, d.cursor.value, w.relics);
      ChangesTurnKeepsSound(w, d.(anchor := d.cursor, phase := Changes), page);
    } else if start.Got? && start.value.Some? {
      AnchorGrounds(w.documents, w.log);
      FilesTurnKeepsSound(w, d.(anchor := start.value, captured := true, phase := Files), page, {},
                          Relics(w.documents, w.log, |w.log|));
    }
  }

  lemma {:induction false} StepKeepsSound(w: World, s: Step)
    requires Sound(w) && Allowed(w, s)
    ensures Sound(After(w, s))
  {
    match s
    case Happens(e) => HappeningKeepsSound(w, e);
    case Reads(start, page) => ReadingKeepsSound(w, start, page);
    case NextRound =>
  }

  function Run(w: World, steps: seq<Step>): World {
    if steps == [] then w else After(Run(w, steps[..|steps| - 1]), steps[|steps| - 1])
  }

  ghost predicate AllAllowed(w: World, steps: seq<Step>) {
    forall i | 0 <= i < |steps| :: Allowed(Run(w, steps[..i]), steps[i])
  }

  lemma {:induction false} RunKeepsSound(w: World, steps: seq<Step>)
    requires Sound(w) && AllAllowed(w, steps)
    ensures Sound(Run(w, steps))
  {
    if steps == [] {
    } else {
      var init := steps[..|steps| - 1];
      forall i | 0 <= i < |init| ensures Allowed(Run(w, init[..i]), init[i]) {
        assert init[..i] == steps[..i];
      }
      RunKeepsSound(w, init);
      StepKeepsSound(Run(w, init), steps[|steps| - 1]);
    }
  }

  /** Where a scan may begin or be restarted: over whatever documents there are. */
  predicate Scans(w: World) {
    var d := Working(w.drive);
    StartsListing(d) && !d.captured && d.continuation.None? && d.changes.None?
  }

  /** However the provider's log grows, calls fail, continuations are dropped, pages are
      replayed and scans restart over stored documents: whenever a round is done, the
      documents are faithful at its cursor but for relics, so faithful if and only if there
      is no relic.  Faithful documents are exact if and only if none of them is of a file
      without text; no file lingering at the cursor rules that out. */
  lemma {:induction false} RoundsEndFaithful(start: World, steps: seq<Step>)
    requires Scans(start) && AllAllowed(start, steps) && Run(start, steps).drive.done &&
      !NeedsBootstrap(Run(start, steps).drive)
    ensures
      var w := Run(start, steps);
      && w.drive.cursor.Some? && w.drive.cursor.value <= |w.log|
      && var n := w.drive.cursor.value;
         && FaithfulBut(w.documents, w.log, n, w.relics)
         && (Faithful(w.documents, w.log, n) <==> w.relics == {})
         && (Exact(w.documents, w.log, n) <==> forall f <- w.documents :: At(w.log, n, f).Text?)
         && (w.relics == {} && (forall f :: !Lingers(w.log, n, f)) ==> Exact(w.documents, w.log, n))
  {
    RunKeepsSound(start, steps);
    var w := Run(start, steps);
    FaithfulIsExact(w.documents, w.log, w.drive.cursor.value, w.relics);
  }

  lemma {:induction false} FaithfulIsExact(documents: Documents, log: Log, n: nat, relics: set<Id>)
    requires n <= |log| && FaithfulBut(documents, log, n, relics)
    ensures Faithful(documents, log, n) <==> relics == {}
    ensures Exact(documents, log, n) <==> forall f <- documents :: At(log, n, f).Text?
    ensures relics == {} && (forall f :: !Lingers(log, n, f)) ==> Exact(documents, log, n)
  {
    if relics != {} {
      var f :| f in relics;
      assert f in documents;
    }
    if forall f <- documents :: At(log, n, f).Text? {
      forall f ensures Agrees(documents, f, At(log, n, f)) {
        if !At(log, n, f).Text? { assert f !in documents; }
      }
    }
    if Exact(documents, log, n) {
      forall f | f in documents ensures At(log, n, f).Text? {
        assert Agrees(documents, f, At(log, n, f));
      }
    }
    if relics == {} && forall f :: !Lingers(log, n, f) {
      forall f | f in documents ensures At(log, n, f).Text? {
        assert !Lingers(log, n, f);
      }
    }
  }

  // ----------------------------------------------------------------------
  // What the pages delivered
  // ----------------------------------------------------------------------

  /** Everything delivered over a run. */
  function AllDelivered(w: World, steps: seq<Step>): seq<Delivery> {
    if steps == [] then []
    else
      var init, last := steps[..|steps| - 1], steps[|steps| - 1];
      AllDelivered(w, init) +
      if last.Reads? then Round(Run(w, init).drive, last.start, last.page).deliveries else []
  }

  /** The last delivery about a file is a document. */
  predicate LastUpserted(ds: seq<Delivery>, f: Id) {
    ds != [] &&
    var last := ds[|ds| - 1];
    if last.file == f then last.Upsert? else LastUpserted(ds[..|ds| - 1], f)
  }

  lemma {:induction false} DocumentIsLastUpsert(ds: seq<Delivery>, f: Id)
    ensures f in ApplyAll(map[], ds) <==> LastUpserted(ds, f)
  {
    if ds == [] {
    } else {
      DocumentIsLastUpsert(ds[..|ds| - 1], f);
    }
  }

  lemma {:induction false} RunDelivers(w: World, steps: seq<Step>)
    ensures Run(w, steps).documents == ApplyAll(w.documents, AllDelivered(w, steps))
  {
    if steps == [] {
    } else {
      var init, last := steps[..|steps| - 1], steps[|steps| - 1];
      RunDelivers(w, init);
      if last.Reads? {
        ApplyConcat(w.documents, AllDelivered(w, init), Round(Run(w, init).drive, last.start, last.page).deliveries);
      } else {
        assert AllDelivered(w, init) + [] == AllDelivered(w, init);
      }
    }
  }

  /** After a first scan and any rounds, the documents are exact if and only if no file
      without text at the cursor was last delivered as a document. */
  lemma {:induction false} ExactByPages(steps: seq<Step>)
    requires AllAllowed(START, steps) && Run(START, steps).drive.done && !NeedsBootstrap(Run(START, steps).drive)
    ensures
      var w := Run(START, steps);
      && w.drive.cursor.Some? && w.drive.cursor.value <= |w.log|
      && (Exact(w.documents, w.log, w.drive.cursor.value) <==>
            forall f | !At(w.log, w.drive.cursor.value, f).Text? :: !LastUpserted(AllDelivered(START, steps), f))
  {
    RoundsEndFaithful(START, steps);
    RunDelivers(START, steps);
    var w, ds := Run(START, steps), AllDelivered(START, steps);
    forall f ensures f in w.documents <==> LastUpserted(ds, f) {
      DocumentIsLastUpsert(ds, f);
    }
  }

  /** Every document is what the corpus was told last. */
  ghost predicate UpToDate(documents: Documents, log: Log, n: nat)
    requires n <= |log|
  {
    forall f :: Follows(documents, f, Kept(log, n, f))
  }

  /** Reading the log on keeps the documents up to date, and they are then exact if and only
      if no file lingers: none without text of which the last that was said is that it had
      some, or a change without metadata. */
  lemma {:induction false} CatchingUpExactly(documents: Documents, log: Log, a: nat, entries: seq<Entry>)
    requires a + |entries| == |log| && UpToDate(documents, log, a)
    requires forall i | 0 <= i < |entries| :: Reports(entries[i], log[a + i])
    ensures
      var after := ApplyAll(documents, Deliveries(entries));
      && UpToDate(after, log, |log|)
      && (Exact(after, log, |log|) <==> forall f :: !Lingers(log, |log|, f))
  {
    ReadingOn(documents, log, a, entries);
    var after := ApplyAll(documents, Deliveries(entries));
    forall f
      ensures Agrees(after, f, At(log, |log|, f)) <==> !Lingers(log, |log|, f)
    {
      KeptIsAt(log, |log|, f);
      assert Follows(after, f, Kept(log, |log|, f));
    }
  }

  ghost function TellsFrom(log: Log, a: nat): Progress {
    (ds, rs, i) => a + i <= |log| && UpToDate(ds, log, a + i)
  }

  lemma {:induction false} ToldOne(documents: Documents, log: Log, p: nat, e: Entry)
    requires p < |log| && UpToDate(documents, log, p) && Reports(e, log[p])
    ensures UpToDate(ApplyAll(documents, EntryDelivery(e)), log, p + 1)
  {
    var q := p + 1;
    forall f ensures Follows(ApplyAll(documents, EntryDelivery(e)), f, Kept(log, q, f)) {
      EntryApplies(documents, e, f);
      assert Follows(documents, f, Kept(log, p, f));
    }
  }

  lemma {:induction false} ReadingOn(documents: Documents, log: Log, a: nat, entries: seq<Entry>)
    requires a + |entries| <= |log| && UpToDate(documents, log, a)
    requires forall i | 0 <= i < |entries| :: Reports(entries[i], log[a + i])
    ensures UpToDate(ApplyAll(documents, Deliveries(entries)), log, a + |entries|)
  {
    var holds := TellsFrom(log, a);
    forall i, ds, rs | 0 <= i < |entries| && holds(ds, rs, i)
      ensures holds(ApplyAll(ds, EntryDelivery(entries[i])), rs - Told(EntryDelivery(entries[i])), i + 1)
    {
      ToldOne(ds, log, a + i, entries[i]);
    }
    PageFolds(documents, {}, entries, holds, |entries|);
    assert entries[..|entries|] == entries;
  }

  /** A file whose text document was committed and which then becomes plain keeps it: the
      change is read and delivers nothing. */
  lemma PlainFileKeepsItsDocument(f: Id, v: nat, gap: bool)
    ensures
      var log := [Event(f, Text(v), false), Event(f, Plain, false)];
      var after := ApplyAll(map[f := Note(Some(v), gap)], Deliveries([Shown(f, Plain, false)]));
      && Exact(map[f := Note(Some(v), gap)], log, 1)
      && f in after && !Exact(after, log, 2)
  {
    var log := [Event(f, Text(v), false), Event(f, Plain, false)];
    var before := map[f := Note(Some(v), gap)];
    var e := Shown(f, Plain, false);
    assert [e][..0] == [];
    assert Deliveries([e]) == Deliveries([]) + EntryDelivery(e);
    forall g ensures Agrees(before, g, At(log, 1, g)) {
      assert At(log, 0, g) == Gone;
    }
    assert At(log, 2, f) == Plain;
    assert ApplyAll(before, []) == before;
    assert !Agrees(before, f, At(log, 2, f));
  }

  // ----------------------------------------------------------------------
  // A scan restarted over stored documents
  // ----------------------------------------------------------------------

  /** The anchor the latest listing of a run took, `a` if none did. */
  function AnchorNext(w: World, s: Step, a: nat): nat {
    if s.Reads? && StartsListing(Working(w.drive)) && s.start.Got? && s.start.value.Some? then |w.log| else a
  }

  function AnchorTaken(w: World, steps: seq<Step>): nat {
    if steps == [] then 0
    else
      var init := steps[..|steps| - 1];
      AnchorNext(Run(w, init), steps[|steps| - 1], AnchorTaken(w, init))
  }

  /** Until it is done, a scan remembers the documents it found: before its anchor they are
      untouched, and after it the relics are those it has delivered nothing of. */
  ghost predicate Remembers(found: Documents, told: set<Id>, a: nat, w: World) {
    var d := Working(w.drive);
    && !d.done && !w.drive.done
    && if StartsListing(d) then w.documents == found && told == {}
       else !d.phase.Unset? && d.anchor == Some(a) && a <= |w.log| && w.relics == Relics(found, w.log, a) - told
  }

  lemma {:induction false} RelicsGrow(documents: Documents, log: Log, e: Event, a: nat)
    requires a <= |log|
    ensures Relics(documents, log + [e], a) == Relics(documents, log, a)
  {
    forall f ensures Kept(log + [e], a, f) == Kept(log, a, f) { Prefix(log, e, a, f); }
  }

  /** What a round makes of the anchor. */
  lemma {:induction false} RoundAnchors(w: World, start: Fetched<Option<Token>>, page: Fetched<Page>)
    requires Sound(w) && Honest(w, start, page) && !Working(w.drive).done
    requires StartsListing(Working(w.drive)) || (!Working(w.drive).phase.Unset? && Working(w.drive).anchor.Some?)
    ensures
      var d, turn := Working(w.drive), Round(w.drive, start, page);
      var e := Working(turn.drive);
      if !StartsListing(d) then turn.drive.done || (!e.done && !e.phase.Unset? && e.anchor == d.anchor)
      else if start.Got? && start.value.Some? then !turn.drive.done && !e.done && !e.phase.Unset? &&
        e.anchor == start.value
      else turn.deliveries == [] && !turn.drive.done && !e.done && StartsListing(e)
  {
  }

  lemma {:induction false} ScanReads(
    found: Documents, told: set<Id>, a: nat, w: World, start: Fetched<Option<Token>>, page: Fetched<Page>)
    requires Sound(w) && Honest(w, start, page) && Remembers(found, told, a, w)
    ensures
      var s := Reads(start, page);
      var v, b := After(w, s), AnchorNext(w, s, a);
      var now := told + Told(Round(w.drive, start, page).deliveries);
      if v.drive.done then b <= |v.log| && v.relics == Relics(found, v.log, b) - now
      else Remembers(found, now, b, v)
  {
    var ds := Round(w.drive, start, page).deliveries;
    var b := AnchorNext(w, Reads(start, page), a);
    RoundAnchors(w, start, page);
    assert Told([]) == {};
    assert ApplyAll(w.documents, []) == w.documents;
    if b <= |w.log| {
      MinusBoth(Relics(found, w.log, b), told, Told(ds));
    }
  }

  lemma MinusBoth(relics: set<Id>, a: set<Id>, b: set<Id>)
    ensures relics - a - b == relics - (a + b)
  {
  }

  /** One step of a scan. */
  lemma {:induction false} ScanStep(found: Documents, told: set<Id>, a: nat, w: World, s: Step)
    requires Sound(w) && Allowed(w, s) && Remembers(found, told, a, w)
    ensures
      var v, b := After(w, s), AnchorNext(w, s, a);
      var now := told + if s.Reads? then Told(Round(w.drive, s.start, s.page).deliveries) else {};
      if v.drive.done then b <= |v.log| && v.relics == Relics(found, v.log, b) - now
      else Remembers(found, now, b, v)
  {
    if s.Reads? {
      ScanReads(found, told, a, w, s.start, s.page);
    } else {
      assert told + {} == told;
      if s.Happens? && !StartsListing(Working(w.drive)) {
        RelicsGrow(found, w.log, s.event, a);
      }
    }
  }

  lemma {:induction false} ScanRemembers(w: World, steps: seq<Step>)
    requires Scans(w) && AllAllowed(w, steps)
    requires forall i | 0 <= i <= |steps| :: !Run(w, steps[..i]).drive.done
    ensures Remembers(w.documents, Told(AllDelivered(w, steps)), AnchorTaken(w, steps), Run(w, steps))
  {
    assert steps[..|steps|] == steps;
    if steps == [] {
    } else {
      var init, last := steps[..|steps| - 1], steps[|steps| - 1];
      forall i | 0 <= i <= |init| ensures init[..i] == steps[..i] {}
      forall i | 0 <= i < |init| ensures Allowed(Run(w, init[..i]), init[i]) {
        assert init[..i] == steps[..i];
      }
      ScanRemembers(w, init);
      RunKeepsSound(w, init);
      ScanStep(w.documents, Told(AllDelivered(w, init)), AnchorTaken(w, init), Run(w, init), last);
      ToldNext(w, steps);
    }
  }

  lemma ToldNext(w: World, steps: seq<Step>)
    requires steps != []
    ensures
      var init, last := steps[..|steps| - 1], steps[|steps| - 1];
      Told(AllDelivered(w, steps)) == Told(AllDelivered(w, init)) +
        if last.Reads? then Told(Round(Run(w, init).drive, last.start, last.page).deliveries) else {}
  {
    var init, last := steps[..|steps| - 1], steps[|steps| - 1];
    var more := if last.Reads? then Round(Run(w, init).drive, last.start, last.page).deliveries else [];
    assert forall d :: d in AllDelivered(w, init) + more <==> d in AllDelivered(w, init) || d in more;
    assert Told([]) == {};
  }

  /** The end of a scan: the relics are those of the anchor it took of which it has delivered
      nothing. */
  lemma {:induction false} ScanEnds(w: World, steps: seq<Step>)
    requires Scans(w) && steps != [] && AllAllowed(w, steps) && Run(w, steps).drive.done
    requires forall i | 0 <= i < |steps| :: !Run(w, steps[..i]).drive.done
    ensures
      var v, a := Run(w, steps), AnchorTaken(w, steps);
      && a <= |v.log| && v.relics == Relics(w.documents, v.log, a) - Told(AllDelivered(w, steps)) && Sound(v)
  {
    var init, last := steps[..|steps| - 1], steps[|steps| - 1];
    forall i | 0 <= i <= |init| ensures init[..i] == steps[..i] {}
    forall i | 0 <= i < |init| ensures Allowed(Run(w, init[..i]), init[i]) {
      assert init[..i] == steps[..i];
    }
    ScanRemembers(w, init);
    RunKeepsSound(w, init);
    ScanStep(w.documents, Told(AllDelivered(w, init)), AnchorTaken(w, init), Run(w, init), last);
    ToldNext(w, steps);
    RunKeepsSound(w, steps);
  }

  /** Exactly when a scan over stored documents, however many pages, growing logs and
      failures it takes, ends with faithful documents: of every file that had a document, the
      log said something kept by the anchor the scan took, or a page delivered something. */
  lemma {:induction false} RestartedScan(w: World, steps: seq<Step>)
    requires Scans(w) && steps != [] && AllAllowed(w, steps) && Run(w, steps).drive.done
    requires !NeedsBootstrap(Run(w, steps).drive)
    requires forall i | 0 <= i < |steps| :: !Run(w, steps[..i]).drive.done
    ensures
      var v, a := Run(w, steps), AnchorTaken(w, steps);
      && v.drive.cursor.Some? && v.drive.cursor.value <= |v.log| && a <= |v.log|
      && (Faithful(v.documents, v.log, v.drive.cursor.value) <==>
            forall f <- w.documents :: Kept(v.log, a, f) != Nothing || f in Told(AllDelivered(w, steps)))
  {
    ScanEnds(w, steps);
    var v, a := Run(w, steps), AnchorTaken(w, steps);
    FaithfulIsExact(v.documents, v.log, v.drive.cursor.value, v.relics);
    NoRelicsLeft(w.documents, v.log, a, Told(AllDelivered(w, steps)));
  }

  lemma NoRelicsLeft(found: Documents, log: Log, a: nat, told: set<Id>)
    requires a <= |log|
    ensures Relics(found, log, a) - told == {} <==> forall f <- found :: Kept(log, a, f) != Nothing || f in told
  {
    if f :| f in found && Kept(log, a, f) == Nothing && f !in told {
      assert f in Relics(found, log, a) - told;
    }
  }

  /** A checkpoint without a change cursor makes the scan restart over documents already
      stored: a file deleted before the new anchor keeps its document, as neither the listing
      nor the log mentions it. */
  lemma RestartKeepsDeletedFile(f: Id, v: nat)
    ensures
      var log := [Event(f, Text(v), false), Event(f, Gone, false)];
      var start, listing := Got(Some(|log|)), Got(Page([], None, None));
      var changes := Got(Page([], None, Some(|log|)));
      var w := World(log, Restored(FRESH), map[f := Note(Some(v), false)], {}, {});
      var done := After(After(w, Reads(start, listing)), Reads(start, changes));
      && Scans(w) && HonestListing(log, |log|, {}, listing.value) && HonestChanges(log, |log|, changes.value)
      && done.drive.done && done.drive.cursor == Some(|log|) && f in done.documents
      && !Faithful(done.documents, log, |log|)
  {
    var log := [Event(f, Text(v), false), Event(f, Gone, false)];
    assert At(log, 2, f) == Gone;
    assert At(log, 0, f) == Gone;
    forall g ensures At(log, |log|, g).Gone? {
      assert At(log, 0, g) == Gone;
    }
    var documents := map[f := Note(Some(v), false)];
    assert ApplyAll(documents, []) == documents;
    assert Kept(log, 2, f) == Nothing;
  }
}
