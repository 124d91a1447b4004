/**
 A full listing from a history cursor, then crawls of the history, keep the corpus faithful
 to the mailbox, however calls and details fail in between.
 */
module GmailRuns {
  import opened Basics
  import opened GmailSync

  // ----------------------------------------------------------------------
  // The mailbox's history
  // ----------------------------------------------------------------------

  datatype Event = Arrives(id: Id) | Leaves(id: Id)

  type Log = seq<Event>

  predicate Arrived(log: Log, n: nat, m: Id)
    requires n <= |log|
  {
    exists i | 0 <= i < n :: log[i] == Arrives(m)
  }

  predicate Left(log: Log, n: nat, m: Id)
    requires n <= |log|
  {
    exists i | 0 <= i < n :: log[i] == Leaves(m)
  }

  // ----------------------------------------------------------------------
  // Documents
  // ----------------------------------------------------------------------

  function Apply(documents: set<Id>, d: Delivery): set<Id> {
    match d
    case Upsert(m) => documents + {m}
    case Delete(m) => documents - {m}
  }

  function ApplyAll(documents: set<Id>, ds: seq<Delivery>): set<Id> {
    if ds == [] then documents else Apply(ApplyAll(documents, ds[..|ds| - 1]), ds[|ds| - 1])
  }

  lemma {:induction false} ApplyConcat(documents: set<Id>, a: seq<Delivery>, b: seq<Delivery>)
    ensures ApplyAll(documents, a + b) == ApplyAll(ApplyAll(documents, a), b)
  {
    if b == [] {
      assert a + b == a;
    } else {
      ApplyConcat(documents, a, b[..|b| - 1]);
      assert (a + b)[..|a + b| - 1] == a + b[..|b| - 1];
    }
  }

  /** The documents after a page: an entry of its own decides a message's document. */
  lemma {:induction false} PageDecides(documents: set<Id>, entries: seq<Entry>, m: Id)
    ensures
      var after := ApplyAll(documents, Deliveries(entries));
      && (Deleted(m) !in entries && (m in documents || Message(m, Found) in entries) ==> m in after)
      && (Message(m, Found) !in entries && (m !in documents || Deleted(m) in entries) ==> m !in after)
      && (m in after ==> m in documents || Message(m, Found) in entries)
  {
    if entries == [] {
    } else {
      var init, e := entries[..|entries| - 1], entries[|entries| - 1];
      PageDecides(documents, init, m);
      assert entries == init + [e];
      ApplyConcat(documents, Deliveries(init), DeliveryOf(e));
      OneDelivery(ApplyAll(documents, Deliveries(init)), e);
    }
  }

  lemma OneDelivery(documents: set<Id>, e: Entry)
    ensures ApplyAll(documents, DeliveryOf(e)) ==
      if e.Deleted? then documents - {e.id} else if e.detail == Found then documents + {e.id} else documents
  {
    var ds := DeliveryOf(e);
    if |ds| == 1 {
      assert ds[..0] == [];
      assert ApplyAll(documents, ds) == Apply(documents, ds[0]);
    }
  }

  /** At cursor `p`: every message that had arrived by then and is still there has its
      document, no message that had left by then has one, and none is made up. */
  ghost predicate Faithful(documents: set<Id>, log: Log, p: nat)
    requires p <= |log|
  {
    && (forall m | Arrived(log, p, m) && !Left(log, |log|, m) :: m in documents)
    && (forall m <- documents :: !Left(log, p, m) && Arrived(log, |log|, m))
  }

  /** The same, but for documents of some messages that had left long ago. */
  ghost predicate FaithfulBut(documents: set<Id>, log: Log, p: nat, relics: set<Id>)
    requires p <= |log|
  {
    && (forall m | Arrived(log, p, m) && !Left(log, |log|, m) :: m in documents)
    && CleanBut(documents, log, p, relics)
  }

  /** No document of a message that had left by the anchor, but for relics, and none made
      up. */
  ghost predicate CleanBut(documents: set<Id>, log: Log, a: nat, relics: set<Id>)
    requires a <= |log|
  {
    && (forall m <- documents :: (!Left(log, a, m) || m in relics) && Arrived(log, |log|, m))
    && (forall m <- relics :: Left(log, a, m))
  }

  /** The relics that still have documents are all that is in the way of being faithful. */
  lemma {:induction false} FaithfulWithoutRelics(documents: set<Id>, log: Log, p: nat, relics: set<Id>)
    requires p <= |log| && FaithfulBut(documents, log, p, relics)
    ensures Faithful(documents, log, p) <==> relics * documents == {}
  {
    if relics * documents != {} {
      var m :| m in relics * documents;
      assert Left(log, p, m);
    } else {
      forall m | m in documents ensures m !in relics {
        assert m in relics ==> m in relics * documents;
      }
    }
  }

  /** The documents of messages that had left by the anchor. */
  function Relics(documents: set<Id>, log: Log, a: nat): set<Id>
    requires a <= |log|
  {
    set m | m in documents && Left(log, a, m)
  }

  // ----------------------------------------------------------------------
  // Runs
  // ----------------------------------------------------------------------

  /** `shown` holds the messages finished pages of the current listing have shown, `relics`
      those that had a document when the latest listing began and had left by its anchor. */
  datatype World = World(log: Log, gmail: Gmail, documents: set<Id>, shown: set<Id>, relics: set<Id>)

  const START := World([], FRESH, {}, {}, {})

  datatype Step =
    | Happens(event: Event)
    | Reads(profile: Fetched<Option<Token>>, page: Fetched<Page>)
    | NextRound

  /** A detail is found only of a message that had not left when its page was read, and is
      missing only of one that has left since. */
  predicate HonestDetail(log: Log, q: nat, e: Entry)
    requires q <= |log|
  {
    e.Message? ==>
      && (e.detail == Found ==> Arrived(log, |log|, e.id) && !Left(log, q, e.id))
      && (e.detail == Missing ==> Left(log, |log|, e.id))
  }

  /** By its last page a listing has shown every message there all the time since the
      anchor. */
  ghost predicate HonestListing(log: Log, a: nat, shown: set<Id>, page: Page)
    requires a <= |log|
  {
    && (forall e <- page.entries :: e.Message? && HonestDetail(log, a, e))
    && (page.continuation.None? ==>
          forall m | Arrived(log, a, m) && !Left(log, |log|, m) :: m in shown + Ids(page.entries))
  }

  predicate Reports(e: Entry, v: Event) {
    e.id == v.id && (e.Message? <==> v.Arrives?)
  }

  /** A page of history reports a stretch of it in order, and its cursor, given on the last
      page, is where it stops. */
  ghost predicate HonestHistory(log: Log, p: nat, page: Page) {
    && p + |page.entries| <= |log|
    && (forall i | 0 <= i < |page.entries| :: Reports(page.entries[i], log[p + i]))
    && (forall e <- page.entries :: HonestDetail(log, p + |page.entries|, e))
    && (page.continuation.Some? ==> page.continuation.value == p + |page.entries|)
    && (page.continuation.None? && page.cursor.Some? ==> page.cursor.value == p + |page.entries|)
  }

  function Ids(entries: seq<Entry>): set<Id> {
    set e | e in entries :: e.id
  }

  /** Where a crawl stands, if this round would crawl. */
  function CrawlsFrom(g: Gmail): Option<Token> {
    if !g.incremental then None else if g.anchor.None? then g.cursor else if g.history.Some? then g.history
      else g.anchor
  }

  ghost predicate Honest(w: World, profile: Fetched<Option<Token>>, page: Fetched<Page>) {
    var g := w.gmail;
    && (profile.Got? ==> profile.value == Some(|w.log|))
    && (page.Got? && !g.done ==>
          match CrawlsFrom(g)
          case Some(p) => HonestHistory(w.log, p, page.value)
          case None =>
            var a := if g.anchor.Some? then g.anchor.value else |w.log|;
            a <= |w.log| && HonestListing(w.log, a, if g.continuation.None? then {} else w.shown, page.value))
  }

  function After(w: World, s: Step): World {
    match s
    case Happens(e) => w.(log := w.log + [e])
    case NextRound => if w.gmail.done then w.(gmail := Restored(w.gmail)) else w
    case Reads(profile, page) =>
      var turn := Round(w.gmail, profile, page);
      World(w.log, turn.gmail, ApplyAll(w.documents, turn.deliveries),
            if page.Got? && !turn.failed && AllRead(page.value.entries) then
              (if w.gmail.continuation.None? then {} else w.shown) + Ids(page.value.entries)
            else w.shown,
            if StartsListing(w.gmail) && profile.Got? then Relics(w.documents, w.log, |w.log|) else w.relics)
  }

  /** Whether this round begins a listing, with a history cursor taken first. */
  predicate StartsListing(g: Gmail) {
    !g.done && CrawlsFrom(g).None? && g.anchor.None?
  }

  ghost predicate Allowed(w: World, s: Step) {
    s.Reads? ==> Honest(w, s.profile, s.page)
  }

  // ----------------------------------------------------------------------
  // What every step keeps
  // ----------------------------------------------------------------------

  ghost predicate Listing(w: World) {
    var g := w.gmail;
    && g.captured && g.anchor.Some? && g.anchor.value <= |w.log| && g.cursor.None? && g.history.None?
    && CleanBut(w.documents, w.log, g.anchor.value, w.relics) && w.relics <= w.documents
    && (g.continuation.Some? ==> forall m <- w.shown :: m in w.documents || Left(w.log, |w.log|, m))
  }

  ghost predicate Crawling(w: World) {
    var g := w.gmail;
    && g.captured && g.continuation.None? && g.cursor.Some? && CrawlsFrom(g).Some?
    && g.cursor.value <= CrawlsFrom(g).value <= |w.log|
    && FaithfulBut(w.documents, w.log, CrawlsFrom(g).value, w.relics)
    && (forall m <- w.relics :: Left(w.log, g.cursor.value, m))
    && (g.anchor.Some? ==> g.anchor == g.cursor)
    && (g.anchor.None? ==> g.history.None?)
  }

  ghost predicate Standing(w: World) {
    var g := w.gmail;
    && g.captured && g.cursor.Some? && g.cursor.value <= |w.log|
    && g.anchor.None? && g.history.None? && g.continuation.None?
    && FaithfulBut(w.documents, w.log, g.cursor.value, w.relics)
    && (!g.incremental ==> w.relics <= w.documents)
  }

  /** Nothing is read yet, or the history has expired: the next listing starts from here. */
  ghost predicate Restarting(w: World) {
    var g := w.gmail;
    && g.anchor.None? && g.cursor.None? && g.continuation.None? && g.history.None? && !g.incremental && !g.done
    && forall m <- w.documents :: Arrived(w.log, |w.log|, m)
  }

  ghost predicate Sound(w: World) {
    var g := w.gmail;
    if g.done then Standing(w)
    else if g.incremental then Crawling(w)
    else if g.anchor.Some? then Listing(w)
    else Restarting(w)
  }

  lemma Grows(log: Log, e: Event, n: nat, m: Id)
    requires n <= |log|
    ensures Arrived(log + [e], n, m) == Arrived(log, n, m) && Left(log + [e], n, m) == Left(log, n, m)
    ensures Arrived(log, |log|, m) ==> Arrived(log + [e], |log| + 1, m)
    ensures Left(log, |log|, m) ==> Left(log + [e], |log| + 1, m)
  {
    var grown := log + [e];
    assert forall i | 0 <= i < |log| :: grown[i] == log[i];
    if Arrived(log, |log|, m) {
      var i :| 0 <= i < |log| && log[i] == Arrives(m);
      assert grown[i] == Arrives(m);
    }
    if Left(log, |log|, m) {
      var i :| 0 <= i < |log| && log[i] == Leaves(m);
      assert grown[i] == Leaves(m);
    }
  }

  lemma {:induction false} FaithfulGrows(documents: set<Id>, log: Log, e: Event, p: nat, relics: set<Id>)
    requires p <= |log|
    ensures FaithfulBut(documents, log, p, relics) ==> FaithfulBut(documents, log + [e], p, relics)
    ensures CleanBut(documents, log, p, relics) ==> CleanBut(documents, log + [e], p, relics)
  {
    forall m: Id
      ensures Arrived(log + [e], p, m) == Arrived(log, p, m) && Left(log + [e], p, m) == Left(log, p, m)
      ensures Arrived(log, |log|, m) ==> Arrived(log + [e], |log| + 1, m)
      ensures Left(log, |log|, m) ==> Left(log + [e], |log| + 1, m)
    {
      Grows(log, e, p, m);
    }
  }

  lemma {:induction false} HappeningKeepsSound(w: World, e: Event)
    requires Sound(w)
    ensures Sound(After(w, Happens(e)))
  {
    forall p: nat | p <= |w.log|
      ensures FaithfulBut(w.documents, w.log, p, w.relics) ==> FaithfulBut(w.documents, w.log + [e], p, w.relics)
      ensures CleanBut(w.documents, w.log, p, w.relics) ==> CleanBut(w.documents, w.log + [e], p, w.relics)
    {
      FaithfulGrows(w.documents, w.log, e, p, w.relics);
    }
    forall m: Id, p: nat | p <= |w.log|
      ensures Left(w.log + [e], p, m) == Left(w.log, p, m)
      ensures Left(w.log, |w.log|, m) ==> Left(w.log + [e], |w.log| + 1, m)
      ensures Arrived(w.log, |w.log|, m) ==> Arrived(w.log + [e], |w.log| + 1, m)
    {
      Grows(w.log, e, p, m);
    }
    var v := After(w, Happens(e));
    if Restarting(w) {
      forall m | m in v.documents ensures Arrived(v.log, |v.log|, m) {
        Grows(w.log, e, 0, m);
      }
    }
  }

  /** A page of history brings the documents from where it starts to where it stops; read in
      part, it does no harm. */
  lemma {:induction false} HistoryPage(documents: set<Id>, log: Log, p: nat, relics: set<Id>, page: Page)
    requires HonestHistory(log, p, page) && FaithfulBut(documents, log, p, relics)
    ensures
      var after := ApplyAll(documents, Deliveries(page.entries));
      && FaithfulBut(after, log, p, relics)
      && (AllRead(page.entries) ==> FaithfulBut(after, log, p + |page.entries|, relics))
  {
    var after := ApplyAll(documents, Deliveries(page.entries));
    HistoryLeavesClean(documents, log, p, relics, page);
    HistoryBrings(documents, log, p, relics, page);
    assert CleanBut(after, log, p, relics);
    assert CleanBut(after, log, p + |page.entries|, relics);
  }

  lemma {:induction false} HistoryLeavesClean(documents: set<Id>, log: Log, p: nat, relics: set<Id>, page: Page)
    requires HonestHistory(log, p, page) && FaithfulBut(documents, log, p, relics)
    ensures
      var after := ApplyAll(documents, Deliveries(page.entries));
      CleanBut(after, log, p, relics) && CleanBut(after, log, p + |page.entries|, relics)
  {
    LeftStays(log, p, p + |page.entries|);
    forall m | m in ApplyAll(documents, Deliveries(page.entries))
      ensures (!Left(log, p + |page.entries|, m) || m in relics) && Arrived(log, |log|, m)
    {
      PageDecides(documents, page.entries, m);
      HistoryMessage(log, p, page, m);
    }
  }

  lemma {:induction false} HistoryBrings(documents: set<Id>, log: Log, p: nat, relics: set<Id>, page: Page)
    requires HonestHistory(log, p, page) && FaithfulBut(documents, log, p, relics)
    ensures
      var after, q := ApplyAll(documents, Deliveries(page.entries)), p + |page.entries|;
      && (forall m | Arrived(log, p, m) && !Left(log, |log|, m) :: m in after)
      && (AllRead(page.entries) ==> forall m | Arrived(log, q, m) && !Left(log, |log|, m) :: m in after)
  {
    var after, q := ApplyAll(documents, Deliveries(page.entries)), p + |page.entries|;
    forall m
      ensures Arrived(log, p, m) && !Left(log, |log|, m) ==> m in after
      ensures AllRead(page.entries) && Arrived(log, q, m) && !Left(log, |log|, m) ==> m in after
    {
      PageDecides(documents, page.entries, m);
      HistoryMessage(log, p, page, m);
    }
  }

  /** What a page of history says of one message. */
  lemma {:induction false} HistoryMessage(log: Log, p: nat, page: Page, m: Id)
    requires HonestHistory(log, p, page)
    ensures
      var q := p + |page.entries|;
      && (Deleted(m) in page.entries ==> Left(log, q, m))
      && (Left(log, q, m) ==> Left(log, p, m) || Deleted(m) in page.entries)
      && (Message(m, Found) in page.entries ==> !Left(log, q, m) && Arrived(log, |log|, m))
      && (AllRead(page.entries) && Arrived(log, q, m) && !Left(log, |log|, m) ==>
            Arrived(log, p, m) || Message(m, Found) in page.entries)
      && (Left(log, q, m) ==> Left(log, |log|, m))
  {
    var q := p + |page.entries|;
    if Deleted(m) in page.entries {
      var i :| 0 <= i < |page.entries| && page.entries[i] == Deleted(m);
      assert log[p + i] == Leaves(m);
    }
    if Left(log, q, m) && !Left(log, p, m) {
      var i :| 0 <= i < q && log[i] == Leaves(m);
      assert page.entries[i - p] == Deleted(m);
    }
    if AllRead(page.entries) && Arrived(log, q, m) && !Left(log, |log|, m) && !Arrived(log, p, m) {
      var i :| 0 <= i < q && log[i] == Arrives(m);
      var e := page.entries[i - p];
      assert log[p + (i - p)] == Arrives(m);
      assert e in page.entries && e.Message? && e.id == m;
    }
  }

  /** What is faithful at a cursor is so at every earlier one by which the relics had left. */
  lemma {:induction false} FaithfulEarlier(documents: set<Id>, log: Log, c: nat, p: nat, relics: set<Id>)
    requires c <= p <= |log| && FaithfulBut(documents, log, p, relics)
    requires forall m <- relics :: Left(log, c, m)
    ensures FaithfulBut(documents, log, c, relics)
  {
    forall m | m in documents ensures !Left(log, c, m) || m in relics {
      assert Left(log, c, m) ==> Left(log, p, m);
    }
    forall m | Arrived(log, c, m) && !Left(log, |log|, m) ensures m in documents {
      assert Arrived(log, p, m);
    }
  }

  lemma {:induction false} HistoryTurnKeepsSound(w: World, g: Gmail, page: Fetched<Page>, shown: set<Id>)
    requires Crawling(w.(gmail := g)) && g.incremental && !g.done && g.anchor.Some?
    requires page.Got? ==> HonestHistory(w.log, CrawlsFrom(g).value, page.value)
    ensures
      var turn := HistoryTurn(g, page);
      Sound(World(w.log, turn.gmail, ApplyAll(w.documents, turn.deliveries), shown, w.relics))
  {
    assert ApplyAll(w.documents, []) == w.documents;
    if page.Got? {
      var p, after := CrawlsFrom(g).value, ApplyAll(w.documents, Deliveries(page.value.entries));
      HistoryPage(w.documents, w.log, p, w.relics, page.value);
      LeftStays(w.log, g.cursor.value, p + |page.value.entries|);
      if AllRead(page.value.entries) && page.value.continuation.None? && page.value.cursor.None? {
        FaithfulEarlier(after, w.log, g.cursor.value, p, w.relics);
      }
    }
  }

  lemma LeftStays(log: Log, p: nat, q: nat)
    requires p <= q <= |log|
    ensures forall m | Left(log, p, m) :: Left(log, q, m)
  {
  }

  lemma {:induction false} ListTurnKeepsSound(w: World, g: Gmail, page: Fetched<Page>, shown: set<Id>, relics: set<Id>)
    requires Listing(World(w.log, g, w.documents, shown, relics)) && !g.incremental && !g.done
    requires page.Got? ==> HonestListing(w.log, g.anchor.value, shown, page.value)
    requires g.continuation.None? ==> shown == {}
    ensures
      var turn := ListTurn(g, page);
      Sound(World(w.log, turn.gmail, ApplyAll(w.documents, turn.deliveries),
                  if page.Got? && AllRead(page.value.entries) then shown + Ids(page.value.entries) else shown, relics))
  {
    assert ApplyAll(w.documents, []) == w.documents;
    if page.Got? {
      ListedPage(w.documents, w.log, g.anchor.value, relics, page.value.entries);
    }
  }

  /** A listed page adds documents and takes none away. */
  lemma {:induction false} ListedPage(documents: set<Id>, log: Log, a: nat, relics: set<Id>, entries: seq<Entry>)
    requires a <= |log| && CleanBut(documents, log, a, relics)
    requires forall e <- entries :: e.Message? && HonestDetail(log, a, e)
    ensures
      var after := ApplyAll(documents, Deliveries(entries));
      && CleanBut(after, log, a, relics) && documents <= after
      && (AllRead(entries) ==> forall m <- Ids(entries) :: m in after || Left(log, |log|, m))
  {
    var after := ApplyAll(documents, Deliveries(entries));
    forall m | m in after ensures (!Left(log, a, m) || m in relics) && Arrived(log, |log|, m) {
      PageDecides(documents, entries, m);
    }
    forall m | m in documents ensures m in after {
      PageDecides(documents, entries, m);
    }
    if AllRead(entries) {
      forall m | m in Ids(entries) ensures m in after || Left(log, |log|, m) {
        PageDecides(documents, entries, m);
        var e :| e in entries && e.id == m;
        assert HonestDetail(log, a, e);
      }
    }
  }

  lemma {:induction false} ReadingKeepsSound(w: World, profile: Fetched<Option<Token>>, page: Fetched<Page>)
    requires Sound(w) && Honest(w, profile, page)
    ensures Sound(After(w, Reads(profile, page)))
  {
    var g := w.gmail;
    assert ApplyAll(w.documents, []) == w.documents;
    var shown := if g.continuation.None? then {} else w.shown;
    if g.done {
    } else if g.incremental {
      var crawling := if g.anchor.Some? then g else g.(anchor := g.cursor);
      HistoryTurnKeepsSound(w, crawling, page, After(w, Reads(profile, page)).shown);
    } else if g.anchor.Some? {
      ListTurnKeepsSound(w, g, page, shown, w.relics);
    } else if profile.Got? {
      var listing := g.(captured := true, anchor := profile.value);
      ListTurnKeepsSound(w, listing, page, {}, Relics(w.documents, w.log, |w.log|));
    }
  }

  lemma {:induction false} StepKeepsSound(w: World, s: Step)
    requires Sound(w) && Allowed(w, s)
    ensures Sound(After(w, s))
  {
    match s
    case Happens(e) => HappeningKeepsSound(w, e);
    case Reads(profile, page) => ReadingKeepsSound(w, profile, page);
    case NextRound =>
  }

  function Run(w: World, steps: seq<Step>): World {
    if steps == [] then w else After(Run(w, steps[..|steps| - 1]), steps[|steps| - 1])
  }

  ghost predicate AllAllowed(w: World, steps: seq<Step>) {
    steps != [] ==>
      && AllAllowed(w, steps[..|steps| - 1])
      && Allowed(Run(w, steps[..|steps| - 1]), steps[|steps| - 1])
  }

  lemma {:induction false} RunKeepsSound(w: World, steps: seq<Step>)
    requires Sound(w) && AllAllowed(w, steps)
    ensures Sound(Run(w, steps))
  {
    if steps == [] {
    } else {
      RunKeepsSound(w, steps[..|steps| - 1]);
      StepKeepsSound(Run(w, steps[..|steps| - 1]), steps[|steps| - 1]);
    }
  }

  predicate NeverExpires(steps: seq<Step>) {
    forall s <- steps :: s.Reads? ==> s.page != Lost(Expired)
  }

  /** Unless the history expires, no listing finds documents. */
  lemma {:induction false} NoRelics(steps: seq<Step>)
    requires AllAllowed(START, steps) && NeverExpires(steps)
    ensures
      var w := Run(START, steps);
      w.relics == {} && (StartsListing(w.gmail) ==> w.documents == {})
  {
    if steps == [] {
    } else {
      var init, last := steps[..|steps| - 1], steps[|steps| - 1];
      NoRelics(init);
      RunKeepsSound(START, init);
      assert last in steps;
      assert ApplyAll(Run(START, init).documents, []) == Run(START, init).documents;
    }
  }

  /** Whenever a round is done, after a listing or after any crawl: every message that had
      arrived by its cursor and is still there has its document, and no message that had left
      by then has one but for relics, so that the documents are faithful if and only if no
      relic is left; there never is one unless the history expires.  No failure in between
      skips a message. */
  lemma {:induction false} RoundsEndFaithful(steps: seq<Step>)
    requires AllAllowed(START, steps) && Run(START, steps).gmail.done
    ensures
      var w := Run(START, steps);
      && w.gmail.cursor.Some? && w.gmail.cursor.value <= |w.log|
      && FaithfulBut(w.documents, w.log, w.gmail.cursor.value, w.relics)
      && (Faithful(w.documents, w.log, w.gmail.cursor.value) <==> w.relics * w.documents == {})
      && (NeverExpires(steps) ==> Faithful(w.documents, w.log, w.gmail.cursor.value))
  {
    RunKeepsSound(START, steps);
    var w := Run(START, steps);
    FaithfulWithoutRelics(w.documents, w.log, w.gmail.cursor.value, w.relics);
    if NeverExpires(steps) {
      NoRelics(steps);
    }
  }

  // ----------------------------------------------------------------------
  // The listing after an expiry
  // ----------------------------------------------------------------------

  /** An expired history sends a crawl back to a listing, with the documents as they are. */
  lemma {:induction false} ExpiryRestarts(w: World, profile: Fetched<Option<Token>>)
    requires Sound(w) && w.gmail.incremental && !w.gmail.done
    ensures
      var v := After(w, Reads(profile, Lost(Expired)));
      Restarting(v) && v.documents == w.documents && v.log == w.log
  {
    assert ApplyAll(w.documents, []) == w.documents;
  }

  /** Until its listing has ended, a restarted round remembers the documents it found. */
  ghost predicate Remembers(w: World, found: set<Id>) {
    var g := w.gmail;
    && !g.incremental
    && (if StartsListing(g) then w.documents == found
        else
          var a := if g.done then g.cursor else g.anchor;
          a.Some? && a.value <= |w.log| && w.relics == Relics(found, w.log, a.value))
  }

  lemma {:induction false} StepRemembers(w: World, s: Step, found: set<Id>)
    requires Sound(w) && Allowed(w, s) && Remembers(w, found) && !After(w, s).gmail.incremental
    ensures Remembers(After(w, s), found)
  {
    assert ApplyAll(w.documents, []) == w.documents;
    if s.Happens? {
      forall m: Id, p: nat | p <= |w.log| ensures Left(w.log + [s.event], p, m) == Left(w.log, p, m) {
        Grows(w.log, s.event, p, m);
      }
    }
  }

  lemma {:induction false} RunRemembers(w: World, steps: seq<Step>)
    requires Sound(w) && Restarting(w) && AllAllowed(w, steps)
    requires forall i | 0 <= i <= |steps| :: !Run(w, steps[..i]).gmail.incremental
    ensures Remembers(Run(w, steps), w.documents)
  {
    assert steps[..|steps|] == steps;
    if steps == [] {
    } else {
      var init := steps[..|steps| - 1];
      forall i | 0 <= i <= |init| ensures !Run(w, init[..i]).gmail.incremental {
        assert init[..i] == steps[..i];
      }
      RunRemembers(w, init);
      RunKeepsSound(w, init);
      StepRemembers(Run(w, init), steps[|steps| - 1], w.documents);
    }
  }

  /** Exactly when a restarted listing, however many pages and failures it takes, ends with
      faithful documents: no message that had a document when it began had left by the
      cursor it ends at. */
  lemma {:induction false} RestartedListing(w: World, steps: seq<Step>)
    requires Sound(w) && Restarting(w) && AllAllowed(w, steps) && Run(w, steps).gmail.done
    requires forall i | 0 <= i <= |steps| :: !Run(w, steps[..i]).gmail.incremental
    ensures
      var v := Run(w, steps);
      && v.gmail.cursor.Some? && v.gmail.cursor.value <= |v.log|
      && (Faithful(v.documents, v.log, v.gmail.cursor.value) <==>
          forall m <- w.documents :: !Left(v.log, v.gmail.cursor.value, m))
  {
    RunRemembers(w, steps);
    RunKeepsSound(w, steps);
    assert steps[..|steps|] == steps;
    var v := Run(w, steps);
    FaithfulWithoutRelics(v.documents, v.log, v.gmail.cursor.value, v.relics);
    assert v.relics * v.documents == v.relics;
    assert v.relics == {} <==> forall m <- w.documents :: !Left(v.log, v.gmail.cursor.value, m) by {
      if m :| m in w.documents && Left(v.log, v.gmail.cursor.value, m) {
        assert m in v.relics;
      }
    }
  }

  /** The same from the moment the history expires. */
  lemma {:induction false} ListingAfterExpiry(w: World, profile: Fetched<Option<Token>>, steps: seq<Step>)
    requires Sound(w) && w.gmail.incremental && !w.gmail.done
    requires var e := After(w, Reads(profile, Lost(Expired)));
      && Allowed(w, Reads(profile, Lost(Expired))) && AllAllowed(e, steps) && Run(e, steps).gmail.done
      && forall i | 0 <= i <= |steps| :: !Run(e, steps[..i]).gmail.incremental
    ensures
      var v := Run(After(w, Reads(profile, Lost(Expired))), steps);
      && v.gmail.cursor.Some? && v.gmail.cursor.value <= |v.log|
      && (Faithful(v.documents, v.log, v.gmail.cursor.value) <==>
          forall m <- w.documents :: !Left(v.log, v.gmail.cursor.value, m))
  {
    var expires := Reads(profile, Lost(Expired));
    ExpiryRestarts(w, profile);
    StepKeepsSound(w, expires);
    RestartedListing(After(w, expires), steps);
  }

  /** A message that left while the history expired keeps its document. */
  lemma {:induction false} ExpiryKeepsDeletedMessage(m: Id)
    ensures
      var log := [Arrives(m), Leaves(m)];
      var g := Gmail(true, None, Some(1), None, None, false, true);
      var w := World(log, g, {m}, {}, {});
      var listing := Got(Page([], None, None));
      var expired := After(w, Reads(Got(Some(2)), Lost(Expired)));
      var done := After(expired, Reads(Got(Some(2)), listing));
      && Sound(w) && !done.gmail.incremental && HonestListing(log, 2, {}, listing.value)
      && done.gmail.done && done.gmail.cursor == Some(2)
      && m in done.documents && !Faithful(done.documents, log, 2)
  {
    var log := [Arrives(m), Leaves(m)];
    assert log[0] == Arrives(m) && log[1] == Leaves(m);
    assert Arrived(log, 1, m) && Left(log, 2, m) && Arrived(log, 2, m);
    assert ApplyAll({m}, []) == {m};
    forall x: Id ensures Arrived(log, 2, x) ==> x == m {
    }
    assert m in {m};
  }
}
