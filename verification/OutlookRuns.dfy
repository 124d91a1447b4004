/**
 The rounds of one Outlook delta, tried again and again while pages, details and
 confirmations fail and messages leave the mailbox, end with documents that agree with it.
 */
module OutlookRuns {
  import opened Basics
  import opened MailDelta
  import opened MailRounds
  import opened MailRecovery
  import opened OutlookSync

  // ----------------------------------------------------------------------
  // Documents
  // ----------------------------------------------------------------------

  /** Each document with the attempt at which its message was last read. */
  type Documents = map<Id, nat>

  function Apply(documents: Documents, d: Delivery, now: nat): Documents {
    match d
    case Upsert(m) => documents[m := now]
    case Delete(m) => documents - {m}
  }

  function ApplyAll(documents: Documents, ds: seq<Delivery>, now: nat): Documents {
    if ds == [] then documents
    else Apply(ApplyAll(documents, ds[..|ds| - 1], now), ds[|ds| - 1], now)
  }

  predicate Delivered(ds: seq<Delivery>, m: Id) {
    exists d <- ds :: d.id == m
  }

  /** A message found had not left before, and one missing has left. */
  predicate Honest(ds: seq<Delivery>, before: set<Id>, after: set<Id>) {
    forall d <- ds :: if d.Upsert? then d.id !in before else d.id in after
  }

  /** The message has a document, read no earlier than attempt `since`. */
  predicate Fresh(documents: Documents, m: Id, since: nat) {
    m in documents && since <= documents[m]
  }

  predicate SameDocument(a: Documents, b: Documents, m: Id) {
    (m in a <==> m in b) && (m in a ==> a[m] == b[m])
  }

  /** Honest deliveries settle the messages they are about and leave the others alone. */
  lemma {:induction false} DeliveriesSettle(
    documents: Documents, ds: seq<Delivery>, now: nat, since: nat, before: set<Id>, after: set<Id>, m: Id)
    requires Honest(ds, before, after) && since <= now
    ensures
      var later := ApplyAll(documents, ds, now);
      && (!Delivered(ds, m) ==> SameDocument(documents, later, m))
      && (m !in after ==> m in documents || Delivered(ds, m) ==> m in later)
      && (m !in after ==> Fresh(documents, m, since) || Delivered(ds, m) ==> Fresh(later, m, since))
      && (m in before ==> m !in documents || Delivered(ds, m) ==> m !in later)
  {
    if ds == [] {
    } else {
      var init, last := ds[..|ds| - 1], ds[|ds| - 1];
      assert ds == init + [last];
      DeliveriesSettle(documents, init, now, since, before, after, m);
      assert Delivered(ds, m) <==> Delivered(init, m) || last.id == m;
    }
  }

  // ----------------------------------------------------------------------
  // Runs of one round
  // ----------------------------------------------------------------------

  /** Where a round began to read messages: its checkpoint, the messages that had left the
      mailbox, the documents, and the attempt. */
  datatype Start = Start(state: State, gone: set<Id>, documents: Documents, clock: nat)

  /** `clock` counts attempts; `refused` holds the removals of this round the connector has
      refused to confirm. */
  datatype World = World(
    mail: Mail, documents: Documents, gone: set<Id>, clock: nat, refused: set<Id>, start: Option<Start>)

  /** One call: its page may be lost, its details end one way or another, what fails may be a
      rejected continuation, and meanwhile messages leave the mailbox. */
  datatype Attempt = Attempt(lost: bool, details: Details, rejected: bool, leaving: set<Id>)

  function Answering(reader: Reader, lost: bool): Reader {
    if lost then (_ => None) else reader
  }

  function TurnOf(reader: Reader, w: World, a: Attempt): Turn {
    OutlookSync.Round(w.mail, Answering(reader, a.lost), a.details, a.rejected)
  }

  predicate Truthful(reader: Reader, w: World, a: Attempt) {
    Honest(TurnOf(reader, w, a).deliveries, w.gone, w.gone + a.leaving)
  }

  /** The candidates refused in an attempt that got as far as confirming them. */
  function RefusedNow(reader: Reader, w: World, a: Attempt): set<Id> {
    var r := Step(Answering(reader, a.lost), w.mail.delta);
    if w.mail.done || r.Invalid? then {}
    else
      StepNames(Answering(reader, a.lost), w.mail.delta);
      if ChangeDocuments(r.changes, a.details).None? then {} else RefusedOf(r.removals, a.details, |r.changes|)
  }

  function StartOf(w: World, delta: Option<State>): Option<Start> {
    if w.start.None? && delta.Some? && delta.value.phase.Messages?
    then Some(Start(delta.value, w.gone, w.documents, w.clock))
    else w.start
  }

  function Next(reader: Reader, w: World, a: Attempt): World {
    var t := TurnOf(reader, w, a);
    World(t.mail, ApplyAll(w.documents, t.deliveries, w.clock), w.gone + a.leaving, w.clock + 1,
          w.refused + RefusedNow(reader, w, a), StartOf(w, t.mail.delta))
  }

  ghost predicate Run(reader: Reader, w: World, attempts: seq<Attempt>, v: World)
    decreases |attempts|
  {
    if attempts == [] then v == w
    else
      && Truthful(reader, w, attempts[0])
      && Run(reader, Next(reader, w, attempts[0]), attempts[1..], v)
  }

  // ----------------------------------------------------------------------
  // What a round owes
  // ----------------------------------------------------------------------

  /** No folder is in the middle of its pages. */
  predicate Unread(s: State) {
    forall f <- s.folders :: s.folders[f].continuation.None?
  }

  /** A checkpoint with which the message phase of a round begins. */
  predicate Opens(s: State) {
    Sound(s) && s.phase.Messages? && s.index == 0 && PoolOf(s) == Pool(map[], false) && Unread(s)
  }

  ghost function Changed(feed: Feed, e: State): set<Id>
    requires e.Closed()
  {
    Ids(Pending(feed, e, 0))
  }

  ghost function Dropped(feed: Feed, e: State): set<Id>
    requires e.Closed()
  {
    Ids(PendingRemovals(feed, e, 0))
  }

  /** The document of message `m` agrees with the mailbox: if the message is still there, it
      was read after the round began to read messages; if it had left by then, there is none. */
  predicate Agrees(w: World, m: Id)
    requires w.start.Some?
  {
    && (m !in w.gone ==> Fresh(w.documents, m, w.start.value.clock))
    && (m in w.start.value.gone ==> m !in w.documents)
  }

  /** The folders not yet passed have the links the round began with. */
  predicate KeepsLinks(e: State, s: State) {
    && s.Closed() && e.Closed() && s.order == e.order && s.folders.Keys == e.folders.Keys
    && forall j | s.index <= j < |s.order| :: s.folders[s.order[j]].link == e.folders[s.order[j]].link
  }

  /** No message still in the mailbox has lost its document, and none but those the feeds
      name has changed. */
  ghost predicate Safe(feed: Feed, w: World)
    requires w.start.Some? && w.start.value.state.Closed()
  {
    var b := w.start.value;
    && b.gone <= w.gone && b.clock <= w.clock
    && (forall m <- b.documents :: m in w.documents || m in w.gone)
    && (forall m | m !in Changed(feed, b.state) && m !in Dropped(feed, b.state) ::
          SameDocument(b.documents, w.documents, m))
  }

  /** The candidates are among the removals, and their limit is reached only if there are
      more removals than that. */
  predicate Within(p: Pool, dropped: set<Id>) {
    p.candidates.Keys <= dropped && (p.overflow ==> |dropped| > MAX_REMOVAL_CANDIDATES)
  }

  /** What is neither settled nor gathered is still to come, and nothing else is. */
  ghost predicate Behind(feed: Feed, w: World, s: State)
    requires w.start.Some?
  {
    var e := w.start.value.state;
    && Opens(e) && KeepsLinks(e, s) && Safe(feed, w)
    && Within(PoolOf(s), Dropped(feed, e))
    && (forall c <- Pending(feed, s, s.index) :: c in Pending(feed, e, 0))
    && (forall c <- PendingRemovals(feed, s, s.index) :: c in PendingRemovals(feed, e, 0))
    && (forall m <- Changed(feed, e) :: Agrees(w, m) || m in Ids(Pending(feed, s, s.index)))
    && (forall m <- Dropped(feed, e) ::
          s.removalOverflow || m in s.candidates || m in Ids(PendingRemovals(feed, s, s.index)))
  }

  /** A finished round has settled every change, and every removal that was not refused
      unless there were more of them than the limit. */
  ghost predicate Finished(feed: Feed, w: World)
    requires w.start.Some?
  {
    var e := w.start.value.state;
    && Opens(e) && Safe(feed, w)
    && (forall m <- Changed(feed, e) :: Agrees(w, m))
    && (|Dropped(feed, e)| <= MAX_REMOVAL_CANDIDATES ==>
          forall m <- Dropped(feed, e) | m !in w.refused :: Agrees(w, m))
  }

  /** A round that still lists folders has read no message. */
  ghost predicate ListsFolders(feed: Feed, w: World, s: State) {
    Sound(s) && s.phase.Folders? && Traced(feed, s) && w.start.None? && PoolOf(s) == Pool(map[], false) && Unread(s)
  }

  ghost predicate ReadsMessages(feed: Feed, w: World, s: State) {
    Sound(s) && s.phase.Messages? && Traced(feed, s) && w.start.Some? && Behind(feed, w, s)
  }

  /** What every attempt keeps. */
  ghost predicate Kept(feed: Feed, w: World) {
    && (w.mail.delta.Some? ==> Sound(w.mail.delta.value))
    && if w.mail.done then
         w.mail.delta.Some? && w.mail.delta.value.phase.Complete? && w.start.Some? && Finished(feed, w)
       else
         var s := Working(w.mail.delta);
         ListsFolders(feed, w, s) || ReadsMessages(feed, w, s)
  }

  /** The world a round starts in: nothing is read yet. */
  predicate Begins(w: World) {
    && !w.mail.done && w.start.None? && !w.mail.unconfirmed && w.refused == {}
    && (w.mail.delta.Some? ==> Sound(w.mail.delta.value) && w.mail.delta.value.phase.Complete?)
  }

  lemma {:induction false} BeginsKept(feed: Feed, w: World)
    requires Begins(w)
    ensures Kept(feed, w)
  {
    var s := Working(w.mail.delta);
    if w.mail.delta.Some? {
      RepairsKeepSound(w.mail.delta.value);
    }
    assert forall q :: Remains(feed(q), feed(q));
  }

  // ----------------------------------------------------------------------
  // A failed attempt
  // ----------------------------------------------------------------------

  /** Dropping continuations in the delta drops them in what a round works on. */
  lemma ClearedWorking(delta: State)
    requires Sound(delta)
    ensures Working(Some(Cleared(delta))) == Cleared(Working(Some(delta)))
  {
    if delta.phase.Complete? {
      assert NextRound(Cleared(delta)).folders == NextRound(delta).folders;
      assert Cleared(NextRound(delta)).folders == NextRound(delta).folders;
    }
  }

  lemma {:induction false} SuffixPends(feed: Feed, s: State, i: nat)
    requires s.Closed()
    ensures forall c <- Pending(feed, s, i) :: c in Pending(feed, s, 0)
    ensures forall c <- PendingRemovals(feed, s, i) :: c in PendingRemovals(feed, s, 0)
    decreases i
  {
    if 0 < i {
      SuffixPends(feed, s, i - 1);
    }
  }

  /** From the first folder not passed, cleared continuations leave the feeds the round began
      with. */
  lemma {:induction false} ClearedPends(feed: Feed, e: State, s: State)
    requires KeepsLinks(e, s) && Unread(e)
    ensures Pending(feed, Cleared(s), s.index) == Pending(feed, e, s.index)
    ensures PendingRemovals(feed, Cleared(s), s.index) == PendingRemovals(feed, e, s.index)
  {
    var t := Cleared(s);
    forall j | s.index <= j < |s.order| ensures t.folders[s.order[j]] == e.folders[s.order[j]] {
      assert s.order[j] in s.order;
    }
    PendingFrame(feed, t, e, s.index);
  }

  lemma {:induction false} ClearedKept(feed: Feed, w: World, s: State)
    requires w.start.Some? && Sound(s) && s.phase.Messages? && Traced(feed, s) && Behind(feed, w, s)
    ensures Behind(feed, w, Cleared(s))
  {
    var e, t := w.start.value.state, Cleared(s);
    ClearedPends(feed, e, s);
    SuffixPends(feed, e, s.index);
    ClearLosesNothing(feed, s, s.index);
    assert Ids(Pending(feed, s, s.index)) <= Ids(Pending(feed, t, t.index));
    assert Ids(PendingRemovals(feed, s, s.index)) <= Ids(PendingRemovals(feed, t, t.index));
  }

  /** More messages leaving harms nothing. */
  lemma {:induction false} LeavingKept(feed: Feed, w: World, v: World, s: State)
    requires w.start.Some? && Behind(feed, w, s)
    requires v.start == w.start && v.documents == w.documents && w.gone <= v.gone && w.clock <= v.clock
    ensures Behind(feed, v, s)
  {
    forall m | Agrees(w, m) ensures Agrees(v, m) {}
  }

  lemma {:induction false} ClearedListing(feed: Feed, w: World, s: State)
    requires ListsFolders(feed, w, s)
    ensures ListsFolders(feed, w, Cleared(s))
  {
    RepairsKeepSound(s);
    RepairsTrace(feed, s);
  }

  lemma {:induction false} ClearedReading(feed: Feed, w: World, s: State)
    requires ReadsMessages(feed, w, s)
    ensures ReadsMessages(feed, w, Cleared(s))
  {
    RepairsKeepSound(s);
    RepairsTrace(feed, s);
    ClearedKept(feed, w, s);
  }

  /** A failed attempt delivers nothing, and leaves the delta as it was or without its
      continuations. */
  lemma {:induction false} FailureLeaves(reader: Reader, w: World, a: Attempt)
    requires w.mail.delta.Some? ==> Sound(w.mail.delta.value)
    requires !w.mail.done && TurnOf(reader, w, a).failed
    ensures
      var t, s := TurnOf(reader, w, a), Working(w.mail.delta);
      && t.deliveries == [] && !t.mail.done
      && (t.mail.delta.Some? ==> Sound(t.mail.delta.value))
      && (Working(t.mail.delta) == s || Working(t.mail.delta) == Cleared(s))
      && (!a.rejected ==> t.mail.delta == w.mail.delta)
      && (t.mail.delta.Some? && t.mail.delta.value.phase.Messages? ==> s.phase.Messages?)
  {
    if w.mail.delta.Some? {
      ClearedWorking(w.mail.delta.value);
      RepairsKeepSound(w.mail.delta.value);
    }
  }

  lemma {:induction false} FailedAttemptKept(reader: Reader, feed: Feed, w: World, a: Attempt)
    requires Kept(feed, w) && !w.mail.done && TurnOf(reader, w, a).failed
    ensures Kept(feed, Next(reader, w, a))
  {
    var s, v := Working(w.mail.delta), Next(reader, w, a);
    FailureLeaves(reader, w, a);
    if s.phase.Messages? {
      ClearedReading(feed, w, s);
      LeavingKept(feed, w, v, Working(v.mail.delta));
    } else {
      ClearedListing(feed, w, s);
    }
  }

  // ----------------------------------------------------------------------
  // A successful attempt
  // ----------------------------------------------------------------------

  /** What an attempt that succeeds has read. */
  lemma {:induction false} StepTaken(reader: Reader, feed: Feed, w: World, a: Attempt)
    requires Kept(feed, w) && !w.mail.done && !TurnOf(reader, w, a).failed
    ensures
      var s, t := Working(w.mail.delta), TurnOf(reader, w, a);
      var r := Step(reader, Some(s));
      && r.Ok? && (forall c <- r.changes :: c.item.id.Some?)
      && var changed, removed := ChangeDocuments(r.changes, a.details), Confirm(r.removals, a.details, |r.changes|);
         && changed.Some? && !removed.broken
         && t == Turn(Mail(Some(r.checkpoint), w.mail.unconfirmed || removed.unconfirmed, r.complete),
                      changed.value + removed.deliveries, false)
         && RefusedNow(reader, w, a) == RefusedOf(r.removals, a.details, |r.changes|)
  {
    var s := Working(w.mail.delta);
    assert Step(Answering(reader, a.lost), w.mail.delta) == Step(Answering(reader, a.lost), Some(s));
    assert Step(Answering(reader, a.lost), Some(s)).Ok?;
    assert Step(Answering(reader, a.lost), Some(s)) == Step(reader, Some(s));
    StepNames(reader, Some(s));
  }

  lemma {:induction false} TrackUnread(s: State, items: seq<Entry>)
    requires Unread(s)
    ensures Unread(Track(s, items))
  {
    if items == [] {
    } else {
      TrackUnread(s, items[..|items| - 1]);
    }
  }

  /** A folder page delivers nothing, and leads to the next one or to the messages. */
  lemma {:induction false} FolderPageLeaves(reader: Reader, feed: Feed, w: World, s: State)
    requires Finite(reader, feed) && ListsFolders(feed, w, s)
    ensures
      var r := Step(reader, Some(s));
      && r.Ok? && !r.complete && r.changes == [] && r.removals == []
      && Traced(feed, r.checkpoint)
      && (ListsFolders(feed, w, r.checkpoint) || Opens(r.checkpoint))
  {
    FolderStepAdvances(reader, feed, s);
    FolderStepTraces(reader, feed, s);
    TrackUnread(s, reader(QueryOf(s)).value.items);
  }

  /** Where a round begins to read messages, everything is still to come. */
  lemma {:induction false} OpensBehind(feed: Feed, w: World, e: State)
    requires Opens(e) && w.start.Some? && w.start.value.state == e
    requires w.start.value.gone <= w.gone && w.start.value.documents == w.documents && w.start.value.clock <= w.clock
    ensures Behind(feed, w, e)
  {
  }

  lemma {:induction false} FolderAttemptKept(reader: Reader, feed: Feed, w: World, a: Attempt)
    requires Finite(reader, feed) && Kept(feed, w) && !w.mail.done && !TurnOf(reader, w, a).failed
    requires Working(w.mail.delta).phase.Folders?
    ensures Kept(feed, Next(reader, w, a))
  {
    var s, v := Working(w.mail.delta), Next(reader, w, a);
    StepTaken(reader, feed, w, a);
    FolderPageLeaves(reader, feed, w, s);
    if v.mail.delta.value.phase.Messages? {
      OpensBehind(feed, v, v.mail.delta.value);
    }
  }

  lemma {:induction false} IdsConcat(a: seq<Change>, b: seq<Change>)
    ensures Ids(a + b) == Ids(a) + Ids(b)
  {
    forall c | c in a + b ensures c in a || c in b {}
    forall c | c in a || c in b ensures c in a + b {}
  }

  lemma {:induction false} AbsorbWithin(p: Pool, removed: seq<Change>, dropped: set<Id>)
    requires Within(p, dropped) && Ids(removed) <= dropped
    ensures Within(Absorb(p, removed), dropped)
    ensures var q := Absorb(p, removed);
      q.overflow || (p.candidates.Keys <= q.candidates.Keys && Ids(removed) <= q.candidates.Keys)
  {
    if removed == [] {
    } else {
      var init, last := removed[..|removed| - 1], removed[|removed| - 1];
      assert removed == init + [last];
      IdsNext(init, last);
      AbsorbWithin(p, init, dropped);
      AbsorbOneWithin(Absorb(p, init), last, dropped);
    }
  }

  lemma AbsorbOneWithin(p: Pool, c: Change, dropped: set<Id>)
    requires Within(p, dropped) && (c.item.id.Some? ==> c.item.id.value in dropped)
    ensures Within(AbsorbOne(p, c), dropped)
    ensures var q := AbsorbOne(p, c);
      && (p.overflow ==> q.overflow) && p.candidates.Keys <= q.candidates.Keys
      && (q.overflow || (c.item.id.Some? ==> c.item.id.value in q.candidates))
  {
    if c.item.id.Some? && c.item.id.value !in p.candidates && |p.candidates| >= MAX_REMOVAL_CANDIDATES {
      var more := p.candidates.Keys + {c.item.id.value};
      assert |more| == |p.candidates.Keys| + 1;
      SubsetSize(more, dropped);
    }
  }

  lemma {:induction false} SubsetSize(a: set<Id>, b: set<Id>)
    requires a <= b
    ensures |a| <= |b|
  {
    assert b == a + (b - a);
  }

  /** Deliveries of messages the feeds name keep the documents safe, and what agrees goes on
      agreeing. */
  lemma {:induction false} DeliveriesKeep(feed: Feed, w: World, v: World, ds: seq<Delivery>, now: nat, before: set<Id>)
    requires w.start.Some? && w.start.value.state.Closed() && Safe(feed, w)
    requires v.start == w.start && v.documents == ApplyAll(w.documents, ds, now) && w.gone <= v.gone
    requires w.start.value.clock <= now && w.clock <= v.clock
    requires w.start.value.gone <= before && Honest(ds, before, v.gone)
    requires forall d <- ds :: d.id in Changed(feed, w.start.value.state) || d.id in Dropped(feed, w.start.value.state)
    ensures Safe(feed, v)
    ensures forall m | Agrees(w, m) || Delivered(ds, m) :: Agrees(v, m)
  {
    forall m
      ensures Agrees(w, m) || Delivered(ds, m) ==> Agrees(v, m)
      ensures m in w.documents && m !in v.gone ==> m in v.documents
      ensures !Delivered(ds, m) ==> SameDocument(w.documents, v.documents, m)
    {
      DeliveriesSettle(w.documents, ds, now, w.start.value.clock, before, v.gone, m);
    }
  }

  /** The removals gathered are complete up to where the round has read, or too many. */
  ghost predicate Gathers(feed: Feed, e: State, s: State)
    requires e.Closed() && s.Closed()
  {
    && Within(PoolOf(s), Dropped(feed, e))
    && forall m <- Dropped(feed, e) ::
         s.removalOverflow || m in s.candidates || m in Ids(PendingRemovals(feed, s, s.index))
  }

  /** A message page's changes and removals are no longer to come; its removals are gathered. */
  lemma {:induction false} MessagePageGathers(reader: Reader, feed: Feed, w: World, s: State)
    requires Finite(reader, feed) && ReadsMessages(feed, w, s) && s.index < |s.order|
    ensures
      var r := Step(reader, Some(s));
      && r.Ok? && r.checkpoint.WellFormed()
      && Pending(feed, s, s.index) == r.changes + Pending(feed, r.checkpoint, r.checkpoint.index)
      && (forall c <- PendingRemovals(feed, r.checkpoint, r.checkpoint.index) :: c in PendingRemovals(feed, s, s.index))
      && Gathers(feed, w.start.value.state, r.checkpoint)
  {
    var removed := MessageStepDelivers(reader, feed, s);
    var e, t := w.start.value.state, Step(reader, Some(s)).checkpoint;
    var later := PendingRemovals(feed, t, t.index);
    assert PendingRemovals(feed, s, s.index) == removed + later;
    IdsConcat(removed, later);
    assert Ids(removed + later) <= Dropped(feed, e);
    AbsorbWithin(PoolOf(s), removed, Dropped(feed, e));
    AbsorbKeepsOverflow(PoolOf(s), removed);
  }

  lemma {:induction false} AbsorbKeepsOverflow(p: Pool, removed: seq<Change>)
    ensures p.overflow ==> Absorb(p, removed).overflow
  {
    if removed == [] {
    } else {
      AbsorbKeepsOverflow(p, removed[..|removed| - 1]);
    }
  }

  lemma {:induction false} MessagePageKeepsLinks(reader: Reader, feed: Feed, e: State, s: State)
    requires Finite(reader, feed) && Sound(s) && s.phase.Messages? && s.index < |s.order| && KeepsLinks(e, s)
    ensures Step(reader, Some(s)).Ok? && KeepsLinks(e, Step(reader, Some(s)).checkpoint)
  {
    MessageStepAdvances(reader, feed, s);
    MessageStepKeepsOthers(reader, s);
  }

  lemma {:induction false} ChangesAgree(feed: Feed, w: World, v: World, changes: seq<Change>, details: Details)
    requires w.start.Some? && w.start.value.state.Closed() && Safe(feed, w)
    requires forall c <- changes :: c.item.id.Some? && c in Pending(feed, w.start.value.state, 0)
    requires ChangeDocuments(changes, details).Some?
    requires
      var ds := ChangeDocuments(changes, details).value;
      && v.start == w.start && v.documents == ApplyAll(w.documents, ds, w.clock)
      && w.gone <= v.gone && w.clock <= v.clock && Honest(ds, w.gone, v.gone)
    ensures Safe(feed, v)
    ensures forall m | Agrees(w, m) || m in Ids(changes) :: Agrees(v, m)
  {
    EachChangeDelivered(changes, details);
    var ds := ChangeDocuments(changes, details).value;
    forall d <- ds ensures d.id in Changed(feed, w.start.value.state) {
      var i :| 0 <= i < |ds| && ds[i] == d;
      assert changes[i] in changes;
    }
    forall m | m in Ids(changes) ensures Delivered(ds, m) {
      var i :| 0 <= i < |changes| && changes[i].item.id == Some(m);
      assert ds[i] in ds;
    }
    DeliveriesKeep(feed, w, v, ds, w.clock, w.gone);
  }

  /** The world once the changes of a page are delivered. */
  ghost predicate ChangesDelivered(w: World, v: World, changes: seq<Change>, details: Details)
    requires forall c <- changes :: c.item.id.Some?
  {
    var ds := ChangeDocuments(changes, details);
    && ds.Some? && v.start == w.start && v.documents == ApplyAll(w.documents, ds.value, w.clock)
    && w.gone <= v.gone && w.clock <= v.clock && Honest(ds.value, w.gone, v.gone)
  }

  /** A message page: what it lists as changed agrees, the rest is still to come. */
  lemma {:induction false} MessagePageKept(reader: Reader, feed: Feed, w: World, v: World, s: State, details: Details)
    requires Finite(reader, feed) && ReadsMessages(feed, w, s) && s.index < |s.order|
    requires
      var r := Step(reader, Some(s));
      r.Ok? && (forall c <- r.changes :: c.item.id.Some?) && ChangesDelivered(w, v, r.changes, details)
    ensures Behind(feed, v, Step(reader, Some(s)).checkpoint)
  {
    var r, e := Step(reader, Some(s)), w.start.value.state;
    MessagePageGathers(reader, feed, w, s);
    MessagePageKeepsLinks(reader, feed, e, s);
    ChangesAgree(feed, w, v, r.changes, details);
    var later := Pending(feed, r.checkpoint, r.checkpoint.index);
    IdsConcat(r.changes, later);
    assert Ids(Pending(feed, s, s.index)) == Ids(r.changes) + Ids(later);
  }

  lemma {:induction false} ApplyConcat(documents: Documents, a: seq<Delivery>, b: seq<Delivery>, now: nat)
    ensures ApplyAll(documents, a + b, now) == ApplyAll(ApplyAll(documents, a, now), b, now)
  {
    if b == [] {
      assert a + b == a;
    } else {
      ApplyConcat(documents, a, b[..|b| - 1], now);
      assert (a + b)[..|a + b| - 1] == a + b[..|b| - 1];
    }
  }

  /** World `v` is what a successful attempt on a message page makes of `w`. */
  ghost predicate Took(w: World, v: World, r: Result, details: Details) {
    && r.Ok? && (forall c <- r.changes :: c.item.id.Some?)
    && v.start == w.start && w.gone <= v.gone && v.clock == w.clock + 1
    && v.mail.delta == Some(r.checkpoint) && v.mail.done == r.complete
    && var changed, removed := ChangeDocuments(r.changes, details), Confirm(r.removals, details, |r.changes|);
       && changed.Some? && !removed.broken
       && v.documents == ApplyAll(w.documents, changed.value + removed.deliveries, w.clock)
       && Honest(changed.value + removed.deliveries, w.gone, v.gone)
       && RefusedOf(r.removals, details, |r.changes|) <= v.refused
  }

  lemma {:induction false} AttemptTook(reader: Reader, feed: Feed, w: World, a: Attempt)
    requires Kept(feed, w) && !w.mail.done && !TurnOf(reader, w, a).failed && Truthful(reader, w, a)
    requires w.start.Some?
    ensures Took(w, Next(reader, w, a), Step(reader, Some(Working(w.mail.delta))), a.details)
  {
    StepTaken(reader, feed, w, a);
  }

  /** The world between the changes and the removals of a page. */
  lemma {:induction false} TookInTurn(w: World, v: World, r: Result, details: Details) returns (mid: World)
    requires Took(w, v, r, details)
    ensures
      var removed := Confirm(r.removals, details, |r.changes|).deliveries;
      && ChangesDelivered(w, mid, r.changes, details) && mid == v.(documents := mid.documents)
      && v.documents == ApplyAll(mid.documents, removed, w.clock) && Honest(removed, w.gone, v.gone)
    ensures r.removals == [] ==> mid == v
  {
    var changed := ChangeDocuments(r.changes, details).value;
    var removed := Confirm(r.removals, details, |r.changes|).deliveries;
    ApplyConcat(w.documents, changed, removed, w.clock);
    forall d | d in changed || d in removed ensures d in changed + removed {}
    mid := v.(documents := ApplyAll(w.documents, changed, w.clock));
  }

  lemma {:induction false} IncompleteReportsNone(reader: Reader, s: State)
    requires Step(reader, Some(s)).Ok? && !Step(reader, Some(s)).complete
    ensures Step(reader, Some(s)).removals == []
  {
  }

  /** Where an incomplete message page leads. */
  lemma {:induction false} IncompletePage(reader: Reader, feed: Feed, w: World, s: State)
    requires Finite(reader, feed) && ReadsMessages(feed, w, s)
    requires Step(reader, Some(s)).Ok? && !Step(reader, Some(s)).complete
    ensures
      var r := Step(reader, Some(s));
      && Sound(r.checkpoint) && r.checkpoint.phase.Messages? && Traced(feed, r.checkpoint)
  {
    MessageStepProgresses(reader, feed, s);
    MessageStepTraces(reader, feed, s, Step(reader, Some(s)));
  }

  lemma {:induction false} TookChanges(w: World, v: World, r: Result, details: Details)
    requires Took(w, v, r, details) && r.removals == []
    ensures ChangesDelivered(w, v, r.changes, details)
  {
    var mid := TookInTurn(w, v, r, details);
  }

  lemma {:induction false} ReadingKept(feed: Feed, v: World, c: State)
    requires v.mail.delta == Some(c) && !v.mail.done && v.start.Some?
    requires Sound(c) && c.phase.Messages? && Traced(feed, c) && Behind(feed, v, c)
    ensures Kept(feed, v)
  {
    assert ReadsMessages(feed, v, c);
  }

  lemma {:induction false} MessagePageLeads(reader: Reader, feed: Feed, w: World, v: World, s: State, details: Details)
    requires Finite(reader, feed) && ReadsMessages(feed, w, s)
    requires Took(w, v, Step(reader, Some(s)), details) && !Step(reader, Some(s)).complete
    ensures Kept(feed, v)
  {
    var r := Step(reader, Some(s));
    IncompletePage(reader, feed, w, s);
    IncompleteReportsNone(reader, s);
    TookChanges(w, v, r, details);
    MessagePageKept(reader, feed, w, v, s, details);
    ReadingKept(feed, v, r.checkpoint);
  }

  // ----------------------------------------------------------------------
  // The end of a round
  // ----------------------------------------------------------------------

  lemma {:induction false} RemovalNamed(candidates: map<Id, Candidate>, m: Id)
    ensures m in CandidateIds(RemovalsOf(candidates)) <==> m in Sorted(candidates.Keys)
  {
    var ids, removals := Sorted(candidates.Keys), RemovalsOf(candidates);
    if m in ids {
      var i :| 0 <= i < |ids| && ids[i] == m;
      assert removals[i] in removals;
    }
  }

  lemma {:induction false} RemovalsNamed(candidates: map<Id, Candidate>)
    ensures CandidateIds(RemovalsOf(candidates)) == candidates.Keys
  {
    forall m ensures m in CandidateIds(RemovalsOf(candidates)) <==> m in candidates.Keys {
      RemovalNamed(candidates, m);
      SortedHolds(candidates.Keys, m);
    }
  }

  /** At the end of the last folder, every change agrees and the removals are gathered. */
  lemma {:induction false} NothingToCome(feed: Feed, w: World, s: State)
    requires w.start.Some? && Behind(feed, w, s) && s.index >= |s.order|
    ensures forall m <- Changed(feed, w.start.value.state) :: Agrees(w, m)
    ensures s.removalOverflow || Dropped(feed, w.start.value.state) == s.candidates.Keys
  {
  }

  lemma {:induction false} ConfirmedDelivered(removals: seq<Removal>, details: Details, before: nat, m: Id)
    requires !Confirm(removals, details, before).broken
    requires m in CandidateIds(removals) && m !in RefusedOf(removals, details, before)
    ensures Delivered(Confirm(removals, details, before).deliveries, m)
  {
    var r :| r in removals && r.message == m;
    var i :| 0 <= i < |removals| && removals[i] == r;
    BrokenExactly(removals, details, before);
    CandidateDelivered(removals, details, before, i);
  }

  /** Confirming the candidates finishes the round. */
  lemma {:induction false} ConfirmedFinishes(feed: Feed, w: World, v: World, s: State, details: Details, before: nat,
    now: nat, gone: set<Id>)
    requires w.start.Some? && Behind(feed, w, s) && s.index >= |s.order|
    requires
      var removals := if s.removalOverflow then [] else RemovalsOf(s.candidates);
      var c := Confirm(removals, details, before);
      && !c.broken && Honest(c.deliveries, gone, v.gone)
      && v.documents == ApplyAll(w.documents, c.deliveries, now)
      && RefusedOf(removals, details, before) <= v.refused
    requires w.start.value.gone <= gone && w.start.value.clock <= now
    requires w.gone <= v.gone && w.clock <= v.clock && v.start == w.start
    ensures Finished(feed, v)
  {
    var removals := if s.removalOverflow then [] else RemovalsOf(s.candidates);
    var deliveries := Confirm(removals, details, before).deliveries;
    RemovalsNamed(s.candidates);
    OnlyCandidates(removals, details, before);
    DeliveriesKeep(feed, w, v, deliveries, now, gone);
    NothingToCome(feed, w, s);
    if !s.removalOverflow {
      forall m | m in s.candidates && m !in v.refused ensures Agrees(v, m) {
        ConfirmedDelivered(removals, details, before, m);
      }
    }
  }

  /** What a complete page reports. */
  lemma {:induction false} CompletePage(reader: Reader, feed: Feed, w: World, s: State)
    requires Finite(reader, feed) && ReadsMessages(feed, w, s)
    requires Step(reader, Some(s)).Ok? && Step(reader, Some(s)).complete
    ensures
      var r := Step(reader, Some(s));
      && r.Ok? && Sound(r.checkpoint) && r.checkpoint.phase.Complete? && r.checkpoint.index >= |r.checkpoint.order|
      && r.removals == (if r.checkpoint.removalOverflow then [] else RemovalsOf(r.checkpoint.candidates))
  {
    MessageStepProgresses(reader, feed, s);
    CompleteReports(reader, s);
  }

  /** The changes of the last page are delivered before its removals. */
  lemma {:induction false} LastChanges(reader: Reader, feed: Feed, w: World, mid: World, s: State, details: Details)
    requires Finite(reader, feed) && ReadsMessages(feed, w, s)
    requires
      var r := Step(reader, Some(s));
      r.Ok? && (forall c <- r.changes :: c.item.id.Some?) && ChangesDelivered(w, mid, r.changes, details)
    ensures Behind(feed, mid, Step(reader, Some(s)).checkpoint)
  {
    if s.index < |s.order| {
      MessagePageKept(reader, feed, w, mid, s, details);
    } else {
      NothingDelivered(w, mid, Step(reader, Some(s)), details);
      LeavingKept(feed, w, mid, s);
    }
  }

  lemma {:induction false} EndKept(feed: Feed, v: World, c: State)
    requires v.mail.delta == Some(c) && v.mail.done && v.start.Some?
    requires Sound(c) && c.phase.Complete? && Finished(feed, v)
    ensures Kept(feed, v)
  {
  }

  /** A complete page ends the round. */
  lemma {:induction false} LastPageEnds(reader: Reader, feed: Feed, w: World, v: World, s: State, details: Details)
    requires Finite(reader, feed) && ReadsMessages(feed, w, s)
    requires Took(w, v, Step(reader, Some(s)), details) && Step(reader, Some(s)).complete
    ensures Kept(feed, v)
  {
    var r := Step(reader, Some(s));
    CompletePage(reader, feed, w, s);
    var mid := TookInTurn(w, v, r, details);
    LastChanges(reader, feed, w, mid, s, details);
    ConfirmedFinishes(feed, mid, v, r.checkpoint, details, |r.changes|, w.clock, w.gone);
    EndKept(feed, v, r.checkpoint);
  }

  lemma NothingDelivered(w: World, v: World, r: Result, details: Details)
    requires r.Ok? && r.changes == [] && ChangesDelivered(w, v, r.changes, details)
    ensures v.documents == w.documents
  {
  }

  lemma {:induction false} MessageAttemptKept(reader: Reader, feed: Feed, w: World, a: Attempt)
    requires Finite(reader, feed) && Kept(feed, w) && !w.mail.done && !TurnOf(reader, w, a).failed
    requires Truthful(reader, w, a) && Working(w.mail.delta).phase.Messages?
    ensures Kept(feed, Next(reader, w, a))
  {
    var s := Working(w.mail.delta);
    AttemptTook(reader, feed, w, a);
    if Step(reader, Some(s)).complete {
      LastPageEnds(reader, feed, w, Next(reader, w, a), s, a.details);
    } else {
      MessagePageLeads(reader, feed, w, Next(reader, w, a), s, a.details);
    }
  }

  lemma {:induction false} AttemptKept(reader: Reader, feed: Feed, w: World, a: Attempt)
    requires Finite(reader, feed) && Kept(feed, w) && Truthful(reader, w, a)
    ensures Kept(feed, Next(reader, w, a))
  {
    if w.mail.done {
      var v := Next(reader, w, a);
      forall m | Agrees(w, m) ensures Agrees(v, m) {}
    } else if TurnOf(reader, w, a).failed {
      FailedAttemptKept(reader, feed, w, a);
    } else if Working(w.mail.delta).phase.Folders? {
      FolderAttemptKept(reader, feed, w, a);
    } else {
      MessageAttemptKept(reader, feed, w, a);
    }
  }

  lemma {:induction false} RunKept(reader: Reader, feed: Feed, w: World, attempts: seq<Attempt>, v: World)
    requires Finite(reader, feed) && Kept(feed, w) && Run(reader, w, attempts, v)
    ensures Kept(feed, v)
    decreases |attempts|
  {
    if attempts == [] {
    } else {
      AttemptKept(reader, feed, w, attempts[0]);
      RunKept(reader, feed, Next(reader, w, attempts[0]), attempts[1..], v);
    }
  }

  // ----------------------------------------------------------------------
  // What a round reads, and what it leaves unconfirmed
  // ----------------------------------------------------------------------

  /** The gap of an unconfirmed removal stands exactly when one was refused. */
  predicate Marked(w: World) {
    w.mail.unconfirmed <==> w.refused != {}
  }

  lemma {:induction false} RunMarked(reader: Reader, w: World, attempts: seq<Attempt>, v: World)
    requires Marked(w) && Run(reader, w, attempts, v)
    ensures Marked(v)
    decreases |attempts|
  {
    if attempts == [] {
    } else {
      AttemptMarked(reader, w, attempts[0]);
      RunMarked(reader, Next(reader, w, attempts[0]), attempts[1..], v);
    }
  }

  lemma {:induction false} AttemptMarked(reader: Reader, w: World, a: Attempt)
    requires Marked(w)
    ensures Marked(Next(reader, w, a))
  {
    var r := Step(Answering(reader, a.lost), w.mail.delta);
    if !w.mail.done && r.Ok? {
      StepNames(Answering(reader, a.lost), w.mail.delta);
      UnconfirmedExactly(r.removals, a.details, |r.changes|);
    }
  }

  /** The messages whose details a call may read. */
  function Reads(reader: Reader, w: World): set<Id> {
    var r := Step(reader, w.mail.delta);
    if w.mail.done || r.Invalid? then {} else Ids(r.changes) + CandidateIds(r.removals)
  }

  /** A call reads only messages that the feeds of its round list. */
  lemma {:induction false} OnlyListedAreRead(reader: Reader, feed: Feed, w: World)
    requires Finite(reader, feed) && Kept(feed, w)
    ensures w.start.None? ==> Reads(reader, w) == {}
    ensures w.start.Some? ==>
      w.start.value.state.Closed() &&
      Reads(reader, w) <= Changed(feed, w.start.value.state) + Dropped(feed, w.start.value.state)
  {
    var s := Working(w.mail.delta);
    if !w.mail.done {
      assert Step(reader, w.mail.delta) == Step(reader, Some(s));
      if s.phase.Folders? {
        FolderPageLeaves(reader, feed, w, s);
      } else {
        MessageStepProgresses(reader, feed, s);
        MessagesListed(reader, feed, w, s);
      }
    }
  }

  lemma {:induction false} MessagesListed(reader: Reader, feed: Feed, w: World, s: State)
    requires Finite(reader, feed) && ReadsMessages(feed, w, s) && Step(reader, Some(s)).Ok?
    ensures
      var r, e := Step(reader, Some(s)), w.start.value.state;
      Ids(r.changes) <= Changed(feed, e) && CandidateIds(r.removals) <= Dropped(feed, e)
  {
    ChangesListed(reader, feed, w, s);
    RemovalsListed(reader, feed, w, s);
  }

  lemma {:induction false} ChangesListed(reader: Reader, feed: Feed, w: World, s: State)
    requires Finite(reader, feed) && ReadsMessages(feed, w, s) && Step(reader, Some(s)).Ok?
    ensures Ids(Step(reader, Some(s)).changes) <= Changed(feed, w.start.value.state)
  {
    if s.index < |s.order| {
      MessagePageGathers(reader, feed, w, s);
      var r := Step(reader, Some(s));
      IdsConcat(r.changes, Pending(feed, r.checkpoint, r.checkpoint.index));
    }
  }

  lemma {:induction false} RemovalsListed(reader: Reader, feed: Feed, w: World, s: State)
    requires Finite(reader, feed) && ReadsMessages(feed, w, s) && Step(reader, Some(s)).Ok?
    ensures CandidateIds(Step(reader, Some(s)).removals) <= Dropped(feed, w.start.value.state)
  {
    var r := Step(reader, Some(s));
    if r.complete {
      CompleteReports(reader, s);
      RemovalsNamed(r.checkpoint.candidates);
      CandidatesWithin(reader, feed, w, s);
    } else {
      IncompleteReportsNone(reader, s);
    }
  }

  lemma {:induction false} CandidatesWithin(reader: Reader, feed: Feed, w: World, s: State)
    requires Finite(reader, feed) && ReadsMessages(feed, w, s) && Step(reader, Some(s)).Ok?
    ensures Step(reader, Some(s)).checkpoint.candidates.Keys <= Dropped(feed, w.start.value.state)
  {
    if s.index < |s.order| {
      MessagePageGathers(reader, feed, w, s);
    }
  }

  /** A round starts reading messages with the documents it began with. */
  lemma {:induction false} StartsUntouched(reader: Reader, feed: Feed, w: World, attempts: seq<Attempt>, v: World)
    requires Finite(reader, feed) && Kept(feed, w) && !w.mail.done && w.start.None? && Run(reader, w, attempts, v)
    ensures v.start.Some? ==> v.start.value.documents == w.documents
    decreases |attempts|
  {
    if attempts == [] {
    } else {
      var a := attempts[0];
      var next := Next(reader, w, a);
      AttemptKept(reader, feed, w, a);
      FolderDeliversNothing(reader, feed, w, a);
      if next.start.Some? {
        StartStays(reader, next, attempts[1..], v);
      } else {
        StartsUntouched(reader, feed, next, attempts[1..], v);
      }
    }
  }

  lemma {:induction false} FolderDeliversNothing(reader: Reader, feed: Feed, w: World, a: Attempt)
    requires Finite(reader, feed) && Kept(feed, w) && !w.mail.done && w.start.None?
    ensures Next(reader, w, a).documents == w.documents && !Next(reader, w, a).mail.done
  {
    if TurnOf(reader, w, a).failed {
      FailureLeaves(reader, w, a);
    } else {
      StepTaken(reader, feed, w, a);
      FolderPageLeaves(reader, feed, w, Working(w.mail.delta));
    }
  }

  lemma {:induction false} StartStays(reader: Reader, w: World, attempts: seq<Attempt>, v: World)
    requires w.start.Some? && Run(reader, w, attempts, v)
    ensures v.start == w.start
    decreases |attempts|
  {
    if attempts == [] {
    } else {
      StartStays(reader, Next(reader, w, attempts[0]), attempts[1..], v);
    }
  }

  /** The world in which the round after a finished one begins. */
  function NextRoundOf(v: World): World {
    World(Restored(v.mail), v.documents, v.gone, v.clock, {}, None)
  }

  /** However often its pages, details and confirmations fail and its continuations are
      rejected, a round that ends has read every message its feeds list as changed since it
      began to read messages, unless that had left; and so every message they list as removed,
      but for those the connector refused to tell about, unless there were more than the
      limit.  A message still in the mailbox never loses its document, only messages the
      feeds name are touched, and a gap is left exactly when a removal was refused. */
  lemma {:induction false} RoundsEndInAgreement(reader: Reader, feed: Feed, w: World, attempts: seq<Attempt>, v: World)
    requires Finite(reader, feed) && Begins(w) && Run(reader, w, attempts, v) && v.mail.done
    ensures v.start.Some? && Opens(v.start.value.state) && v.start.value.documents == w.documents
    ensures
      var e := v.start.value.state;
      && (forall m <- Changed(feed, e) :: Agrees(v, m))
      && (|Dropped(feed, e)| <= MAX_REMOVAL_CANDIDATES ==>
            forall m <- Dropped(feed, e) | m !in v.refused :: Agrees(v, m))
      && Safe(feed, v)
      && (v.mail.unconfirmed <==> v.refused != {})
    ensures Begins(NextRoundOf(v))
  {
    BeginsKept(feed, w);
    RunKept(reader, feed, w, attempts, v);
    StartsUntouched(reader, feed, w, attempts, v);
    RunMarked(reader, w, attempts, v);
  }

  /** Whatever the round before left behind, a message that the feeds of a round do not name
      is not read by any of its calls, and its document stays what it was.  So a removal that
      was refused is forgotten unless the provider lists the message again. */
  lemma {:induction false} UnlistedIsForgotten(
    reader: Reader, feed: Feed, w: World, attempts: seq<Attempt>, v: World, m: Id)
    requires Finite(reader, feed) && Begins(w) && Run(reader, w, attempts, v)
    requires v.start.Some? ==>
      && v.start.value.state.Closed()
      && m !in Changed(feed, v.start.value.state) && m !in Dropped(feed, v.start.value.state)
    ensures m !in Reads(reader, v)
    ensures SameDocument(w.documents, v.documents, m)
  {
    BeginsKept(feed, w);
    RunKept(reader, feed, w, attempts, v);
    OnlyListedAreRead(reader, feed, v);
    if v.start.Some? {
      StartsUntouched(reader, feed, w, attempts, v);
    } else {
      ListingKeepsDocuments(reader, feed, w, attempts, v);
    }
  }

  lemma {:induction false} ListingKeepsDocuments(reader: Reader, feed: Feed, w: World, attempts: seq<Attempt>, v: World)
    requires Finite(reader, feed) && Kept(feed, w) && !w.mail.done && Run(reader, w, attempts, v)
    requires v.start.None?
    ensures v.documents == w.documents
    decreases |attempts|
  {
    if w.start.Some? {
      StartStays(reader, w, attempts, v);
    }
    if attempts == [] {
    } else {
      AttemptKept(reader, feed, w, attempts[0]);
      FolderDeliversNothing(reader, feed, w, attempts[0]);
      ListingKeepsDocuments(reader, feed, Next(reader, w, attempts[0]), attempts[1..], v);
    }
  }

  // ----------------------------------------------------------------------
  // A removal that could not be confirmed
  // ----------------------------------------------------------------------

  /** A mailbox with one folder that reports one removal once. */
  function OneRemoval(q: Query): Option<Page> {
    match q
    case FolderQuery(None, _) => Some(Page([Entry(Some(1), false, 0)], None, Some(0)))
    case MessageQuery(_, None, _) => Some(Page([Entry(Some(0), true, 0)], None, Some(0)))
    case _ => Some(Page([], None, Some(0)))
  }

  lemma OneFolderSorted()
    ensures Sorted({1}) == [1]
  {
    assert Sorted({1}) == [1] + Sorted({1} - {1});
    assert {1} - {1} == {};
  }

  lemma OneCandidateRemoval(c: Candidate)
    ensures RemovalsOf(map[0 := c]) == [Removal(c.folder, 0, c.revision)]
  {
    assert (map[0 := c]).Keys == {0};
    assert Sorted({0}) == [0] + Sorted({0} - {0});
    assert {0} - {0} == {};
  }

  function Tracking(link: Option<Link>): State {
    INITIAL.(phase := Messages, folderLink := Some(0), folders := map[1 := Folder(link, None)], order := [1])
  }

  /** The folder page of either round. */
  lemma {:induction false} FolderPageTracks()
    ensures Step(OneRemoval, None) == Ok([], Tracking(None), false, [], 1)
    ensures
      var s := Tracking(Some(0)).(index := 1, phase := Complete, candidates := map[0 := Candidate(1, 0)]);
      Step(OneRemoval, Some(s)) == Ok([], Tracking(Some(0)), false, [], 0)
  {
    OneFolderSorted();
    var items := [Entry(Some(1), false, 0)];
    assert Track(INITIAL, items) == TrackOne(Track(INITIAL, items[..0]), items[0]);
    assert items[..0] == [];
    assert (map[1 := Folder(None, None)]).Keys == {1};
    var s := Tracking(Some(0)).(index := 1, phase := Complete, candidates := map[0 := Candidate(1, 0)]);
    assert NextRound(s).folders == map[1 := Folder(Some(0), None)];
    assert (map[1 := Folder(Some(0), None)]).Keys == {1};
  }

  /** The message page of either round. */
  lemma {:induction false} MessagePageRemoves()
    ensures Step(OneRemoval, Some(Tracking(None))) ==
      Ok([], Tracking(Some(0)).(index := 1, phase := Complete, candidates := map[0 := Candidate(1, 0)]), true,
         [Removal(1, 0, 0)], 1)
    ensures Step(OneRemoval, Some(Tracking(Some(0)))) ==
      Ok([], Tracking(Some(0)).(index := 1, phase := Complete), true, [], 0)
  {
    OneCandidateRemoval(Candidate(1, 0));
    var items := [Entry(Some(0), true, 0)];
    assert items[..0] == [];
    var s := Tracking(None);
    assert Gather(s, 1, items) == GatherOne(Gather(s, 1, items[..0]), 1, items[0]);
    assert Changes(1, items) == [];
    assert RemovalsOf(map[]) == [];
  }

  const REFUSING := Attempt(false, _ => Refused, false, {})

  /** An attempt without changes whose one confirmation, if any, is refused. */
  lemma RefusedAttempt(w: World)
    requires !w.mail.done && Step(OneRemoval, w.mail.delta).Ok?
    requires var r := Step(OneRemoval, w.mail.delta); r.changes == [] && |r.removals| <= 1
    ensures Truthful(OneRemoval, w, REFUSING)
    ensures
      var r, v := Step(OneRemoval, w.mail.delta), Next(OneRemoval, w, REFUSING);
      && v.mail == Mail(Some(r.checkpoint), w.mail.unconfirmed || r.removals != [], r.complete)
      && v.documents == w.documents && v.gone == w.gone
  {
    var r := Step(OneRemoval, w.mail.delta);
    assert Confirm(r.removals, REFUSING.details, 0).deliveries == [];
    assert Confirm(r.removals, REFUSING.details, 0).unconfirmed == (r.removals != []);
    assert TurnOf(OneRemoval, w, REFUSING).deliveries == [];
  }

  /** A removal that cannot be confirmed when its round ends is never looked at again: the
      next round ends without a gap, and the document of the message that left remains. */
  lemma {:induction false} UnconfirmedRemovalIsForgotten() returns (w: World, v: World, u: World)
    ensures Begins(w) && Run(OneRemoval, w, [REFUSING, REFUSING], v) && v.mail.done && v.mail.unconfirmed
    ensures Run(OneRemoval, NextRoundOf(v), [REFUSING, REFUSING], u)
    ensures u.mail.done && !u.mail.unconfirmed && 0 in u.gone && 0 in u.documents
  {
    FolderPageTracks();
    MessagePageRemoves();
    w := World(Mail(None, false, false), map[0 := 0], {0}, 1, {}, None);
    v := RefusedTwice(w);
    u := RefusedTwice(NextRoundOf(v));
  }

  lemma {:induction false} RefusedTwice(w: World) returns (v: World)
    requires !w.mail.done
    requires
      var r := Step(OneRemoval, w.mail.delta);
      && r.Ok? && r.changes == [] && r.removals == [] && !r.complete
      && var q := Step(OneRemoval, Some(r.checkpoint));
         q.Ok? && q.changes == [] && |q.removals| <= 1
    ensures Run(OneRemoval, w, [REFUSING, REFUSING], v) && v.documents == w.documents && v.gone == w.gone
    ensures
      var q := Step(OneRemoval, Some(Step(OneRemoval, w.mail.delta).checkpoint));
      v.mail == Mail(Some(q.checkpoint), w.mail.unconfirmed || q.removals != [], q.complete)
  {
    RefusedAttempt(w);
    RefusedAttempt(Next(OneRemoval, w, REFUSING));
    v := Next(OneRemoval, Next(OneRemoval, w, REFUSING), REFUSING);
    RunTwice(OneRemoval, w, REFUSING);
  }

  lemma RunTwice(reader: Reader, w: World, a: Attempt)
    requires Truthful(reader, w, a) && Truthful(reader, Next(reader, w, a), a)
    ensures Run(reader, w, [a, a], Next(reader, Next(reader, w, a), a))
  {
    assert [a, a][1..] == [a];
    assert [a][1..] == [];
  }
}
