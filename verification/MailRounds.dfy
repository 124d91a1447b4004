/**
 What repeated calls of the Outlook synchronisation add up to when the connector serves
 finite feeds.
 */
module MailRounds {
  import opened Basics
  import opened MailDelta

  // ----------------------------------------------------------------------
  // Finite feeds
  // ----------------------------------------------------------------------

  /** The pages still to come when a query is asked. */
  type Feed = Query -> seq<Page>

  function Continued(q: Query, token: Token): Query {
    q.(continuation := Some(token))
  }

  predicate Served(reader: Reader, feed: Feed, q: Query) {
    && |feed(q)| > 0
    && reader(q) == Some(feed(q)[0])
    && Identified(feed(q)[0].items)
    && match feed(q)[0].continuation
       case Some(token) => feed(Continued(q, token)) == feed(q)[1..] && |feed(q)| > 1
       case None => |feed(q)| == 1 && feed(q)[0].link.Some?
  }

  /** The connector answers every query from finite feeds of usable pages. */
  ghost predicate Finite(reader: Reader, feed: Feed) {
    forall q :: Served(reader, feed, q)
  }

  // ----------------------------------------------------------------------
  // Sound checkpoints
  // ----------------------------------------------------------------------

  /** Every checkpoint the synchronisation itself produces is of this kind. */
  predicate Sound(s: State) {
    && s.WellFormed()
    && (s.phase.Folders? ==> s.order == [])
  }

  lemma {:induction false} TrackBounds(s: State, items: seq<Entry>)
    requires |s.folders| <= MAX_FOLDERS
    ensures
      var t := Track(s, items);
      && |t.folders| <= MAX_FOLDERS
      && t == s.(folders := t.folders, folderOverflow := t.folderOverflow, gaps := t.gaps)
  {
    if items == [] {
    } else {
      var init := items[..|items| - 1];
      TrackBounds(s, init);
      TrackOneBounds(Track(s, init), items[|items| - 1]);
    }
  }

  lemma TrackOneBounds(s: State, item: Entry)
    requires |s.folders| <= MAX_FOLDERS
    ensures
      var t := TrackOne(s, item);
      && |t.folders| <= MAX_FOLDERS
      && t == s.(folders := t.folders, folderOverflow := t.folderOverflow, gaps := t.gaps)
  {
  }

  function PhaseRank(s: State): nat {
    match s.phase case Folders => 2 case Messages => 1 case Complete => 0
  }

  function FoldersLeft(s: State): nat {
    if s.phase.Messages? && s.index < |s.order| then |s.order| - s.index else 0
  }

  function PagesLeft(feed: Feed, s: State): nat
    requires s.WellFormed()
  {
    if s.phase.Folders? || (s.phase.Messages? && s.index < |s.order|) then |feed(QueryOf(s))| else 0
  }

  /** The lexicographic measure of a round: phase, folders left, pages left. */
  predicate Nearer(feed: Feed, t: State, s: State)
    requires t.WellFormed() && s.WellFormed()
  {
    || PhaseRank(t) < PhaseRank(s)
    || (PhaseRank(t) == PhaseRank(s) && FoldersLeft(t) < FoldersLeft(s))
    || (PhaseRank(t) == PhaseRank(s) && FoldersLeft(t) == FoldersLeft(s) && PagesLeft(feed, t) < PagesLeft(feed, s))
  }

  predicate Progresses(feed: Feed, r: Result, s: State)
    requires s.WellFormed()
  {
    && r.Ok? && Sound(r.checkpoint)
    && (r.complete <==> r.checkpoint.phase.Complete?)
    && (r.complete || Nearer(feed, r.checkpoint, s))
  }

  lemma FolderStepProgresses(reader: Reader, feed: Feed, s: State)
    requires Finite(reader, feed) && Sound(s) && s.phase.Folders?
    ensures Progresses(feed, Step(reader, Some(s)), s)
  {
    var q := QueryOf(s);
    assert Served(reader, feed, q);
    var page := feed(q)[0];
    var t := Track(s, page.items);
    TrackBounds(s, page.items);
    if page.continuation.Some? {
      assert QueryOf(t.(folderContinuation := page.continuation)) == Continued(q, page.continuation.value);
    } else {
      SortedIsSorted(t.folders.Keys);
    }
  }

  /** What a page of messages that was served makes of the checkpoint. */
  lemma {:induction false} MessagePageMoves(s: State, page: Page)
    requires Sound(s) && s.phase.Messages? && s.index < |s.order|
    requires Identified(page.items) && (page.continuation.Some? || page.link.Some?)
    ensures
      var f, r := s.order[s.index], MessageStep(s, page);
      && r.Ok? && Sound(r.checkpoint) && r.checkpoint.order == s.order
      && (r.complete <==> r.checkpoint.phase.Complete?)
      && if page.continuation.Some? then
           && !r.complete && r.checkpoint.phase.Messages? && r.checkpoint.index == s.index
           && MessageQueryOf(r.checkpoint, f) == MessageQueryOf(s, f).(continuation := page.continuation)
         else r.checkpoint.index == s.index + 1
  {
    GatherKeeps(s, s.order[s.index], page.items);
    var f := s.order[s.index];
    var folder := if page.continuation.Some? then s.folders[f].(continuation := page.continuation)
                  else Folder(page.link, None);
    SameFolders(s.folders, f, folder);
    if page.continuation.Some? {
      assert MessageStep(s, page).checkpoint.folders == s.folders[f := folder];
    }
  }

  lemma SameFolders(folders: map<Id, Folder>, f: Id, folder: Folder)
    requires f in folders
    ensures folders[f := folder].Keys == folders.Keys && |folders[f := folder]| == |folders|
  {
    assert folders[f := folder].Keys == folders.Keys + {f};
    assert |folders[f := folder]| == |folders[f := folder].Keys|;
  }

  lemma {:induction false} MessageStepProgresses(reader: Reader, feed: Feed, s: State)
    requires Finite(reader, feed) && Sound(s) && s.phase.Messages?
    ensures Progresses(feed, Step(reader, Some(s)), s)
  {
    if s.index < |s.order| {
      var q := QueryOf(s);
      assert Served(reader, feed, q);
      var page := feed(q)[0];
      MessagePageMoves(s, page);
      assert Step(reader, Some(s)) == MessageStep(s, page);
      if page.continuation.Some? {
        assert QueryOf(MessageStep(s, page).checkpoint) == Continued(q, page.continuation.value);
      }
    }
  }

  /** One call on finite feeds succeeds, keeps the checkpoint sound, and either completes
      the round or brings it strictly nearer its end. */
  lemma StepProgresses(reader: Reader, feed: Feed, s: State)
    requires Finite(reader, feed) && Sound(s) && !s.phase.Complete?
    ensures Progresses(feed, Step(reader, Some(s)), s)
  {
    if s.phase.Folders? {
      FolderStepProgresses(reader, feed, s);
    } else {
      MessageStepProgresses(reader, feed, s);
    }
  }

  /** The results of calling again and again until a result is complete.  That this
      function terminates is the termination of a round. */
  ghost function Round(reader: Reader, feed: Feed, s: State): (results: seq<Result>)
    requires Finite(reader, feed) && Sound(s) && !s.phase.Complete?
    ensures |results| > 0 && forall r <- results :: r.Ok?
    ensures forall i | 0 <= i < |results| :: results[i].complete <==> i == |results| - 1
    decreases PhaseRank(s), FoldersLeft(s), PagesLeft(feed, s)
  {
    StepProgresses(reader, feed, s);
    var r := Step(reader, Some(s));
    if r.complete then [r] else [r] + Round(reader, feed, r.checkpoint)
  }

  // ----------------------------------------------------------------------
  // What a round delivers
  // ----------------------------------------------------------------------

  function AllChanges(results: seq<Result>): seq<Change> {
    if results == [] then []
    else (if results[0].Ok? then results[0].changes else []) + AllChanges(results[1..])
  }

  /** The listed removals of one page, each with its folder. */
  function Removed(folder: Id, items: seq<Entry>): seq<Change> {
    if items == [] then []
    else
      var last := items[|items| - 1];
      Removed(folder, items[..|items| - 1]) + if last.removed then [Change(folder, last)] else []
  }

  function PageChanges(folder: Id, pages: seq<Page>): seq<Change> {
    if pages == [] then [] else Changes(folder, pages[0].items) + PageChanges(folder, pages[1..])
  }

  function PageRemovals(folder: Id, pages: seq<Page>): seq<Change> {
    if pages == [] then [] else Removed(folder, pages[0].items) + PageRemovals(folder, pages[1..])
  }

  /** Every change still to come: the rest of the current folder's feed, then the feeds of
      the later folders in order. */
  function Pending(feed: Feed, s: State, i: nat): seq<Change>
    requires s.Closed()
    decreases |s.order| - i
  {
    if i >= |s.order| then []
    else PageChanges(s.order[i], feed(MessageQueryOf(s, s.order[i]))) + Pending(feed, s, i + 1)
  }

  function PendingRemovals(feed: Feed, s: State, i: nat): seq<Change>
    requires s.Closed()
    decreases |s.order| - i
  {
    if i >= |s.order| then []
    else PageRemovals(s.order[i], feed(MessageQueryOf(s, s.order[i]))) + PendingRemovals(feed, s, i + 1)
  }

  lemma {:induction false} PendingFrame(feed: Feed, s: State, t: State, i: nat)
    requires s.Closed() && t.Closed() && s.order == t.order
    requires forall j | i <= j < |s.order| :: s.folders[s.order[j]] == t.folders[s.order[j]]
    ensures Pending(feed, s, i) == Pending(feed, t, i)
    ensures PendingRemovals(feed, s, i) == PendingRemovals(feed, t, i)
    decreases |s.order| - i
  {
    if i < |s.order| {
      PendingFrame(feed, s, t, i + 1);
    }
  }

  /** The removal candidates and whether their limit was reached. */
  datatype Pool = Pool(candidates: map<Id, Candidate>, overflow: bool)

  function PoolOf(s: State): Pool {
    Pool(s.candidates, s.removalOverflow)
  }

  function AbsorbOne(p: Pool, c: Change): Pool {
    match c.item.id
    case None => p
    case Some(m) =>
      if m in p.candidates then p
      else if |p.candidates| >= MAX_REMOVAL_CANDIDATES then p.(overflow := true)
      else p.(candidates := p.candidates[m := Candidate(c.folder, c.item.revision)])
  }

  function Absorb(p: Pool, removed: seq<Change>): Pool {
    if removed == [] then p else AbsorbOne(Absorb(p, removed[..|removed| - 1]), removed[|removed| - 1])
  }

  lemma {:induction false} AbsorbConcat(p: Pool, a: seq<Change>, b: seq<Change>)
    ensures Absorb(p, a + b) == Absorb(Absorb(p, a), b)
  {
    if b == [] {
      assert a + b == a;
    } else {
      AbsorbConcat(p, a, b[..|b| - 1]);
      assert (a + b)[..|a + b| - 1] == a + b[..|b| - 1];
    }
  }

  lemma {:induction false} GatherAbsorbs(s: State, folder: Id, items: seq<Entry>)
    ensures PoolOf(Gather(s, folder, items)) == Absorb(PoolOf(s), Removed(folder, items))
  {
    if items == [] {
    } else {
      var init, last := items[..|items| - 1], items[|items| - 1];
      GatherAbsorbs(s, folder, init);
      if last.removed {
        var c := Change(folder, last);
        assert (Removed(folder, init) + [c])[..|Removed(folder, init)|] == Removed(folder, init);
      } else {
        assert Removed(folder, items) == Removed(folder, init);
      }
    }
  }

  /** The page a sound checkpoint in the message phase is about to read. */
  ghost function NextPage(reader: Reader, feed: Feed, s: State): (page: Page)
    requires Finite(reader, feed) && s.WellFormed() && s.phase.Messages? && s.index < |s.order|
    ensures |feed(QueryOf(s))| > 0 && reader(QueryOf(s)) == Some(page)
  {
    assert Served(reader, feed, QueryOf(s));
    feed(QueryOf(s))[0]
  }

  /** What one message step leaves of the feeds: the current folder's other pages, or the
      later folders untouched. */
  lemma {:induction false} MessageStepAdvances(reader: Reader, feed: Feed, s: State)
    requires Finite(reader, feed) && Sound(s) && s.phase.Messages? && s.index < |s.order|
    ensures
      var f, page, r := s.order[s.index], NextPage(reader, feed, s), Step(reader, Some(s));
      && r.Ok? && r.checkpoint.WellFormed() && r.checkpoint.order == s.order
      && r.changes == Changes(f, page.items)
      && PoolOf(r.checkpoint) == Absorb(PoolOf(s), Removed(f, page.items))
      && (forall j | s.index < j < |s.order| :: r.checkpoint.folders[s.order[j]] == s.folders[s.order[j]])
      && if page.continuation.Some? then
           && r.checkpoint.index == s.index
           && feed(MessageQueryOf(r.checkpoint, f)) == feed(QueryOf(s))[1..]
         else
           && r.checkpoint.index == s.index + 1
           && feed(QueryOf(s)) == [page]
  {
    MessageStepProgresses(reader, feed, s);
    var f, q, r := s.order[s.index], QueryOf(s), Step(reader, Some(s));
    assert Served(reader, feed, q);
    var page := NextPage(reader, feed, s);
    GatherKeeps(s, f, page.items);
    GatherAbsorbs(s, f, page.items);
    if page.continuation.Some? {
      assert QueryOf(r.checkpoint) == Continued(q, page.continuation.value);
    }
  }

  /** One message page: what it delivers and removes is what is no longer pending. */
  lemma {:induction false} MessageStepDelivers(reader: Reader, feed: Feed, s: State) returns (removed: seq<Change>)
    requires Finite(reader, feed) && Sound(s) && s.phase.Messages? && s.index < |s.order|
    ensures
      var r := Step(reader, Some(s));
      && r.Ok? && r.checkpoint.WellFormed()
      && Pending(feed, s, s.index) == r.changes + Pending(feed, r.checkpoint, r.checkpoint.index)
      && PendingRemovals(feed, s, s.index) == removed + PendingRemovals(feed, r.checkpoint, r.checkpoint.index)
      && PoolOf(r.checkpoint) == Absorb(PoolOf(s), removed)
  {
    MessageStepAdvances(reader, feed, s);
    var f, t := s.order[s.index], Step(reader, Some(s)).checkpoint;
    removed := Removed(f, NextPage(reader, feed, s).items);
    PendingAdvances(feed, s, t, NextPage(reader, feed, s));
  }

  /** Reading one more page of the current folder, whatever follows it. */
  lemma {:induction false} PendingUnfolds(feed: Feed, s: State, i: nat)
    requires s.Closed() && i < |s.order| && |feed(MessageQueryOf(s, s.order[i]))| > 0
    ensures
      var f := s.order[i];
      var pages := feed(MessageQueryOf(s, f));
      && Pending(feed, s, i) ==
         Changes(f, pages[0].items) + (PageChanges(f, pages[1..]) + Pending(feed, s, i + 1))
      && PendingRemovals(feed, s, i) ==
         Removed(f, pages[0].items) + (PageRemovals(f, pages[1..]) + PendingRemovals(feed, s, i + 1))
  {
    var f := s.order[i];
    var pages := feed(MessageQueryOf(s, f));
    Regroup(Changes(f, pages[0].items), PageChanges(f, pages[1..]), Pending(feed, s, i + 1));
    Regroup(Removed(f, pages[0].items), PageRemovals(f, pages[1..]), PendingRemovals(feed, s, i + 1));
  }

  lemma {:induction false} PendingChangesAdvance(feed: Feed, s: State, t: State, page: Page)
    requires s.Closed() && t.Closed() && s.index < |s.order| && t.order == s.order
    requires forall j | s.index < j < |s.order| :: t.folders[s.order[j]] == s.folders[s.order[j]]
    requires var pages := feed(MessageQueryOf(s, s.order[s.index]));
      && |pages| > 0 && page == pages[0]
      && if t.index == s.index then feed(MessageQueryOf(t, s.order[s.index])) == pages[1..]
         else t.index == s.index + 1 && |pages| == 1
    ensures Pending(feed, s, s.index) == Changes(s.order[s.index], page.items) + Pending(feed, t, t.index)
  {
    var f := s.order[s.index];
    var pages := feed(MessageQueryOf(s, f));
    PendingUnfolds(feed, s, s.index);
    PendingFrame(feed, s, t, s.index + 1);
    if t.index == s.index {
      assert Pending(feed, t, t.index) == PageChanges(f, pages[1..]) + Pending(feed, t, t.index + 1);
    } else {
      assert PageChanges(f, pages[1..]) == [];
    }
  }

  lemma {:induction false} PendingRemovalsAdvance(feed: Feed, s: State, t: State, page: Page)
    requires s.Closed() && t.Closed() && s.index < |s.order| && t.order == s.order
    requires forall j | s.index < j < |s.order| :: t.folders[s.order[j]] == s.folders[s.order[j]]
    requires var pages := feed(MessageQueryOf(s, s.order[s.index]));
      && |pages| > 0 && page == pages[0]
      && if t.index == s.index then feed(MessageQueryOf(t, s.order[s.index])) == pages[1..]
         else t.index == s.index + 1 && |pages| == 1
    ensures PendingRemovals(feed, s, s.index) ==
      Removed(s.order[s.index], page.items) + PendingRemovals(feed, t, t.index)
  {
    var f := s.order[s.index];
    var pages := feed(MessageQueryOf(s, f));
    PendingUnfolds(feed, s, s.index);
    PendingFrame(feed, s, t, s.index + 1);
    if t.index == s.index {
      assert PendingRemovals(feed, t, t.index) == PageRemovals(f, pages[1..]) + PendingRemovals(feed, t, t.index + 1);
    } else {
      assert PageRemovals(f, pages[1..]) == [];
    }
  }

  lemma PendingAdvances(feed: Feed, s: State, t: State, page: Page)
    requires s.Closed() && t.Closed() && s.index < |s.order| && t.order == s.order
    requires forall j | s.index < j < |s.order| :: t.folders[s.order[j]] == s.folders[s.order[j]]
    requires var pages := feed(MessageQueryOf(s, s.order[s.index]));
      && |pages| > 0 && page == pages[0]
      && if t.index == s.index then feed(MessageQueryOf(t, s.order[s.index])) == pages[1..]
         else t.index == s.index + 1 && |pages| == 1
    ensures Pending(feed, s, s.index) == Changes(s.order[s.index], page.items) + Pending(feed, t, t.index)
    ensures PendingRemovals(feed, s, s.index) ==
      Removed(s.order[s.index], page.items) + PendingRemovals(feed, t, t.index)
  {
    PendingChangesAdvance(feed, s, t, page);
    PendingRemovalsAdvance(feed, s, t, page);
  }

  /** The results of a round deliver what is pending and end with the removals gathered. */
  ghost predicate Delivers(feed: Feed, s: State, results: seq<Result>)
    requires s.WellFormed()
  {
    var pool := Absorb(PoolOf(s), PendingRemovals(feed, s, s.index));
    && |results| > 0 && results[|results| - 1].Ok?
    && AllChanges(results) == Pending(feed, s, s.index)
    && PoolOf(results[|results| - 1].checkpoint) == pool
    && results[|results| - 1].removals == if pool.overflow then [] else RemovalsOf(pool.candidates)
  }

  lemma {:induction false} DeliversStep(reader: Reader, feed: Feed, s: State, rest: seq<Result>)
    requires Finite(reader, feed) && Sound(s) && s.phase.Messages? && s.index < |s.order|
    requires var r := Step(reader, Some(s)); r.Ok? && r.checkpoint.WellFormed() && Delivers(feed, r.checkpoint, rest)
    ensures Delivers(feed, s, [Step(reader, Some(s))] + rest)
  {
    var removed := MessageStepDelivers(reader, feed, s);
    var r := Step(reader, Some(s));
    AbsorbConcat(PoolOf(s), removed, PendingRemovals(feed, r.checkpoint, r.checkpoint.index));
    assert ([r] + rest)[1..] == rest;
  }

  /** A complete result has left the last folder, and reports the candidates. */
  lemma {:induction false} CompleteReports(reader: Reader, s: State)
    requires s.WellFormed() && s.phase.Messages? && Step(reader, Some(s)).Ok? && Step(reader, Some(s)).complete
    ensures
      var r := Step(reader, Some(s));
      && r.checkpoint.index >= |r.checkpoint.order|
      && r.removals == (if r.checkpoint.removalOverflow then [] else RemovalsOf(r.checkpoint.candidates))
      && (s.index >= |s.order| ==> r.changes == [] && PoolOf(r.checkpoint) == PoolOf(s))
  {
    if s.index < |s.order| {
      GatherKeeps(s, s.order[s.index], reader(QueryOf(s)).value.items);
    }
  }

  lemma {:induction false} DeliversLast(reader: Reader, feed: Feed, s: State)
    requires Finite(reader, feed) && Sound(s) && s.phase.Messages?
    requires Step(reader, Some(s)).Ok? && Step(reader, Some(s)).complete
    ensures Delivers(feed, s, [Step(reader, Some(s))])
  {
    CompleteReports(reader, s);
    var r := Step(reader, Some(s));
    assert AllChanges([r]) == r.changes + AllChanges([]);
    if s.index < |s.order| {
      var removed := MessageStepDelivers(reader, feed, s);
      assert PendingRemovals(feed, s, s.index) == removed;
    }
  }

  /** From any sound checkpoint in the message phase, the calls deliver exactly what is
      pending, in order, and the last result reports exactly the candidates gathered, or
      none once their limit was reached. */
  lemma {:induction false} RoundDelivers(reader: Reader, feed: Feed, s: State)
    requires Finite(reader, feed) && Sound(s) && s.phase.Messages?
    ensures Delivers(feed, s, Round(reader, feed, s))
    decreases PhaseRank(s), FoldersLeft(s), PagesLeft(feed, s)
  {
    StepProgresses(reader, feed, s);
    var r := Step(reader, Some(s));
    if r.complete {
      DeliversLast(reader, feed, s);
    } else {
      RoundDelivers(reader, feed, r.checkpoint);
      DeliversStep(reader, feed, s, Round(reader, feed, r.checkpoint));
    }
  }

  // ----------------------------------------------------------------------
  // The removal candidates exactly
  // ----------------------------------------------------------------------

  function Ids(removed: seq<Change>): set<Id> {
    set c | c in removed && c.item.id.Some? :: c.item.id.value
  }

  lemma IdsNext(removed: seq<Change>, c: Change)
    ensures Ids(removed + [c]) == Ids(removed) + if c.item.id.Some? then {c.item.id.value} else {}
  {
    assert forall d :: d in removed + [c] <==> d in removed || d == c;
    if c.item.id.Some? {
      assert c in removed + [c];
    }
  }

  /** Entry `i` is the first to name its object. */
  predicate First(removed: seq<Change>, i: nat)
    requires i < |removed|
  {
    removed[i].item.id.Some? && forall j | 0 <= j < i :: removed[j].item.id != removed[i].item.id
  }

  /** The pool holds what it should of the removals so far. */
  predicate PoolIs(p: Pool, ids: set<Id>) {
    && p.candidates.Keys <= ids
    && |p.candidates| <= MAX_REMOVAL_CANDIDATES
    && (p.overflow <==> |ids| > MAX_REMOVAL_CANDIDATES)
    && (!p.overflow ==> p.candidates.Keys == ids)
    && (p.overflow ==> |p.candidates| == MAX_REMOVAL_CANDIDATES)
  }

  lemma {:induction false} AbsorbOneExact(p: Pool, ids: set<Id>, c: Change)
    requires PoolIs(p, ids)
    ensures PoolIs(AbsorbOne(p, c), ids + if c.item.id.Some? then {c.item.id.value} else {})
  {
    if c.item.id.None? {
      assert ids + {} == ids;
    } else if c.item.id.value in ids {
      assert ids + {c.item.id.value} == ids;
      assert !p.overflow ==> c.item.id.value in p.candidates;
    } else {
      AbsorbNew(p, ids, c);
    }
  }

  lemma {:induction false} AbsorbNew(p: Pool, ids: set<Id>, c: Change)
    requires PoolIs(p, ids) && c.item.id.Some? && c.item.id.value !in ids
    ensures PoolIs(AbsorbOne(p, c), ids + {c.item.id.value})
  {
    var m := c.item.id.value;
    assert m !in p.candidates && |ids + {m}| == |ids| + 1;
    assert |p.candidates.Keys| == |p.candidates|;
    if |p.candidates| < MAX_REMOVAL_CANDIDATES {
      var candidates := p.candidates[m := Candidate(c.folder, c.item.revision)];
      assert candidates.Keys == p.candidates.Keys + {m};
      assert |candidates| == |candidates.Keys|;
    }
  }

  /** The candidates are complete exactly when no more than the limit were removed. */
  lemma {:induction false} AbsorbExact(removed: seq<Change>)
    ensures PoolIs(Absorb(Pool(map[], false), removed), Ids(removed))
  {
    if removed == [] {
    } else {
      var init, last := removed[..|removed| - 1], removed[|removed| - 1];
      AbsorbExact(init);
      IdsNext(init, last);
      assert init + [last] == removed;
      AbsorbOneExact(Absorb(Pool(map[], false), init), Ids(init), last);
    }
  }

  /** Each candidate records the folder and revision its object was first listed with. */
  lemma {:induction false} AbsorbFirst(removed: seq<Change>, i: nat)
    requires i < |removed| && First(removed, i)
    ensures
      var p := Absorb(Pool(map[], false), removed);
      var m := removed[i].item.id.value;
      m in p.candidates ==> p.candidates[m] == Candidate(removed[i].folder, removed[i].item.revision)
    decreases |removed|
  {
    var init := removed[..|removed| - 1];
    if i < |init| {
      AbsorbFirst(init, i);
      AbsorbExact(init);
      assert init[i] in init && init[i].item.id.value in Ids(init);
    } else {
      AbsorbExact(init);
      assert removed[i].item.id.value !in Ids(init);
    }
  }

  // ----------------------------------------------------------------------
  // Which folders are tracked
  // ----------------------------------------------------------------------

  /** Whether the last entry naming folder `f` lists it; `before` if none names it. */
  predicate LastListed(items: seq<Entry>, f: Id, before: bool) {
    if items == [] then before
    else
      var last := items[|items| - 1];
      if last.id == Some(f) then !last.removed else LastListed(items[..|items| - 1], f, before)
  }

  /** One entry decides about the folder it names, and about no other. */
  lemma TrackOneListed(s: State, item: Entry, f: Id)
    requires !TrackOne(s, item).folderOverflow
    ensures !s.folderOverflow
    ensures f in TrackOne(s, item).folders <==> if item.id == Some(f) then !item.removed else f in s.folders
  {
  }

  /** Below the folder limit, the last mention of a folder decides. */
  lemma {:induction false} TrackedByLastMention(s: State, items: seq<Entry>, f: Id)
    requires |s.folders| <= MAX_FOLDERS
    requires !Track(s, items).folderOverflow
    ensures !s.folderOverflow
    ensures f in Track(s, items).folders <==> LastListed(items, f, f in s.folders)
  {
    if items == [] {
    } else {
      var init, last := items[..|items| - 1], items[|items| - 1];
      TrackOneListed(Track(s, init), last, f);
      TrackedByLastMention(s, init, f);
    }
  }

  function Listing(pages: seq<Page>): seq<Entry> {
    if pages == [] then [] else pages[0].items + Listing(pages[1..])
  }

  lemma {:induction false} TrackConcat(s: State, a: seq<Entry>, b: seq<Entry>)
    ensures Track(s, a + b) == Track(Track(s, a), b)
  {
    if b == [] {
      assert a + b == a;
    } else {
      var init, last := b[..|b| - 1], b[|b| - 1];
      TrackConcat(s, a, init);
      TrackLast(s, a + init, last);
      TrackLast(Track(s, a), init, last);
      assert b == init + [last] && a + b == (a + init) + [last];
    }
  }

  lemma TrackLast(s: State, init: seq<Entry>, last: Entry)
    ensures Track(s, init + [last]) == TrackOne(Track(s, init), last)
  {
    assert (init + [last])[..|init|] == init;
  }

  /** The checkpoint with which the folder phase of a round ends. */
  ghost function Gate(reader: Reader, feed: Feed, s: State): (e: State)
    requires Finite(reader, feed) && Sound(s) && s.phase.Folders?
    ensures Sound(e) && e.phase.Messages?
    decreases PagesLeft(feed, s)
  {
    StepProgresses(reader, feed, s);
    var t := Step(reader, Some(s)).checkpoint;
    if t.phase.Messages? then t else Gate(reader, feed, t)
  }

  /** The folder phase leaves the folders tracked over all its pages, to be read in sorted
      order. */
  lemma {:induction false} FolderGate(reader: Reader, feed: Feed, s: State)
    requires Finite(reader, feed) && Sound(s) && s.phase.Folders?
    ensures
      var e, t := Gate(reader, feed, s), Track(s, Listing(feed(QueryOf(s))));
      && e.folders == t.folders && e.folderOverflow == t.folderOverflow
      && e.order == Sorted(t.folders.Keys) && e.index == 0 && PoolOf(e) == PoolOf(s)
    decreases PagesLeft(feed, s)
  {
    FolderStepAdvances(reader, feed, s);
    var t := Step(reader, Some(s)).checkpoint;
    if t.phase.Folders? {
      FolderGate(reader, feed, t);
    }
  }

  /** A result without changes in front of others. */
  lemma NothingFirst(r: Result, rest: seq<Result>)
    requires r.Ok? && r.changes == [] && rest != []
    ensures AllChanges([r] + rest) == AllChanges(rest)
    ensures ([r] + rest)[|rest|] == rest[|rest| - 1]
  {
    assert ([r] + rest)[1..] == rest;
    assert [] + AllChanges(rest) == AllChanges(rest);
  }

  /** The results deliver the same and end the same. */
  predicate Alike(all: seq<Result>, rest: seq<Result>) {
    all != [] && rest != [] && AllChanges(all) == AllChanges(rest) && all[|all| - 1] == rest[|rest| - 1]
  }

  /** The folder phase delivers nothing. */
  lemma {:induction false} FolderRound(reader: Reader, feed: Feed, s: State) returns (e: State)
    requires Finite(reader, feed) && Sound(s) && s.phase.Folders?
    ensures e == Gate(reader, feed, s) && Alike(Round(reader, feed, s), Round(reader, feed, e))
    decreases PagesLeft(feed, s)
  {
    var t := FolderRoundUnfolds(reader, feed, s);
    if t.phase.Folders? {
      e := FolderRound(reader, feed, t);
      AlikeInTurn(Round(reader, feed, s), Round(reader, feed, t), Round(reader, feed, e));
    } else {
      e := t;
    }
  }

  lemma AlikeInTurn(a: seq<Result>, b: seq<Result>, c: seq<Result>)
    requires Alike(a, b) && Alike(b, c)
    ensures Alike(a, c)
  {
  }

  lemma {:induction false} FolderRoundUnfolds(reader: Reader, feed: Feed, s: State) returns (t: State)
    requires Finite(reader, feed) && Sound(s) && s.phase.Folders?
    ensures Sound(t) && !t.phase.Complete? && Nearer(feed, t, s)
    ensures Gate(reader, feed, s) == if t.phase.Messages? then t else Gate(reader, feed, t)
    ensures Alike(Round(reader, feed, s), Round(reader, feed, t))
  {
    FolderStepQuiet(reader, feed, s);
    var r := Step(reader, Some(s));
    t := r.checkpoint;
    NothingFirst(r, Round(reader, feed, t));
  }

  lemma {:induction false} FolderStepQuiet(reader: Reader, feed: Feed, s: State)
    requires Finite(reader, feed) && Sound(s) && s.phase.Folders?
    ensures var r := Step(reader, Some(s)); Progresses(feed, r, s) && !r.complete && r.changes == []
  {
    FolderStepAdvances(reader, feed, s);
  }

  lemma {:induction false} FolderPhase(reader: Reader, feed: Feed, s: State)
    requires Finite(reader, feed) && Sound(s) && s.phase.Folders?
    ensures
      var e, t := Gate(reader, feed, s), Track(s, Listing(feed(QueryOf(s))));
      && e.folders == t.folders && e.folderOverflow == t.folderOverflow
      && e.order == Sorted(t.folders.Keys) && e.index == 0 && PoolOf(e) == PoolOf(s)
      && AllChanges(Round(reader, feed, s)) == AllChanges(Round(reader, feed, e))
      && (var all, rest := Round(reader, feed, s), Round(reader, feed, e);
          all[|all| - 1] == rest[|rest| - 1])
  {
    FolderGate(reader, feed, s);
    var e := FolderRound(reader, feed, s);
  }

  /** One folder page; what is left to track is what the remaining pages list. */
  lemma {:induction false} FolderStepAdvances(reader: Reader, feed: Feed, s: State)
    requires Finite(reader, feed) && Sound(s) && s.phase.Folders?
    ensures
      var r, t := Step(reader, Some(s)), Track(s, Listing(feed(QueryOf(s))));
      && Progresses(feed, r, s) && !r.complete && r.changes == [] && PoolOf(r.checkpoint) == PoolOf(s)
      && (if r.checkpoint.phase.Folders? then
            var u := Track(r.checkpoint, Listing(feed(QueryOf(r.checkpoint))));
            u.folders == t.folders && u.folderOverflow == t.folderOverflow
          else
            && r.checkpoint.folders == t.folders && r.checkpoint.folderOverflow == t.folderOverflow
            && r.checkpoint.order == Sorted(t.folders.Keys) && r.checkpoint.index == 0)
  {
    FolderStepProgresses(reader, feed, s);
    var q := QueryOf(s);
    assert Served(reader, feed, q);
    var pages := feed(q);
    var items := pages[0].items;
    TrackBounds(s, items);
    var r := Step(reader, Some(s));
    if pages[0].continuation.Some? {
      assert QueryOf(r.checkpoint) == Continued(q, pages[0].continuation.value);
      TrackConcat(s, items, Listing(pages[1..]));
      TrackFrame(Track(s, items), pages[0].continuation, Listing(pages[1..]));
    } else {
      assert Listing(pages) == items + [];
      assert Listing(pages) == items;
    }
  }

  lemma {:induction false} TrackFrame(s: State, token: Option<Token>, items: seq<Entry>)
    ensures Track(s.(folderContinuation := token), items) == Track(s, items).(folderContinuation := token)
  {
    if items == [] {
    } else {
      var init, last := items[..|items| - 1], items[|items| - 1];
      TrackFrame(s, token, init);
      TrackOneFrame(Track(s, init), token, last);
    }
  }

  lemma TrackOneFrame(s: State, token: Option<Token>, item: Entry)
    ensures TrackOne(s.(folderContinuation := token), item) == TrackOne(s, item).(folderContinuation := token)
  {
  }

  /** Below the folder limit, a round reads the folders whose last mention lists them, in
      increasing order. */
  lemma {:induction false} RoundOrder(reader: Reader, feed: Feed, s: State)
    requires Finite(reader, feed) && Sound(s) && s.phase.Folders?
    ensures
      var e := Gate(reader, feed, s);
      && Increasing(e.order)
      && (!e.folderOverflow ==>
            forall f :: f in e.order <==> LastListed(Listing(feed(QueryOf(s))), f, f in s.folders))
  {
    FolderPhase(reader, feed, s);
    var e := Gate(reader, feed, s);
    var items := Listing(feed(QueryOf(s)));
    SortedIsSorted(Track(s, items).folders.Keys);
    if !e.folderOverflow {
      forall f ensures f in e.order <==> LastListed(items, f, f in s.folders) {
        TrackedByLastMention(s, items, f);
      }
    }
  }

  /** A whole round, from nothing or from a completed one: each folder it reads delivers
      every non-removal item of its feed once, in feed order, folder after folder; the last
      result reports the removals listed in those feeds, or none if there were more than
      the limit. */
  lemma {:induction false} WholeRound(reader: Reader, feed: Feed, checkpoint: Option<State>)
    requires Finite(reader, feed)
    requires checkpoint.Some? ==> checkpoint.value.WellFormed() && checkpoint.value.phase.Complete?
    ensures Sound(Working(checkpoint)) && Working(checkpoint).phase.Folders?
    ensures
      var s := Working(checkpoint);
      var e, results := Gate(reader, feed, s), Round(reader, feed, s);
      var removed := PendingRemovals(feed, e, 0);
      && AllChanges(results) == Pending(feed, e, 0)
      && results[|results| - 1].removals ==
         if |Ids(removed)| > MAX_REMOVAL_CANDIDATES then []
         else RemovalsOf(Absorb(Pool(map[], false), removed).candidates)
  {
    RoundSums(reader, feed, Working(checkpoint));
  }

  lemma {:induction false} RoundSums(reader: Reader, feed: Feed, s: State)
    requires Finite(reader, feed) && Sound(s) && s.phase.Folders? && PoolOf(s) == Pool(map[], false)
    ensures
      var e, results := Gate(reader, feed, s), Round(reader, feed, s);
      var removed := PendingRemovals(feed, e, 0);
      && AllChanges(results) == Pending(feed, e, 0)
      && results[|results| - 1].Ok?
      && results[|results| - 1].removals ==
         if |Ids(removed)| > MAX_REMOVAL_CANDIDATES then []
         else RemovalsOf(Absorb(Pool(map[], false), removed).candidates)
  {
    FolderPhase(reader, feed, s);
    var e := Gate(reader, feed, s);
    RoundDelivers(reader, feed, e);
    assert Delivers(feed, e, Round(reader, feed, e));
    AbsorbExact(PendingRemovals(feed, e, 0));
  }
}
