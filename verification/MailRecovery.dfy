/**
 The two repairs of an Outlook checkpoint: replaying a message page whose details could
 not be read, and dropping continuations the server rejected.
 */
module MailRecovery {
  import opened Basics
  import opened MailDelta
  import opened MailRounds

  // ----------------------------------------------------------------------
  // Rewinding
  // ----------------------------------------------------------------------

  /** The folders with those at positions `lo` up to `hi` of the order restarted. */
  function Restarted(s: State, lo: nat, hi: nat): (folders: map<Id, Folder>)
    requires lo <= hi <= |s.order|
    ensures folders.Keys == s.folders.Keys
  {
    map f <- s.folders :: if f in s.order[lo..hi] then Folder(None, None) else s.folders[f]
  }

  /** The position of the folder whose page is replayed, or the one after it. */
  function Current(s: State): nat
    requires s.order != []
  {
    if s.phase.Complete? || s.index >= |s.order| then |s.order| - 1 else s.index
  }

  function Rewound(s: State): State
    requires s.WellFormed()
  {
    if s.phase.Folders? || s.order == [] then s
    else
      var restart := if Current(s) == 0 then 0 else Current(s) - 1;
      s.(folders := Restarted(s, restart, Current(s) + 1), index := restart, phase := Messages)
  }

  method RewindMessagePage(checkpoint: State) returns (rewound: Option<State>)
    ensures rewound == if checkpoint.WellFormed() then Some(Rewound(checkpoint)) else None
  {
    if !checkpoint.WellFormed() {
      rewound := None;
    } else if checkpoint.phase.Folders? || checkpoint.order == [] {
      rewound := Some(checkpoint);
    } else {
      var u := RewindFolders(checkpoint);
      rewound := Some(u);
    }
  }

  /** Restarts the current folder and the one before it, from where reading goes on. */
  method RewindFolders(s: State) returns (u: State)
    requires s.WellFormed() && !s.phase.Folders? && s.order != []
    ensures u == Rewound(s)
  {
    var current := |s.order| - 1;
    if !s.phase.Complete? && s.index < current {
      current := s.index;
    }
    var restart := if current > 0 then current - 1 else 0;
    var folders := RestartFolders(s, restart, current + 1);
    u := s.(folders := folders, index := restart, phase := Messages);
  }

  method RestartFolders(s: State, lo: nat, hi: nat) returns (folders: map<Id, Folder>)
    requires s.Closed() && lo <= hi <= |s.order|
    ensures folders == Restarted(s, lo, hi)
  {
    folders := s.folders;
    for i := lo to hi
      invariant folders == Restarted(s, lo, i)
    {
      RestartNext(s, lo, i);
      folders := folders[s.order[i] := Folder(None, None)];
    }
  }

  lemma RestartNext(s: State, lo: nat, i: nat)
    requires s.Closed() && lo <= i < |s.order|
    ensures Restarted(s, lo, i + 1) == Restarted(s, lo, i)[s.order[i] := Folder(None, None)]
  {
    assert s.order[lo..i + 1] == s.order[lo..i] + [s.order[i]];
    assert s.order[i] in s.folders;
  }

  /** Checkpoint `u` starts at or before the folder `s` is reading with that folder
      restarted, and leaves every folder either restarted or as it was. */
  predicate Replays(u: State, s: State)
    requires s.WellFormed() && s.index < |s.order|
  {
    && Sound(u) && u.phase.Messages? && u.order == s.order && u.index <= s.index
    && u.folders.Keys == s.folders.Keys
    && u.folders[s.order[s.index]] == Folder(None, None)
    && forall g <- u.folders :: u.folders[g] == Folder(None, None) || u.folders[g] == s.folders[g]
  }

  /** Rewinding restarts every folder from its starting point up to the current one. */
  lemma {:induction false} RewoundRestarts(s: State, i: nat)
    requires s.WellFormed() && !s.phase.Folders? && i < |s.order|
    requires i <= Current(s) <= i + 1
    ensures Rewound(s).index <= i
    ensures Rewound(s).folders[s.order[i]] == Folder(None, None)
  {
    var u := Rewound(s);
    assert s.order[u.index..Current(s) + 1][i - u.index] == s.order[i];
  }

  /** After any message page, whether it continued its folder, ended it or ended the round,
      the rewound checkpoint replays that folder and keeps the removal candidates. */
  lemma {:induction false} RewindReplays(reader: Reader, feed: Feed, s: State, r: Result)
    requires Finite(reader, feed) && Sound(s) && s.phase.Messages? && s.index < |s.order|
    requires r == Step(reader, Some(s))
    ensures r.Ok? && r.checkpoint.WellFormed()
    ensures Replays(Rewound(r.checkpoint), s)
    ensures PoolOf(Rewound(r.checkpoint)) == PoolOf(r.checkpoint)
  {
    MessageStepProgresses(reader, feed, s);
    MessageStepAdvances(reader, feed, s);
    MessageStepKeepsOthers(reader, s);
    RewoundRestarts(r.checkpoint, s.index);
  }

  lemma {:induction false} MessageStepKeepsOthers(reader: Reader, s: State)
    requires s.WellFormed() && s.phase.Messages? && s.index < |s.order| && Step(reader, Some(s)).Ok?
    ensures
      var t := Step(reader, Some(s)).checkpoint;
      t.folders.Keys == s.folders.Keys && t.order == s.order
      && t.folderLink == s.folderLink && t.folderContinuation == s.folderContinuation
      && (t.index == s.index + 1 ==> t.folders[s.order[s.index]].continuation.None?)
      && (t.index == s.index ==> t.folders[s.order[s.index]].link == s.folders[s.order[s.index]].link)
      && forall g <- s.folders | g != s.order[s.index] :: t.folders[g] == s.folders[g]
  {
    GatherKeeps(s, s.order[s.index], reader(QueryOf(s)).value.items);
  }

  lemma {:induction false} PendingSplits(feed: Feed, s: State, i: nat, j: nat) returns (before: seq<Change>)
    requires s.Closed() && i <= j < |s.order|
    ensures
      var f := s.order[j];
      Pending(feed, s, i) == before + PageChanges(f, feed(MessageQueryOf(s, f))) + Pending(feed, s, j + 1)
    decreases j - i
  {
    if i == j {
      before := [];
    } else {
      var g := s.order[i];
      var later := PendingSplits(feed, s, i + 1, j);
      var first := PageChanges(g, feed(MessageQueryOf(s, g)));
      before := first + later;
      var page, rest := PageChanges(s.order[j], feed(MessageQueryOf(s, s.order[j]))), Pending(feed, s, j + 1);
      Regroup(first, later, page);
      Regroup(first, later + page, rest);
    }
  }

  lemma {:induction false} ReplayCovers(reader: Reader, feed: Feed, s: State, u: State)
    returns (before: seq<Change>, after: seq<Change>)
    requires Finite(reader, feed) && s.WellFormed() && s.index < |s.order| && Replays(u, s)
    ensures
      var f := s.order[s.index];
      AllChanges(Round(reader, feed, u)) == before + PageChanges(f, feed(MessageQuery(f, None, None))) + after
    ensures after == Pending(feed, u, s.index + 1)
  {
    before := PendingSplits(feed, u, u.index, s.index);
    after := Pending(feed, u, s.index + 1);
    RoundDelivers(reader, feed, u);
  }

  /** Running the rewound checkpoint on completes, and among its changes it redelivers the
      affected folder from the start: everything its feed lists without a link. */
  lemma {:induction false} RewindCovers(reader: Reader, feed: Feed, s: State, r: Result)
    returns (before: seq<Change>, after: seq<Change>)
    requires Finite(reader, feed) && Sound(s) && s.phase.Messages? && s.index < |s.order|
    requires r == Step(reader, Some(s))
    ensures r.Ok? && r.checkpoint.WellFormed() && Replays(Rewound(r.checkpoint), s)
    ensures
      var f, u := s.order[s.index], Rewound(r.checkpoint);
      && AllChanges(Round(reader, feed, u)) == before + PageChanges(f, feed(MessageQuery(f, None, None))) + after
      && after == Pending(feed, u, s.index + 1)
  {
    RewindReplays(reader, feed, s, r);
    before, after := ReplayCovers(reader, feed, s, Rewound(r.checkpoint));
  }

  // ----------------------------------------------------------------------
  // Clearing continuations
  // ----------------------------------------------------------------------

  function Cleared(s: State): (t: State)
    ensures t.folders.Keys == s.folders.Keys
  {
    s.(folderContinuation := None, folders := map f <- s.folders :: s.folders[f].(continuation := None))
  }

  method ClearContinuations(checkpoint: State) returns (cleared: Option<State>)
    ensures cleared == if checkpoint.WellFormed() then Some(Cleared(checkpoint)) else None
  {
    if !checkpoint.WellFormed() { return None; }
    var s := checkpoint.(folderContinuation := None);
    var left := s.folders.Keys;
    while left != {}
      invariant left <= s.folders.Keys == checkpoint.folders.Keys
      invariant s == checkpoint.(folderContinuation := None, folders := s.folders)
      invariant forall f <- left :: s.folders[f] == checkpoint.folders[f]
      invariant forall f <- s.folders | f !in left :: s.folders[f] == checkpoint.folders[f].(continuation := None)
      decreases left
    {
      var f :| f in left;
      s := s.(folders := s.folders[f := s.folders[f].(continuation := None)]);
      left := left - {f};
    }
    assert s.folders == Cleared(checkpoint).folders;
    return Some(s);
  }

  /** One feed is what remains of another. */
  predicate Remains(rest: seq<Page>, all: seq<Page>) {
    |rest| <= |all| && rest == all[|all| - |rest|..]
  }

  /** Every continuation stands somewhere in the feed that its link alone would serve. */
  ghost predicate Traced(feed: Feed, s: State) {
    && Remains(feed(FolderQuery(s.folderLink, s.folderContinuation)), feed(FolderQuery(s.folderLink, None)))
    && forall f <- s.folders ::
         Remains(feed(MessageQueryOf(s, f)), feed(MessageQuery(f, s.folders[f].link, None)))
  }

  lemma {:induction false} TrackTraces(feed: Feed, s: State, items: seq<Entry>)
    requires Traced(feed, s)
    ensures Traced(feed, Track(s, items))
  {
    if items == [] {
    } else {
      TrackTraces(feed, s, items[..|items| - 1]);
    }
  }

  /** Every call keeps that, whatever phase it is in; so do both repairs. */
  lemma {:induction false} FolderStepTraces(reader: Reader, feed: Feed, s: State)
    requires Finite(reader, feed) && Sound(s) && Traced(feed, s) && s.phase.Folders?
    ensures Step(reader, Some(s)).Ok? && Traced(feed, Step(reader, Some(s)).checkpoint)
  {
    FolderStepProgresses(reader, feed, s);
    var q := QueryOf(s);
    assert Served(reader, feed, q);
    var page := feed(q)[0];
    TrackTraces(feed, s, page.items);
    TrackBounds(s, page.items);
    if page.continuation.Some? {
      assert FolderQuery(s.folderLink, page.continuation) == Continued(q, page.continuation.value);
    }
  }

  lemma {:induction false} MessageStepTraces(reader: Reader, feed: Feed, s: State, r: Result)
    requires Finite(reader, feed) && Sound(s) && Traced(feed, s) && s.phase.Messages?
    requires r == Step(reader, Some(s))
    ensures r.Ok? && Traced(feed, r.checkpoint)
  {
    MessageStepProgresses(reader, feed, s);
    if s.index < |s.order| {
      MessageStepAdvances(reader, feed, s);
      MessageStepKeepsOthers(reader, s);
      OneFolderTraces(feed, s, r.checkpoint, s.order[s.index]);
    }
  }

  lemma RemainsTail(rest: seq<Page>, all: seq<Page>)
    requires Remains(rest, all) && |rest| > 0
    ensures Remains(rest[1..], all)
  {
  }

  lemma {:induction false} OneFolderTraces(feed: Feed, s: State, t: State, f: Id)
    requires Traced(feed, s) && f in s.folders && t.folders.Keys == s.folders.Keys
    requires t.folderLink == s.folderLink && t.folderContinuation == s.folderContinuation
    requires forall g <- s.folders | g != f :: t.folders[g] == s.folders[g]
    requires t.folders[f].continuation.None? ||
      (t.folders[f].link == s.folders[f].link && |feed(MessageQueryOf(s, f))| > 0 &&
       feed(MessageQueryOf(t, f)) == feed(MessageQueryOf(s, f))[1..])
    ensures Traced(feed, t)
  {
    forall g <- t.folders
      ensures Remains(feed(MessageQueryOf(t, g)), feed(MessageQuery(g, t.folders[g].link, None)))
    {
      if g != f {
        assert MessageQueryOf(t, g) == MessageQueryOf(s, g);
      } else if t.folders[f].continuation.Some? {
        RemainsTail(feed(MessageQueryOf(s, f)), feed(MessageQuery(f, s.folders[f].link, None)));
      }
    }
  }

  lemma {:induction false} RepairsTrace(feed: Feed, s: State)
    requires s.WellFormed() && Traced(feed, s)
    ensures Traced(feed, Rewound(s)) && Traced(feed, Cleared(s)) && Traced(feed, NextRound(s))
  {
    assert forall q :: Remains(feed(q), feed(q));
  }

  /** The repairs and the start of a round keep a checkpoint sound. */
  lemma {:induction false} RepairsKeepSound(s: State)
    requires Sound(s)
    ensures Sound(Rewound(s)) && Sound(Cleared(s)) && Sound(NextRound(s))
  {
    assert |Cleared(s).folders.Keys| == |s.folders.Keys|;
    if !s.phase.Folders? && s.order != [] {
      assert |Rewound(s).folders.Keys| == |s.folders.Keys|;
    }
  }

  lemma {:induction false} RemainsIncludes(f: Id, rest: seq<Page>, all: seq<Page>)
    requires Remains(rest, all)
    ensures forall c <- PageChanges(f, rest) :: c in PageChanges(f, all)
    ensures forall c <- PageRemovals(f, rest) :: c in PageRemovals(f, all)
  {
    if |rest| < |all| {
      assert Remains(rest, all[1..]);
      RemainsIncludes(f, rest, all[1..]);
    } else {
      assert rest == all;
    }
  }

  /** Whatever was still to be delivered or removed is still to come once continuations are
      cleared. */
  lemma {:induction false} ClearLosesNothing(feed: Feed, s: State, i: nat)
    requires s.Closed() && Traced(feed, s)
    ensures forall c <- Pending(feed, s, i) :: c in Pending(feed, Cleared(s), i)
    ensures forall c <- PendingRemovals(feed, s, i) :: c in PendingRemovals(feed, Cleared(s), i)
    decreases |s.order| - i
  {
    if i < |s.order| {
      var f := s.order[i];
      RemainsIncludes(f, feed(MessageQueryOf(s, f)), feed(MessageQueryOf(Cleared(s), f)));
      ClearLosesNothing(feed, s, i + 1);
    }
  }

  lemma {:induction false} ListingRemains(rest: seq<Page>, all: seq<Page>) returns (before: seq<Entry>)
    requires Remains(rest, all)
    ensures Listing(all) == before + Listing(rest)
  {
    if |rest| < |all| {
      assert Remains(rest, all[1..]);
      var later := ListingRemains(rest, all[1..]);
      before := all[0].items + later;
    } else {
      assert rest == all;
      before := [];
    }
  }

  lemma {:induction false} LastListedConcat(a: seq<Entry>, b: seq<Entry>, f: Id, before: bool)
    ensures LastListed(a + b, f, before) == LastListed(b, f, LastListed(a, f, before))
  {
    if b == [] {
      assert a + b == a;
    } else {
      LastListedConcat(a, b[..|b| - 1], f, before);
      assert (a + b)[..|a + b| - 1] == a + b[..|b| - 1];
    }
  }

  lemma {:induction false} LastListedAgain(a: seq<Entry>, f: Id, before: bool)
    ensures LastListed(a, f, LastListed(a, f, before)) == LastListed(a, f, before)
  {
    LastListedSettles(a, f, before, LastListed(a, f, before));
  }

  /** Either the listing decides, or what was before stands. */
  lemma {:induction false} LastListedSettles(a: seq<Entry>, f: Id, x: bool, y: bool)
    ensures LastListed(a, f, x) == LastListed(a, f, y) || (LastListed(a, f, x) == x && LastListed(a, f, y) == y)
  {
    if a == [] {
    } else {
      LastListedSettles(a[..|a| - 1], f, x, y);
    }
  }

  /** A folder listing that is cleared and replayed from its link tracks the same folders as
      one run straight through, when neither reaches the limit. */
  lemma {:induction false} ReplayTracksTheSame(s: State, seen: seq<Entry>, rest: seq<Entry>, f: Id)
    requires |s.folders| <= MAX_FOLDERS
    requires !Track(s, seen + rest).folderOverflow
    requires !Track(Cleared(Track(s, seen)), seen + rest).folderOverflow
    ensures f in Track(Cleared(Track(s, seen)), seen + rest).folders <==> f in Track(s, seen + rest).folders
  {
    TrackBounds(s, seen);
    TrackConcat(s, seen, rest);
    TrackedByLastMention(Track(s, seen), rest, f);
    TrackedByLastMention(s, seen, f);
    var t := Cleared(Track(s, seen));
    assert |t.folders| == |Track(s, seen).folders| by { assert t.folders.Keys == Track(s, seen).folders.Keys; }
    TrackedByLastMention(t, seen + rest, f);
    TrackedByLastMention(s, seen + rest, f);
    var before := f in s.folders;
    LastListedConcat(seen, rest, f, before);
    LastListedConcat(seen, rest, f, LastListed(seen, f, before));
    LastListedAgain(seen, f, before);
  }
}
