/**
 Each round of the Outlook synchronisation asks with the links the round before ended with.
 */
module MailLinks {
  import opened Basics
  import opened MailDelta
  import opened MailRounds
  import MailRecovery

  /** The link with which a feed ends. */
  function LastLink(pages: seq<Page>): Option<Link>
    requires pages != []
  {
    pages[|pages| - 1].link
  }

  /** The link a folder will have when it has been read. */
  ghost function LinkAfter(reader: Reader, feed: Feed, s: State, j: nat): Option<Link>
    requires Finite(reader, feed) && s.Closed() && j < |s.order|
  {
    var f := s.order[j];
    assert Served(reader, feed, MessageQueryOf(s, f));
    if j < s.index then s.folders[f].link else LastLink(feed(MessageQueryOf(s, f)))
  }

  /** A message page changes the link of no folder but the one it ends. */
  lemma {:induction false} PageKeepsLinks(reader: Reader, feed: Feed, s: State, j: nat)
    requires Finite(reader, feed) && Sound(s) && s.phase.Messages? && s.index < |s.order| && j < |s.order|
    ensures
      var r := Step(reader, Some(s));
      && r.Ok? && Sound(r.checkpoint) && r.checkpoint.order == s.order && r.checkpoint.folderLink == s.folderLink
      && LinkAfter(reader, feed, r.checkpoint, j) == LinkAfter(reader, feed, s, j)
  {
    MessageStepProgresses(reader, feed, s);
    MessageStepAdvances(reader, feed, s);
    MailRecovery.MessageStepKeepsOthers(reader, s);
    var f, page := s.order[s.index], NextPage(reader, feed, s);
    assert Served(reader, feed, QueryOf(s));
    if j == s.index && page.continuation.None? {
      EndedFolder(reader, s, page);
    }
  }

  lemma EndedFolder(reader: Reader, s: State, page: Page)
    requires s.WellFormed() && s.phase.Messages? && s.index < |s.order| && reader(QueryOf(s)) == Some(page)
    requires page.continuation.None? && Step(reader, Some(s)).Ok?
    ensures Step(reader, Some(s)).checkpoint.folders[s.order[s.index]].link == page.link
  {
  }

  /** The checkpoint a round ends with. */
  ghost function EndOf(reader: Reader, feed: Feed, s: State): State
    requires Finite(reader, feed) && Sound(s) && !s.phase.Complete?
  {
    var results := Round(reader, feed, s);
    results[|results| - 1].checkpoint
  }

  lemma {:induction false} EndOfNext(reader: Reader, feed: Feed, s: State)
    requires Finite(reader, feed) && Sound(s) && !s.phase.Complete?
    ensures
      var r := Step(reader, Some(s));
      && r.Ok? && Sound(r.checkpoint) && (r.complete <==> r.checkpoint.phase.Complete?)
      && (r.complete || Nearer(feed, r.checkpoint, s))
      && EndOf(reader, feed, s) == if r.complete then r.checkpoint else EndOf(reader, feed, r.checkpoint)
  {
    StepProgresses(reader, feed, s);
  }

  /** Reading messages keeps the folders to read and the link of the folders' own feed. */
  lemma {:induction false} MessagesKeep(reader: Reader, feed: Feed, s: State)
    requires Finite(reader, feed) && Sound(s) && s.phase.Messages?
    ensures
      var z := EndOf(reader, feed, s);
      Sound(z) && z.order == s.order && z.folderLink == s.folderLink && z.phase.Complete?
    decreases PhaseRank(s), FoldersLeft(s), PagesLeft(feed, s)
  {
    EndOfNext(reader, feed, s);
    if s.index < |s.order| {
      PageKeepsLinks(reader, feed, s, 0);
      var r := Step(reader, Some(s));
      if !r.complete {
        MessagesKeep(reader, feed, r.checkpoint);
      }
    }
  }

  /** At the end of a round every folder it still had to read has the link its feed ends
      with. */
  lemma {:induction false} MessagesLink(reader: Reader, feed: Feed, s: State, j: nat)
    requires Finite(reader, feed) && Sound(s) && s.phase.Messages? && j < |s.order|
    ensures
      var z := EndOf(reader, feed, s);
      z.order == s.order && z.Closed() && z.folders[s.order[j]].link == LinkAfter(reader, feed, s, j)
    decreases PhaseRank(s), FoldersLeft(s), PagesLeft(feed, s)
  {
    EndOfNext(reader, feed, s);
    if s.index < |s.order| {
      PageKeepsLinks(reader, feed, s, j);
      var r := Step(reader, Some(s));
      if !r.complete {
        MessagesLink(reader, feed, r.checkpoint, j);
      }
    }
  }

  /** A tracked folder that no entry removes keeps its link. */
  lemma {:induction false} TrackKeepsLink(s: State, items: seq<Entry>, f: Id)
    requires f in s.folders && forall e <- items :: e.removed ==> e.id != Some(f)
    ensures f in Track(s, items).folders && Track(s, items).folders[f] == s.folders[f]
  {
    if items == [] {
    } else {
      assert items[|items| - 1] in items;
      TrackKeepsLink(s, items[..|items| - 1], f);
    }
  }

  /** The folder phase ends with the link of its last page. */
  lemma {:induction false} GateLink(reader: Reader, feed: Feed, s: State)
    requires Finite(reader, feed) && Sound(s) && s.phase.Folders?
    ensures feed(QueryOf(s)) != [] && Gate(reader, feed, s).folderLink == LastLink(feed(QueryOf(s)))
    decreases PagesLeft(feed, s)
  {
    var q := QueryOf(s);
    assert Served(reader, feed, q);
    FolderStepProgresses(reader, feed, s);
    var t := Step(reader, Some(s)).checkpoint;
    TrackBounds(s, feed(q)[0].items);
    if t.phase.Folders? {
      assert QueryOf(t) == Continued(q, feed(q)[0].continuation.value);
      GateLink(reader, feed, t);
    }
  }

  /** A folder not listed as removed is read from the link it had. */
  lemma {:induction false} GateKeepsLink(reader: Reader, feed: Feed, s: State, f: Id)
    requires Finite(reader, feed) && Sound(s) && s.phase.Folders? && f in s.folders
    requires forall i <- Listing(feed(QueryOf(s))) :: i.removed ==> i.id != Some(f)
    ensures f in Gate(reader, feed, s).folders && Gate(reader, feed, s).folders[f] == s.folders[f]
  {
    FolderGate(reader, feed, s);
    TrackKeepsLink(s, Listing(feed(QueryOf(s))), f);
  }

  /** The feed of the folder at this position of the order. */
  ghost function FeedOf(reader: Reader, feed: Feed, e: State, j: nat): (pages: seq<Page>)
    requires Finite(reader, feed) && e.Closed() && j < |e.order|
    ensures pages != []
  {
    assert Served(reader, feed, MessageQueryOf(e, e.order[j]));
    feed(MessageQueryOf(e, e.order[j]))
  }

  /** The round after this checkpoint asks for the folders it tracks with the links their feeds
      ended with. */
  ghost predicate AsksOn(reader: Reader, feed: Feed, e: State, folderLink: Option<Link>, z: State)
    requires Finite(reader, feed) && e.Closed()
  {
    var next := Working(Some(z));
    && next.phase.Folders? && next.folderLink == folderLink && next.folderContinuation.None?
    && forall j | 0 <= j < |e.order| ::
         e.order[j] in next.folders && next.folders[e.order[j]] == Folder(LastLink(FeedOf(reader, feed, e, j)), None)
  }

  lemma {:induction false} MessagesLinks(reader: Reader, feed: Feed, e: State)
    requires Finite(reader, feed) && Sound(e) && e.phase.Messages? && e.index == 0
    ensures AsksOn(reader, feed, e, e.folderLink, EndOf(reader, feed, e))
  {
    MessagesKeep(reader, feed, e);
    var z := EndOf(reader, feed, e);
    forall j | 0 <= j < |e.order|
      ensures e.order[j] in z.folders && z.folders[e.order[j]].link == LastLink(FeedOf(reader, feed, e, j))
    {
      MessagesLink(reader, feed, e, j);
      assert e.order[j] in z.order;
    }
  }

  /** A whole round ends with the links its feeds end with, of the folders and of every folder
      it read, and the next round asks with just these links. */
  lemma {:induction false} NextRoundAsksOn(reader: Reader, feed: Feed, s: State)
    requires Finite(reader, feed) && Sound(s) && s.phase.Folders?
    ensures feed(QueryOf(s)) != []
    ensures AsksOn(reader, feed, Gate(reader, feed, s), LastLink(feed(QueryOf(s))), EndOf(reader, feed, s))
  {
    var e := FolderRound(reader, feed, s);
    GateLink(reader, feed, s);
    assert e.index == 0 by { FolderGate(reader, feed, s); }
    MessagesLinks(reader, feed, e);
  }
}
